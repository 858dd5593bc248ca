/** The label a memory is approved under: its own, or one qualified until no active memory has it. */
module Labels {

  function Digit(d: nat): char
    requires d < 10
  {
    ['0', '1', '2', '3', '4', '5', '6', '7', '8', '9'][d]
  }

  function Decimal(n: nat): (r: string)
    ensures |r| > 0
  {
    if n < 10 then [Digit(n)] else Decimal(n / 10) + [Digit(n % 10)]
  }

  function DigitValue(c: char): nat {
    if '0' <= c <= '9' then (c - '0') as nat else 0
  }

  function Parse(s: string): nat {
    if |s| == 0 then 0 else 10 * Parse(s[..|s| - 1]) + DigitValue(s[|s| - 1])
  }

  lemma {:induction false} ParseDecimal(n: nat)
    ensures Parse(Decimal(n)) == n
    ensures ' ' !in Decimal(n)
  {
    if n >= 10 {
      ParseDecimal(n / 10);
      assert Decimal(n)[..|Decimal(n)| - 1] == Decimal(n / 10);
    } else {
      assert [Digit(n)][..0] == [];
    }
  }

  function Pow10(k: nat): nat {
    if k == 0 then 1 else 10 * Pow10(k - 1)
  }

  lemma {:induction false} DecimalLength(n: nat, k: nat)
    requires k > 0 && n < Pow10(k)
    ensures |Decimal(n)| <= k
  {
    if n >= 10 {
      assert Pow10(k) == 10 * Pow10(k - 1);
      assert k > 1;
      DecimalLength(n / 10, k - 1);
    }
  }

  /** Unicode white space, as str.rstrip removes it. */
  predicate IsSpace(c: char) {
    || '\U{0009}' <= c <= '\U{000D}' || '\U{001C}' <= c <= '\U{0020}'
    || c == '\U{0085}' || c == '\U{00A0}' || c == '\U{1680}'
    || '\U{2000}' <= c <= '\U{200A}'
    || c == '\U{2028}' || c == '\U{2029}' || c == '\U{202F}' || c == '\U{205F}' || c == '\U{3000}'
  }

  function Rstrip(s: string): (r: string)
    ensures r <= s
  {
    if |s| > 0 && IsSpace(s[|s| - 1]) then Rstrip(s[..|s| - 1]) else s
  }

  /** s[:k], where a negative k counts from the end. */
  function Upto(s: string, k: int): (r: string)
    ensures r <= s
    ensures k >= 0 ==> |r| <= k
  {
    if k >= |s| then s
    else if k >= 0 then s[..k]
    else if |s| + k > 0 then s[..|s| + k]
    else []
  }

  const SEPARATOR := " \U{00B7} "

  function Number(attempt: nat): string {
    if attempt > 1 then " " + Decimal(attempt) else ""
  }

  function Suffix(qualifier: string, max: nat, attempt: nat): string {
    SEPARATOR + Upto(qualifier, max / 2 - |Number(attempt)| - 3) + Number(attempt)
  }

  /** The label tried at the given attempt; attempt zero is the candidate's own. */
  function AttemptLabel(base: string, qualifier: string, max: nat, attempt: nat): string {
    if attempt == 0 then base
    else
      var suffix := Suffix(qualifier, max, attempt);
      Rstrip(Upto(base, max - |suffix|)) + suffix
  }

  /** Room for the number within half the limit keeps every qualified label within the limit. */
  lemma AttemptFits(base: string, qualifier: string, max: nat, attempt: nat)
    requires |base| <= max && |Number(attempt)| + 3 <= max / 2
    ensures |AttemptLabel(base, qualifier, max, attempt)| <= max
  {
    if attempt > 0 {
      var suffix := Suffix(qualifier, max, attempt);
      assert |suffix| <= max / 2;
    }
  }

  lemma {:induction false} RstripIs(s: string)
    ensures var r := Rstrip(s);
      && (|r| > 0 ==> !IsSpace(r[|r| - 1]))
      && forall k :: |r| <= k < |s| ==> IsSpace(s[k])
  {
    hide IsSpace;
    if |s| > 0 && IsSpace(s[|s| - 1]) {
      RstripIs(s[..|s| - 1]);
    }
  }

  /**
   * A qualified label: the base's front, the separator, the qualifier and from the second attempt on the number. The
   * qualifier is cut to fill half the limit with what follows it, the base to the room that is left, without trailing
   * spaces.
   */
  lemma AttemptReads(base: string, qualifier: string, max: nat, attempt: nat) returns (front: string, cut: string)
    requires attempt >= 1 && |if attempt == 1 then "" else " " + Decimal(attempt)| + 3 <= max / 2
    ensures var number := if attempt == 1 then "" else " " + Decimal(attempt);
      var room := max - 3 - |cut| - |number|;
      && AttemptLabel(base, qualifier, max, attempt) == front + (" \U{00B7} " + cut + number)
      && cut <= qualifier && 3 + |cut| + |number| <= max / 2
      && (|cut| < |qualifier| ==> 3 + |cut| + |number| == max / 2)
      && front <= base && |front| <= room
      && (|front| > 0 ==> !IsSpace(front[|front| - 1]))
      && forall k :: |front| <= k < |base| && k < room ==> IsSpace(base[k])
  {
    hide Decimal, Rstrip, IsSpace;
    cut := Upto(qualifier, max / 2 - |Number(attempt)| - 3);
    var kept := Upto(base, max - |Suffix(qualifier, max, attempt)|);
    front := Rstrip(kept);
    RstripIs(kept);
  }

  lemma SpaceInside(x: string, d: string, y: string, e: string)
    requires x + " " + d == y + " " + e && |x| < |y|
    ensures ' ' in d
  {
    var s := x + " " + d;
    assert s[|y|] == (y + " " + e)[|y|] == ' ';
    assert s[|y|] == d[|y| - |x| - 1];
  }

  lemma LastWordUnique(x: string, d: string, y: string, e: string)
    requires x + " " + d == y + " " + e && ' ' !in d && ' ' !in e
    ensures d == e
  {
    if |x| < |y| {
      SpaceInside(x, d, y, e);
    } else if |y| < |x| {
      SpaceInside(y, e, x, d);
    } else {
      assert (x + " " + d)[|x| + 1..] == d && (y + " " + e)[|y| + 1..] == e;
    }
  }

  lemma EndsWithNumber(base: string, qualifier: string, max: nat, attempt: nat)
    requires attempt >= 2
    ensures AttemptLabel(base, qualifier, max, attempt) == Head(base, qualifier, max, attempt) + " " + Decimal(attempt)
  {
    hide Decimal, Rstrip, Upto;
    var number := Number(attempt);
    var cut := Upto(qualifier, max / 2 - |number| - 3);
    var front := Rstrip(Upto(base, max - |Suffix(qualifier, max, attempt)|));
    assert front + (SEPARATOR + cut + number) == front + (SEPARATOR + cut) + " " + Decimal(attempt);
  }

  /** Numbered labels differ pairwise, however the base and the qualifier were cut. */
  lemma NumberedLabelsDiffer(base: string, qualifier: string, max: nat, a: nat, b: nat)
    requires 2 <= a < b
    ensures AttemptLabel(base, qualifier, max, a) != AttemptLabel(base, qualifier, max, b)
  {
    ParseDecimal(a);
    ParseDecimal(b);
    EndsWithNumber(base, qualifier, max, a);
    EndsWithNumber(base, qualifier, max, b);
    hide AttemptLabel, Decimal, Head, Parse;
    if AttemptLabel(base, qualifier, max, a) == AttemptLabel(base, qualifier, max, b) {
      LastWordUnique(Head(base, qualifier, max, a), Decimal(a), Head(base, qualifier, max, b), Decimal(b));
    }
  }

  function Head(base: string, qualifier: string, max: nat, attempt: nat): string {
    Rstrip(Upto(base, max - |Suffix(qualifier, max, attempt)|))
      + (SEPARATOR + Upto(qualifier, max / 2 - |Number(attempt)| - 3))
  }

  ghost predicate AllTaken(active: set<string>, base: string, qualifier: string, max: nat, attempts: nat) {
    forall j :: 0 <= j < attempts ==> AttemptLabel(base, qualifier, max, j) in active
  }

  function NumberedLabels(base: string, qualifier: string, max: nat, attempts: nat): set<string> {
    set j | 2 <= j < attempts :: AttemptLabel(base, qualifier, max, j)
  }

  /** Pigeonhole: each numbered attempt that failed used up one active label. */
  lemma {:induction false} FailuresAreCounted(active: set<string>, base: string, qualifier: string, max: nat,
                                              attempts: nat)
    requires AllTaken(active, base, qualifier, max, attempts) && attempts >= 2
    ensures attempts - 2 == |NumberedLabels(base, qualifier, max, attempts)| <= |active|
    decreases attempts
  {
    var hits := NumberedLabels(base, qualifier, max, attempts);
    CountNumbered(base, qualifier, max, attempts);
    SubsetSize(hits, active);
  }

  lemma {:induction false} CountNumbered(base: string, qualifier: string, max: nat, attempts: nat)
    requires attempts >= 2
    ensures |NumberedLabels(base, qualifier, max, attempts)| == attempts - 2
  {
    hide AttemptLabel;
    var hits := NumberedLabels(base, qualifier, max, attempts);
    if attempts == 2 {
      assert hits == {};
    } else {
      var last := attempts - 1;
      var fewer := NumberedLabels(base, qualifier, max, last);
      CountNumbered(base, qualifier, max, last);
      forall j | 2 <= j < last
        ensures AttemptLabel(base, qualifier, max, j) != AttemptLabel(base, qualifier, max, last)
      {
        NumberedLabelsDiffer(base, qualifier, max, j, last);
      }
      assert hits == fewer + {AttemptLabel(base, qualifier, max, last)};
    }
  }

  lemma {:induction false} SubsetSize<T>(a: set<T>, b: set<T>)
    requires a <= b
    ensures |a| <= |b|
  {
    if a != {} {
      var x :| x in a;
      SubsetSize(a - {x}, b - {x});
    }
  }

  lemma OneMoreTaken(active: set<string>, base: string, qualifier: string, max: nat, attempt: nat)
    requires AllTaken(active, base, qualifier, max, attempt) && AttemptLabel(base, qualifier, max, attempt) in active
    ensures AllTaken(active, base, qualifier, max, attempt + 1)
    ensures attempt + 1 <= |active| + 2
  {
    hide AttemptLabel;
    if attempt >= 1 {
      FailuresAreCounted(active, base, qualifier, max, attempt + 1);
    }
  }

  /** The first attempt from `attempt` on whose label is free. */
  function FirstFree(active: set<string>, base: string, qualifier: string, max: nat, attempt: nat): (free: nat)
    requires AllTaken(active, base, qualifier, max, attempt)
    ensures attempt <= free
    ensures AllTaken(active, base, qualifier, max, free)
    ensures AttemptLabel(base, qualifier, max, free) !in active
    decreases |active| + 3 - attempt
  {
    if AttemptLabel(base, qualifier, max, attempt) !in active then attempt
    else
      OneMoreTaken(active, base, qualifier, max, attempt);
      FirstFree(active, base, qualifier, max, attempt + 1)
  }

  function Approved(active: set<string>, base: string, qualifier: string, max: nat): string {
    AttemptLabel(base, qualifier, max, FirstFree(active, base, qualifier, max, 0))
  }

  lemma ApprovedIsUnused(active: set<string>, base: string, qualifier: string, max: nat)
    ensures Approved(active, base, qualifier, max) !in active
    ensures base !in active ==> Approved(active, base, qualifier, max) == base
  {
    hide Suffix, Rstrip, Upto;
  }

  /** The approval loop, with the number of lookups it makes. */
  method ApprovalLabel(active: set<string>, base: string, qualifier: string, max: nat)
    returns (chosen: string, lookups: nat)
    ensures chosen == Approved(active, base, qualifier, max)
    ensures chosen !in active
    ensures lookups <= |active| + 3
    ensures |base| <= max == 64 && |active| + 2 < Pow10(28) ==> |chosen| <= 64
  {
    hide Decimal, Rstrip, Upto, Pow10, FirstFree;
    AttemptsBegin(active, base, qualifier, max);
    chosen := base;
    lookups := 1;
    var attempt := 0;
    while chosen in active
      invariant lookups == attempt + 1
      invariant chosen == AttemptLabel(base, qualifier, max, attempt)
      invariant AllTaken(active, base, qualifier, max, attempt)
      invariant attempt <= |active| + 2
      invariant FirstFree(active, base, qualifier, max, 0) == FirstFree(active, base, qualifier, max, attempt)
      decreases |active| + 3 - attempt
    {
      TakenStep(active, base, qualifier, max, attempt);
      attempt := attempt + 1;
      var number := if attempt > 1 then " " + Decimal(attempt) else "";
      var suffix := SEPARATOR + Upto(qualifier, max / 2 - |number| - 3) + number;
      chosen := Rstrip(Upto(base, max - |suffix|)) + suffix;
      lookups := lookups + 1;
    }
    FreeNow(active, base, qualifier, max, attempt);
    if |base| <= max == 64 && |active| + 2 < Pow10(28) {
      ShortEnough(base, qualifier, attempt, |active|);
    }
  }

  lemma AttemptsBegin(active: set<string>, base: string, qualifier: string, max: nat)
    ensures AllTaken(active, base, qualifier, max, 0) && AttemptLabel(base, qualifier, max, 0) == base
  {
  }

  lemma TakenStep(active: set<string>, base: string, qualifier: string, max: nat, attempt: nat)
    requires AllTaken(active, base, qualifier, max, attempt) && AttemptLabel(base, qualifier, max, attempt) in active
    ensures AllTaken(active, base, qualifier, max, attempt + 1)
    ensures attempt + 1 <= |active| + 2
    ensures FirstFree(active, base, qualifier, max, attempt) == FirstFree(active, base, qualifier, max, attempt + 1)
  {
    hide AttemptLabel;
    OneMoreTaken(active, base, qualifier, max, attempt);
  }

  lemma FreeNow(active: set<string>, base: string, qualifier: string, max: nat, attempt: nat)
    requires AllTaken(active, base, qualifier, max, attempt) && AttemptLabel(base, qualifier, max, attempt) !in active
    ensures FirstFree(active, base, qualifier, max, attempt) == attempt
  {
    hide AttemptLabel;
  }

  lemma ShortEnough(base: string, qualifier: string, attempt: nat, labels: nat)
    requires |base| <= 64 && attempt <= labels + 2 < Pow10(28)
    ensures |AttemptLabel(base, qualifier, 64, attempt)| <= 64
  {
    DecimalLength(attempt, 28);
    hide Decimal, Pow10, AttemptLabel;
    AttemptFits(base, qualifier, 64, attempt);
  }

  // When two extra lookups suffice.

  /** What follows the last space. */
  function LastWord(s: string): (r: string)
    ensures |r| <= |s|
  {
    if |s| == 0 || s[|s| - 1] == ' ' then "" else LastWord(s[..|s| - 1]) + [s[|s| - 1]]
  }

  /** The label is one of the numbered labels: only the number that it ends with can be the attempt's. */
  predicate IsNumbered(tried: string, base: string, qualifier: string, max: nat) {
    var attempt := Parse(LastWord(tried));
    attempt >= 2 && AttemptLabel(base, qualifier, max, attempt) == tried
  }

  lemma {:induction false} LastWordReads(x: string, d: string)
    requires ' ' !in d
    ensures LastWord(x + " " + d) == d
  {
    var s := x + " " + d;
    if |d| > 0 {
      var n := |d| - 1;
      LastWordReads(x, d[..n]);
      assert s[..|s| - 1] == x + " " + d[..n];
      assert s[|s| - 1] == d[n];
    }
  }

  lemma NumberedAttempt(base: string, qualifier: string, max: nat, attempt: nat)
    requires attempt >= 2
    ensures IsNumbered(AttemptLabel(base, qualifier, max, attempt), base, qualifier, max)
  {
    EndsWithNumber(base, qualifier, max, attempt);
    ParseDecimal(attempt);
    LastWordReads(Head(base, qualifier, max, attempt), Decimal(attempt));
    hide AttemptLabel, Head, Decimal, Parse, LastWord;
  }

  lemma IsNumberedExactlyWhen(tried: string, base: string, qualifier: string, max: nat)
    ensures IsNumbered(tried, base, qualifier, max)
       <==> exists j :: j >= 2 && AttemptLabel(base, qualifier, max, j) == tried
  {
    hide AttemptLabel, Parse, LastWord;
    forall j | j >= 2
      ensures IsNumbered(AttemptLabel(base, qualifier, max, j), base, qualifier, max)
    {
      NumberedAttempt(base, qualifier, max, j);
    }
  }

  /**
   * Three extra lookups need both the base and the first qualified label to be numbered labels themselves:
   * then, and only then, can every failed lookup have hit a numbered label.
   */
  predicate FoldsOntoNumbered(base: string, qualifier: string, max: nat) {
    IsNumbered(base, base, qualifier, max) && IsNumbered(AttemptLabel(base, qualifier, max, 1), base, qualifier, max)
  }

  /** Where the first two labels do not both fold onto numbered ones, two extra lookups suffice. */
  lemma TwoExtraLookupsSuffice(active: set<string>, base: string, qualifier: string, max: nat)
    requires !FoldsOntoNumbered(base, qualifier, max)
    ensures FirstFree(active, base, qualifier, max, 0) + 1 <= |active| + 2
  {
    var free := FirstFree(active, base, qualifier, max, 0);
    if free >= 2 {
      FailuresAreCounted(active, base, qualifier, max, free);
      hide AttemptLabel, IsNumbered;
      var hits := NumberedLabels(base, qualifier, max, free);
      var spare := if IsNumbered(AttemptLabel(base, qualifier, max, 0), base, qualifier, max) then 1 else 0;
      AttemptsBegin(active, base, qualifier, max);
      forall j | 2 <= j < free
        ensures AttemptLabel(base, qualifier, max, j) != AttemptLabel(base, qualifier, max, spare)
      {
        NumberedAttempt(base, qualifier, max, j);
      }
      assert AttemptLabel(base, qualifier, max, spare) in active;
      assert AttemptLabel(base, qualifier, max, spare) !in hits;
      SubsetSize(hits + {AttemptLabel(base, qualifier, max, spare)}, active);
    }
  }

  lemma AllNumberedTaken(base: string, qualifier: string, max: nat, j: nat, k: nat, n: nat)
    requires 2 <= j < n && 2 <= k < n
    requires AttemptLabel(base, qualifier, max, j) == AttemptLabel(base, qualifier, max, 0)
    requires AttemptLabel(base, qualifier, max, k) == AttemptLabel(base, qualifier, max, 1)
    ensures AllTaken(NumberedLabels(base, qualifier, max, n), base, qualifier, max, n)
    ensures AttemptLabel(base, qualifier, max, n) !in NumberedLabels(base, qualifier, max, n)
  {
    hide AttemptLabel;
    var active := NumberedLabels(base, qualifier, max, n);
    assert AttemptLabel(base, qualifier, max, j) in active && AttemptLabel(base, qualifier, max, k) in active;
    forall i | 2 <= i < n
      ensures AttemptLabel(base, qualifier, max, i) != AttemptLabel(base, qualifier, max, n)
    {
      NumberedLabelsDiffer(base, qualifier, max, i, n);
    }
  }

  /** Where they do, some set of active labels takes the third. */
  lemma FoldedNeedsThree(base: string, qualifier: string, max: nat) returns (active: set<string>)
    requires FoldsOntoNumbered(base, qualifier, max)
    ensures FirstFree(active, base, qualifier, max, 0) + 1 == |active| + 3
  {
    var j, k := Parse(LastWord(base)), Parse(LastWord(AttemptLabel(base, qualifier, max, 1)));
    var n := (if j < k then k else j) + 1;
    active := NumberedLabels(base, qualifier, max, n);
    AttemptsBegin(active, base, qualifier, max);
    hide *;
    CountNumbered(base, qualifier, max, n);
    AllNumberedTaken(base, qualifier, max, j, k, n);
    FirstFreeIs(active, base, qualifier, max, 0, n);
  }

  /** Two extra lookups suffice for every set of active labels if and only if the first two labels do not both fold. */
  lemma TwoExtraLookupsSufficeExactlyWhen(base: string, qualifier: string, max: nat)
    ensures (forall active :: FirstFree(active, base, qualifier, max, 0) + 1 <= |active| + 2)
       <==> !FoldsOntoNumbered(base, qualifier, max)
  {
    if FoldsOntoNumbered(base, qualifier, max) {
      var active := FoldedNeedsThree(base, qualifier, max);
      hide *;
      assert !(FirstFree(active, base, qualifier, max, 0) + 1 <= |active| + 2);
    } else {
      forall active: set<string>
        ensures FirstFree(active, base, qualifier, max, 0) + 1 <= |active| + 2
      {
        TwoExtraLookupsSuffice(active, base, qualifier, max);
      }
    }
  }

  function Repeat(c: char, n: nat): (r: string)
    ensures |r| == n
  {
    seq(n, _ => c)
  }

  /** A label cut to the limit can coincide with its own numbered label, and then three extra lookups are needed. */
  lemma ThreeExtraLookupsHappen() returns (active: set<string>, base: string, qualifier: string)
    ensures |base| == 64
    ensures FirstFree(active, base, qualifier, 64, 0) + 1 == |active| + 3
  {
    hide *;
    var l2, l4;
    base, qualifier, l2, l4 := CollidingLabels();
    active := {base, l2};
    AttemptsBegin(active, base, qualifier, 64);
    FourTaken(active, base, qualifier);
    FirstFreeIs(active, base, qualifier, 64, 0, 4);
    assert |active| == 2;
  }

  lemma FourTaken(active: set<string>, base: string, qualifier: string)
    requires AttemptLabel(base, qualifier, 64, 0) in active && AttemptLabel(base, qualifier, 64, 1) in active
    requires AttemptLabel(base, qualifier, 64, 2) in active && AttemptLabel(base, qualifier, 64, 3) in active
    ensures AllTaken(active, base, qualifier, 64, 4)
  {
    hide AttemptLabel;
  }

  /** The first free attempt is any attempt that is free after all before it were taken. */
  lemma {:induction false} FirstFreeIs(active: set<string>, base: string, qualifier: string, max: nat, start: nat,
                                       free: nat)
    requires start <= free && AllTaken(active, base, qualifier, max, free)
    requires AttemptLabel(base, qualifier, max, free) !in active
    ensures AllTaken(active, base, qualifier, max, start)
    ensures FirstFree(active, base, qualifier, max, start) == free
    decreases free - start
  {
    hide AttemptLabel;
    if start < free {
      FirstFreeIs(active, base, qualifier, max, start + 1, free);
    }
  }

  lemma CollidingLabels() returns (base: string, qualifier: string, l2: string, l4: string)
    ensures |base| == 64
    ensures AttemptLabel(base, qualifier, 64, 1) == base == AttemptLabel(base, qualifier, 64, 3)
    ensures AttemptLabel(base, qualifier, 64, 2) == l2 && AttemptLabel(base, qualifier, 64, 4) == l4
    ensures base != l2 && l4 !in {base, l2}
  {
    var front, cut := Repeat('b', 32), Repeat('a', 27);
    qualifier := cut + " 3";
    base := front + (SEPARATOR + cut + " 3");
    l2, l4 := front + (SEPARATOR + cut + " 2"), front + (SEPARATOR + cut + " 4");
    assert Upto(qualifier, 27) == cut && Upto(qualifier, 29) == qualifier;
    SmallNumbers();
    assert Suffix(qualifier, 64, 1) == SEPARATOR + cut + " 3";
    SuffixedLabel(base, front, qualifier, 1, SEPARATOR + cut + " 3");
    SuffixedLabel(base, front, qualifier, 2, SEPARATOR + cut + " 2");
    SuffixedLabel(base, front, qualifier, 3, SEPARATOR + cut + " 3");
    SuffixedLabel(base, front, qualifier, 4, SEPARATOR + cut + " 4");
    hide AttemptLabel, Suffix, Upto;
    assert base[63] == '3' && l2[63] == '2' && l4[63] == '4';
  }

  lemma SmallNumbers()
    ensures Number(1) == "" && Number(2) == " 2" && Number(3) == " 3" && Number(4) == " 4"
  {
  }

  lemma SuffixedLabel(base: string, front: string, qualifier: string, attempt: nat, suffix: string)
    requires attempt > 0 && Suffix(qualifier, 64, attempt) == suffix && |suffix| == 32
    requires |front| == 32 && front <= base && !IsSpace(front[31])
    ensures AttemptLabel(base, qualifier, 64, attempt) == front + suffix
  {
    hide Suffix;
    assert Upto(base, 32) == front;
  }
}
