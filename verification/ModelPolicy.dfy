/** The four table policies: most intelligent, cheapest above a floor, slope and elbow. */
module ModelPolicy {
  import opened Frontier
  import opened Ordering
  import opened Vectors

  // The lower convex hull of a rising frontier.

  function Cross(first: Row, middle: Row, last: Row): real {
    Mul(middle.intelligence - first.intelligence, last.price - first.price)
      - Mul(middle.price - first.price, last.intelligence - first.intelligence)
  }

  /** The stack after popping every vertex that lies strictly above the new taut string. */
  function Popped(hull: seq<Row>, row: Row): (r: seq<Row>)
    ensures r <= hull
    ensures |hull| > 0 ==> |r| > 0
  {
    var n := |hull|;
    if n >= 2 && Cross(hull[n - 2], hull[n - 1], row) < 0.0 then Popped(hull[..n - 1], row) else hull
  }

  function Hull(frontier: seq<Row>): (r: seq<Row>)
    ensures |frontier| > 0 ==> |r| > 0
  {
    if |frontier| == 0 then []
    else
      var last := frontier[|frontier| - 1];
      Popped(Hull(frontier[..|frontier| - 1]), last) + [last]
  }

  method LowerConvexHull(frontier: seq<Row>) returns (hull: seq<Row>)
    ensures hull == Hull(frontier)
  {
    hull := [];
    for i := 0 to |frontier|
      invariant hull == Hull(frontier[..i])
    {
      var row := frontier[i];
      assert frontier[..i + 1][..i] == frontier[..i];
      while |hull| >= 2 && Cross(hull[|hull| - 2], hull[|hull| - 1], row) < 0.0
        invariant Popped(hull, row) == Popped(Hull(frontier[..i]), row)
      {
        hull := hull[..|hull| - 1];
      }
      hull := hull + [row];
    }
    assert frontier[..|frontier|] == frontier;
  }

  /** What a buyer who pays l per point of intelligence gains from a row. */
  function Utility(l: real, r: Row): real {
    Mul(l, r.intelligence) - r.price
  }

  ghost predicate Convex(h: seq<Row>) {
    forall i :: 0 <= i < |h| - 2 ==> Cross(h[i], h[i + 1], h[i + 2]) >= 0.0
  }

  ghost predicate Beaten(x: Row, s: seq<Row>, l: real) {
    exists k :: 0 <= k < |s| && Utility(l, s[k]) > Utility(l, x)
  }

  lemma BeatenBy(x: Row, s: seq<Row>, l: real, y: Row)
    requires y in s && Utility(l, y) > Utility(l, x)
    ensures Beaten(x, s, l)
  {
    var k :| 0 <= k < |s| && s[k] == y;
  }

  /** A vertex strictly above the string between its neighbours is worth less than one of them. */
  lemma PoppedIsBeaten(a: Row, m: Row, w: Row, l: real)
    requires a.intelligence < m.intelligence < w.intelligence
    requires Cross(a, m, w) < 0.0
    ensures Utility(l, m) < Utility(l, a) || Utility(l, m) < Utility(l, w)
  {
    var p, q := m.intelligence - a.intelligence, w.intelligence - m.intelligence;
    var s, t := m.price - a.price, w.price - m.price;
    assert Cross(a, m, w) == p * t - s * q;
    assert Utility(l, m) - Utility(l, a) == l * p - s;
    assert Utility(l, w) - Utility(l, m) == l * q - t;
    SlopesOrder(p, q, s, t, l);
  }

  lemma SlopesOrder(p: real, q: real, s: real, t: real, l: real)
    requires p > 0.0 && q > 0.0
    ensures s <= l * p && t >= l * q ==> p * t - s * q >= 0.0
    ensures s > l * p && p * t - s * q >= 0.0 ==> t > l * q
  {
    if s <= l * p && t >= l * q {
      assert (l * p - s) * q >= 0.0;
      assert (t - l * q) * p >= 0.0;
    }
    if s > l * p && p * t - s * q >= 0.0 {
      MulPositive(s - l * p, q);
      assert Mul(s - l * p, q) == s * q - l * p * q;
      assert p * t - l * p * q > 0.0;
      assert p * (t - l * q) > 0.0;
    }
  }

  /** Along a convex string the utility never rises again once it has fallen. */
  lemma FallsOn(a: Row, m: Row, w: Row, l: real)
    requires a.intelligence < m.intelligence < w.intelligence
    requires Cross(a, m, w) >= 0.0 && Utility(l, m) < Utility(l, a)
    ensures Utility(l, w) < Utility(l, m)
  {
    var p, q := m.intelligence - a.intelligence, w.intelligence - m.intelligence;
    var s, t := m.price - a.price, w.price - m.price;
    assert Cross(a, m, w) == p * t - s * q;
    assert Utility(l, m) - Utility(l, a) == l * p - s;
    assert Utility(l, w) - Utility(l, m) == l * q - t;
    SlopesOrder(p, q, s, t, l);
  }

  lemma {:induction false} PoppedConvex(hull: seq<Row>, row: Row)
    requires Convex(hull)
    ensures Convex(Popped(hull, row) + [row])
  {
    hide Cross;
    var n := |hull|;
    if n >= 2 && Cross(hull[n - 2], hull[n - 1], row) < 0.0 {
      PoppedConvex(hull[..n - 1], row);
    } else {
      var t := hull + [row];
      forall i | 0 <= i < |t| - 2
        ensures Cross(t[i], t[i + 1], t[i + 2]) >= 0.0
      {
        if i < n - 2 {
          assert Cross(hull[i], hull[i + 1], hull[i + 2]) >= 0.0;
        }
      }
    }
  }

  lemma {:induction false} PoppedBeats(hull: seq<Row>, row: Row, x: Row, l: real)
    requires Rising(hull + [row])
    ensures x in hull ==> x in Popped(hull, row) || Beaten(x, Popped(hull, row) + [row], l)
  {
    hide Utility, Cross, Rising, Beaten;
    var n := |hull|;
    if n >= 2 && Cross(hull[n - 2], hull[n - 1], row) < 0.0 {
      var rest, a, m := hull[..n - 1], hull[n - 2], hull[n - 1];
      RisingParts(hull, row);
      PoppedBeats(rest, row, x, l);
      PoppedBeats(rest, row, a, l);
      var kept := Popped(rest, row);
      assert Popped(hull, row) == kept;
      assert hull == rest + [m] && a == rest[n - 2];
      if x == m {
        PoppedIsBeaten(a, m, row, l);
        if Utility(l, m) < Utility(l, row) {
          BeatenBy(m, kept + [row], l, row);
        } else {
          Transfer(m, a, kept, row, l);
        }
      }
    }
  }

  lemma RisingParts(hull: seq<Row>, row: Row)
    requires Rising(hull + [row]) && |hull| >= 2
    ensures Rising(hull[..|hull| - 1] + [row])
    ensures hull[|hull| - 2].intelligence < hull[|hull| - 1].intelligence < row.intelligence
  {
    var s := hull + [row];
    assert s[|hull| - 2] == hull[|hull| - 2] && s[|hull| - 1] == hull[|hull| - 1] && s[|hull|] == row;
    var t := hull[..|hull| - 1] + [row];
    forall i, j | 0 <= i < j < |t|
      ensures t[i].intelligence < t[j].intelligence && t[i].price < t[j].price
    {
      assert t[i] == s[i];
      assert t[j] == if j < |hull| - 1 then s[j] else s[|hull|];
    }
  }

  /** The hull is a rising convex subsequence, and every frontier point off it is strictly beaten at every l. */
  lemma {:induction false} HullRises(f: seq<Row>)
    requires Rising(f)
    ensures Rising(Hull(f)) && Convex(Hull(f))
    ensures forall h :: h in Hull(f) ==> h in f
    ensures |f| > 0 ==> Rising(Hull(f[..|f| - 1]) + [f[|f| - 1]])
  {
    hide Cross, Convex;
    if |f| == 0 {
      EmptyConvex();
    } else {
      var rest, row := f[..|f| - 1], f[|f| - 1];
      var below := Hull(rest);
      HullRises(rest);
      AppendRises(f, below);
      hide Rising;
      PoppedConvex(below, row);
      RisingHull(below, Popped(below, row), row);
      assert f == rest + [row];
    }
  }

  lemma EmptyConvex()
    ensures Convex([])
  {
  }

  lemma AppendRises(f: seq<Row>, below: seq<Row>)
    requires Rising(f) && |f| > 0 && Rising(below)
    requires forall h :: h in below ==> h in f[..|f| - 1]
    ensures Rising(below + [f[|f| - 1]])
  {
    var rest, row := f[..|f| - 1], f[|f| - 1];
    forall i | 0 <= i < |below|
      ensures below[i].intelligence < row.intelligence && below[i].price < row.price
    {
      assert below[i] in below;
      var k :| 0 <= k < |rest| && rest[k] == below[i];
      assert f[k] == below[i];
    }
  }

  /** Every frontier point off the hull is strictly beaten by a hull vertex at every l. */
  lemma {:induction false} HullBeats(f: seq<Row>, x: Row, l: real)
    requires Rising(f) && x in f
    ensures x in Hull(f) || Beaten(x, Hull(f), l)
  {
    hide Cross, Utility;
    var rest, row := f[..|f| - 1], f[|f| - 1];
    var below := Hull(rest);
    var kept := Popped(below, row);
    HullRises(f);
    assert f == rest + [row];
    if x == row {
      assert (kept + [row])[|kept|] == x;
    } else {
      HullBeats(rest, x, l);
      if x in below {
        PoppedBeats(below, row, x, l);
      } else {
        var k :| 0 <= k < |below| && Utility(l, below[k]) > Utility(l, x);
        hide Beaten;
        PoppedBeats(below, row, below[k], l);
        Transfer(x, below[k], kept, row, l);
      }
    }
  }

  lemma RisingHull(below: seq<Row>, kept: seq<Row>, row: Row)
    requires Rising(below + [row]) && kept <= below
    ensures Rising(kept + [row])
    ensures forall x :: x in kept ==> x in below
  {
    var s, t := below + [row], kept + [row];
    forall i, j | 0 <= i < j < |t|
      ensures t[i].intelligence < t[j].intelligence && t[i].price < t[j].price
    {
      assert t[i] == s[i];
      assert t[j] == if j < |kept| then s[j] else s[|below|];
    }
  }

  lemma Transfer(x: Row, y: Row, kept: seq<Row>, row: Row, l: real)
    requires Utility(l, y) > Utility(l, x)
    requires y in kept || Beaten(y, kept + [row], l)
    ensures Beaten(x, kept + [row], l)
  {
    var r := kept + [row];
    if y in kept {
      BeatenBy(x, r, l, y);
    } else {
      var k :| 0 <= k < |r| && Utility(l, r[k]) > Utility(l, y);
      BeatenBy(x, r, l, r[k]);
    }
  }

  // Choosing on the hull.

  datatype Failure = EmptyTable | NoRowMeetsFloor | FewerThanTwoPoints | EmptyFrontier | DegenerateAxis

  datatype Choice = Chosen(row: Row) | Unavailable(why: Failure)

  /** The vertex where utility peaks, the last one if it is flat there. */
  ghost predicate LastPeak(h: seq<Row>, l: real, k: nat) {
    && k < |h|
    && (forall i :: 0 <= i <= k ==> Utility(l, h[i]) <= Utility(l, h[k]))
    && (forall i :: k < i < |h| ==> Utility(l, h[i]) < Utility(l, h[k]))
  }

  method SelectSlope(frontier: seq<Row>, willingness: real) returns (r: Choice)
    requires Rising(frontier)
    ensures |frontier| < 2 ==> r == Unavailable(FewerThanTwoPoints)
    ensures |frontier| >= 2
      ==> r.Chosen? && exists k: nat :: LastPeak(Hull(frontier), willingness, k) && Hull(frontier)[k] == r.row
  {
    if |frontier| < 2 {
      return Unavailable(FewerThanTwoPoints);
    }
    var hull := LowerConvexHull(frontier);
    HullRises(frontier);
    hide Hull, Utility;
    var selected := hull[0];
    var k := 0;
    while k + 1 < |hull|
      invariant 0 <= k < |hull| && selected == hull[k]
      invariant forall i :: 0 <= i <= k ==> Utility(willingness, hull[i]) <= Utility(willingness, hull[k])
    {
      var lower, upper := hull[k], hull[k + 1];
      var priceDelta := upper.price - lower.price;
      var indexDelta := upper.intelligence - lower.intelligence;
      StepUtility(willingness, lower, upper);
      if priceDelta <= Mul(willingness, indexDelta) {
        selected := upper;
        k := k + 1;
      } else {
        FallsForGood(hull, willingness, k);
        break;
      }
    }
    assert LastPeak(hull, willingness, k);
    r := Chosen(selected);
  }

  lemma StepUtility(l: real, lower: Row, upper: Row)
    ensures upper.price - lower.price <= Mul(l, upper.intelligence - lower.intelligence)
       <==> Utility(l, lower) <= Utility(l, upper)
  {
  }

  lemma FallsForGood(h: seq<Row>, l: real, k: nat)
    requires Rising(h) && Convex(h) && k + 1 < |h|
    requires Utility(l, h[k + 1]) < Utility(l, h[k])
    ensures forall i :: k < i < |h| ==> Utility(l, h[i]) < Utility(l, h[k])
  {
    hide Utility, Cross;
    var i := k + 1;
    while i + 1 < |h|
      invariant k < i < |h|
      invariant Utility(l, h[i]) < Utility(l, h[i - 1])
      invariant forall j :: k < j <= i ==> Utility(l, h[j]) < Utility(l, h[k])
    {
      assert Cross(h[i - 1], h[i - 1 + 1], h[i - 1 + 2]) >= 0.0;
      FallsOn(h[i - 1], h[i], h[i + 1], l);
      i := i + 1;
    }
  }

  /** Best over the WHOLE table: utility first, then intelligence, then name. */
  ghost predicate BestBySlope(rows: seq<Row>, l: real, s: Row) {
    && s in rows
    && forall r :: r in rows ==>
         Utility(l, r) < Utility(l, s)
         || (Utility(l, r) == Utility(l, s)
             && (r.intelligence < s.intelligence
                 || (r.intelligence == s.intelligence && !StrLess(r.permaslug, s.permaslug))))
  }

  lemma PeakIsBest(rows: seq<Row>, f: seq<Row>, l: real, k: nat)
    requires IsFrontier(rows, f) && l > 0.0 && LastPeak(Hull(f), l, k)
    ensures BestBySlope(rows, l, Hull(f)[k])
  {
    var h := Hull(f);
    var s := h[k];
    HullRises(f);
    assert s in h && s in f && s in rows;
    forall r | r in rows
      ensures Utility(l, r) < Utility(l, s)
         || (Utility(l, r) == Utility(l, s)
             && (r.intelligence < s.intelligence
                 || (r.intelligence == s.intelligence && !StrLess(r.permaslug, s.permaslug))))
    {
      RowAgainstPeak(rows, f, l, k, r);
    }
  }

  lemma RowAgainstPeak(rows: seq<Row>, f: seq<Row>, l: real, k: nat, r: Row)
    requires IsFrontier(rows, f) && l > 0.0 && LastPeak(Hull(f), l, k) && r in rows
    ensures var s := Hull(f)[k];
      Utility(l, r) < Utility(l, s)
      || (Utility(l, r) == Utility(l, s)
          && (r.intelligence < s.intelligence
              || (r.intelligence == s.intelligence && !StrLess(r.permaslug, s.permaslug))))
  {
    var h := Hull(f);
    var s := h[k];
    var i := CoverOf(f, r);
    CoverUtility(l, f[i], r);
    HullRises(f);
    HullBeats(f, f[i], l);
    hide Utility, Hull, IsFrontier, Covered;
    if f[i] in h {
      var j :| 0 <= j < |h| && h[j] == f[i];
      if Utility(l, r) == Utility(l, s) {
        assert j <= k;
        if j == k {
          FrontierNames(rows, f, i, r);
        }
      }
    } else {
      var j :| 0 <= j < |h| && Utility(l, h[j]) > Utility(l, f[i]);
      assert Utility(l, h[j]) <= Utility(l, s);
    }
  }

  lemma CoverOf(f: seq<Row>, r: Row) returns (i: nat)
    requires Covered(f, r)
    ensures i < |f| && Covers(f[i], r)
  {
    i :| 0 <= i < |f| && Covers(f[i], r);
  }

  lemma FrontierNames(rows: seq<Row>, f: seq<Row>, i: nat, r: Row)
    requires IsFrontier(rows, f) && i < |f| && r in rows && SamePoint(r, f[i])
    ensures !StrLess(r.permaslug, f[i].permaslug)
  {
  }

  lemma CoverUtility(l: real, a: Row, b: Row)
    requires l > 0.0 && Covers(a, b)
    ensures Utility(l, b) <= Utility(l, a)
    ensures Utility(l, b) == Utility(l, a) ==> SamePoint(b, a)
  {
    var d := a.intelligence - b.intelligence;
    assert Utility(l, a) - Utility(l, b) == Mul(l, d) + (b.price - a.price);
    if d > 0.0 {
      MulPositive(l, d);
    }
  }

  // Greatest intelligence, and cheapest above a floor.

  /** Order of choice by a key: (-intelligence, price, name). */
  predicate Smarter(a: Row, b: Row) {
    a.intelligence > b.intelligence
    || (a.intelligence == b.intelligence
        && (a.price < b.price || (a.price == b.price && StrLess(a.permaslug, b.permaslug))))
  }

  /** Order of choice by a key: (price, completion price, name). */
  predicate Cheaper(a: Row, b: Row) {
    a.price < b.price
    || (a.price == b.price
        && (a.completion < b.completion || (a.completion == b.completion && StrLess(a.permaslug, b.permaslug))))
  }

  ghost predicate FirstChoice(better: (Row, Row) -> bool, rows: seq<Row>, s: Row) {
    s in rows && forall r :: r in rows ==> !better(r, s)
  }

  lemma NamesCompose(a: string, b: string, c: string)
    ensures !StrLess(a, a)
    ensures StrLess(a, b) ==> !StrLess(b, a)
    ensures StrLess(c, a) && StrLess(a, b) ==> StrLess(c, b)
    ensures StrLess(c, a) ==> StrLess(c, b) || StrLess(b, a)
  {
    StrAsymmetric(a, a);
    StrAsymmetric(a, b);
    StrBetween(c, b, a);
    StrAsymmetric(b, a);
  }

  method SelectMax(rows: seq<Row>) returns (best: Row)
    requires |rows| > 0
    ensures FirstChoice(Smarter, rows, best)
    ensures forall r :: r in rows ==>
      r.intelligence < best.intelligence
      || (r.intelligence == best.intelligence
          && (r.price > best.price || (r.price == best.price && !StrLess(r.permaslug, best.permaslug))))
  {
    best := rows[0];
    NamesCompose(best.permaslug, best.permaslug, best.permaslug);
    for i := 1 to |rows|
      invariant FirstChoice(Smarter, rows[..i], best)
    {
      assert rows[..i + 1] == rows[..i] + [rows[i]];
      forall r | r in rows[..i + 1]
        ensures Smarter(rows[i], best) ==> !Smarter(r, rows[i])
      {
        assert r in rows[..i] ==> !Smarter(r, best);
        NamesCompose(rows[i].permaslug, best.permaslug, r.permaslug);
      }
      if Smarter(rows[i], best) {
        best := rows[i];
      }
    }
    assert rows[..|rows|] == rows;
  }

  function Eligible(rows: seq<Row>, floor: real): seq<Row> {
    if |rows| == 0 then []
    else
      var rest, last := Eligible(rows[..|rows| - 1], floor), rows[|rows| - 1];
      if last.intelligence >= floor then rest + [last] else rest
  }

  lemma {:induction false} EligibleMembers(rows: seq<Row>, floor: real, r: Row)
    ensures r in Eligible(rows, floor) <==> r in rows && r.intelligence >= floor
  {
    if |rows| > 0 {
      EligibleMembers(rows[..|rows| - 1], floor, r);
      assert rows == rows[..|rows| - 1] + [rows[|rows| - 1]];
    }
  }

  ghost predicate CheapestAbove(rows: seq<Row>, floor: real, s: Row) {
    && s in rows && s.intelligence >= floor
    && forall x :: x in rows && x.intelligence >= floor ==> !Cheaper(x, s)
  }

  method SelectFloor(rows: seq<Row>, floor: real) returns (r: Choice)
    ensures r == Unavailable(NoRowMeetsFloor) <==> forall x :: x in rows ==> x.intelligence < floor
    ensures r.Unavailable? ==> r.why == NoRowMeetsFloor
    ensures r.Chosen? ==> CheapestAbove(rows, floor, r.row)
    ensures r.Chosen? ==> forall x :: x in rows && x.intelligence >= floor ==>
      r.row.price < x.price
      || (r.row.price == x.price
          && (r.row.completion < x.completion
              || (r.row.completion == x.completion && !StrLess(x.permaslug, r.row.permaslug))))
  {
    var eligible := Eligible(rows, floor);
    forall x
      ensures x in eligible <==> x in rows && x.intelligence >= floor
    {
      EligibleMembers(rows, floor, x);
    }
    if |eligible| == 0 {
      return Unavailable(NoRowMeetsFloor);
    }
    var best := eligible[0];
    NamesCompose(best.permaslug, best.permaslug, best.permaslug);
    for i := 1 to |eligible|
      invariant FirstChoice(Cheaper, eligible[..i], best)
    {
      assert eligible[..i + 1] == eligible[..i] + [eligible[i]];
      forall x | x in eligible[..i + 1]
        ensures Cheaper(eligible[i], best) ==> !Cheaper(x, eligible[i])
      {
        assert x in eligible[..i] ==> !Cheaper(x, best);
        NamesCompose(eligible[i].permaslug, best.permaslug, x.permaslug);
      }
      if Cheaper(eligible[i], best) {
        best := eligible[i];
      }
    }
    assert eligible[..|eligible|] == eligible;
    r := Chosen(best);
  }

  // The elbow.

  datatype Floor = NoFloor | Lowest(price: real)

  /** Any logarithm will do: strictly increasing, and defined on the positive reals only. */
  ghost predicate IsLog(log: real --> real) {
    && (forall x: real :: x > 0.0 ==> log.requires(x))
    && (forall x: real, y: real :: 0.0 < x < y ==> log(x) < log(y))
  }

  ghost predicate NonnegativePrices(rows: seq<Row>) {
    forall r :: r in rows ==> r.price >= 0.0
  }

  ghost predicate FloorOf(rows: seq<Row>, f: seq<Row>, floor: Floor) {
    if |f| < 3 || f[0].price > 0.0 then floor == NoFloor
    else
      && floor.Lowest? && floor.price > 0.0
      && (exists r :: r in rows && r.price == floor.price)
      && (forall r :: r in rows && r.price > 0.0 ==> floor.price <= r.price)
  }

  /** The minimum is over a nonempty set: a free first point leaves two dearer ones behind it. */
  method ElbowPriceFloor(f: seq<Row>, rows: seq<Row>) returns (floor: Floor)
    requires Rising(f) && NonnegativePrices(rows) && forall i :: 0 <= i < |f| ==> f[i] in rows
    ensures FloorOf(rows, f, floor)
  {
    if |f| < 3 || f[0].price > 0.0 {
      return NoFloor;
    }
    floor := NoFloor;
    for i := 0 to |rows|
      invariant floor == NoFloor ==> forall r :: r in rows[..i] ==> r.price <= 0.0
      invariant floor.Lowest? ==> floor.price > 0.0 && exists r :: r in rows[..i] && r.price == floor.price
      invariant floor.Lowest? ==> forall r :: r in rows[..i] && r.price > 0.0 ==> floor.price <= r.price
    {
      var row := rows[i];
      assert rows[..i + 1] == rows[..i] + [row];
      assert row in rows[..i + 1];
      if row.price > 0.0 && (floor == NoFloor || row.price < floor.price) {
        floor := Lowest(row.price);
      }
    }
    assert rows[..|rows|] == rows;
    assert f[1] in rows && f[1].price > f[0].price;
  }

  function ElbowPrice(row: Row, floor: Floor): real {
    if floor == NoFloor || row.price != 0.0 then row.price else floor.price
  }

  /** How far a point lies below the chord from the first to the last, both axes scaled to one. */
  function Offset(f: seq<Row>, logs: seq<real>, i: nat): real
    requires |logs| == |f| && i < |f|
    requires f[|f| - 1].intelligence > f[0].intelligence && logs[|f| - 1] > logs[0]
  {
    var n := |f| - 1;
    (f[i].intelligence - f[0].intelligence) / (f[n].intelligence - f[0].intelligence)
      - (logs[i] - logs[0]) / (logs[n] - logs[0])
  }

  /** A strictly interior point of greatest positive offset, the cheapest of them; else the smartest point. */
  ghost predicate ElbowChoice(f: seq<Row>, logs: seq<real>, s: Row)
    requires |logs| == |f| >= 3
  {
    var n := |f| - 1;
    exists gaps: seq<real> ::
      && |gaps| == |f|
      && (forall i :: 0 <= i < |f| ==>
           gaps[i] == Mul(f[i].intelligence - f[0].intelligence, logs[n] - logs[0])
                      - Mul(logs[i] - logs[0], f[n].intelligence - f[0].intelligence))
      && if forall i :: 0 <= i < |f| ==> gaps[i] <= 0.0 then s == f[n]
         else exists k :: 0 < k < n && s == f[k] && gaps[k] > 0.0 && FirstGreatest(gaps, k)
  }

  ghost predicate FirstGreatest(values: seq<real>, k: nat)
    requires k < |values|
  {
    && (forall i :: 0 <= i < |values| ==> values[i] <= values[k])
    && (forall i :: 0 <= i < |values| && values[i] == values[k] ==> k <= i)
  }

  /** Free of divisions: the offset times the positive spans of both axes. */
  ghost function Gaps(f: seq<Row>, logs: seq<real>): (gaps: seq<real>)
    requires |logs| == |f| > 0
    ensures |gaps| == |f|
  {
    var n := |f| - 1;
    seq(|f|, i requires 0 <= i < |f| =>
      Mul(f[i].intelligence - f[0].intelligence, logs[n] - logs[0])
      - Mul(logs[i] - logs[0], f[n].intelligence - f[0].intelligence))
  }

  lemma GapsScaleOffsets(f: seq<Row>, logs: seq<real>, i: nat, k: nat)
    requires |logs| == |f| && i < |f| && k < |f|
    requires f[|f| - 1].intelligence > f[0].intelligence && logs[|f| - 1] > logs[0]
    ensures Offset(f, logs, i) <= Offset(f, logs, k) <==> Gaps(f, logs)[i] <= Gaps(f, logs)[k]
    ensures Offset(f, logs, k) > 0.0 <==> Gaps(f, logs)[k] > 0.0
  {
    var n := |f| - 1;
    var a, b := f[n].intelligence - f[0].intelligence, logs[n] - logs[0];
    Scaled(f[i].intelligence - f[0].intelligence, logs[i] - logs[0], a, b);
    Scaled(f[k].intelligence - f[0].intelligence, logs[k] - logs[0], a, b);
    SameOrder(Offset(f, logs, i), Offset(f, logs, k), a, b);
    SameOrder(Offset(f, logs, k), 0.0, a, b);
  }

  lemma Scaled(x: real, y: real, a: real, b: real)
    requires a > 0.0 && b > 0.0
    ensures Mul(Mul(a, b), x / a - y / b) == Mul(x, b) - Mul(y, a)
  {
    var u, v := x / a, y / b;
    assert u * a == x && v * b == y;
    calc {
      Mul(Mul(a, b), u - v);
      (a * b) * u - (a * b) * v;
      (u * a) * b - (v * b) * a;
    }
  }

  lemma SameOrder(x: real, y: real, a: real, b: real)
    requires a > 0.0 && b > 0.0
    ensures x <= y <==> Mul(Mul(a, b), x) <= Mul(Mul(a, b), y)
    ensures Mul(Mul(a, b), 0.0) == 0.0
  {
    assert a * b > 0.0;
    if x <= y {
      assert (a * b) * (y - x) >= 0.0;
    } else {
      assert (a * b) * (x - y) > 0.0;
    }
  }

  lemma EndsHaveNoOffset(f: seq<Row>, logs: seq<real>)
    requires |logs| == |f| >= 3
    requires f[|f| - 1].intelligence > f[0].intelligence && logs[|f| - 1] > logs[0]
    ensures Offset(f, logs, 0) == 0.0 == Offset(f, logs, |f| - 1)
  {
    Quotients(f[|f| - 1].intelligence - f[0].intelligence);
    Quotients(logs[|f| - 1] - logs[0]);
  }

  lemma Quotients(x: real)
    requires x > 0.0
    ensures 0.0 / x == 0.0 && x / x == 1.0
  {
  }

  method SelectElbow(f: seq<Row>, floor: Floor, log: real --> real) returns (r: Choice, ghost logs: seq<real>)
    requires Rising(f) && IsLog(log)
    requires |f| >= 3 ==> forall i :: 0 <= i < |f| ==> ElbowPrice(f[i], floor) > 0.0
    ensures |f| == 0 ==> r == Unavailable(EmptyFrontier)
    ensures 0 < |f| < 3 ==> r == Chosen(f[|f| - 1])
    ensures |f| >= 3 ==> |logs| == |f| && forall i ::
      0 <= i < |f| ==> ElbowPrice(f[i], floor) > 0.0 && logs[i] == log(ElbowPrice(f[i], floor))
    ensures |f| >= 3 && logs[|f| - 1] <= logs[0] ==> r == Unavailable(DegenerateAxis)
    ensures |f| >= 3 && logs[|f| - 1] > logs[0] ==>
      f[|f| - 1].intelligence > f[0].intelligence && r.Chosen? && ElbowChoice(f, logs, r.row)
  {
    logs := [];
    if |f| == 0 {
      return Unavailable(EmptyFrontier), [];
    }
    if |f| < 3 {
      var top := SelectMax(f);
      SmartestIsLast(f, top);
      return Chosen(top), [];
    }
    var n := |f| - 1;
    var logPrices := [];
    for i := 0 to |f|
      invariant |logPrices| == i
      invariant forall k :: 0 <= k < i ==> logPrices[k] == log(ElbowPrice(f[k], floor))
    {
      logPrices := logPrices + [log(ElbowPrice(f[i], floor))];
    }
    logs := logPrices;
    if f[n].intelligence - f[0].intelligence <= 0.0 || logPrices[n] - logPrices[0] <= 0.0 {
      return Unavailable(DegenerateAxis), logs;
    }
    EndsHaveNoOffset(f, logPrices);
    hide Offset;
    var best := 0;
    for i := 0 to |f|
      invariant 0 <= best < |f| && (best == 0 || Offset(f, logPrices, best) > 0.0)
      invariant forall k :: 0 <= k < i ==> Offset(f, logPrices, k) <= Offset(f, logPrices, best)
      invariant forall k :: 0 <= k < i && Offset(f, logPrices, k) == Offset(f, logPrices, best) ==> best <= k
      invariant best == 0 || best < i
    {
      if Offset(f, logPrices, i) > 0.0 && Offset(f, logPrices, i) > Offset(f, logPrices, best) {
        best := i;
      }
    }
    GreatestGap(f, logPrices, best);
    if best == 0 {
      var top := SelectMax(f);
      SmartestIsLast(f, top);
      return Chosen(top), logs;
    }
    r := Chosen(f[best]);
  }

  lemma GreatestGap(f: seq<Row>, logs: seq<real>, best: nat)
    requires |logs| == |f| >= 3 && best < |f| - 1
    requires f[|f| - 1].intelligence > f[0].intelligence && logs[|f| - 1] > logs[0]
    requires Offset(f, logs, 0) == 0.0 && (best == 0 || Offset(f, logs, best) > 0.0)
    requires forall k :: 0 <= k < |f| ==> Offset(f, logs, k) <= Offset(f, logs, best)
    requires forall k :: 0 <= k < |f| && Offset(f, logs, k) == Offset(f, logs, best) ==> best <= k
    ensures ElbowChoice(f, logs, if best == 0 then f[|f| - 1] else f[best])
  {
    var gaps := Gaps(f, logs);
    forall i | 0 <= i < |f|
      ensures gaps[i] <= gaps[best] && (gaps[i] == gaps[best] ==> best <= i)
      ensures best == 0 ==> gaps[i] <= 0.0
      ensures best > 0 ==> gaps[best] > 0.0
    {
      GapsScaleOffsets(f, logs, i, best);
      GapsScaleOffsets(f, logs, best, i);
    }
    hide Offset;
    assert best > 0 ==> FirstGreatest(gaps, best);
  }

  lemma SmartestIsLast(f: seq<Row>, top: Row)
    requires Rising(f) && |f| > 0 && FirstChoice(Smarter, f, top)
    ensures top == f[|f| - 1]
  {
    var k :| 0 <= k < |f| && f[k] == top;
    assert !Smarter(f[|f| - 1], top);
  }

  /** With the floor in place every price on the frontier is positive, and the last log exceeds the first. */
  lemma FloorMakesPositive(rows: seq<Row>, f: seq<Row>, floor: Floor)
    requires IsFrontier(rows, f) && NonnegativePrices(rows) && FloorOf(rows, f, floor) && |f| >= 3
    ensures forall i :: 0 <= i < |f| ==> ElbowPrice(f[i], floor) > 0.0
    ensures ElbowPrice(f[0], floor) < ElbowPrice(f[|f| - 1], floor)
  {
    hide Covered;
    assert f[0] in rows && f[1] in rows;
    assert f[0].price >= 0.0;
    assert f[0].price < f[1].price < f[|f| - 1].price;
    forall i | 0 <= i < |f|
      ensures ElbowPrice(f[i], floor) > 0.0
    {
      assert i > 0 ==> f[0].price < f[i].price;
    }
  }

  // One policy, one row.

  datatype Policy = MaxPolicy | ElbowPolicy | SlopePolicy(willingness: real) | FloorPolicy(floor: real)

  ghost predicate ElbowOutcome(rows: seq<Row>, log: real --> real, s: Row)
    requires IsLog(log)
  {
    exists f, floor, logs ::
      && IsFrontier(rows, f) && FloorOf(rows, f, floor)
      && ElbowOn(f, floor, logs, log, s)
  }

  ghost predicate ElbowOn(f: seq<Row>, floor: Floor, logs: seq<real>, log: real --> real, s: Row)
    requires IsLog(log)
  {
    if |f| < 3 then |f| > 0 && s == f[|f| - 1]
    else
      && |logs| == |f|
      && (forall i :: 0 <= i < |f| ==>
           var price := if floor.Lowest? && f[i].price == 0.0 then floor.price else f[i].price;
           price > 0.0 && logs[i] == log(price))
      && f[|f| - 1].intelligence > f[0].intelligence && logs[|f| - 1] > logs[0]
      && ElbowChoice(f, logs, s)
  }

  /** One row that covers the whole table. */
  ghost predicate HasTop(rows: seq<Row>) {
    exists top :: top in rows && forall r :: r in rows ==> Covers(top, r)
  }

  lemma OnePointMeansTop(rows: seq<Row>, f: seq<Row>)
    requires IsFrontier(rows, f) && |rows| > 0
    ensures |f| > 0
    ensures |f| < 2 <==> HasTop(rows)
  {
    hide Covered;
    assert rows[0] in rows;
    var i := CoverOf(f, rows[0]);
    if |f| == 1 {
      forall r | r in rows
        ensures Covers(f[0], r)
      {
        var k := CoverOf(f, r);
      }
      assert f[0] in rows;
    } else {
      assert f[0] in rows && f[1] in rows;
      forall top | top in rows
        ensures !(Covers(top, f[0]) && Covers(top, f[1]))
      {
        assert !Dominates(top, f[0]);
      }
    }
  }

  /**
   * The resolver's single entry. Slope fails exactly when one row covers the table; elbow never fails on
   * a nonempty table with nonnegative prices, and takes logarithms of positive prices only.
   */
  method SelectModel(policy: Policy, rows: seq<Row>, log: real --> real) returns (r: Choice)
    requires IsLog(log) && NonnegativePrices(rows)
    requires policy.SlopePolicy? ==> policy.willingness > 0.0
    ensures |rows| == 0 <==> r == Unavailable(EmptyTable)
    ensures |rows| > 0 && policy == MaxPolicy ==> r.Chosen? && FirstChoice(Smarter, rows, r.row)
    ensures |rows| > 0 && policy.FloorPolicy? ==>
      (r == Unavailable(NoRowMeetsFloor) <==> forall x :: x in rows ==> x.intelligence < policy.floor)
    ensures |rows| > 0 && policy.FloorPolicy? && r != Unavailable(NoRowMeetsFloor) ==>
      r.Chosen? && CheapestAbove(rows, policy.floor, r.row)
    ensures |rows| > 0 && policy.SlopePolicy? ==>
      if HasTop(rows) then r == Unavailable(FewerThanTwoPoints)
      else r.Chosen? && BestBySlope(rows, policy.willingness, r.row)
    ensures |rows| > 0 && policy == ElbowPolicy ==> r.Chosen? && ElbowOutcome(rows, log, r.row)
  {
    hide BestBySlope, HasTop, IsFrontier, Hull, Utility, Smarter, Cheaper;
    if |rows| == 0 {
      return Unavailable(EmptyTable);
    }
    match policy
    case MaxPolicy =>
      var best := SelectMax(rows);
      r := Chosen(best);
    case FloorPolicy(floor) =>
      r := SelectFloor(rows, floor);
    case SlopePolicy(l) =>
      var f := ParetoFrontier(rows);
      r := SlopeOnFrontier(rows, f, l);
    case ElbowPolicy =>
      var f := ParetoFrontier(rows);
      r := ElbowOnFrontier(rows, f, log);
  }

  method SlopeOnFrontier(rows: seq<Row>, f: seq<Row>, l: real) returns (r: Choice)
    requires IsFrontier(rows, f) && |rows| > 0 && l > 0.0
    ensures if HasTop(rows) then r == Unavailable(FewerThanTwoPoints) else r.Chosen? && BestBySlope(rows, l, r.row)
  {
    hide Covered, Utility, Hull, HasTop, BestBySlope;
    OnePointMeansTop(rows, f);
    r := SelectSlope(f, l);
    if |f| >= 2 {
      ghost var k: nat :| LastPeak(Hull(f), l, k) && Hull(f)[k] == r.row;
      PeakIsBest(rows, f, l, k);
    }
  }

  method ElbowOnFrontier(rows: seq<Row>, f: seq<Row>, log: real --> real) returns (r: Choice)
    requires IsFrontier(rows, f) && |rows| > 0 && IsLog(log) && NonnegativePrices(rows)
    ensures r.Chosen? && ElbowOutcome(rows, log, r.row)
  {
    hide Covered, HasTop, ElbowChoice;
    OnePointMeansTop(rows, f);
    var floor := ElbowPriceFloor(f, rows);
    if |f| >= 3 {
      FloorMakesPositive(rows, f, floor);
    }
    hide FloorOf;
    ghost var logs;
    r, logs := SelectElbow(f, floor, log);
    assert ElbowOn(f, floor, logs, log, r.row);
  }
}
