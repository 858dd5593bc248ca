/** Minting and normalising ULIDs: 26 characters of five bits each. */
module Ulid {
  import opened Outcomes
  import opened Ordering

  const ALPHABET := "0123456789ABCDEFGHJKMNPQRSTVWXYZ"

  function Digit(d: nat): char
    requires d < 32
  {
    if d < 10 then '0' + d as char
    else if d < 18 then 'A' + (d - 10) as char
    else if d < 20 then 'J' + (d - 18) as char
    else if d < 22 then 'M' + (d - 20) as char
    else if d < 27 then 'P' + (d - 22) as char
    else 'V' + (d - 27) as char
  }

  lemma AlphabetDigits(d: nat)
    requires d < 32
    ensures |ALPHABET| == 32 && ALPHABET[d] == Digit(d)
  {
  }

  /** The value of a character of the alphabet, if it is one. */
  function ValueOf(c: char): Option<nat> {
    if '0' <= c <= '9' then Some((c - '0') as nat)
    else if 'A' <= c <= 'H' then Some((c - 'A') as nat + 10)
    else if 'J' <= c <= 'K' then Some((c - 'J') as nat + 18)
    else if 'M' <= c <= 'N' then Some((c - 'M') as nat + 20)
    else if 'P' <= c <= 'T' then Some((c - 'P') as nat + 22)
    else if 'V' <= c <= 'Z' then Some((c - 'V') as nat + 27)
    else None
  }

  lemma DigitValue(d: nat)
    requires d < 32
    ensures ValueOf(Digit(d)) == Some(d)
  {
  }

  lemma DigitsRise(d: nat, e: nat)
    requires d < 32 && e < 32
    ensures d < e <==> Digit(d) < Digit(e)
  {
  }

  /** The last n digits of a value in base 32. */
  function Digits(v: nat, n: nat): (r: string)
    ensures |r| == n
  {
    if n == 0 then "" else Digits(v / 32, n - 1) + [Digit(v % 32)]
  }

  function Decode(s: string): Option<nat> {
    if |s| == 0 then Some(0)
    else
      var before := Decode(s[..|s| - 1]);
      var last := ValueOf(s[|s| - 1]);
      if before.None? || last.None? then None else Some(before.value * 32 + last.value)
  }

  function Pow32(n: nat): nat {
    if n == 0 then 1 else 32 * Pow32(n - 1)
  }

  lemma {:induction false} DecodeUndoesDigits(v: nat, n: nat)
    requires v < Pow32(n)
    ensures Decode(Digits(v, n)) == Some(v)
    decreases n
  {
    if n > 0 {
      DecodeUndoesDigits(v / 32, n - 1);
      DigitValue(v % 32);
      var s := Digits(v, n);
      assert s[..n - 1] == Digits(v / 32, n - 1) && s[n - 1] == Digit(v % 32);
      hide Digits, Digit, ValueOf;
    }
  }

  lemma {:induction false} LessByLast(a: string, b: string, x: char, y: char)
    requires |a| == |b|
    ensures StrLess(a + [x], b + [y]) <==> StrLess(a, b) || (a == b && x < y)
    decreases |a|
  {
    if |a| == 0 {
      assert a + [x] == [x] && b + [y] == [y];
    } else {
      assert (a + [x])[1..] == a[1..] + [x] && (b + [y])[1..] == b[1..] + [y];
      LessByLast(a[1..], b[1..], x, y);
      assert a == [a[0]] + a[1..] && b == [b[0]] + b[1..];
    }
  }

  /** Strings of digits compare as the values do. */
  lemma {:induction false} DigitsKeepOrder(v: nat, w: nat, n: nat)
    requires v < Pow32(n) && w < Pow32(n)
    ensures StrLess(Digits(v, n), Digits(w, n)) <==> v < w
    ensures Digits(v, n) == Digits(w, n) <==> v == w
    decreases n
  {
    DecodeUndoesDigits(v, n);
    DecodeUndoesDigits(w, n);
    if n > 0 {
      DigitsKeepOrder(v / 32, w / 32, n - 1);
      LessByLast(Digits(v / 32, n - 1), Digits(w / 32, n - 1), Digit(v % 32), Digit(w % 32));
      DigitsRise(v % 32, w % 32);
      hide Decode, Digit;
    }
  }

  const TWO_48 := 0x1_0000_0000_0000
  const TWO_80 := 0x1_0000_0000_0000_0000_0000
  const TWO_128 := 0x1_0000_0000_0000_0000_0000_0000_0000_0000
  const TWO_125 := 0x2000_0000_0000_0000_0000_0000_0000_0000

  lemma Pow32At25()
    ensures Pow32(25) == TWO_125 && Pow32(26) > TWO_128
  {
    assert Pow32(1) == 32 && Pow32(2) == 1024 && Pow32(3) == 32768;
    assert Pow32(4) == 0x10_0000 && Pow32(5) == 0x200_0000;
    assert Pow32(6) == 0x4000_0000;
    assert Pow32(7) == 0x8_0000_0000;
    assert Pow32(8) == 0x100_0000_0000;
    assert Pow32(9) == 0x2000_0000_0000;
    assert Pow32(10) == 0x4_0000_0000_0000;
    assert Pow32(11) == 0x80_0000_0000_0000;
    assert Pow32(12) == 0x1000_0000_0000_0000;
    assert Pow32(13) == 0x2_0000_0000_0000_0000;
    assert Pow32(14) == 0x40_0000_0000_0000_0000;
    assert Pow32(15) == 0x800_0000_0000_0000_0000;
    assert Pow32(16) == 0x1_0000_0000_0000_0000_0000;
    assert Pow32(17) == 0x20_0000_0000_0000_0000_0000;
    assert Pow32(18) == 0x400_0000_0000_0000_0000_0000;
    assert Pow32(19) == 0x8000_0000_0000_0000_0000_0000;
    assert Pow32(20) == 0x10_0000_0000_0000_0000_0000_0000;
    assert Pow32(21) == 0x200_0000_0000_0000_0000_0000_0000;
    assert Pow32(22) == 0x4000_0000_0000_0000_0000_0000_0000;
    assert Pow32(23) == 0x8_0000_0000_0000_0000_0000_0000_0000;
    assert Pow32(24) == 0x100_0000_0000_0000_0000_0000_0000_0000;
    assert Pow32(25) == 0x2000_0000_0000_0000_0000_0000_0000_0000;
  }

  /** The leading digit is the value without its last n digits. */
  lemma {:induction false} LeadingDigit(v: nat, n: nat)
    requires v < Pow32(n + 1)
    ensures v / Pow32(n) < 32 && Digits(v, n + 1)[0] == Digit(v / Pow32(n))
    decreases n
  {
    if n == 0 {
      assert Digits(v / 32, 0) == "";
    } else {
      LeadingDigit(v / 32, n - 1);
      DivideTwice(v, Pow32(n - 1));
      assert Digits(v, n + 1)[0] == Digits(v / 32, n)[0];
    }
  }

  lemma DivideTwice(v: nat, p: nat)
    requires p > 0
    ensures v / (32 * p) == (v / 32) / p
  {
    var q := (v / 32) / p;
    assert v / 32 == q * p + (v / 32) % p;
    var r := ((v / 32) % p) * 32 + v % 32;
    assert v == 32 * (q * p) + r;
    assert 0 <= r < 32 * p;
    Quotient(v, 32 * p, q, r);
  }

  lemma Quotient(v: nat, d: nat, q: nat, r: nat)
    requires d > 0 && v == d * q + r && r < d
    ensures v / d == q
  {
    var k := v / d;
    assert k > q ==> d * k >= d * (q + 1);
    assert k < q ==> d * k <= d * (q - 1);
  }

  // Minting.

  function UlidValue(milliseconds: int, random: nat): nat
    requires random < TWO_80
  {
    (milliseconds % TWO_48) * TWO_80 + random
  }

  /** The loop fills the array from the end while it shifts the value. */
  method MintUlid(milliseconds: int, random: nat) returns (text: string)
    requires random < TWO_80
    ensures text == Digits(UlidValue(milliseconds, random), 26)
  {
    var value := UlidValue(milliseconds, random);
    var encoded := new char[26](_ => '0');
    var index := 25;
    while index >= 0
      invariant -1 <= index <= 25 && value >= 0
      invariant Digits(value, index + 1) + encoded[index + 1..] == Digits(UlidValue(milliseconds, random), 26)
    {
      AlphabetDigits(value % 32);
      ghost var done := encoded[index + 1..];
      ghost var before := Digits(value / 32, index);
      assert Digits(value, index + 1) == before + [Digit(value % 32)];
      encoded[index] := ALPHABET[value % 32];
      assert encoded[index..] == [Digit(value % 32)] + done;
      assert before + ([Digit(value % 32)] + done) == (before + [Digit(value % 32)]) + done;
      value := value / 32;
      index := index - 1;
    }
    assert encoded[0..] == encoded[..];
    text := encoded[..];
  }

  lemma UlidFits(milliseconds: int, random: nat)
    requires random < TWO_80
    ensures UlidValue(milliseconds, random) < TWO_128 < Pow32(26)
  {
    Pow32At25();
  }

  /** Any 128-bit value is read back, and starts with a digit from 0 to 7. */
  lemma UlidRoundTrip(v: nat)
    requires v < TWO_128
    ensures Decode(Digits(v, 26)) == Some(v)
    ensures '0' <= Digits(v, 26)[0] <= '7'
  {
    Pow32At25();
    hide Pow32, Digits, Decode;
    DecodeUndoesDigits(v, 26);
    LeadingDigit(v, 25);
    assert v / TWO_125 < 8;
  }

  /** A later millisecond gives a greater string, whatever the random bits; within one, the random bits decide. */
  lemma UlidsSortByTime(early: int, late: int, r: nat, s: nat)
    requires r < TWO_80 && s < TWO_80
    ensures var a, b := Digits(UlidValue(early, r), 26), Digits(UlidValue(late, s), 26);
      StrLess(a, b) <==> early % TWO_48 < late % TWO_48 || (early % TWO_48 == late % TWO_48 && r < s)
  {
    UlidFits(early, r);
    UlidFits(late, s);
    hide Pow32, Digits, StrLess;
    DigitsKeepOrder(UlidValue(early, r), UlidValue(late, s), 26);
  }

  // Normalising.

  /** The long s, which the case-insensitive pattern takes for an S, and the Kelvin sign, which it takes for a K. */
  const LONG_S := '\U{017F}'
  const KELVIN := '\U{212A}'

  predicate FirstMatches(c: char) {
    '0' <= c <= '7'
  }

  predicate LaterMatches(c: char) {
    ValueOf(c).Some? || (('a' <= c <= 'z') && c !in "ilou") || c == LONG_S || c == KELVIN
  }

  function Upper(c: char): char {
    if 'a' <= c <= 'z' then 'A' + (c - 'a') else if c == LONG_S then 'S' else c
  }

  function Uppercase(s: string): (r: string)
    ensures |r| == |s| && forall i :: 0 <= i < |s| ==> r[i] == Upper(s[i])
  {
    seq(|s|, i requires 0 <= i < |s| => Upper(s[i]))
  }

  function NormalizeUlid(s: string): Option<string> {
    if |s| == 26 && FirstMatches(s[0]) && (forall i :: 1 <= i < 26 ==> LaterMatches(s[i])) then
      Some(Uppercase(s))
    else None
  }

  /** Canonical: 26 characters of the alphabet, the first at most 7. */
  predicate Canonical(s: string) {
    |s| == 26 && FirstMatches(s[0]) && forall i :: 0 <= i < 26 ==> ValueOf(s[i]).Some?
  }

  lemma {:induction false} DigitsAreDigits(v: nat, n: nat, i: nat)
    requires i < n
    ensures ValueOf(Digits(v, n)[i]).Some?
    decreases n
  {
    if i == n - 1 {
      DigitValue(v % 32);
    } else {
      DigitsAreDigits(v / 32, n - 1, i);
    }
  }

  /** A minted value holds the millisecond's low 48 bits above the 80 random bits. */
  lemma MintedReads(milliseconds: int, random: nat)
    requires random < TWO_80
    ensures Decode(Digits(UlidValue(milliseconds, random), 26))
         == Some((milliseconds % 0x1_0000_0000_0000) * 0x1_0000_0000_0000_0000_0000 + random)
  {
    UlidFits(milliseconds, random);
    UlidRoundTrip(UlidValue(milliseconds, random));
    hide Decode, Digits;
  }

  /** Every minted ULID is canonical, and normalising accepts it as it is. */
  lemma MintedIsAccepted(milliseconds: int, random: nat)
    requires random < TWO_80
    ensures var text := Digits(UlidValue(milliseconds, random), 26);
      Canonical(text) && NormalizeUlid(text) == Some(text)
  {
    var v := UlidValue(milliseconds, random);
    UlidFits(milliseconds, random);
    UlidRoundTrip(v);
    forall i | 0 <= i < 26
      ensures ValueOf(Digits(v, 26)[i]).Some?
    {
      DigitsAreDigits(v, 26, i);
    }
    hide Digits;
    assert Uppercase(Digits(v, 26)) == Digits(v, 26);
  }

  lemma UpperMatches(c: char)
    requires LaterMatches(c)
    ensures LaterMatches(Upper(c)) && Upper(Upper(c)) == Upper(c)
    ensures ValueOf(Upper(c)).Some? <==> c != KELVIN
  {
  }

  /** A normalised value is canonical exactly when the text held no Kelvin sign; normalising again changes nothing. */
  lemma NormalizedIsCanonicalExactlyWhen(s: string)
    requires NormalizeUlid(s).Some?
    ensures Canonical(NormalizeUlid(s).value) <==> KELVIN !in s
    ensures NormalizeUlid(NormalizeUlid(s).value) == NormalizeUlid(s)
  {
    var r := NormalizeUlid(s).value;
    forall i | 1 <= i < 26
      ensures LaterMatches(r[i]) && Upper(r[i]) == r[i]
      ensures ValueOf(r[i]).Some? <==> s[i] != KELVIN
    {
      UpperMatches(s[i]);
    }
    hide LaterMatches, ValueOf;
    assert r[0] == s[0];
    assert Uppercase(r) == r;
    FirstIsDigit(r[0]);
    if KELVIN in s {
      var i :| 0 <= i < 26 && s[i] == KELVIN;
      assert i >= 1;
    }
  }

  /**
   * Accepted are exactly the texts of 26 characters of the alphabet in either case, the long s and the Kelvin sign
   * among them, that start with a digit up to 7. Lower case is raised letter by letter, the long s to an S, and
   * everything else is kept.
   */
  lemma AcceptedExactlyWhen(s: string)
    ensures NormalizeUlid(s).Some? <==>
      && |s| == 26 && s[0] in "01234567"
      && forall i :: 1 <= i < 26 ==>
           s[i] in "0123456789ABCDEFGHJKMNPQRSTVWXYZ" || s[i] in "abcdefghjkmnpqrstvwxyz"
           || s[i] == '\U{017F}' || s[i] == '\U{212A}'
    ensures NormalizeUlid(s).Some? ==>
      var r := NormalizeUlid(s).value;
      |r| == |s| && forall i :: 0 <= i < |s| ==>
        && ('a' <= s[i] <= 'z' ==> 'A' <= r[i] <= 'Z' && r[i] - 'A' == s[i] - 'a')
        && (s[i] == '\U{017F}' ==> r[i] == 'S')
        && (!('a' <= s[i] <= 'z') && s[i] != '\U{017F}' ==> r[i] == s[i])
  {
    if |s| == 26 {
      FirstListed(s[0]);
      forall i | 1 <= i < 26
        ensures LaterMatches(s[i]) <==>
          (s[i] in "0123456789ABCDEFGHJKMNPQRSTVWXYZ" || s[i] in "abcdefghjkmnpqrstvwxyz"
           || s[i] == '\U{017F}' || s[i] == '\U{212A}')
      {
        LaterListed(s[i]);
      }
    }
    hide FirstMatches, LaterMatches;
  }

  lemma FirstListed(c: char)
    ensures FirstMatches(c) <==> c in "01234567"
  {
  }

  lemma LaterListed(c: char)
    ensures LaterMatches(c) <==>
      (c in "0123456789ABCDEFGHJKMNPQRSTVWXYZ" || c in "abcdefghjkmnpqrstvwxyz" || c == '\U{017F}' || c == '\U{212A}')
  {
    UpperListed(c);
    LowerListed(c);
    hide ValueOf;
  }

  lemma UpperListed(c: char)
    ensures ValueOf(c).Some? <==> c in "0123456789ABCDEFGHJKMNPQRSTVWXYZ"
  {
  }

  lemma LowerListed(c: char)
    ensures 'a' <= c <= 'z' && c !in "ilou" <==> c in "abcdefghjkmnpqrstvwxyz"
  {
  }

  lemma FirstIsDigit(c: char)
    ensures FirstMatches(c) ==> ValueOf(c).Some? && c != KELVIN
  {
  }

  /** The long way round: a text with the Kelvin sign is accepted and stays outside the alphabet. */
  lemma KelvinIsAccepted()
    ensures var s := ['0', KELVIN] + seq(24, _ => '0');
      NormalizeUlid(s) == Some(s) && Decode(s) == None
  {
    var s := ['0', KELVIN] + seq(24, _ => '0');
    assert Uppercase(s) == s;
    assert s[1] == KELVIN;
    OutsideStays(s, 1);
  }

  lemma {:induction false} OutsideStays(s: string, i: nat)
    requires i < |s| && ValueOf(s[i]).None?
    ensures Decode(s) == None
    decreases |s|
  {
    if i < |s| - 1 {
      OutsideStays(s[..|s| - 1], i);
    }
  }
}
