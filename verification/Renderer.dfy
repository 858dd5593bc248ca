/**
 * The final block: how cards are escaped and printed in rank order, and a decoder that reads them back whatever text
 * they hold.
 */
module Renderer {
  import opened Outcomes
  import opened Sorting

  // Escaping.

  /** Every occurrence of one character replaced by a string. */
  function Replace(s: string, c: char, text: string): string {
    if |s| == 0 then ""
    else Replace(s[..|s| - 1], c, text) + if s[|s| - 1] == c then text else [s[|s| - 1]]
  }

  function EscapeAttribute(value: string): string {
    Replace(Replace(Replace(Replace(Replace(Replace(Replace(value,
      '&', "&amp;"), '<', "&lt;"), '>', "&gt;"), '"', "&quot;"), '\t', "&#9;"), '\n', "&#10;"), '\r', "&#13;")
  }

  function EscapeBody(value: string): string {
    Replace(Replace(Replace(value, '&', "&amp;"), '<', "&lt;"), '>', "&gt;")
  }

  /** What escaping makes of one character. */
  function Escaped(c: char, attribute: bool): string {
    if c == '&' then "&amp;"
    else if c == '<' then "&lt;"
    else if c == '>' then "&gt;"
    else if attribute && c == '"' then "&quot;"
    else if attribute && c == '\t' then "&#9;"
    else if attribute && c == '\n' then "&#10;"
    else if attribute && c == '\r' then "&#13;"
    else [c]
  }

  function EscapedAll(s: string, attribute: bool): string {
    if |s| == 0 then "" else EscapedAll(s[..|s| - 1], attribute) + Escaped(s[|s| - 1], attribute)
  }

  lemma {:induction false} ReplaceConcat(a: string, b: string, c: char, text: string)
    ensures Replace(a + b, c, text) == Replace(a, c, text) + Replace(b, c, text)
    decreases |b|
  {
    if |b| == 0 {
      assert a + b == a;
    } else {
      var n := |b| - 1;
      assert (a + b)[..|a + b| - 1] == a + b[..n];
      ReplaceConcat(a, b[..n], c, text);
    }
  }

  lemma {:induction false} ReplaceAbsent(s: string, c: char, text: string)
    requires c !in s
    ensures Replace(s, c, text) == s
  {
    if |s| > 0 {
      var n := |s| - 1;
      assert c !in s[..n] && s[n] != c;
      ReplaceAbsent(s[..n], c, text);
      assert s == s[..n] + [s[n]];
    }
  }

  lemma ReplaceOne(c: char, d: char, text: string)
    ensures Replace([c], d, text) == if c == d then text else [c]
  {
    assert [c][..0] == "";
  }

  /** Once the ampersand is done, the later replacements leave the entities alone. */
  lemma BodyOfOne(c: char)
    ensures EscapeBody([c]) == Escaped(c, false)
  {
    hide Replace;
    ReplaceOne(c, '&', "&amp;");
    if c == '&' {
      ReplaceAbsent("&amp;", '<', "&lt;");
      ReplaceAbsent("&amp;", '>', "&gt;");
    } else {
      ReplaceOne(c, '<', "&lt;");
      if c == '<' {
        ReplaceAbsent("&lt;", '>', "&gt;");
      } else {
        ReplaceOne(c, '>', "&gt;");
      }
    }
  }

  /** The tail of the attribute chain. */
  function Quoted(s: string): string {
    Replace(Replace(Replace(Replace(s, '"', "&quot;"), '\t', "&#9;"), '\n', "&#10;"), '\r', "&#13;")
  }

  predicate Plain(s: string) {
    '"' !in s && '\t' !in s && '\n' !in s && '\r' !in s
  }

  lemma QuotedPlain(s: string)
    requires Plain(s)
    ensures Quoted(s) == s
  {
    ReplaceAbsent(s, '"', "&quot;");
    ReplaceAbsent(s, '\t', "&#9;");
    ReplaceAbsent(s, '\n', "&#10;");
    ReplaceAbsent(s, '\r', "&#13;");
  }

  lemma QuotedOne(c: char)
    requires c != '&' && c != '<' && c != '>'
    ensures Quoted([c]) == Escaped(c, true)
  {
    hide Replace;
    ReplaceOne(c, '"', "&quot;");
    if c == '"' {
      ReplaceAbsent("&quot;", '\t', "&#9;");
      ReplaceAbsent("&quot;", '\n', "&#10;");
      ReplaceAbsent("&quot;", '\r', "&#13;");
    } else {
      ReplaceOne(c, '\t', "&#9;");
      if c == '\t' {
        ReplaceAbsent("&#9;", '\n', "&#10;");
        ReplaceAbsent("&#9;", '\r', "&#13;");
      } else {
        ReplaceOne(c, '\n', "&#10;");
        if c == '\n' {
          ReplaceAbsent("&#10;", '\r', "&#13;");
        } else {
          ReplaceOne(c, '\r', "&#13;");
        }
      }
    }
  }

  lemma AttributeOfOne(c: char)
    ensures EscapeAttribute([c]) == Escaped(c, true)
  {
    BodyOfOne(c);
    hide Replace;
    if c == '&' || c == '<' || c == '>' {
      QuotedPlain(Escaped(c, false));
    } else {
      QuotedOne(c);
    }
  }

  lemma BodyConcat(a: string, b: string)
    ensures EscapeBody(a + b) == EscapeBody(a) + EscapeBody(b)
  {
    hide Replace;
    ReplaceConcat(a, b, '&', "&amp;");
    var a1, b1 := Replace(a, '&', "&amp;"), Replace(b, '&', "&amp;");
    ReplaceConcat(a1, b1, '<', "&lt;");
    ReplaceConcat(Replace(a1, '<', "&lt;"), Replace(b1, '<', "&lt;"), '>', "&gt;");
  }

  lemma AttributeConcat(a: string, b: string)
    ensures EscapeAttribute(a + b) == EscapeAttribute(a) + EscapeAttribute(b)
  {
    hide Replace;
    BodyConcat(a, b);
    var a1, b1 := EscapeBody(a), EscapeBody(b);
    ReplaceConcat(a1, b1, '"', "&quot;");
    var a2, b2 := Replace(a1, '"', "&quot;"), Replace(b1, '"', "&quot;");
    ReplaceConcat(a2, b2, '\t', "&#9;");
    var a3, b3 := Replace(a2, '\t', "&#9;"), Replace(b2, '\t', "&#9;");
    ReplaceConcat(a3, b3, '\n', "&#10;");
    ReplaceConcat(Replace(a3, '\n', "&#10;"), Replace(b3, '\n', "&#10;"), '\r', "&#13;");
  }

  lemma NothingEscaped()
    ensures EscapeBody("") == "" == EscapeAttribute("")
  {
    assert Replace("", '&', "&amp;") == "";
  }

  /** The chains of replacements amount to escaping character by character. */
  lemma {:induction false} ChainsArePerCharacter(s: string)
    ensures EscapeBody(s) == EscapedAll(s, false) && EscapeAttribute(s) == EscapedAll(s, true)
  {
    if |s| == 0 {
      NothingEscaped();
    } else {
      hide EscapeBody, EscapeAttribute, Escaped;
      var n := |s| - 1;
      ChainsArePerCharacter(s[..n]);
      assert s == s[..n] + [s[n]];
      BodyConcat(s[..n], [s[n]]);
      AttributeConcat(s[..n], [s[n]]);
      BodyOfOne(s[n]);
      AttributeOfOne(s[n]);
    }
  }

  /** Escaped text holds no angle bracket, and in attributes no quote, tab or line break. */
  lemma {:induction false} EscapedIsSafe(s: string, attribute: bool)
    ensures '<' !in EscapedAll(s, attribute) && '>' !in EscapedAll(s, attribute)
    ensures attribute ==> Plain(EscapedAll(s, attribute))
  {
    if |s| > 0 {
      EscapedIsSafe(s[..|s| - 1], attribute);
      CharacterIsSafe(s[|s| - 1], attribute);
      hide Escaped;
    }
  }

  lemma CharacterIsSafe(c: char, attribute: bool)
    ensures '<' !in Escaped(c, attribute) && '>' !in Escaped(c, attribute)
    ensures attribute ==> Plain(Escaped(c, attribute))
  {
  }

  // Reading escaped text.

  predicate Starts(s: string, p: string) {
    |p| <= |s| && s[..|p|] == p
  }

  /** The character that an entity at the start of the text stands for, and the entity's length. */
  function Entity(s: string): (r: (char, nat))
    requires |s| > 0
    ensures 0 < r.1 <= |s|
  {
    if Starts(s, "&amp;") then ('&', 5)
    else if Starts(s, "&lt;") then ('<', 4)
    else if Starts(s, "&gt;") then ('>', 4)
    else if Starts(s, "&quot;") then ('"', 6)
    else if Starts(s, "&#9;") then ('\t', 4)
    else if Starts(s, "&#10;") then ('\n', 5)
    else if Starts(s, "&#13;") then ('\r', 5)
    else (s[0], 1)
  }

  function Unescape(s: string): string
    decreases |s|
  {
    if |s| == 0 then ""
    else
      var (c, n) := Entity(s);
      [c] + Unescape(s[n..])
  }

  lemma EntityReads(c: char, attribute: bool, rest: string)
    ensures Entity(Escaped(c, attribute) + rest) == (c, |Escaped(c, attribute)|)
  {
    var s := Escaped(c, attribute) + rest;
    assert forall i :: 0 <= i < |Escaped(c, attribute)| ==> s[i] == Escaped(c, attribute)[i];
    assert c == '&' ==> s[..5] == "&amp;";
    assert c == '<' ==> s[..4] == "&lt;" && s[1] == 'l';
    assert c == '>' ==> s[..4] == "&gt;" && s[1] == 'g';
    assert attribute && c == '"' ==> s[..6] == "&quot;" && s[1] == 'q';
    assert attribute && c == '\t' ==> s[..4] == "&#9;" && s[1] == '#' && s[2] == '9';
    assert attribute && c == '\n' ==> s[..5] == "&#10;" && s[1] == '#' && s[2] == '1' && s[3] == '0';
    assert attribute && c == '\r' ==> s[..5] == "&#13;" && s[1] == '#' && s[2] == '1' && s[3] == '3';
    NotStarts(s);
  }

  /** What an early character rules out. */
  lemma NotStarts(s: string)
    ensures |s| > 0 && s[0] != '&' ==> !Starts(s, "&amp;") && !Starts(s, "&lt;") && !Starts(s, "&gt;")
    ensures |s| > 0 && s[0] != '&'
      ==> !Starts(s, "&quot;") && !Starts(s, "&#9;") && !Starts(s, "&#10;") && !Starts(s, "&#13;")
    ensures |s| > 1 && s[1] != 'a' ==> !Starts(s, "&amp;")
    ensures |s| > 1 && s[1] != 'l' ==> !Starts(s, "&lt;")
    ensures |s| > 1 && s[1] != 'g' ==> !Starts(s, "&gt;")
    ensures |s| > 1 && s[1] != 'q' ==> !Starts(s, "&quot;")
    ensures |s| > 2 && s[2] != '9' ==> !Starts(s, "&#9;")
    ensures |s| > 3 && s[3] != '0' ==> !Starts(s, "&#10;")
  {
    assert |s| >= 5 ==> s[..5][0] == s[0] && s[..5][1] == s[1] && s[..5][3] == s[3];
    assert |s| >= 4 ==> s[..4][0] == s[0] && s[..4][1] == s[1] && s[..4][2] == s[2];
    assert |s| >= 6 ==> s[..6][0] == s[0] && s[..6][1] == s[1];
  }

  lemma {:induction false} EscapedHead(s: string, attribute: bool)
    requires |s| > 0
    ensures EscapedAll(s, attribute) == Escaped(s[0], attribute) + EscapedAll(s[1..], attribute)
    decreases |s|
  {
    var n := |s| - 1;
    if n > 0 {
      EscapedHead(s[..n], attribute);
      assert s[..n][1..] == s[1..][..n - 1];
      assert s[1..][n - 1] == s[n];
    } else {
      assert s[..0] == "" && s[1..] == "";
    }
  }

  /** Unescaping undoes escaping, for any text. */
  lemma {:induction false} UnescapeUndoes(s: string, attribute: bool)
    ensures Unescape(EscapedAll(s, attribute)) == s
  {
    if |s| > 0 {
      var e, rest := Escaped(s[0], attribute), EscapedAll(s[1..], attribute);
      EscapedHead(s, attribute);
      EntityReads(s[0], attribute, rest);
      assert (e + rest)[|e|..] == rest;
      UnescapeUndoes(s[1..], attribute);
      assert s == [s[0]] + s[1..];
    }
  }

  // The block.

  /** A frozen card, with the rank and memory id that order it. */
  datatype Card = Card(rank: int, memory: int, title: string, kind: string, updated: string, body: string)

  /** What a reader of the block sees of a card. */
  datatype Shown = Shown(title: string, kind: string, updated: string, body: string)

  predicate CardBefore(a: Card, b: Card) {
    a.rank < b.rank || (a.rank == b.rank && a.memory < b.memory)
  }

  const OPEN := "<memory_system>"
  const PREAMBLE_1 := "The following long-term memories were retrieved for this conversation."
  const PREAMBLE_2 := "Treat them as your own accumulated knowledge; they may be imperfect."
  const CLOSE := "</memory_system>"

  const TITLE_OPENS := "<memory label=\""
  const KIND_OPENS := "\" kind=\""
  const UPDATED_OPENS := "\" updated=\""
  const BODY_OPENS := "\">\n"
  const CARD_CLOSES := "</memory>\n"

  function HeadLine(c: Card): string {
    TITLE_OPENS + EscapeAttribute(c.title) + KIND_OPENS + EscapeAttribute(c.kind)
    + UPDATED_OPENS + EscapeAttribute(c.updated) + "\">"
  }

  function LinesOf(cards: seq<Card>): seq<string> {
    if |cards| == 0 then []
    else
      var c := cards[|cards| - 1];
      LinesOf(cards[..|cards| - 1]) + [HeadLine(c), EscapeBody(c.body), "</memory>"]
  }

  function Join(lines: seq<string>): string {
    if |lines| == 0 then ""
    else if |lines| == 1 then lines[0]
    else Join(lines[..|lines| - 1]) + "\n" + lines[|lines| - 1]
  }

  function Render(cards: seq<Card>): string {
    Join([OPEN, PREAMBLE_1, PREAMBLE_2] + LinesOf(SortBy(CardBefore, cards)) + [CLOSE])
  }

  method RenderFinalBlock(cards: seq<Card>) returns (text: string)
    ensures text == Render(cards)
  {
    var lines := ExtendLines([OPEN, PREAMBLE_1, PREAMBLE_2], SortBy(CardBefore, cards));
    text := Join(lines + [CLOSE]);
  }

  /** Three lines per card are added to the lines. */
  method ExtendLines(start: seq<string>, cards: seq<Card>) returns (lines: seq<string>)
    ensures lines == start + LinesOf(cards)
  {
    lines := start;
    for i := 0 to |cards|
      invariant lines == start + LinesOf(cards[..i])
    {
      MoreLines(start, cards, i);
      hide HeadLine, EscapeBody, LinesOf;
      lines := lines + [HeadLine(cards[i]), EscapeBody(cards[i].body), "</memory>"];
    }
    assert cards[..|cards|] == cards;
  }

  lemma MoreLines(start: seq<string>, cards: seq<Card>, i: nat)
    requires i < |cards|
    ensures start + LinesOf(cards[..i + 1])
      == start + LinesOf(cards[..i]) + [HeadLine(cards[i]), EscapeBody(cards[i].body), "</memory>"]
  {
    assert cards[..i + 1][..i] == cards[..i];
    hide HeadLine, EscapeBody;
  }

  // The decoder.

  /** The text up to the stop character, and the rest from there. */
  function Until(text: string, stop: char): (string, string) {
    if |text| == 0 || text[0] == stop then ("", text)
    else
      var (value, rest) := Until(text[1..], stop);
      ([text[0]] + value, rest)
  }

  /** After the given opening, the text up to the stop character, and the rest from there. */
  function Field(text: string, opening: string, stop: char): Option<(string, string)> {
    if Starts(text, opening) then Some(Until(text[|opening|..], stop)) else None
  }

  lemma {:induction false} UntilShrinks(text: string, stop: char)
    ensures |Until(text, stop).1| <= |text|
  {
    if |text| > 0 && text[0] != stop {
      UntilShrinks(text[1..], stop);
    }
  }

  lemma FieldShrinks(text: string, opening: string, stop: char)
    ensures Field(text, opening, stop).Some? ==> |Field(text, opening, stop).value.1| <= |text| - |opening|
  {
    if Starts(text, opening) {
      UntilShrinks(text[|opening|..], stop);
    }
  }

  /** One card at the start of the text, and the text after it. */
  function DecodeCard(text: string): (r: Option<(Shown, string)>)
    ensures r.Some? ==> |r.value.1| < |text|
  {
    FieldShrinks(text, TITLE_OPENS, '"');
    var title := Field(text, TITLE_OPENS, '"');
    if title.None? then None
    else
      FieldShrinks(title.value.1, KIND_OPENS, '"');
      var kind := Field(title.value.1, KIND_OPENS, '"');
      if kind.None? then None
      else
        FieldShrinks(kind.value.1, UPDATED_OPENS, '"');
        var updated := Field(kind.value.1, UPDATED_OPENS, '"');
        if updated.None? then None
        else
          FieldShrinks(updated.value.1, BODY_OPENS, '<');
          var body := Field(updated.value.1, BODY_OPENS, '<');
          if body.None? || |body.value.0| == 0 || !Starts(body.value.1, CARD_CLOSES) then None
          else
            Some((Shown(Unescape(title.value.0), Unescape(kind.value.0), Unescape(updated.value.0),
                        Unescape(body.value.0[..|body.value.0| - 1])),
                  body.value.1[|CARD_CLOSES|..]))
  }

  function DecodeCards(text: string): Option<seq<Shown>>
    decreases |text|
  {
    if text == CLOSE then Some([])
    else
      var card := DecodeCard(text);
      if card.None? then None
      else
        var rest := DecodeCards(card.value.1);
        if rest.None? then None else Some([card.value.0] + rest.value)
  }

  const HEADER := OPEN + "\n" + PREAMBLE_1 + "\n" + PREAMBLE_2 + "\n"

  function Decode(text: string): Option<seq<Shown>> {
    if Starts(text, HEADER) then DecodeCards(text[|HEADER|..]) else None
  }

  // Reading back what was printed.

  lemma {:induction false} UntilReads(value: string, rest: string, stop: char)
    requires stop !in value && |rest| > 0 && rest[0] == stop
    ensures Until(value + rest, stop) == (value, rest)
  {
    if |value| == 0 {
      assert value + rest == rest;
    } else {
      UntilReads(value[1..], rest, stop);
      assert (value + rest)[1..] == value[1..] + rest;
      assert value == [value[0]] + value[1..];
    }
  }

  lemma FieldReads(opening: string, value: string, rest: string, stop: char)
    requires stop !in value && |rest| > 0 && rest[0] == stop
    ensures Field(opening + (value + rest), opening, stop) == Some((value, rest))
  {
    var text := opening + (value + rest);
    assert text[..|opening|] == opening && text[|opening|..] == value + rest;
    UntilReads(value, rest, stop);
  }

  /** A card as it stands in the text before the rest. */
  function CardThen(c: Card, rest: string): string {
    TITLE_OPENS + (EscapeAttribute(c.title) + KindThen(c, rest))
  }

  function KindThen(c: Card, rest: string): string {
    KIND_OPENS + (EscapeAttribute(c.kind) + UpdatedThen(c, rest))
  }

  function UpdatedThen(c: Card, rest: string): string {
    UPDATED_OPENS + (EscapeAttribute(c.updated) + BodyThen(c, rest))
  }

  function BodyThen(c: Card, rest: string): string {
    BODY_OPENS + ((EscapeBody(c.body) + "\n") + (CARD_CLOSES + rest))
  }

  function ShownOf(c: Card): Shown {
    Shown(c.title, c.kind, c.updated, c.body)
  }

  lemma AttributeSafe(s: string)
    ensures '"' !in EscapeAttribute(s) && Unescape(EscapeAttribute(s)) == s
  {
    ChainsArePerCharacter(s);
    EscapedIsSafe(s, true);
    UnescapeUndoes(s, true);
    hide EscapeAttribute;
  }

  lemma BodySafe(s: string)
    ensures '<' !in EscapeBody(s) && Unescape(EscapeBody(s)) == s
  {
    ChainsArePerCharacter(s);
    EscapedIsSafe(s, false);
    UnescapeUndoes(s, false);
    hide EscapeBody;
  }

  lemma CardReads(c: Card, rest: string)
    ensures DecodeCard(CardThen(c, rest)) == Some((ShownOf(c), rest))
  {
    AttributeSafe(c.title);
    AttributeSafe(c.kind);
    AttributeSafe(c.updated);
    BodySafe(c.body);
    var body := EscapeBody(c.body) + "\n";
    var closing := CARD_CLOSES + rest;
    assert '<' !in body;
    assert closing[..|CARD_CLOSES|] == CARD_CLOSES && closing[|CARD_CLOSES|..] == rest;
    assert body[..|body| - 1] == EscapeBody(c.body);
    assert closing[0] == '<';
    hide EscapeAttribute, EscapeBody, Field, Unescape;
    FieldReads(BODY_OPENS, body, closing, '<');
    FieldReads(UPDATED_OPENS, EscapeAttribute(c.updated), BodyThen(c, rest), '"');
    FieldReads(KIND_OPENS, EscapeAttribute(c.kind), UpdatedThen(c, rest), '"');
    FieldReads(TITLE_OPENS, EscapeAttribute(c.title), KindThen(c, rest), '"');
  }

  lemma CardIsNotTheEnd(c: Card, rest: string)
    ensures CardThen(c, rest) != CLOSE
  {
    hide EscapeAttribute, KindThen;
    assert CardThen(c, rest)[1] == 'm' && CLOSE[1] == '/';
  }

  /** The cards one after the other, then the end. */
  function CardsThen(cards: seq<Card>, end: string): string {
    if |cards| == 0 then end else CardThen(cards[0], CardsThen(cards[1..], end))
  }

  function AllShown(cards: seq<Card>): (r: seq<Shown>)
    ensures |r| == |cards| && forall i :: 0 <= i < |r| ==> r[i] == ShownOf(cards[i])
  {
    seq(|cards|, i requires 0 <= i < |cards| => ShownOf(cards[i]))
  }

  lemma DecodeOneMore(text: string, card: Shown, rest: string, shown: seq<Shown>)
    requires text != CLOSE && DecodeCard(text) == Some((card, rest)) && DecodeCards(rest) == Some(shown)
    ensures DecodeCards(text) == Some([card] + shown)
  {
    hide DecodeCard;
  }

  lemma DecodeNone()
    ensures DecodeCards(CLOSE) == Some([])
  {
    hide DecodeCard;
  }

  lemma {:induction false} CardsRead(cards: seq<Card>)
    ensures DecodeCards(CardsThen(cards, CLOSE)) == Some(AllShown(cards))
  {
    hide CardThen, DecodeCard, DecodeCards, AllShown, ShownOf;
    if |cards| == 0 {
      DecodeNone();
      assert AllShown(cards) == [];
    } else {
      var rest := CardsThen(cards[1..], CLOSE);
      CardsRead(cards[1..]);
      CardReads(cards[0], rest);
      CardIsNotTheEnd(cards[0], rest);
      assert AllShown(cards) == [ShownOf(cards[0])] + AllShown(cards[1..]);
      DecodeOneMore(CardsThen(cards, CLOSE), ShownOf(cards[0]), rest, AllShown(cards[1..]));
    }
  }

  // The joined lines are the cards one after the other.

  lemma {:induction false} JoinCards(cards: seq<Card>, start: seq<string>, end: string)
    requires |start| > 0
    ensures Join(start + LinesOf(cards) + [end]) == Join(start) + "\n" + CardsThen(cards, end)
    decreases |cards|
  {
    if |cards| == 0 {
      assert start + LinesOf(cards) + [end] == start + [end];
      JoinOne(start, end);
    } else {
      var n := |cards| - 1;
      var c := cards[n];
      var head := start + LinesOf(cards[..n]);
      assert start + LinesOf(cards) == head + [HeadLine(c), EscapeBody(c.body), "</memory>"];
      LastCard(cards, end);
      hide LinesOf, CardsThen, HeadLine, EscapeBody, CardThen;
      JoinThree(head, HeadLine(c), EscapeBody(c.body), "</memory>", end);
      var tail := HeadLine(c) + "\n" + EscapeBody(c.body) + "\n" + "</memory>" + "\n" + end;
      JoinCards(cards[..n], start, tail);
      JoinOne(head, tail);
      CardIsItsLines(c, end);
    }
  }

  lemma JoinOne(lines: seq<string>, line: string)
    requires |lines| > 0
    ensures Join(lines + [line]) == Join(lines) + "\n" + line
  {
    assert (lines + [line])[..|lines|] == lines;
  }

  lemma Associates(a: string, b: string, c: string)
    ensures (a + b) + c == a + (b + c)
  {
  }

  lemma JoinTwo(lines: seq<string>, a: string, b: string)
    requires |lines| > 0
    ensures Join(lines + [a] + [b]) == Join(lines + [a + "\n" + b])
  {
    JoinOne(lines, a);
    JoinOne(lines + [a], b);
    JoinOne(lines, a + "\n" + b);
    hide Join;
    Associates(Join(lines) + "\n", a, "\n" + b);
    Associates(Join(lines) + "\n" + a, "\n", b);
    Associates(a, "\n", b);
  }

  lemma JoinSame(one: seq<string>, two: seq<string>, line: string)
    requires |one| > 0 && |two| > 0 && Join(one) == Join(two)
    ensures Join(one + [line]) == Join(two + [line])
  {
    JoinOne(one, line);
    JoinOne(two, line);
  }

  lemma OneByOne(lines: seq<string>, a: string, b: string, c: string, d: string)
    ensures lines + [a, b, c] + [d] == lines + [a] + [b] + [c] + [d]
  {
  }

  lemma JoinThree(lines: seq<string>, a: string, b: string, c: string, d: string)
    requires |lines| > 0
    ensures Join(lines + [a, b, c] + [d]) == Join(lines) + "\n" + (a + "\n" + b + "\n" + c + "\n" + d)
  {
    hide Join;
    OneByOne(lines, a, b, c, d);
    var ab := a + "\n" + b;
    var abc := ab + "\n" + c;
    JoinTwo(lines, a, b);
    JoinSame(lines + [a] + [b], lines + [ab], c);
    JoinTwo(lines, ab, c);
    JoinSame(lines + [a] + [b] + [c], lines + [abc], d);
    JoinTwo(lines, abc, d);
    JoinOne(lines, abc + "\n" + d);
  }

  lemma CardIsItsLines(c: Card, rest: string)
    ensures HeadLine(c) + "\n" + EscapeBody(c.body) + "\n" + "</memory>" + "\n" + rest == CardThen(c, rest)
  {
    hide EscapeBody, EscapeAttribute;
    assert BODY_OPENS == "\">" + "\n" && CARD_CLOSES == "</memory>" + "\n";
  }

  lemma {:induction false} LastCard(cards: seq<Card>, end: string)
    requires |cards| > 0
    ensures CardsThen(cards, end) == CardsThen(cards[..|cards| - 1], CardThen(cards[|cards| - 1], end))
    decreases |cards|
  {
    var n := |cards| - 1;
    hide CardThen;
    if n > 0 {
      LastCard(cards[1..], end);
      assert cards[1..][..n - 1] == cards[..n][1..];
    }
  }

  /** The block read back gives the cards in rank order, whatever text they hold. */
  lemma DecodeUndoesRender(cards: seq<Card>)
    ensures Decode(Render(cards)) == Some(AllShown(SortBy(CardBefore, cards)))
  {
    var ordered := SortBy(CardBefore, cards);
    var start := [OPEN, PREAMBLE_1, PREAMBLE_2];
    JoinCards(ordered, start, CLOSE);
    JoinOne([OPEN], PREAMBLE_1);
    JoinOne([OPEN] + [PREAMBLE_1], PREAMBLE_2);
    assert start == [OPEN] + [PREAMBLE_1] + [PREAMBLE_2];
    CardsRead(ordered);
    hide SortBy, CardsThen, LinesOf, DecodeCards, AllShown, Join;
    var text := Render(cards);
    assert text == HEADER + CardsThen(ordered, CLOSE);
    assert text[..|HEADER|] == HEADER && text[|HEADER|..] == CardsThen(ordered, CLOSE);
  }

  /** Two blocks are the same text only if they show the same cards in the same order. */
  lemma SameBlockSameCards(a: seq<Card>, b: seq<Card>)
    requires Render(a) == Render(b)
    ensures AllShown(SortBy(CardBefore, a)) == AllShown(SortBy(CardBefore, b))
  {
    DecodeUndoesRender(a);
    DecodeUndoesRender(b);
  }

  /** Cards come by rank, then by memory. */
  lemma RankOrder(cards: seq<Card>, i: nat, j: nat)
    requires i < j < |cards|
    ensures var a, b := SortBy(CardBefore, cards)[i], SortBy(CardBefore, cards)[j];
      a.rank < b.rank || (a.rank == b.rank && a.memory <= b.memory)
  {
    SortSorts(CardBefore, cards);
    hide SortBy;
    assert !CardBefore(SortBy(CardBefore, cards)[j], SortBy(CardBefore, cards)[i]);
  }

  lemma SevenLines(a: string, b: string, c: string, d: string, e: string, f: string, g: string)
    ensures Join([a, b, c, d]) == a + "\n" + b + "\n" + c + "\n" + d
    ensures Join([a, b, c, d, e, f, g])
         == a + "\n" + b + "\n" + c + "\n" + d + "\n" + e + "\n" + f + "\n" + g
  {
    assert [a] + [b] == [a, b];
    assert [a, b] + [c] == [a, b, c];
    assert [a, b, c] + [d] == [a, b, c, d];
    assert [a, b, c, d] + [e] == [a, b, c, d, e];
    assert [a, b, c, d, e] + [f] == [a, b, c, d, e, f];
    assert [a, b, c, d, e, f] + [g] == [a, b, c, d, e, f, g];
    JoinOne([a], b);
    JoinOne([a, b], c);
    JoinOne([a, b, c], d);
    JoinOne([a, b, c, d], e);
    JoinOne([a, b, c, d, e], f);
    JoinOne([a, b, c, d, e, f], g);
  }

  lemma LinesOfBlock(c: Card, open: string, one: string, two: string, close: string)
    ensures [open, one, two] + LinesOf(SortBy(CardBefore, [])) + [close] == [open, one, two, close]
    ensures [open, one, two] + LinesOf(SortBy(CardBefore, [c])) + [close]
         == [open, one, two, HeadLine(c), EscapeBody(c.body), "</memory>", close]
  {
    hide HeadLine, EscapeBody;
    assert SortBy(CardBefore, [c]) == [c];
    assert [c][..0] == [];
    assert LinesOf([c]) == [HeadLine(c), EscapeBody(c.body), "</memory>"];
  }

  /** The block around the cards, and the form of one card, line by line. */
  lemma BlockWrittenOut(c: Card)
    ensures Render([]) == "<memory_system>" + "\n"
      + "The following long-term memories were retrieved for this conversation." + "\n"
      + "Treat them as your own accumulated knowledge; they may be imperfect." + "\n"
      + "</memory_system>"
    ensures Render([c]) == "<memory_system>" + "\n"
      + "The following long-term memories were retrieved for this conversation." + "\n"
      + "Treat them as your own accumulated knowledge; they may be imperfect." + "\n"
      + ("<memory label=\"" + EscapedAll(c.title, true) + "\" kind=\"" + EscapedAll(c.kind, true)
         + "\" updated=\"" + EscapedAll(c.updated, true) + "\">") + "\n"
      + EscapedAll(c.body, false) + "\n"
      + "</memory>" + "\n"
      + "</memory_system>"
  {
    ChainsArePerCharacter(c.title);
    ChainsArePerCharacter(c.kind);
    ChainsArePerCharacter(c.updated);
    ChainsArePerCharacter(c.body);
    LinesOfBlock(c, OPEN, PREAMBLE_1, PREAMBLE_2, CLOSE);
    SevenLines(OPEN, PREAMBLE_1, PREAMBLE_2, CLOSE, "", "", "");
    SevenLines(OPEN, PREAMBLE_1, PREAMBLE_2, HeadLine(c), EscapeBody(c.body), "</memory>", CLOSE);
    hide EscapeAttribute, EscapeBody, EscapedAll, Join, LinesOf, SortBy;
  }
}
