/**
 The backslash decoder of the boundary scanner (scripts/check_public_boundary.py): one left-to-right
 substitution of `\uXXXX`, `\xXX` and the short escapes. Text is a sequence of code points, because
 an escape may name a lone surrogate, which a Dafny `char` cannot hold.
 */
module BackslashEscapes {
  type CodePoint = c: int | 0 <= c < 0x110000

  type Text = seq<CodePoint>

  const BACKSLASH: CodePoint := 0x5C
  const LOWER_U: CodePoint := 0x75
  const LOWER_X: CodePoint := 0x78

  /** What the letter of a short escape stands for. */
  const SHORT_ESCAPES: map<CodePoint, CodePoint> := map[
    0x5C := 0x5C, 0x2F := 0x2F, 0x22 := 0x22,
    0x62 := 0x08, 0x66 := 0x0C, 0x6E := 0x0A, 0x72 := 0x0D, 0x74 := 0x09]

  predicate IsHex(c: CodePoint) {
    0x30 <= c <= 0x39 || 0x41 <= c <= 0x46 || 0x61 <= c <= 0x66
  }

  function HexValue(c: CodePoint): (n: nat)
    requires IsHex(c)
    ensures n < 16
  {
    if c <= 0x39 then c - 0x30 else if c <= 0x46 then c - 0x41 + 10 else c - 0x61 + 10
  }

  const LOWER_DIGITS := "0123456789abcdef"
  const UPPER_DIGITS := "0123456789ABCDEF"

  /** Every digit, in either case, has its place among the digits as its value. */
  lemma DigitsRead(n: nat)
    requires n < 16
    ensures var c := "0123456789abcdef"[n] as int; IsHex(c) && HexValue(c) == n
    ensures var c := "0123456789ABCDEF"[n] as int; IsHex(c) && HexValue(c) == n
  {
    assert LOWER_DIGITS[n] as int == if n < 10 then 0x30 + n else 0x57 + n;
    assert UPPER_DIGITS[n] as int == if n < 10 then 0x30 + n else 0x37 + n;
  }

  /** Nothing else is a digit. */
  lemma OnlyDigits(c: CodePoint)
    requires IsHex(c)
    ensures c == "0123456789abcdef"[HexValue(c)] as int || c == "0123456789ABCDEF"[HexValue(c)] as int
  {
  }

  /** The short escapes are a backslash before one of eight characters: backslash (0x5C), slash and quotation mark
      (0x22) stand for themselves, the letters for the control characters backspace, form feed, line feed, carriage
      return and tab. */
  lemma ShortEscapesRead()
    ensures SHORT_ESCAPES == map[0x5C := 0x5C, '/' as int := '/' as int, 0x22 := 0x22,
                                 'b' as int := 8, 'f' as int := 12, 'n' as int := 10, 'r' as int := 13, 't' as int := 9]
  {
  }

  /** Length of the escape at the start of the text, 0 if there is none. */
  function EscapeLength(s: Text): (n: nat)
    ensures n <= |s| && n != 1
  {
    if |s| < 2 || s[0] != BACKSLASH then 0
    else if s[1] == LOWER_U then
      if |s| >= 6 && IsHex(s[2]) && IsHex(s[3]) && IsHex(s[4]) && IsHex(s[5]) then 6 else 0
    else if s[1] == LOWER_X then
      if |s| >= 4 && IsHex(s[2]) && IsHex(s[3]) then 4 else 0
    else if s[1] in SHORT_ESCAPES then 2 else 0
  }

  function EscapeValue(s: Text): CodePoint
    requires EscapeLength(s) > 0
  {
    if s[1] == LOWER_U then
      HexValue(s[2]) * 0x1000 + HexValue(s[3]) * 0x100 + HexValue(s[4]) * 0x10 + HexValue(s[5])
    else if s[1] == LOWER_X then HexValue(s[2]) * 0x10 + HexValue(s[3])
    else SHORT_ESCAPES[s[1]]
  }

  /** All of `s[from..to]` is there and consists of hexadecimal digits. */
  predicate HexBetween(s: Text, from: nat, to: nat) {
    to <= |s| && forall i :: from <= i < to ==> IsHex(s[i])
  }

  /** What an escape at the start of a text is, character by character, and what it stands for. */
  lemma EscapeMeaning(s: Text)
    ensures var after := if |s| > 1 && s[0] == 0x5C then s[1] else 0;
            EscapeLength(s) == if after == 'u' as int && HexBetween(s, 2, 6) then 6
                               else if after == 'x' as int && HexBetween(s, 2, 4) then 4
                               else if after != 0 && after in SHORT_ESCAPES then 2
                               else 0
    ensures EscapeLength(s) == 6 ==>
              EscapeValue(s) == ((HexValue(s[2]) * 16 + HexValue(s[3])) * 16 + HexValue(s[4])) * 16 + HexValue(s[5])
    ensures EscapeLength(s) == 4 ==> EscapeValue(s) == HexValue(s[2]) * 16 + HexValue(s[3])
    ensures EscapeLength(s) == 2 ==> EscapeValue(s) == SHORT_ESCAPES[s[1]]
  {
  }

  /** `search`: some suffix starts with an escape. */
  predicate HasEscape(s: Text) {
    s != [] && (EscapeLength(s) > 0 || HasEscape(s[1..]))
  }

  /** `sub`: every escape met from left to right is replaced by the character it names. */
  function Unescape(s: Text): Text {
    if s == [] then []
    else if EscapeLength(s) > 0 then [EscapeValue(s)] + Unescape(s[EscapeLength(s)..])
    else [s[0]] + Unescape(s[1..])
  }

  /** A pass that matches anything strictly shortens the text; one that matches nothing leaves it. */
  lemma {:induction false} UnescapeShortens(s: Text)
    ensures |Unescape(s)| <= |s|
    ensures HasEscape(s) ==> |Unescape(s)| < |s|
    ensures !HasEscape(s) ==> Unescape(s) == s
  {
    if s != [] {
      if EscapeLength(s) > 0 {
        UnescapeShortens(s[EscapeLength(s)..]);
      } else {
        UnescapeShortens(s[1..]);
        assert s == [s[0]] + s[1..];
      }
    }
  }

  function Passes(s: Text, n: nat): Text {
    if n == 0 then s else Unescape(Passes(s, n - 1))
  }

  /** Repeated decoding reaches a text without escapes after at most one pass for each character,
      and stays there. */
  lemma {:induction false} PassesSettle(s: Text, n: nat)
    ensures !HasEscape(Passes(s, n)) || |Passes(s, n)| + n <= |s|
    ensures n >= |s| ==> !HasEscape(Passes(s, n)) && Passes(s, n + 1) == Passes(s, n)
  {
    UnescapeShortens(Passes(s, n));
    if n > 0 {
      PassesSettle(s, n - 1);
      UnescapeShortens(Passes(s, n - 1));
    }
  }

  // ----- spellings: every way to write a text with escapes

  predicate AllValid(tokens: seq<Token>) {
    forall t :: t in tokens ==> t.Valid()
  }

  function Meaning(tokens: seq<Token>): Text
    requires AllValid(tokens)
  {
    seq(|tokens|, i requires 0 <= i < |tokens| => assert tokens[i] in tokens; tokens[i].Meaning())
  }

  datatype Token =
    | Plain(c: CodePoint)
    | Unicode(d3: CodePoint, d2: CodePoint, d1: CodePoint, d0: CodePoint)
    | HexPair(d1: CodePoint, d0: CodePoint)
    | Short(letter: CodePoint)
  {
    predicate Valid() {
      match this
      case Plain(c) => c != BACKSLASH
      case Unicode(d3, d2, d1, d0) => IsHex(d3) && IsHex(d2) && IsHex(d1) && IsHex(d0)
      case HexPair(d1, d0) => IsHex(d1) && IsHex(d0)
      case Short(letter) => letter in SHORT_ESCAPES
    }

    function Spelling(): Text {
      match this
      case Plain(c) => [c]
      case Unicode(d3, d2, d1, d0) => [BACKSLASH, LOWER_U, d3, d2, d1, d0]
      case HexPair(d1, d0) => [BACKSLASH, LOWER_X, d1, d0]
      case Short(letter) => [BACKSLASH, letter]
    }

    function Meaning(): CodePoint
      requires Valid()
    {
      match this
      case Plain(c) => c
      case Unicode(d3, d2, d1, d0) => HexValue(d3) * 0x1000 + HexValue(d2) * 0x100 + HexValue(d1) * 0x10 + HexValue(d0)
      case HexPair(d1, d0) => HexValue(d1) * 0x10 + HexValue(d0)
      case Short(letter) => SHORT_ESCAPES[letter]
    }
  }

  function Spell(tokens: seq<Token>): Text {
    if tokens == [] then [] else tokens[0].Spelling() + Spell(tokens[1..])
  }

  lemma FirstToken(t: Token, rest: Text)
    requires t.Valid()
    ensures Unescape(t.Spelling() + rest) == [t.Meaning()] + Unescape(rest)
  {
    var s := t.Spelling() + rest;
    assert s[|t.Spelling()|..] == rest;
    if t.Plain? {
      assert EscapeLength(s) == 0;
    } else {
      assert EscapeLength(s) == |t.Spelling()| && EscapeValue(s) == t.Meaning();
    }
  }

  /** Decoding any spelling of a text, in any mixture of escapes, gives the text back. */
  lemma {:induction false} SpellingDecodes(tokens: seq<Token>)
    requires AllValid(tokens)
    ensures Unescape(Spell(tokens)) == Meaning(tokens)
  {
    if tokens != [] {
      assert tokens[0] in tokens && forall t :: t in tokens[1..] ==> t in tokens;
      SpellingDecodes(tokens[1..]);
      FirstToken(tokens[0], Spell(tokens[1..]));
      assert Meaning(tokens) == [tokens[0].Meaning()] + Meaning(tokens[1..]);
    }
  }

  ghost predicate Spells(e: Text, t: Text) {
    exists tokens :: AllValid(tokens) && Spell(tokens) == e && Meaning(tokens) == t
  }

  lemma SpellsDecodes(e: Text, t: Text)
    requires Spells(e, t)
    ensures Unescape(e) == t
  {
    var tokens :| AllValid(tokens) && Spell(tokens) == e && Meaning(tokens) == t;
    SpellingDecodes(tokens);
  }

  /** A digit, spelled in lower or in upper case. */
  function HexDigit(n: nat, upper: bool): (c: CodePoint)
    requires n < 16
    ensures IsHex(c) && HexValue(c) == n
    ensures c == if upper then UPPER_DIGITS[n] as int else LOWER_DIGITS[n] as int
  {
    if n < 10 then 0x30 + n else if upper then 0x41 + n - 10 else 0x61 + n - 10
  }

  /** Only characters of the Basic Multilingual Plane. */
  predicate InPlane(t: Text) {
    forall c :: c in t ==> c < 0x10000
  }

  /** `\uXXXX` for one character (section 7 of RFC 8259). */
  function UnicodeToken(c: CodePoint, upper: bool): (t: Token)
    requires c < 0x10000
    ensures t.Valid() && t.Meaning() == c && t.Unicode?
  {
    var q1 := c / 0x10;
    var q2 := q1 / 0x10;
    var q3 := q2 / 0x10;
    assert c == q1 * 0x10 + c % 0x10 && q1 == q2 * 0x10 + q1 % 0x10 && q2 == q3 * 0x10 + q2 % 0x10;
    Unicode(HexDigit(q3, upper), HexDigit(q2 % 0x10, upper), HexDigit(q1 % 0x10, upper), HexDigit(c % 0x10, upper))
  }

  function UnicodeTokens(t: Text, upper: bool): (tokens: seq<Token>)
    requires InPlane(t)
    ensures AllValid(tokens) && forall k :: k in tokens ==> k.Unicode?
  {
    seq(|t|, i requires 0 <= i < |t| => assert t[i] in t; UnicodeToken(t[i], upper))
  }

  lemma {:induction false} SpelledInPlane(tokens: seq<Token>)
    requires AllValid(tokens) && forall t :: t in tokens ==> t.Unicode?
    ensures InPlane(Spell(tokens))
  {
    if tokens != [] {
      assert tokens[0] in tokens && forall t :: t in tokens[1..] ==> t in tokens;
      SpelledInPlane(tokens[1..]);
    }
  }

  /** The text written wholly as `\uXXXX` escapes, `layers` times over, with digits of either case. */
  function Escaped(t: Text, layers: nat, upper: bool): (e: Text)
    requires InPlane(t)
    ensures InPlane(e)
  {
    if layers == 0 then t else
    var tokens := UnicodeTokens(Escaped(t, layers - 1, upper), upper);
    SpelledInPlane(tokens);
    Spell(tokens)
  }

  lemma EscapedSpells(t: Text, layers: nat, upper: bool)
    requires InPlane(t) && layers > 0
    ensures Spells(Escaped(t, layers, upper), Escaped(t, layers - 1, upper))
  {
    var inner := Escaped(t, layers - 1, upper);
    assert Meaning(UnicodeTokens(inner, upper)) == inner;
  }

  /** The texts between a text written wholly as escapes and the plain text, each spelling the next. */
  lemma {:induction false} LayersSpell(t: Text, layers: nat, upper: bool) returns (chain: seq<Text>)
    requires InPlane(t)
    ensures |chain| == layers + 1 && chain[0] == Escaped(t, layers, upper) && chain[layers] == t
    ensures forall i :: 0 <= i < layers ==> Spells(chain[i], chain[i + 1])
  {
    if layers == 0 {
      chain := [t];
    } else {
      var rest := LayersSpell(t, layers - 1, upper);
      EscapedSpells(t, layers, upper);
      chain := [Escaped(t, layers, upper)] + rest;
    }
  }

  /** Each pass leads from one text of such a chain to the next. */
  lemma {:induction false} SpelledChainDecodes(chain: seq<Text>, n: nat)
    requires n < |chain| && forall i :: 0 <= i < |chain| - 1 ==> Spells(chain[i], chain[i + 1])
    ensures Passes(chain[0], n) == chain[n]
  {
    if n > 0 {
      SpelledChainDecodes(chain, n - 1);
      SpellsDecodes(chain[n - 1], chain[n]);
    }
  }

  /** A text written wholly as escapes, in any number of layers, loses one layer at each pass. */
  lemma EscapedDecodes(t: Text, layers: nat, upper: bool)
    requires InPlane(t)
    ensures Passes(Escaped(t, layers, upper), layers) == t
    ensures layers > 0 ==> Unescape(Escaped(t, layers, upper)) == Escaped(t, layers - 1, upper)
  {
    var chain := LayersSpell(t, layers, upper);
    SpelledChainDecodes(chain, layers);
    if layers > 0 {
      EscapedSpells(t, layers, upper);
      SpellsDecodes(Escaped(t, layers, upper), Escaped(t, layers - 1, upper));
    }
  }
}
