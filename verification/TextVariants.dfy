/**
 The scanner's closure of a text under three decoders (scripts/check_public_boundary.py).
 Percent and HTML decoding are parameters: nothing is assumed about them.
 */
module TextVariants {
  import opened Basics
  import Closures
  import opened BackslashEscapes

  datatype Decoders = Decoders(unquote: Text -> Text, unescape: Text -> Text) {
    /** One decoder application; the backslash decoder applies only where an escape is found. */
    function Apply(d: Closures.Decoder, s: Text): Option<Text> {
      match d
      case Percent => Some(unquote(s))
      case Html => Some(unescape(s))
      case Backslash => if HasEscape(s) then Some(Unescape(s)) else None
    }

    function Images(s: Text): set<Text> {
      {unquote(s), unescape(s)} + if HasEscape(s) then {Unescape(s)} else {}
    }

    function Step(): (Closures.Decoder, Text) -> Option<Text> { (d, s) => Apply(d, s) }

    function Steps(): Text -> set<Text> { s => Images(s) }

    /** The naive closure: everything at most `n` decoder applications away. */
    function Reach(s: Text, n: nat): set<Text> {
      Closures.Reach(Steps(), s, n)
    }

    lemma ImagesAreNamed()
      ensures Closures.Named(Step(), Steps())
    {
      forall s, t | t in Steps()(s)
        ensures Closures.Leads(Step(), s, t)
      {
        var d := if t == unquote(s) then Closures.Percent else if t == unescape(s) then Closures.Html else Closures.Backslash;
        assert Step()(d, s) == Some(t);
      }
    }

    /** The naive closure is exactly what paths of at most `n` decoders lead to. */
    lemma ReachIsPaths(s: Text, n: nat, t: Text)
      ensures t in Reach(s, n) <==> Closures.HasPath(Step(), n, s, t)
    {
      ImagesAreNamed();
      Closures.ReachIsPaths(Step(), Steps(), s, n, t);
    }
  }

  /** `images` is what one decoder application yields. */
  ghost predicate AreImages(decoders: Decoders, images: Text -> set<Text>) {
    forall s {:trigger decoders.Images(s)} :: images(s) == decoders.Images(s)
  }

  method DecodeOnce(decoders: Decoders, value: Text, ghost images: Text -> set<Text>) returns (decoded: set<Text>)
    requires AreImages(decoders, images)
    ensures decoded == images(value)
  {
    decoded := {decoders.unquote(value), decoders.unescape(value)};
    if HasEscape(value) {
      decoded := decoded + {Unescape(value)};
    }
    assert decoded == decoders.Images(value);
  }

  method Expand(decoders: Decoders, frontier: set<Text>, ghost images: Text -> set<Text>) returns (expanded: set<Text>)
    requires AreImages(decoders, images)
    ensures expanded == Closures.AllImages(images, frontier)
  {
    expanded := {};
    var rest := frontier;
    while rest != {}
      invariant rest <= frontier && expanded == Closures.AllImages(images, frontier - rest)
      decreases rest
    {
      var value :| value in rest;
      var decoded := DecodeOnce(decoders, value, images);
      Closures.AllImagesSplit(images, frontier - rest, {value});
      assert Closures.AllImages(images, {value}) == images(value);
      expanded := expanded + decoded;
      rest := rest - {value};
      assert frontier - rest == (frontier - (rest + {value})) + {value};
    }
    assert frontier - rest == frontier;
  }

  /** The frontier search returns exactly the texts at most so many decoder applications away:
      expanding only new texts, and stopping when there are none, loses nothing. */
  method Search(decoders: Decoders, text: Text, rounds: nat, ghost images: Text -> set<Text>) returns (variants: set<Text>)
    requires AreImages(decoders, images)
    ensures variants == Closures.Reach(images, text, rounds)
  {
    variants := {text};
    var frontier := {text};
    Closures.SearchStarts(images, text);
    for k := 0 to rounds
      invariant Closures.Searched(images, text, k, variants, frontier)
    {
      var expanded := Expand(decoders, frontier, images);
      Closures.FrontierStep(images, text, k, variants, frontier);
      expanded := expanded - variants;
      if expanded == {} {
        Closures.SearchSettles(images, text, k, rounds, variants, frontier);
        break;
      }
      variants := variants + expanded;
      frontier := expanded;
    }
  }

  /** `_text_variants`: three rounds. */
  method Variants(decoders: Decoders, text: Text) returns (variants: set<Text>)
    ensures variants == decoders.Reach(text, 3)
  {
    variants := Search(decoders, text, 3, decoders.Steps());
  }

  // ----- what the scanner sees

  /** A text or what one of the three decoders makes of it. Where there is no escape the last one is the text. */
  predicate OneDecoding(decoders: Decoders, s: Text, t: Text) {
    t == s || t == decoders.unquote(s) || t == decoders.unescape(s) || t == Unescape(s)
  }

  /** Nothing but the text itself is reached by no decoder; each further round adds what one decoder makes of what
      the rounds before reached. */
  lemma ReachMeaning(decoders: Decoders, s: Text, n: nat, t: Text)
    ensures t in decoders.Reach(s, 0) <==> t == s
    ensures t in decoders.Reach(s, n + 1) <==> exists u :: u in decoders.Reach(s, n) && OneDecoding(decoders, u, t)
  {
    var before := decoders.Reach(s, n);
    Closures.ReachStep(decoders.Steps(), s, n + 1, t);
    forall u
      ensures OneDecoding(decoders, u, t) <==> t == u || t in decoders.Steps()(u)
    {
      UnescapeShortens(u);
    }
  }

  lemma OneLayer(decoders: Decoders, s: Text, n: nat, e: Text, t: Text)
    requires n > 0 && e in decoders.Reach(s, n - 1) && Spells(e, t)
    ensures t in decoders.Reach(s, n)
  {
    SpellsDecodes(e, t);
    UnescapeShortens(e);
    if HasEscape(e) {
      assert t in decoders.Steps()(e);
    }
    Closures.ReachStep(decoders.Steps(), s, n, t);
  }

  /** A text spelled with escapes, and spelled again up to three times, is among the variants. */
  lemma NestedSpellingsRecovered(decoders: Decoders, e3: Text, e2: Text, e1: Text, t: Text)
    requires Spells(e3, e2) && Spells(e2, e1) && Spells(e1, t)
    ensures t in decoders.Reach(e1, 1) && t in decoders.Reach(e2, 2) && t in decoders.Reach(e3, 3)
  {
    OneLayer(decoders, e1, 1, e1, t);
    Closures.ReachGrows(decoders.Steps(), e1, 0, 1);
    OneLayer(decoders, e2, 1, e2, e1);
    OneLayer(decoders, e2, 2, e1, t);
    OneLayer(decoders, e3, 1, e3, e2);
    OneLayer(decoders, e3, 2, e2, e1);
    OneLayer(decoders, e3, 3, e1, t);
  }

  /** From each text of a chain of spellings the next is one decoder application away. */
  lemma {:induction false} SpelledChainReached(decoders: Decoders, chain: seq<Text>, n: nat)
    requires n < |chain| && forall i :: 0 <= i < |chain| - 1 ==> Spells(chain[i], chain[i + 1])
    ensures chain[n] in decoders.Reach(chain[0], n)
  {
    if n > 0 {
      SpelledChainReached(decoders, chain, n - 1);
      OneLayer(decoders, chain[0], n, chain[n - 1], chain[n]);
    }
  }

  /** Wherever a text of the Basic Multilingual Plane is hidden by up to three layers of `\uXXXX`
      escapes, a scan that looks at every variant meets the plain text. */
  lemma EscapedIsRecovered(decoders: Decoders, t: Text, layers: nat, upper: bool)
    requires InPlane(t) && layers <= 3
    ensures t in decoders.Reach(Escaped(t, layers, upper), 3)
  {
    var chain := LayersSpell(t, layers, upper);
    SpelledChainReached(decoders, chain, layers);
    Closures.ReachGrows(decoders.Steps(), chain[0], layers, 3);
  }

  method AnyWithin(decoders: Decoders, candidates: seq<Text>, suspicious: Text -> bool, rounds: nat,
                   ghost images: Text -> set<Text>)
    returns (found: bool)
    requires AreImages(decoders, images)
    ensures found <==> exists c, v :: c in candidates && v in Closures.Reach(images, c, rounds) && suspicious(v)
  {
    var variants: set<Text> := {};
    for i := 0 to |candidates|
      invariant forall v :: v in variants <==> exists j :: 0 <= j < i && v in Closures.Reach(images, candidates[j], rounds)
    {
      var more := Search(decoders, candidates[i], rounds, images);
      variants := variants + more;
    }
    found := exists v :: v in variants && suspicious(v);
  }

  /** The scan over all candidates reports a match exactly when some path of at most three decoders
      leads from some candidate to a suspicious text. */
  method AnyVariant(decoders: Decoders, candidates: seq<Text>, suspicious: Text -> bool) returns (found: bool)
    ensures found <==> exists c, v :: c in candidates && v in decoders.Reach(c, 3) && suspicious(v)
  {
    found := AnyWithin(decoders, candidates, suspicious, 3, decoders.Steps());
  }
}
