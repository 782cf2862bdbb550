/**
 What a bounded number of decoder applications reaches, and searching it by its frontier, for decoders about which
 nothing is assumed.
 */
module Closures {
  import opened Basics
  import opened BackslashEscapes

  datatype Decoder = Percent | Html | Backslash

  /** Everything one step away from some element. */
  function AllImages(images: Text -> set<Text>, from: set<Text>): set<Text> {
    set s, t | s in from && t in images(s) :: t
  }

  /** The naive closure: everything at most `n` steps away. */
  function Reach(images: Text -> set<Text>, s: Text, n: nat): set<Text> {
    if n == 0 then {s} else Reach(images, s, n - 1) + AllImages(images, Reach(images, s, n - 1))
  }

  lemma {:induction false} ReachGrows(images: Text -> set<Text>, s: Text, k: nat, n: nat)
    requires k <= n
    ensures Reach(images, s, k) <= Reach(images, s, n)
  {
    if k < n {
      ReachGrows(images, s, k, n - 1);
    }
  }

  /** One more step from anything reached is reached one round later, and nothing else is new. */
  lemma ReachStep(images: Text -> set<Text>, s: Text, n: nat, t: Text)
    requires n > 0
    ensures t in Reach(images, s, n) <==>
            t in Reach(images, s, n - 1) || exists u :: u in Reach(images, s, n - 1) && t in images(u)
  {
  }

  lemma Absorbs(a: set<Text>, b: set<Text>)
    requires b <= a
    ensures a + b == a
  {
  }

  /** A fixed set under one step is the closure from there on. */
  lemma {:induction false} ReachSettles(images: Text -> set<Text>, s: Text, k: nat, n: nat)
    requires k <= n && AllImages(images, Reach(images, s, k)) <= Reach(images, s, k)
    ensures Reach(images, s, n) == Reach(images, s, k)
  {
    if k < n {
      ReachSettles(images, s, k, n - 1);
      var fixed := Reach(images, s, k);
      Absorbs(fixed, AllImages(images, fixed));
    }
  }

  lemma AllImagesSplit(images: Text -> set<Text>, a: set<Text>, b: set<Text>)
    ensures AllImages(images, a + b) == AllImages(images, a) + AllImages(images, b)
  {
  }

  /** The search has seen `seen`, and only the frontier may still lead somewhere new. */
  ghost predicate Searched(images: Text -> set<Text>, s: Text, k: nat, seen: set<Text>, frontier: set<Text>) {
    seen == Reach(images, s, k) && frontier <= seen && AllImages(images, seen - frontier) <= seen
  }

  lemma SearchStarts(images: Text -> set<Text>, s: Text)
    ensures Searched(images, s, 0, {s}, {s})
  {
    assert {s} - {s} == {};
  }

  /** Expanding the frontier alone, and keeping of it what is new, is one round of the naive closure. */
  lemma FrontierStep(images: Text -> set<Text>, s: Text, k: nat, seen: set<Text>, frontier: set<Text>)
    requires Searched(images, s, k, seen, frontier)
    ensures var more := AllImages(images, frontier) - seen;
      Searched(images, s, k + 1, seen + more, more)
  {
    var more := AllImages(images, frontier) - seen;
    AllImagesSplit(images, seen - frontier, frontier);
    assert (seen - frontier) + frontier == seen;
    assert seen + more - more == seen;
  }

  /** When nothing of the frontier is new the search is done, for any number of further rounds. */
  lemma SearchSettles(images: Text -> set<Text>, s: Text, k: nat, n: nat, seen: set<Text>, frontier: set<Text>)
    requires k <= n && Searched(images, s, k, seen, frontier) && AllImages(images, frontier) <= seen
    ensures seen == Reach(images, s, n)
  {
    AllImagesSplit(images, seen - frontier, frontier);
    assert (seen - frontier) + frontier == seen;
    ReachSettles(images, s, k, n);
  }

  // ----- the same as paths of named steps, each of which may not apply

  function Follow(apply: (Decoder, Text) -> Option<Text>, path: seq<Decoder>, s: Text): Option<Text> {
    if path == [] then Some(s) else
    var before := Follow(apply, path[..|path| - 1], s);
    if before.None? then None else apply(path[|path| - 1], before.value)
  }

  ghost predicate PathTo(apply: (Decoder, Text) -> Option<Text>, path: seq<Decoder>, n: nat, s: Text, t: Text) {
    |path| <= n && Follow(apply, path, s) == Some(t)
  }

  ghost predicate Leads(apply: (Decoder, Text) -> Option<Text>, s: Text, t: Text) {
    exists d :: apply(d, s) == Some(t)
  }

  /** The images are what the named steps lead to. */
  ghost predicate Named(apply: (Decoder, Text) -> Option<Text>, images: Text -> set<Text>) {
    (forall d, s :: apply(d, s).Some? ==> apply(d, s).value in images(s)) &&
    (forall s, t :: t in images(s) ==> Leads(apply, s, t))
  }

  lemma PathExtends(apply: (Decoder, Text) -> Option<Text>, path: seq<Decoder>, d: Decoder, n: nat, s: Text, u: Text, t: Text)
    requires n > 0 && PathTo(apply, path, n - 1, s, u) && apply(d, u) == Some(t)
    ensures PathTo(apply, path + [d], n, s, t)
  {
    assert (path + [d])[..|path|] == path;
  }

  ghost predicate HasPath(apply: (Decoder, Text) -> Option<Text>, n: nat, s: Text, t: Text) {
    exists path :: PathTo(apply, path, n, s, t)
  }

  lemma HasPathLater(apply: (Decoder, Text) -> Option<Text>, n: nat, s: Text, t: Text)
    requires n > 0 && HasPath(apply, n - 1, s, t)
    ensures HasPath(apply, n, s, t)
  {
    var path :| PathTo(apply, path, n - 1, s, t);
    assert PathTo(apply, path, n, s, t);
  }

  lemma HasPathOn(apply: (Decoder, Text) -> Option<Text>, n: nat, s: Text, u: Text, t: Text)
    requires n > 0 && HasPath(apply, n - 1, s, u) && Leads(apply, u, t)
    ensures HasPath(apply, n, s, t)
  {
    var path :| PathTo(apply, path, n - 1, s, u);
    var d :| apply(d, u) == Some(t);
    PathExtends(apply, path, d, n, s, u, t);
  }

  lemma HasPathFrom(apply: (Decoder, Text) -> Option<Text>, images: Text -> set<Text>, n: nat, s: Text, from: set<Text>, t: Text)
    requires n > 0 && Named(apply, images) && t in AllImages(images, from)
    requires forall u :: u in from ==> HasPath(apply, n - 1, s, u)
    ensures HasPath(apply, n, s, t)
  {
    var u :| u in from && t in images(u);
    HasPathOn(apply, n, s, u, t);
  }

  lemma {:induction false} ReachHasPath(apply: (Decoder, Text) -> Option<Text>, images: Text -> set<Text>, s: Text, n: nat, t: Text)
    requires Named(apply, images) && t in Reach(images, s, n)
    ensures HasPath(apply, n, s, t)
  {
    if n == 0 {
      assert PathTo(apply, [], 0, s, s);
    } else {
      var before := Reach(images, s, n - 1);
      forall u | u in before
        ensures HasPath(apply, n - 1, s, u)
      {
        ReachHasPath(apply, images, s, n - 1, u);
      }
      if t in before {
        HasPathLater(apply, n, s, t);
      } else {
        HasPathFrom(apply, images, n, s, before, t);
      }
    }
  }

  lemma {:induction false} PathReaches(
    apply: (Decoder, Text) -> Option<Text>, images: Text -> set<Text>, path: seq<Decoder>, n: nat, s: Text, t: Text)
    requires Named(apply, images) && PathTo(apply, path, n, s, t)
    ensures t in Reach(images, s, n)
  {
    if path == [] {
      ReachGrows(images, s, 0, n);
    } else {
      var before, d := path[..|path| - 1], path[|path| - 1];
      var u := Follow(apply, before, s).value;
      assert Follow(apply, path, s) == apply(d, u);
      PathReaches(apply, images, before, n - 1, s, u);
      assert t in images(u);
      ReachStep(images, s, n, t);
    }
  }

  /** The naive closure is exactly what paths of at most `n` steps lead to. */
  lemma ReachIsPaths(apply: (Decoder, Text) -> Option<Text>, images: Text -> set<Text>, s: Text, n: nat, t: Text)
    requires Named(apply, images)
    ensures t in Reach(images, s, n) <==> HasPath(apply, n, s, t)
  {
    if t in Reach(images, s, n) {
      ReachHasPath(apply, images, s, n, t);
    }
    if path :| PathTo(apply, path, n, s, t) {
      PathReaches(apply, images, path, n, s, t);
    }
  }
}
