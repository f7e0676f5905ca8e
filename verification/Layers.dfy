/** buildLayeredCandidates: one pass over the candidates per layer, with a set of keys already taken. */
module Layers {
  import opened Dedupe
  import opened ModelRefs

  function Candidates(out: seq<Layered>): (r: seq<Candidate>)
    ensures |r| == |out|
  {
    seq(|out|, i requires 0 <= i < |out| => out[i].candidate)
  }

  /** The layers after the first candidate, in their order. */
  function ClassesOf(anchor: Candidate): Classes<Candidate> {
    Classes(Picks(anchor, SwitchKey), Picks(anchor, SwitchModel), Picks(anchor, CrossProvider))
  }

  lemma LayersPartition(anchor: Candidate)
    ensures Partition(ClassesOf(anchor))
  {}

  /** Behind the first candidate no later copy of a key lies in an earlier layer than its first copy. */
  ghost predicate InLayerOrder(candidates: seq<Candidate>) {
    candidates == [] || EarliestFirst(candidates[1..], KeyOf(), ClassesOf(candidates[0]), {KeyOf()(candidates[0])})
  }

  /** So it is for distinct keys, as resolved candidates have them. */
  lemma DistinctInOrder(candidates: seq<Candidate>)
    requires Distinct(candidates, KeyOf())
    ensures InLayerOrder(candidates)
  {
    if candidates != [] {
      var rest := candidates[1..];
      assert forall i :: 0 <= i < |rest| ==> rest[i] == candidates[i + 1];
      DistinctEarliest(rest, KeyOf(), ClassesOf(candidates[0]), {KeyOf()(candidates[0])});
    }
  }

  /** And for provider names without slash, whatever the copies. */
  lemma PlainInOrder(candidates: seq<Candidate>)
    requires Plain(candidates)
    ensures InLayerOrder(candidates)
  {
    if candidates != [] {
      var anchor, rest, key := candidates[0], candidates[1..], KeyOf();
      var seen := {key(anchor)};
      DedupFacts(rest, key, seen);
      assert Plain(rest);
      forall x, y | x in Dedup(rest, key, seen) && y in rest && key(x) == key(y) ensures ClassesOf(anchor).NotAfter(x, y) {
        KeyTellsLayer(anchor, x, y);
      }
    }
  }

  /** The three passes after the first candidate. */
  datatype Passes = Passes(sameFamily: seq<Candidate>, sameProvider: seq<Candidate>, others: seq<Candidate>) {
    function All(): seq<Candidate> { sameFamily + sameProvider + others }
  }

  function PassesOf(anchor: Candidate, cs: seq<Candidate>): Passes {
    var (same, model, cross) := PassesFind(cs, KeyOf(), ClassesOf(anchor), {KeyOf()(anchor)});
    Passes(same, model, cross)
  }

  /** The distinct candidates, layer by layer. */
  function LayersOf(anchor: Candidate, cs: seq<Candidate>): Passes {
    var (same, model, cross) := ByClass(cs, KeyOf(), ClassesOf(anchor), {KeyOf()(anchor)});
    Passes(same, model, cross)
  }

  /** Whatever the names, the first candidate and the passes together have every key exactly once. */
  lemma PassesCover(anchor: Candidate, cs: seq<Candidate>)
    ensures var out := [anchor] + PassesOf(anchor, cs).All();
            Distinct(out, KeyOf()) && (forall x :: x in out ==> x == anchor || x in cs)
            && KeySet(out, KeyOf()) == KeySet([anchor] + cs, KeyOf())
  {
    var key := KeyOf();
    var p1, p2, p3 := Picks(anchor, SwitchKey), Picks(anchor, SwitchModel), Picks(anchor, CrossProvider);
    forall x | x in cs ensures p1(x) || p2(x) || p3(x) { LayerIsOne(anchor, x); }
    ThreePasses(anchor, cs, key, p1, p2, p3);
  }

  lemma LayerIsOne(anchor: Candidate, c: Candidate)
    ensures Picks(anchor, SwitchKey)(c) || Picks(anchor, SwitchModel)(c) || Picks(anchor, CrossProvider)(c)
  {
  }

  function LayeredPasses(anchor: Candidate, p: Passes): seq<Layered> {
    [Layered(anchor, SameModelRetry)] + Tag(p.sameFamily, SwitchKey) + Tag(p.sameProvider, SwitchModel) + Tag(p.others, CrossProvider)
  }

  lemma UntaggedPasses(anchor: Candidate, p: Passes)
    ensures Candidates(LayeredPasses(anchor, p)) == [anchor] + p.All()
  {
  }

  /** The order promised: the first candidate, then the distinct others by layer, each in the order given. */
  function Ordered(candidates: seq<Candidate>): seq<Layered>
    requires candidates != []
  {
    LayeredPasses(candidates[0], LayersOf(candidates[0], candidates[1..]))
  }

  /** The candidates tagged with a layer, in order. */
  function InLayer(out: seq<Layered>, layer: Layer): seq<Candidate> {
    if out == [] then [] else (if out[0].layer == layer then [out[0].candidate] else []) + InLayer(out[1..], layer)
  }

  lemma {:induction false} InLayerConcat(a: seq<Layered>, b: seq<Layered>, layer: Layer)
    ensures InLayer(a + b, layer) == InLayer(a, layer) + InLayer(b, layer)
  {
    if a == [] {
      assert a + b == b;
    } else {
      assert (a + b)[1..] == a[1..] + b;
      InLayerConcat(a[1..], b, layer);
    }
  }

  lemma {:induction false} InLayerTagged(cs: seq<Candidate>, tag: Layer, layer: Layer)
    ensures InLayer(Tag(cs, tag), layer) == if tag == layer then cs else []
  {
    if cs != [] {
      assert Tag(cs, tag)[1..] == Tag(cs[1..], tag);
      InLayerTagged(cs[1..], tag, layer);
    }
  }

  /** The tags tell the passes. */
  lemma LayersTell(anchor: Candidate, p: Passes, layer: Layer)
    ensures InLayer(LayeredPasses(anchor, p), layer)
         == match layer
            case SameModelRetry => [anchor]
            case SwitchKey => p.sameFamily
            case SwitchModel => p.sameProvider
            case CrossProvider => p.others
  {
    var first := [Layered(anchor, SameModelRetry)];
    var a, b, c := Tag(p.sameFamily, SwitchKey), Tag(p.sameProvider, SwitchModel), Tag(p.others, CrossProvider);
    InLayerTagged(p.sameFamily, SwitchKey, layer);
    InLayerTagged(p.sameProvider, SwitchModel, layer);
    InLayerTagged(p.others, CrossProvider, layer);
    InLayerConcat(first, a, layer);
    InLayerConcat(first + a, b, layer);
    InLayerConcat(first + a + b, c, layer);
    assert first[1..] == [];
  }

  /** The passes give the promised order, exactly if no copy of a key overtakes its first copy. */
  lemma OrderedExactly(candidates: seq<Candidate>)
    requires candidates != []
    ensures LayeredPasses(candidates[0], PassesOf(candidates[0], candidates[1..])) == Ordered(candidates)
       <==> InLayerOrder(candidates)
  {
    var anchor, rest := candidates[0], candidates[1..];
    var p, q := PassesOf(anchor, rest), LayersOf(anchor, rest);
    LayersPartition(anchor);
    PassesExactly(rest, KeyOf(), ClassesOf(anchor), {KeyOf()(anchor)});
    forall layer: Layer ensures LayeredPasses(anchor, p) == LayeredPasses(anchor, q) ==> InLayer(LayeredPasses(anchor, p), layer) == InLayer(LayeredPasses(anchor, q), layer) {}
    LayersTell(anchor, p, SwitchKey);
    LayersTell(anchor, q, SwitchKey);
    LayersTell(anchor, p, SwitchModel);
    LayersTell(anchor, q, SwitchModel);
    LayersTell(anchor, p, CrossProvider);
    LayersTell(anchor, q, CrossProvider);
  }

  /** The result, in terms of the passes, is one entry per key of the input. */
  lemma LayeredCover(candidates: seq<Candidate>)
    requires candidates != []
    ensures var out := LayeredPasses(candidates[0], PassesOf(candidates[0], candidates[1..]));
            && Distinct(Candidates(out), KeyOf()) && KeySet(Candidates(out), KeyOf()) == KeySet(candidates, KeyOf())
            && forall i :: 0 <= i < |out| ==> out[i].candidate in candidates
  {
    var anchor, rest := candidates[0], candidates[1..];
    var p := PassesOf(anchor, rest);
    PassesCover(anchor, rest);
    UntaggedPasses(anchor, p);
    assert candidates == [anchor] + rest;
    var out := LayeredPasses(anchor, p);
    forall i | 0 <= i < |out| ensures out[i].candidate in candidates { assert Candidates(out)[i] in [anchor] + p.All(); }
  }

  /** The layers one after the other. */
  function Rank(layer: Layer): nat {
    match layer
    case SameModelRetry => 0
    case SwitchKey => 1
    case SwitchModel => 2
    case CrossProvider => 3
  }

  /** Every candidate but the first is tagged with its own layer, and no layer comes before an earlier one. */
  predicate LayerByLayer(anchor: Candidate, out: seq<Layered>) {
    && (forall i :: 0 < i < |out| ==> out[i].layer == LayerOf(anchor, out[i].candidate))
    && forall i, j :: 0 <= i < j < |out| ==> Rank(out[i].layer) <= Rank(out[j].layer)
  }

  lemma PassesByLayer(anchor: Candidate, cs: seq<Candidate>)
    ensures LayerByLayer(anchor, LayeredPasses(anchor, PassesOf(anchor, cs)))
  {
    var key, seen := KeyOf(), {KeyOf()(anchor)};
    var p := PassesOf(anchor, cs);
    PassFacts(cs, key, Picks(anchor, SwitchKey), seen);
    PassFacts(cs, key, Picks(anchor, SwitchModel), seen + KeySet(p.sameFamily, key));
    PassFacts(cs, key, Picks(anchor, CrossProvider), seen + KeySet(p.sameFamily, key) + KeySet(p.sameProvider, key));
    TaggedByLayer(anchor, p);
  }

  lemma TaggedByLayer(anchor: Candidate, p: Passes)
    requires forall x :: x in p.sameFamily ==> Picks(anchor, SwitchKey)(x)
    requires forall x :: x in p.sameProvider ==> Picks(anchor, SwitchModel)(x)
    requires forall x :: x in p.others ==> Picks(anchor, CrossProvider)(x)
    ensures LayerByLayer(anchor, LayeredPasses(anchor, p))
  {
    var first := [Layered(anchor, SameModelRetry)];
    OneMoreLayer(anchor, first, p.sameFamily, SwitchKey);
    OneMoreLayer(anchor, first + Tag(p.sameFamily, SwitchKey), p.sameProvider, SwitchModel);
    OneMoreLayer(anchor, first + Tag(p.sameFamily, SwitchKey) + Tag(p.sameProvider, SwitchModel), p.others, CrossProvider);
  }

  /** No layer in the list is later than this one. */
  predicate UpTo(out: seq<Layered>, layer: Layer) { forall i :: 0 <= i < |out| ==> Rank(out[i].layer) <= Rank(layer) }

  lemma OneMoreLayer(anchor: Candidate, out: seq<Layered>, cs: seq<Candidate>, layer: Layer)
    requires out != [] && LayerByLayer(anchor, out) && UpTo(out, layer) && forall x :: x in cs ==> Picks(anchor, layer)(x)
    ensures LayerByLayer(anchor, out + Tag(cs, layer)) && UpTo(out + Tag(cs, layer), layer)
  {
    TaggedRight(anchor, cs, layer);
  }

  lemma TaggedRight(anchor: Candidate, cs: seq<Candidate>, layer: Layer)
    requires forall x :: x in cs ==> Picks(anchor, layer)(x)
    ensures forall i :: 0 <= i < |cs| ==> Tag(cs, layer)[i].layer == layer == LayerOf(anchor, Tag(cs, layer)[i].candidate)
  {
    forall i | 0 <= i < |cs| ensures LayerOf(anchor, cs[i]) == layer { assert cs[i] in cs; }
  }

  /**
   * What that order is, candidate by candidate: one with a new key goes to the end of its layer,
   * and a copy of an earlier key nowhere.
   */
  lemma OneMoreCandidate(candidates: seq<Candidate>, c: Candidate, layer: Layer)
    requires candidates != []
    ensures InLayer(Ordered(candidates + [c]), layer)
         == InLayer(Ordered(candidates), layer)
            + if layer == LayerOf(candidates[0], c) && ModelKey(c) !in KeySet(candidates, KeyOf()) then [c] else []
  {
    var anchor, rest, key := candidates[0], candidates[1..], KeyOf();
    var seen := {key(anchor)};
    assert (candidates + [c])[1..] == rest + [c] && candidates == [anchor] + rest;
    DedupAppend(rest, c, key, seen);
    NewKey(anchor, rest, key, c);
    var distinct := Dedup(rest, key, seen);
    LayersTell(anchor, LayersOf(anchor, rest), layer);
    LayersTell(anchor, LayersOf(anchor, rest + [c]), layer);
    if key(c) !in seen + KeySet(distinct, key) {
      FilterAppend(distinct, c, Picks(anchor, SwitchKey));
      FilterAppend(distinct, c, Picks(anchor, SwitchModel));
      FilterAppend(distinct, c, Picks(anchor, CrossProvider));
    } else {
      assert distinct + [] == distinct;
    }
    SameProviderLayer(anchor, c);
  }

  lemma SameProviderLayer(anchor: Candidate, c: Candidate)
    ensures LayerOf(anchor, c) != SameModelRetry
  {}

  /** The keys taken are those of the candidates before. */
  lemma NewKey(anchor: Candidate, rest: seq<Candidate>, key: Candidate -> string, c: Candidate)
    ensures key(c) in {key(anchor)} + KeySet(Dedup(rest, key, {key(anchor)}), key) <==> key(c) in KeySet([anchor] + rest, key)
  {
    var distinct := Dedup(rest, key, {key(anchor)});
    DedupFacts(rest, key, {key(anchor)});
    KeySetConcat([anchor], rest, key);
    assert KeySet([anchor], key) == {key(anchor)} by { KeySetIn([anchor], key, anchor); }
    if key(c) in KeySet(rest, key) {
      var i :| 0 <= i < |rest| && key(rest[i]) == key(c);
      assert rest[i] in rest;
    }
    if key(c) in KeySet(distinct, key) {
      var i :| 0 <= i < |distinct| && key(distinct[i]) == key(c);
      KeySetIn(rest, key, distinct[i]);
    }
  }

  /**
   * buildLayeredCandidates: one entry per key of the input, starting with the first
   * candidate; in the order promised, exactly if no copy of a key overtakes its first copy.
   */
  method BuildLayeredCandidates(candidates: seq<Candidate>) returns (out: seq<Layered>)
    ensures candidates == [] ==> out == []
    ensures candidates != [] ==> out != [] && out[0] == Layered(candidates[0], SameModelRetry)
    ensures Distinct(Candidates(out), KeyOf()) && KeySet(Candidates(out), KeyOf()) == KeySet(candidates, KeyOf())
    ensures forall i :: 0 <= i < |out| ==> out[i].candidate in candidates
    ensures candidates != [] ==> (out == Ordered(candidates) <==> InLayerOrder(candidates)) && LayerByLayer(candidates[0], out)
  {
    if |candidates| == 0 {
      out := [];
      return;
    }
    var anchor, rest := candidates[0], candidates[1..];
    var seen := {KeyOf()(anchor)};
    var same, model, cross;
    same, seen := RunPass(rest, KeyOf(), Picks(anchor, SwitchKey), seen);
    model, seen := RunPass(rest, KeyOf(), Picks(anchor, SwitchModel), seen);
    cross, seen := RunPass(rest, KeyOf(), Picks(anchor, CrossProvider), seen);
    out := LayeredPasses(anchor, Passes(same, model, cross));
    LayeredCover(candidates);
    OrderedExactly(candidates);
    PassesByLayer(anchor, rest);
  }

  /** With slashes in provider names a key can belong to two layers, and a list that repeats it can be out of order. */
  lemma RepeatedOutOfOrder()
    ensures var a, c, d := Candidate("a", "z"), Candidate("a/b", "c"), Candidate("a", "b/c");
            ModelKey(c) == ModelKey(d) && LayerOf(a, c) == CrossProvider && LayerOf(a, d) == SwitchModel
            && !InLayerOrder([a, c, d]) && InLayerOrder([a, d, c])
  {
    var a, c, d := Candidate("a", "z"), Candidate("a/b", "c"), Candidate("a", "b/c");
    SlashesConfuseLayers();
    RepeatedPair(a, c, d);
    RepeatedPair(a, d, c);
  }

  /** A list that repeats one key is in order exactly if the second copy is in no earlier layer. */
  lemma RepeatedPair(anchor: Candidate, c: Candidate, d: Candidate)
    requires ModelKey(c) == ModelKey(d) != ModelKey(anchor)
    ensures InLayerOrder([anchor, c, d]) <==> ClassesOf(anchor).NotAfter(c, d)
  {
    assert [anchor, c, d][1..] == [c, d];
    LayersPartition(anchor);
    PairEarliest(c, d, KeyOf(), ClassesOf(anchor), {KeyOf()(anchor)});
  }
}
