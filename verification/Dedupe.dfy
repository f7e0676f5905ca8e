/** Keeping the first element of each key, in one pass or in one pass per class of elements. */
module Dedupe {
  import opened Basics

  /** The first element of each key that is not in seen. */
  function Dedup<T, K(==)>(xs: seq<T>, key: T -> K, seen: set<K>): seq<T> {
    if xs == [] then []
    else if key(xs[0]) in seen then Dedup(xs[1..], key, seen)
    else [xs[0]] + Dedup(xs[1..], key, seen + {key(xs[0])})
  }

  function Filter<T>(xs: seq<T>, pick: T -> bool): seq<T> {
    if xs == [] then [] else (if pick(xs[0]) then [xs[0]] else []) + Filter(xs[1..], pick)
  }

  /** What a pass over the picked elements appends when the keys in seen are taken. */
  function Pass<T, K(==)>(xs: seq<T>, key: T -> K, pick: T -> bool, seen: set<K>): seq<T> {
    if xs == [] then []
    else if pick(xs[0]) && key(xs[0]) !in seen then [xs[0]] + Pass(xs[1..], key, pick, seen + {key(xs[0])})
    else Pass(xs[1..], key, pick, seen)
  }

  function KeySet<T, K(==)>(xs: seq<T>, key: T -> K): set<K> {
    set i | 0 <= i < |xs| :: key(xs[i])
  }

  lemma KeySetIn<T, K>(xs: seq<T>, key: T -> K, x: T)
    requires x in xs
    ensures key(x) in KeySet(xs, key)
  {
    var i :| 0 <= i < |xs| && xs[i] == x;
  }

  predicate Distinct<T, K(==)>(xs: seq<T>, key: T -> K) {
    forall i, j :: 0 <= i < j < |xs| ==> key(xs[i]) != key(xs[j])
  }

  /** A new element before the ones found so far. */
  lemma Cons<T, K>(x: T, tail: seq<T>, key: T -> K, seen: set<K>)
    requires Distinct(tail, key) && forall y :: y in tail ==> key(y) !in seen + {key(x)}
    ensures Distinct([x] + tail, key)
    ensures KeySet([x] + tail, key) == {key(x)} + KeySet(tail, key)
    ensures key(x) !in seen ==> forall y :: y in [x] + tail ==> key(y) !in seen
  {
    var out := [x] + tail;
    assert out[0] == x && forall i :: 0 <= i < |tail| ==> out[i + 1] == tail[i];
    forall j | 0 < j < |out| ensures key(out[0]) != key(out[j]) { assert tail[j - 1] in tail; }
    assert KeySet(out, key) == {key(x)} + KeySet(tail, key);
  }

  lemma {:induction false} PassFacts<T, K>(xs: seq<T>, key: T -> K, pick: T -> bool, seen: set<K>)
    ensures var out := Pass(xs, key, pick, seen);
            && Distinct(out, key)
            && (forall x :: x in out ==> x in xs && pick(x) && key(x) !in seen)
            && (forall x :: x in xs && pick(x) ==> key(x) in seen + KeySet(out, key))
    decreases |xs|
  {
    if xs != [] {
      var x, rest := xs[0], xs[1..];
      assert forall y :: y in xs <==> y == x || y in rest;
      if pick(x) && key(x) !in seen {
        PassFacts(rest, key, pick, seen + {key(x)});
        var tail := Pass(rest, key, pick, seen + {key(x)});
        Cons(x, tail, key, seen);
      } else {
        PassFacts(rest, key, pick, seen);
      }
    }
  }

  lemma {:induction false} DedupFacts<T, K>(xs: seq<T>, key: T -> K, seen: set<K>)
    ensures var out := Dedup(xs, key, seen);
            && Distinct(out, key)
            && (forall x :: x in out ==> x in xs && key(x) !in seen)
            && (forall x :: x in xs ==> key(x) in seen + KeySet(out, key))
    decreases |xs|
  {
    if xs != [] {
      var x, rest := xs[0], xs[1..];
      assert forall y :: y in xs <==> y == x || y in rest;
      if key(x) !in seen {
        DedupFacts(rest, key, seen + {key(x)});
        var tail := Dedup(rest, key, seen + {key(x)});
        Cons(x, tail, key, seen);
      } else {
        DedupFacts(rest, key, seen);
      }
    }
  }

  /** Two elements of a list with distinct keys and the same key are one. */
  lemma SameKeySame<T, K>(xs: seq<T>, key: T -> K, x: T, y: T)
    requires Distinct(xs, key) && x in xs && y in xs && key(x) == key(y)
    ensures x == y
  {
    var i :| 0 <= i < |xs| && xs[i] == x;
    var j :| 0 <= j < |xs| && xs[j] == y;
    assert key(xs[i]) == key(xs[j]);
    assert !(i < j) && !(j < i);
  }

  /**
   * What a pass with the keys in a taken needs to find the picked elements of those that are
   * distinct with the keys in b taken: the first of a key is free when it is picked, and its key
   * is taken when a later one of it is.
   */
  ghost predicate PassReady<T(!new), K>(xs: seq<T>, key: T -> K, pick: T -> bool, a: set<K>, b: set<K>) {
    && (forall x :: x in Dedup(xs, key, b) && pick(x) ==> key(x) !in a)
    && (forall x, y :: x in Dedup(xs, key, b) && !pick(x) && y in xs && pick(y) && key(x) == key(y) ==> key(x) in a)
    && (forall x :: x in xs && pick(x) && key(x) in b ==> key(x) in a)
  }

  lemma PassReadyRest<T(!new), K>(xs: seq<T>, key: T -> K, pick: T -> bool, a: set<K>, b: set<K>)
    requires xs != [] && PassReady(xs, key, pick, a, b)
    ensures var x := xs[0];
            if key(x) in b then PassReady(xs[1..], key, pick, a, b)
            else PassReady(xs[1..], key, pick, if pick(x) then a + {key(x)} else a, b + {key(x)})
  {
    var x, rest := xs[0], xs[1..];
    assert forall y :: y in xs <==> y == x || y in rest;
    if key(x) !in b {
      DedupFacts(rest, key, b + {key(x)});
      var tail := Dedup(rest, key, b + {key(x)});
      assert Dedup(xs, key, b) == [x] + tail;
      assert x in Dedup(xs, key, b) && forall y :: y in tail ==> y in Dedup(xs, key, b);
    }
  }

  /** Then it finds them, in their order. */
  lemma {:induction false} PassIsFilter<T(!new), K>(xs: seq<T>, key: T -> K, pick: T -> bool, a: set<K>, b: set<K>)
    requires PassReady(xs, key, pick, a, b)
    ensures Pass(xs, key, pick, a) == Filter(Dedup(xs, key, b), pick)
    decreases |xs|
  {
    if xs != [] {
      var x, rest := xs[0], xs[1..];
      PassReadyRest(xs, key, pick, a, b);
      if key(x) in b {
        PassIsFilter(rest, key, pick, a, b);
      } else {
        PassIsFilter(rest, key, pick, if pick(x) then a + {key(x)} else a, b + {key(x)});
        assert x in Dedup(xs, key, b);
      }
    }
  }

  lemma {:induction false} FilterMeans<T>(xs: seq<T>, pick: T -> bool)
    ensures forall x :: x in Filter(xs, pick) <==> x in xs && pick(x)
  {
    if xs != [] {
      FilterMeans(xs[1..], pick);
      assert forall x :: x in xs <==> x == xs[0] || x in xs[1..];
    }
  }

  lemma {:induction false} FilterAppend<T>(xs: seq<T>, x: T, pick: T -> bool)
    ensures Filter(xs + [x], pick) == Filter(xs, pick) + if pick(x) then [x] else []
  {
    if xs == [] {
      assert xs + [x] == [x];
    } else {
      assert (xs + [x])[1..] == xs[1..] + [x];
      FilterAppend(xs[1..], x, pick);
    }
  }

  lemma DistinctConcat<T, K>(a: seq<T>, b: seq<T>, key: T -> K)
    requires Distinct(a, key) && Distinct(b, key)
    requires forall x, y :: x in a && y in b ==> key(x) != key(y)
    ensures Distinct(a + b, key)
  {
  }

  lemma KeySetConcat<T, K>(a: seq<T>, b: seq<T>, key: T -> K)
    ensures KeySet(a + b, key) == KeySet(a, key) + KeySet(b, key)
  {
    var s := a + b;
    assert forall i :: 0 <= i < |a| ==> s[i] == a[i];
    assert forall i :: 0 <= i < |b| ==> s[|a| + i] == b[i];
  }

  lemma AppendDistinct<T, K>(a: seq<T>, b: seq<T>, key: T -> K)
    requires Distinct(a, key) && Distinct(b, key) && forall y :: y in b ==> key(y) !in KeySet(a, key)
    ensures Distinct(a + b, key) && KeySet(a + b, key) == KeySet(a, key) + KeySet(b, key)
  {
    forall x, y | x in a && y in b ensures key(x) != key(y) { KeySetIn(a, key, x); }
    DistinctConcat(a, b, key);
    KeySetConcat(a, b, key);
  }

  lemma SameKeySet<T, K>(a: seq<T>, b: seq<T>, key: T -> K)
    requires forall x :: x in a ==> x in b
    requires forall x :: x in b ==> key(x) in KeySet(a, key)
    ensures KeySet(a, key) == KeySet(b, key)
  {
    forall k | k in KeySet(a, key) ensures k in KeySet(b, key) {
      var i :| 0 <= i < |a| && key(a[i]) == k;
      KeySetIn(b, key, a[i]);
    }
    forall k | k in KeySet(b, key) ensures k in KeySet(a, key) {
      var i :| 0 <= i < |b| && key(b[i]) == k;
      assert b[i] in b;
    }
  }

  /** One more element is kept when its key is new. */
  lemma {:induction false} DedupAppend<T, K>(xs: seq<T>, x: T, key: T -> K, seen: set<K>)
    ensures Dedup(xs + [x], key, seen)
            == Dedup(xs, key, seen) + if key(x) in seen + KeySet(Dedup(xs, key, seen), key) then [] else [x]
    decreases |xs|
  {
    if xs == [] {
      assert xs + [x] == [x];
    } else {
      assert (xs + [x])[1..] == xs[1..] + [x];
      if key(xs[0]) in seen {
        DedupAppend(xs[1..], x, key, seen);
      } else {
        var seen' := seen + {key(xs[0])};
        DedupAppend(xs[1..], x, key, seen');
        KeySetConcat([xs[0]], Dedup(xs[1..], key, seen'), key);
        assert KeySet([xs[0]], key) == {key(xs[0])} by { KeySetIn([xs[0]], key, xs[0]); }
      }
    }
  }

  lemma JoinThree<T, K>(first: T, a: seq<T>, b: seq<T>, c: seq<T>, key: T -> K)
    requires Distinct(a, key) && Distinct(b, key) && Distinct(c, key)
    requires forall x :: x in a ==> key(x) != key(first)
    requires forall x :: x in b ==> key(x) !in {key(first)} + KeySet(a, key)
    requires forall x :: x in c ==> key(x) !in {key(first)} + KeySet(a, key) + KeySet(b, key)
    ensures Distinct([first] + (a + b + c), key)
    ensures KeySet([first] + (a + b + c), key) == {key(first)} + KeySet(a, key) + KeySet(b, key) + KeySet(c, key)
  {
    assert KeySet([first], key) == {key(first)} by { KeySetIn([first], key, first); }
    AppendDistinct([first], a, key);
    AppendDistinct([first] + a, b, key);
    AppendDistinct([first] + a + b, c, key);
    assert [first] + (a + b + c) == [first] + a + b + c;
  }

  /** A first element and three passes that leave no element out have every key exactly once. */
  lemma ThreePasses<T, K>(first: T, xs: seq<T>, key: T -> K, p1: T -> bool, p2: T -> bool, p3: T -> bool)
    requires forall x :: x in xs ==> p1(x) || p2(x) || p3(x)
    ensures var a := Pass(xs, key, p1, {key(first)});
            var b := Pass(xs, key, p2, {key(first)} + KeySet(a, key));
            var c := Pass(xs, key, p3, {key(first)} + KeySet(a, key) + KeySet(b, key));
            var out := [first] + (a + b + c);
            && Distinct(out, key) && (forall x :: x in out ==> x == first || x in xs)
            && KeySet(out, key) == KeySet([first] + xs, key)
  {
    var seen := {key(first)};
    var a := Pass(xs, key, p1, seen);
    var b := Pass(xs, key, p2, seen + KeySet(a, key));
    var c := Pass(xs, key, p3, seen + KeySet(a, key) + KeySet(b, key));
    PassFacts(xs, key, p1, seen);
    PassFacts(xs, key, p2, seen + KeySet(a, key));
    PassFacts(xs, key, p3, seen + KeySet(a, key) + KeySet(b, key));
    JoinThree(first, a, b, c, key);
    SameKeySet([first] + (a + b + c), [first] + xs, key);
  }

  /** The classes of elements, in the order of the passes. */
  datatype Classes<!T> = Classes(first: T -> bool, second: T -> bool, third: T -> bool) {
    /** x belongs to no later class than y. */
    predicate NotAfter(x: T, y: T) {
      (first(y) ==> first(x)) && (second(y) ==> first(x) || second(x))
    }
  }

  ghost predicate Partition<T(!new)>(cl: Classes<T>) {
    forall x :: (cl.first(x) || cl.second(x) || cl.third(x))
                && !(cl.first(x) && cl.second(x)) && !(cl.first(x) && cl.third(x)) && !(cl.second(x) && cl.third(x))
  }

  /** What the three passes find, each with the keys of those before it taken. */
  function PassesFind<T, K(==)>(xs: seq<T>, key: T -> K, cl: Classes<T>, seen: set<K>): (seq<T>, seq<T>, seq<T>) {
    var a := Pass(xs, key, cl.first, seen);
    var b := Pass(xs, key, cl.second, seen + KeySet(a, key));
    (a, b, Pass(xs, key, cl.third, seen + KeySet(a, key) + KeySet(b, key)))
  }

  /** The distinct elements, class by class. */
  function ByClass<T, K(==)>(xs: seq<T>, key: T -> K, cl: Classes<T>, seen: set<K>): (seq<T>, seq<T>, seq<T>) {
    var distinct := Dedup(xs, key, seen);
    (Filter(distinct, cl.first), Filter(distinct, cl.second), Filter(distinct, cl.third))
  }

  /** No later copy of a key belongs to an earlier class than its first copy. */
  ghost predicate EarliestFirst<T(!new), K>(xs: seq<T>, key: T -> K, cl: Classes<T>, seen: set<K>) {
    forall x, y :: x in Dedup(xs, key, seen) && y in xs && key(x) == key(y) ==> cl.NotAfter(x, y)
  }

  /** Two copies of a key are in order exactly if the second does not belong to an earlier class. */
  lemma PairEarliest<T(!new), K>(x: T, y: T, key: T -> K, cl: Classes<T>, seen: set<K>)
    requires key(x) == key(y) && key(x) !in seen && Partition(cl)
    ensures EarliestFirst([x, y], key, cl, seen) <==> cl.NotAfter(x, y)
  {
    assert [x, y][1..] == [y] && [y][1..] == [];
    assert Dedup([y], key, seen + {key(x)}) == [];
    assert Dedup([x, y], key, seen) == [x] + Dedup([y], key, seen + {key(x)});
    assert x in [x, y] && y in [x, y];
  }

  /** Distinct elements have no copies. */
  lemma DistinctEarliest<T(!new), K>(xs: seq<T>, key: T -> K, cl: Classes<T>, seen: set<K>)
    requires Distinct(xs, key)
    ensures EarliestFirst(xs, key, cl, seen)
  {
    DedupFacts(xs, key, seen);
    forall x, y | x in Dedup(xs, key, seen) && y in xs && key(x) == key(y) ensures cl.NotAfter(x, y) {
      SameKeySame(xs, key, x, y);
    }
  }

  lemma PassesInOrder<T(!new), K>(xs: seq<T>, key: T -> K, cl: Classes<T>, seen: set<K>)
    requires Partition(cl) && EarliestFirst(xs, key, cl, seen)
    ensures PassesFind(xs, key, cl, seen) == ByClass(xs, key, cl, seen)
  {
    var distinct := Dedup(xs, key, seen);
    DedupFacts(xs, key, seen);
    var a, b := KeySet(Filter(distinct, cl.first), key), KeySet(Filter(distinct, cl.second), key);
    TakenBy(distinct, key, cl.first);
    TakenBy(distinct, key, cl.second);
    ReadyFirst(xs, key, cl, seen);
    PassIsFilter(xs, key, cl.first, seen, seen);
    ReadySecond(xs, key, cl, seen, a);
    PassIsFilter(xs, key, cl.second, seen + a, seen);
    ReadyThird(xs, key, cl, seen, a, b);
    PassIsFilter(xs, key, cl.third, seen + a + b, seen);
  }

  /** The keys of the distinct elements of a class, and no others of theirs. */
  ghost predicate Takes<T(!new), K>(distinct: seq<T>, key: T -> K, pick: T -> bool, taken: set<K>) {
    forall x :: x in distinct ==> (key(x) in taken <==> pick(x))
  }

  lemma ReadyFirst<T(!new), K>(xs: seq<T>, key: T -> K, cl: Classes<T>, seen: set<K>)
    requires Partition(cl) && EarliestFirst(xs, key, cl, seen)
    ensures PassReady(xs, key, cl.first, seen, seen)
  {
    DedupFacts(xs, key, seen);
  }

  lemma ReadySecond<T(!new), K>(xs: seq<T>, key: T -> K, cl: Classes<T>, seen: set<K>, a: set<K>)
    requires Partition(cl) && EarliestFirst(xs, key, cl, seen) && Takes(Dedup(xs, key, seen), key, cl.first, a)
    ensures PassReady(xs, key, cl.second, seen + a, seen)
  {
    DedupFacts(xs, key, seen);
  }

  lemma ReadyThird<T(!new), K>(xs: seq<T>, key: T -> K, cl: Classes<T>, seen: set<K>, a: set<K>, b: set<K>)
    requires Partition(cl) && EarliestFirst(xs, key, cl, seen)
    requires Takes(Dedup(xs, key, seen), key, cl.first, a) && Takes(Dedup(xs, key, seen), key, cl.second, b)
    ensures PassReady(xs, key, cl.third, seen + a + b, seen)
  {
    DedupFacts(xs, key, seen);
  }

  /** Of distinct elements, the picked ones and no others have the keys that the filter takes. */
  lemma TakenBy<T(!new), K>(distinct: seq<T>, key: T -> K, pick: T -> bool)
    requires Distinct(distinct, key)
    ensures Takes(distinct, key, pick, KeySet(Filter(distinct, pick), key))
  {
    var found := Filter(distinct, pick);
    FilterMeans(distinct, pick);
    forall x | x in distinct ensures key(x) in KeySet(found, key) <==> pick(x) {
      if pick(x) { KeySetIn(found, key, x); }
      if key(x) in KeySet(found, key) {
        var i :| 0 <= i < |found| && key(found[i]) == key(x);
        SameKeySame(distinct, key, found[i], x);
      }
    }
  }

  /** The passes find the distinct elements class by class, exactly if no copy overtakes the first of its key. */
  lemma PassesExactly<T(!new), K>(xs: seq<T>, key: T -> K, cl: Classes<T>, seen: set<K>)
    requires Partition(cl)
    ensures PassesFind(xs, key, cl, seen) == ByClass(xs, key, cl, seen) <==> EarliestFirst(xs, key, cl, seen)
  {
    if EarliestFirst(xs, key, cl, seen) { PassesInOrder(xs, key, cl, seen); }
    if PassesFind(xs, key, cl, seen) == ByClass(xs, key, cl, seen) { OrderedEarliest(xs, key, cl, seen); }
  }

  lemma OrderedEarliest<T(!new), K>(xs: seq<T>, key: T -> K, cl: Classes<T>, seen: set<K>)
    requires Partition(cl) && PassesFind(xs, key, cl, seen) == ByClass(xs, key, cl, seen)
    ensures EarliestFirst(xs, key, cl, seen)
  {
    var distinct := Dedup(xs, key, seen);
    var (a, b, c) := ByClass(xs, key, cl, seen);
    DedupFacts(xs, key, seen);
    PassFacts(xs, key, cl.first, seen);
    PassFacts(xs, key, cl.second, seen + KeySet(a, key));
    TakenBy(distinct, key, cl.first);
    TakenBy(distinct, key, cl.second);
    forall x, y | x in distinct && y in xs && key(x) == key(y) ensures cl.NotAfter(x, y) {
      assert cl.first(y) ==> key(x) in seen + KeySet(a, key);
      assert cl.second(y) ==> key(x) in seen + KeySet(a, key) + KeySet(b, key);
    }
  }

  lemma PassStep<T, K>(xs: seq<T>, i: nat, key: T -> K, pick: T -> bool, seen: set<K>)
    requires i < |xs|
    ensures Pass(xs[i..], key, pick, seen) ==
            if pick(xs[i]) && key(xs[i]) !in seen then [xs[i]] + Pass(xs[i + 1..], key, pick, seen + {key(xs[i])})
            else Pass(xs[i + 1..], key, pick, seen)
  {
    assert xs[i..][1..] == xs[i + 1..];
  }

  lemma KeySetMore<T, K>(xs: seq<T>, x: T, key: T -> K)
    ensures KeySet(xs + [x], key) == KeySet(xs, key) + {key(x)}
  {
    KeySetConcat(xs, [x], key);
    assert KeySet([x], key) == {key(x)} by { KeySetIn([x], key, x); }
  }

  /** The loop of a pass: appends each picked element whose key is new, and takes its key. */
  method RunPass<T, K(==)>(xs: seq<T>, key: T -> K, pick: T -> bool, seen: set<K>) returns (picked: seq<T>, seen': set<K>)
    ensures picked == Pass(xs, key, pick, seen) && seen' == seen + KeySet(picked, key)
  {
    picked, seen' := [], seen;
    assert xs[0..] == xs;
    for i := 0 to |xs|
      invariant Pass(xs, key, pick, seen) == picked + Pass(xs[i..], key, pick, seen')
      invariant seen' == seen + KeySet(picked, key)
    {
      PassStep(xs, i, key, pick, seen');
      if pick(xs[i]) && key(xs[i]) !in seen' {
        KeySetMore(picked, xs[i], key);
        seen' := seen' + {key(xs[i])};
        Associative(picked, [xs[i]], Pass(xs[i + 1..], key, pick, seen'));
        picked := picked + [xs[i]];
      }
    }
  }
}
