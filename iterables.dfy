/** The helpers of graphlayer/iterables.py that the core relies on. That file
    is not part of this model, so each helper is given the semantics of the
    Python idiom it is named after:
    - `to_dict(pairs)` is `dict(pairs)`: a key keeps the position of its first
      occurrence and the value of its last one;
    - `to_multidict(pairs)` groups values by key, in order of appearance;
    - `find(p, xs)` is the first element satisfying `p`;
    - `partition(p, xs)` is the pair (matching, non-matching), order kept.
    An ordered dictionary is an association list with pairwise distinct keys. */
module Iterables {
  import opened Wrappers

  /** The keys of an association list, in order. */
  function KeysOf<K, V>(entries: seq<(K, V)>): (ks: seq<K>)
    ensures |ks| == |entries|
    ensures forall i :: 0 <= i < |entries| ==> ks[i] == entries[i].0
  {
    if entries == [] then [] else [entries[0].0] + KeysOf(entries[1..])
  }

  /** The set of keys of an association list. */
  function KeySet<K, V>(entries: seq<(K, V)>): set<K> {
    set i | 0 <= i < |entries| :: entries[i].0
  }

  ghost predicate DistinctKeys<K, V>(entries: seq<(K, V)>) {
    forall i, j :: 0 <= i < j < |entries| ==> entries[i].0 != entries[j].0
  }

  /** Index of the first entry whose key is `k`. */
  function IndexOfKey<K(==,!new), V>(entries: seq<(K, V)>, k: K): (r: Option<nat>)
    ensures r.Some? ==> r.value < |entries| && entries[r.value].0 == k
    ensures r.Some? ==> forall j :: 0 <= j < r.value ==> entries[j].0 != k
    ensures r.None? <==> forall j :: 0 <= j < |entries| ==> entries[j].0 != k
  {
    if entries == [] then None
    else if entries[0].0 == k then Some(0)
    else match IndexOfKey(entries[1..], k)
      case None => None
      case Some(i) => Some(i + 1)
  }

  /** `d.get(k)`: the value stored under `k`, if any. */
  function Get<K(==,!new), V>(d: seq<(K, V)>, k: K): Option<V> {
    match IndexOfKey(d, k)
    case None => None
    case Some(i) => Some(d[i].1)
  }

  /** `d[k] = v` on an ordered dictionary. */
  function Put<K(==,!new), V>(d: seq<(K, V)>, k: K, v: V): (r: seq<(K, V)>)
    requires DistinctKeys(d)
    ensures DistinctKeys(r)
    ensures IndexOfKey(d, k).None? ==> r == d + [(k, v)]
    ensures IndexOfKey(d, k).Some? ==> r == d[IndexOfKey(d, k).value := (k, v)]
    ensures KeySet(r) == KeySet(d) + {k}
  {
    match IndexOfKey(d, k)
    case None =>
      var r := d + [(k, v)];
      assert r[|d|].0 == k;
      assert KeySet(r) == KeySet(d) + {k} by {
        forall k' | k' in KeySet(d) ensures k' in KeySet(r) {
          var j :| 0 <= j < |d| && d[j].0 == k';
          assert r[j].0 == k';
        }
      }
      r
    case Some(i) =>
      var r := d[i := (k, v)];
      assert KeySet(r) == KeySet(d) + {k} by {
        forall k' | k' in KeySet(d) ensures k' in KeySet(r) {
          var j :| 0 <= j < |d| && d[j].0 == k';
          assert r[j].0 == k';
        }
      }
      r
  }

  /** Storing under `k` makes `k` read back `v` and leaves every other key as
      it was. */
  lemma PutGet<K(!new), V>(d: seq<(K, V)>, k: K, v: V, k': K)
    requires DistinctKeys(d)
    ensures Get(Put(d, k, v), k') == if k' == k then Some(v) else Get(d, k')
  {
    var r := Put(d, k, v);
    match IndexOfKey(d, k)
    case None =>
      if k' == k {
        IndexOfKeyUnique(r, k, Some(|d|));
      } else {
        IndexOfKeyAppend(d, k, v, k');
      }
    case Some(i) =>
      if k' == k {
        IndexOfKeyUnique(r, k, Some(i));
      } else {
        match IndexOfKey(d, k')
        case None => IndexOfKeyUnique(r, k', None);
        case Some(j) => IndexOfKeyUnique(r, k', Some(j));
      }
  }

  lemma {:induction false} IndexOfKeyAppend<K(!new), V>(d: seq<(K, V)>, k: K, v: V, k': K)
    requires k' != k
    ensures IndexOfKey(d + [(k, v)], k') == IndexOfKey(d, k')
  {
    if d != [] {
      IndexOfKeyAppend(d[1..], k, v, k');
      assert (d + [(k, v)])[1..] == d[1..] + [(k, v)];
    }
  }

  /** In a list with distinct keys, the index found for a key is the only
      index carrying it. */
  lemma {:induction false} IndexOfKeyUnique<K(!new), V>(d: seq<(K, V)>, k: K, o: Option<nat>)
    requires o.None? ==> forall j :: 0 <= j < |d| ==> d[j].0 != k
    requires o.Some? ==> o.value < |d| && d[o.value].0 == k &&
                         forall j :: 0 <= j < |d| && j != o.value ==> d[j].0 != k
    ensures IndexOfKey(d, k) == o
  {
    if d != [] && d[0].0 != k {
      IndexOfKeyUnique(d[1..], k, if o.None? then None else Some(o.value - 1));
    }
  }

  /** `to_dict(pairs)`, i.e. Python's `dict(pairs)`. */
  function ToDict<K(==,!new), V>(pairs: seq<(K, V)>): (d: seq<(K, V)>)
    ensures DistinctKeys(d)
    ensures KeySet(d) == KeySet(pairs)
  {
    if pairs == [] then []
    else
      var init := pairs[..|pairs| - 1];
      var last := pairs[|pairs| - 1];
      KeySetSnoc(init, last);
      assert init + [last] == pairs;
      Put(ToDict(init), last.0, last.1)
  }

  lemma KeySetSnoc<K, V>(init: seq<(K, V)>, last: (K, V))
    ensures KeySet(init + [last]) == KeySet(init) + {last.0}
  {
    var r := init + [last];
    assert r[|init|] == last;
    forall k' | k' in KeySet(init) ensures k' in KeySet(r) {
      var j :| 0 <= j < |init| && init[j].0 == k';
      assert r[j].0 == k';
    }
  }

  /** The value of the last pair whose key is `k`. */
  function LastValue<K(==,!new), V>(pairs: seq<(K, V)>, k: K): Option<V> {
    if pairs == [] then None
    else if pairs[|pairs| - 1].0 == k then Some(pairs[|pairs| - 1].1)
    else LastValue(pairs[..|pairs| - 1], k)
  }

  /** A relation that holds between each element and its counterpart, in
      front and in the rest, holds pointwise on the whole sequences. */
  lemma ConsPointwise<A, B>(rel: (A, B) -> bool, xs: seq<A>, y: B, ys: seq<B>)
    requires xs != [] && |ys| == |xs| - 1
    requires rel(xs[0], y)
    requires forall i :: 0 <= i < |ys| ==> rel(xs[1..][i], ys[i])
    ensures forall i :: 0 <= i < |xs| ==> rel(xs[i], ([y] + ys)[i])
  {
    forall i | 0 < i < |xs| ensures rel(xs[i], ([y] + ys)[i]) {
      assert xs[i] == xs[1..][i - 1];
    }
  }

  /** Concatenation regroups freely; stated once so that proofs about
      concatenated tables can name the regrouping they need. */
  lemma ConcatAssociates<T>(x: seq<T>, y: seq<T>, z: seq<T>)
    ensures x + (y + z) == (x + y) + z
  {
  }

  /** Later pairs overwrite earlier ones: this is the "last wins" policy. */
  lemma {:induction false} ToDictGet<K(!new), V>(pairs: seq<(K, V)>, k: K)
    ensures Get(ToDict(pairs), k) == LastValue(pairs, k)
  {
    if pairs != [] {
      var init := pairs[..|pairs| - 1];
      var last := pairs[|pairs| - 1];
      ToDictGet(init, k);
      PutGet(ToDict(init), last.0, last.1, k);
    }
  }

  /** With distinct keys, looking up the key of an entry finds that entry. */
  lemma GetDistinct<K(!new), V>(d: seq<(K, V)>)
    requires DistinctKeys(d)
    ensures forall i :: 0 <= i < |d| ==> Get(d, d[i].0) == Some(d[i].1)
  {
    forall i | 0 <= i < |d| ensures Get(d, d[i].0) == Some(d[i].1) {
      assert IndexOfKey(d, d[i].0).Some?;
    }
  }

  /** When the keys are already distinct, `to_dict` changes nothing, so the
      order of the pairs becomes the order of the dictionary. */
  lemma {:induction false} ToDictDistinct<K(!new), V>(pairs: seq<(K, V)>)
    requires DistinctKeys(pairs)
    ensures ToDict(pairs) == pairs
  {
    if pairs != [] {
      var init := pairs[..|pairs| - 1];
      var last := pairs[|pairs| - 1];
      ToDictDistinct(init);
      assert IndexOfKey(init, last.0).None?;
      assert init + [last] == pairs;
    }
  }

  /** The values stored under `k`, in order of appearance. */
  function ValuesFor<K(==,!new), V>(pairs: seq<(K, V)>, k: K): (vs: seq<V>)
    ensures |vs| <= |pairs|
  {
    if pairs == [] then []
    else
      var init := ValuesFor(pairs[..|pairs| - 1], k);
      if pairs[|pairs| - 1].0 == k then init + [pairs[|pairs| - 1].1] else init
  }

  /** `to_multidict(pairs)`: a dictionary from key to the list of its values. */
  function ToMultidict<K(==,!new), V>(pairs: seq<(K, V)>): map<K, seq<V>> {
    if pairs == [] then map[]
    else
      var m := ToMultidict(pairs[..|pairs| - 1]);
      var (k, v) := pairs[|pairs| - 1];
      m[k := (if k in m then m[k] else []) + [v]]
  }

  /** `m.get(k, ())` on a multidict. */
  function GetAll<K(==,!new), V>(m: map<K, seq<V>>, k: K): seq<V> {
    if k in m then m[k] else []
  }

  /** A key is present exactly when some pair carries it, and its values are
      all of that key's values in order; an absent key reads as empty. */
  lemma {:induction false} ToMultidictSpec<K(!new), V>(pairs: seq<(K, V)>, k: K)
    ensures ToMultidict(pairs).Keys == KeySet(pairs)
    ensures GetAll(ToMultidict(pairs), k) == ValuesFor(pairs, k)
  {
    if pairs != [] {
      var init := pairs[..|pairs| - 1];
      ToMultidictSpec(init, k);
      KeySetSnoc(init, pairs[|pairs| - 1]);
      assert init + [pairs[|pairs| - 1]] == pairs;
    }
  }

  /** Concatenation distributes over `ValuesFor`. */
  lemma {:induction false} ValuesForAppend<K(!new), V>(a: seq<(K, V)>, b: seq<(K, V)>, k: K)
    ensures ValuesFor(a + b, k) == ValuesFor(a, k) + ValuesFor(b, k)
  {
    if b == [] {
      assert a + b == a;
    } else {
      ValuesForAppend(a, b[..|b| - 1], k);
      assert (a + b)[..|a + b| - 1] == a + b[..|b| - 1];
    }
  }

  /** `find(p, xs)`: the index of the first element satisfying `p`. */
  function Find<T>(p: T -> bool, xs: seq<T>): (r: Option<nat>)
    ensures r.Some? ==> r.value < |xs| && p(xs[r.value])
    ensures r.Some? ==> forall j :: 0 <= j < r.value ==> !p(xs[j])
    ensures r.None? <==> forall j :: 0 <= j < |xs| ==> !p(xs[j])
  {
    if xs == [] then None
    else if p(xs[0]) then Some(0)
    else match Find(p, xs[1..])
      case None => None
      case Some(i) => Some(i + 1)
  }

  /** The elements of `xs` satisfying `p`, in order. */
  function Filter<T>(p: T -> bool, xs: seq<T>): (r: seq<T>)
    ensures |r| <= |xs|
    ensures forall i :: 0 <= i < |r| ==> p(r[i])
    ensures r == [] <==> forall i :: 0 <= i < |xs| ==> !p(xs[i])
  {
    if xs == [] then []
    else if p(xs[0]) then [xs[0]] + Filter(p, xs[1..])
    else
      assert xs == [xs[0]] + xs[1..];
      Filter(p, xs[1..])
  }

  /** `partition(p, xs)`: the matching elements and the others, each in order. */
  function Partition<T>(p: T -> bool, xs: seq<T>): (r: (seq<T>, seq<T>))
    ensures forall i :: 0 <= i < |r.0| ==> p(r.0[i])
    ensures forall i :: 0 <= i < |r.1| ==> !p(r.1[i])
  {
    (Filter(p, xs), Filter(x => !p(x), xs))
  }

  /** Between them the two halves of a partition hold every element of the
      input exactly once. */
  lemma {:induction false} PartitionIsPermutation<T>(p: T -> bool, xs: seq<T>)
    ensures multiset(Partition(p, xs).0) + multiset(Partition(p, xs).1) == multiset(xs)
  {
    if xs != [] {
      PartitionIsPermutation(p, xs[1..]);
      assert xs == [xs[0]] + xs[1..];
    }
  }

  /** Entry `i` is the first element of `xs` on which `f` fails. */
  ghost predicate FirstFailure<T, U, E>(f: T -> Result<U, E>, xs: seq<T>, i: int) {
    && 0 <= i < |xs|
    && f(xs[i]).Failure?
    && forall j :: 0 <= j < i ==> f(xs[j]).Success?
  }

  /** `[f(x) for x in xs]` where `f` may raise: the first exception stops the
      comprehension and propagates. */
  function MapResults<T, U, E>(f: T -> Result<U, E>, xs: seq<T>): (r: Result<seq<U>, E>)
    ensures r.Success? <==> forall i :: 0 <= i < |xs| ==> f(xs[i]).Success?
    ensures r.Success? ==> |r.value| == |xs|
    ensures r.Success? ==> forall i :: 0 <= i < |xs| ==> r.value[i] == f(xs[i]).value
    ensures r.Failure? ==> exists i :: FirstFailure(f, xs, i) && r.error == f(xs[i]).error
  {
    if xs == [] then Success([])
    else
      match f(xs[0])
      case Failure(e) =>
        assert FirstFailure(f, xs, 0);
        Failure(e)
      case Success(y) =>
        match MapResults(f, xs[1..])
        case Failure(e) =>
          assert exists i :: FirstFailure(f, xs, i) && e == f(xs[i]).error by {
            var i :| FirstFailure(f, xs[1..], i) && e == f(xs[1..][i]).error;
            assert FirstFailure(f, xs, i + 1);
          }
          Failure(e)
        case Success(ys) => Success([y] + ys)
  }

  /** Extending the input by one element: a failure so far stands, otherwise
      the new element either fails or contributes its value at the end. */
  lemma MapResultsSnoc<T, U, E>(f: T -> Result<U, E>, xs: seq<T>, x: T)
    ensures MapResults(f, xs + [x]) ==
      if MapResults(f, xs).Failure? then MapResults(f, xs)
      else if f(x).Failure? then Failure(f(x).error)
      else Success(MapResults(f, xs).value + [f(x).value])
  {
    var ys := xs + [x];
    assert forall i :: 0 <= i < |xs| ==> ys[i] == xs[i];
    assert ys[|xs|] == x;
    if MapResults(f, xs).Failure? {
      var i :| FirstFailure(f, xs, i) && MapResults(f, xs).error == f(xs[i]).error;
      assert MapResults(f, ys).Failure?;
      var k :| FirstFailure(f, ys, k) && MapResults(f, ys).error == f(ys[k]).error;
      assert FirstFailure(f, ys, i);
    } else if f(x).Failure? {
      assert MapResults(f, ys).Failure?;
      var k :| FirstFailure(f, ys, k) && MapResults(f, ys).error == f(ys[k]).error;
      assert forall j :: 0 <= j < |xs| ==> f(ys[j]).Success?;
      assert k == |xs|;
    } else {
      assert MapResults(f, ys).value == MapResults(f, xs).value + [f(x).value];
    }
  }

  /** One turn of a loop that builds `[f(x) for x in xs]` element by
      element: the next element either extends the result or is where the
      whole comprehension fails. */
  lemma MapResultsStep<T, U, E>(f: T -> Result<U, E>, xs: seq<T>, i: nat, acc: seq<U>)
    requires i < |xs| && MapResults(f, xs[..i]) == Success(acc)
    ensures f(xs[i]).Success? ==> MapResults(f, xs[..i + 1]) == Success(acc + [f(xs[i]).value])
    ensures f(xs[i]).Failure? ==> MapResults(f, xs) == Failure(f(xs[i]).error)
  {
    if f(xs[i]).Failure? {
      MapResultsFailsAt(f, xs, i, acc);
    } else {
      MapResultsExtends(f, xs, i, acc);
    }
  }

  lemma MapResultsExtends<T, U, E>(f: T -> Result<U, E>, xs: seq<T>, i: nat, acc: seq<U>)
    requires i < |xs| && MapResults(f, xs[..i]) == Success(acc) && f(xs[i]).Success?
    ensures MapResults(f, xs[..i + 1]) == Success(acc + [f(xs[i]).value])
  {
    assert xs[..i + 1] == xs[..i] + [xs[i]];
    MapResultsSnoc(f, xs[..i], xs[i]);
  }

  lemma MapResultsFailsAt<T, U, E>(f: T -> Result<U, E>, xs: seq<T>, i: nat, acc: seq<U>)
    requires i < |xs| && MapResults(f, xs[..i]) == Success(acc) && f(xs[i]).Failure?
    ensures MapResults(f, xs) == Failure(f(xs[i]).error)
  {
    forall j | 0 <= j < i ensures f(xs[j]).Success? {
      assert xs[..i][j] == xs[j];
    }
    assert MapResults(f, xs).Failure?;
    var k :| FirstFailure(f, xs, k) && MapResults(f, xs).error == f(xs[k]).error;
    assert k == i;
  }

  /** A failure in a prefix is the failure of the whole. */
  lemma MapResultsStops<T, U, E>(f: T -> Result<U, E>, xs: seq<T>, ys: seq<T>)
    requires MapResults(f, xs).Failure?
    ensures MapResults(f, xs + ys) == MapResults(f, xs)
  {
    var zs := xs + ys;
    assert forall i :: 0 <= i < |xs| ==> zs[i] == xs[i];
    var i :| FirstFailure(f, xs, i) && MapResults(f, xs).error == f(xs[i]).error;
    assert FirstFailure(f, zs, i);
    assert MapResults(f, zs).Failure?;
  }
}
