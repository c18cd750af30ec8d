/** graphlayer/core.py: the expander registry and the dispatching graph.

    An expander is a Python function to which the `expander(type)` and
    `dependencies(**kwargs)` decorators attach attributes in place, so it is a
    class whose two attribute fields those decorators assign. What the
    function does when called is given by a small `Body` language: return a
    value, return one of its injected dependencies, or resolve a nested call
    through the graph it was handed. */
module Core {
  import opened Wrappers
  import Iterables

  /** A positional argument of `graph.expand`; a query carries a `.type`. */
  datatype Argument<K, V> = Argument(typeAttribute: Option<K>, payload: V)

  /** `graph.expand(*args, type=..., **others)`: the `type` keyword apart
      from the names of any other keywords. `type=None` is the same as no
      `type` keyword. */
  datatype Call<K, V> = Call(args: seq<Argument<K, V>>, typeKeyword: Option<K>, otherKeywords: set<string>)

  datatype Body<K, V> =
    | Return(value: V)
    | ReturnInjected(name: string)
    | ExpandNested(call: Call<K, V>)

  /** A Python function used as an expander. The attributes are absent until
      a decorator sets them; an absent `dependencies` reads as `{}`. */
  class ExpanderFunction<K, D, V> {
    var typeAttribute: Option<K>
    var dependencies: seq<(string, D)>
    const body: Body<K, V>

    constructor (body: Body<K, V>)
      ensures typeAttribute == None && dependencies == [] && this.body == body
    {
      typeAttribute := None;
      dependencies := [];
      this.body := body;
    }
  }

  /** `expander(type)(func)`: tags `func` with the type key it serves and
      returns it. */
  method Expander<K, D, V>(typeKey: K, func: ExpanderFunction<K, D, V>) returns (r: ExpanderFunction<K, D, V>)
    modifies func
    ensures r == func
    ensures func.typeAttribute == Some(typeKey) && func.dependencies == old(func.dependencies)
  {
    func.typeAttribute := Some(typeKey);
    r := func;
  }

  /** `dependencies(**kwargs)(func)`: records, in keyword order, which
      dependency key each parameter name is to be injected from. */
  method Dependencies<K, D, V>(kwargs: seq<(string, D)>, func: ExpanderFunction<K, D, V>) returns (r: ExpanderFunction<K, D, V>)
    modifies func
    ensures r == func
    ensures func.dependencies == kwargs && func.typeAttribute == old(func.typeAttribute)
  {
    func.dependencies := kwargs;
    r := func;
  }

  /** What `define_graph` accepts: a Python list, an object with an
      `expanders` attribute, or any other value (normally an expander). */
  datatype Registration<K, D, V> =
    | Single(value: ExpanderFunction<K, D, V>)
    | Many(items: seq<Registration<K, D, V>>)
    | Group(expanders: Registration<K, D, V>)

  /** `f` is one of the values that `r` holds. */
  ghost predicate Occurs<K, D, V>(f: ExpanderFunction<K, D, V>, r: Registration<K, D, V>) {
    match r
    case Single(g) => g == f
    case Many(items) => exists i :: 0 <= i < |items| && Occurs(f, items[i])
    case Group(e) => Occurs(f, e)
  }

  /** `_flatten`: a single value becomes a one-element list, and every
      value in the result is one that `r` holds. */
  function Flatten<K, D, V>(r: Registration<K, D, V>): (fs: seq<ExpanderFunction<K, D, V>>)
    ensures r.Single? ==> fs == [r.value]
    ensures forall i :: 0 <= i < |fs| ==> Occurs(fs[i], r)
    decreases r, 1
  {
    match r
    case Single(f) => [f]
    case Many(items) => FlattenAll(items)
    case Group(e) => Flatten(e)
  }

  /** The flattenings of a list of registrations, concatenated: every value
      comes from one of the items. */
  function FlattenAll<K, D, V>(items: seq<Registration<K, D, V>>): (fs: seq<ExpanderFunction<K, D, V>>)
    ensures items == [] ==> fs == []
    ensures forall i :: 0 <= i < |fs| ==> Occurs(fs[i], Many(items))
    decreases items, 0
  {
    if items == [] then [] else Flatten(items[0]) + FlattenAll(items[1..])
  }

  /** Flattening loses no value and invents none. */
  lemma {:induction false} FlattenMembers<K, D, V>(r: Registration<K, D, V>, f: ExpanderFunction<K, D, V>)
    ensures f in Flatten(r) <==> Occurs(f, r)
    decreases r, 1
  {
    match r
    case Single(_) =>
    case Many(items) => FlattenAllMembers(items, f);
    case Group(e) => FlattenMembers(e, f);
  }

  lemma {:induction false} FlattenAllMembers<K, D, V>(items: seq<Registration<K, D, V>>, f: ExpanderFunction<K, D, V>)
    ensures f in FlattenAll(items) <==> exists i :: 0 <= i < |items| && Occurs(f, items[i])
    decreases items, 0
  {
    if items != [] {
      FlattenMembers(items[0], f);
      FlattenAllMembers(items[1..], f);
      if exists i :: 0 <= i < |items| && Occurs(f, items[i]) {
        var i :| 0 <= i < |items| && Occurs(f, items[i]);
        if i > 0 { assert Occurs(f, items[1..][i - 1]); }
      }
    }
  }

  /** Concatenating two lists of registrations concatenates their
      flattenings: order is kept left to right. */
  lemma {:induction false} FlattenAllAppend<K, D, V>(xs: seq<Registration<K, D, V>>, ys: seq<Registration<K, D, V>>)
    ensures FlattenAll(xs + ys) == FlattenAll(xs) + FlattenAll(ys)
  {
    if xs == [] {
      assert xs + ys == ys;
    } else {
      FlattenAllAppend(xs[1..], ys);
      FlattenAllAppendCons(xs, ys);
    }
  }

  lemma FlattenAllAppendCons<K, D, V>(xs: seq<Registration<K, D, V>>, ys: seq<Registration<K, D, V>>)
    requires xs != []
    ensures FlattenAll(xs + ys) == Flatten(xs[0]) + FlattenAll(xs[1..] + ys)
  {
    assert (xs + ys)[0] == xs[0];
    assert (xs + ys)[1..] == xs[1..] + ys;
  }

  lemma FlattenAllCons<K, D, V>(x: Registration<K, D, V>, rest: seq<Registration<K, D, V>>)
    ensures FlattenAll([x] + rest) == Flatten(x) + FlattenAll(rest)
  {
    assert ([x] + rest)[0] == x;
    assert ([x] + rest)[1..] == rest;
  }

  lemma FlattenAllPair<K, D, V>(x: ExpanderFunction<K, D, V>, y: ExpanderFunction<K, D, V>)
    ensures FlattenAll([Single(x), Single(y)]) == [x, y]
  {
    FlattenAllCons(Single(y), []);
    FlattenAllCons(Single(x), [Single(y)]);
    assert [Single(x)] + [Single(y)] == [Single(x), Single(y)];
  }

  lemma NestedFlattens<K, D, V>(a: ExpanderFunction<K, D, V>, b: ExpanderFunction<K, D, V>, c: ExpanderFunction<K, D, V>,
                                d: ExpanderFunction<K, D, V>, e: ExpanderFunction<K, D, V>)
    ensures Flatten(Many([Single(a), Many([Single(b), Single(c)]), Group(Many([Single(d), Single(e)]))])) == [a, b, c, d, e]
  {
    var bc := [Single(b), Single(c)];
    var de := [Single(d), Single(e)];
    FlattenAllPair(b, c);
    FlattenAllPair(d, e);
    FlattenAllCons(Group(Many(de)), []);
    FlattenAllCons(Many(bc), [Group(Many(de))]);
    assert [Many(bc)] + [Group(Many(de))] == [Many(bc), Group(Many(de))];
    FlattenAllCons(Single(a), [Many(bc), Group(Many(de))]);
    assert [Single(a)] + [Many(bc), Group(Many(de))] == [Single(a), Many(bc), Group(Many(de))];
  }

  lemma FlatFlattens<K, D, V>(a: ExpanderFunction<K, D, V>, b: ExpanderFunction<K, D, V>, c: ExpanderFunction<K, D, V>,
                              d: ExpanderFunction<K, D, V>, e: ExpanderFunction<K, D, V>)
    ensures Flatten(Many([Single(a), Single(b), Single(c), Single(d), Single(e)])) == [a, b, c, d, e]
  {
    FlattenAllPair(b, c);
    FlattenAllPair(d, e);
    FlattenAllAppend([Single(b), Single(c)], [Single(d), Single(e)]);
    assert [Single(b), Single(c)] + [Single(d), Single(e)] == [Single(b), Single(c), Single(d), Single(e)];
    FlattenAllCons(Single(a), [Single(b), Single(c), Single(d), Single(e)]);
    assert [Single(a)] + [Single(b), Single(c), Single(d), Single(e)] == [Single(a), Single(b), Single(c), Single(d), Single(e)];
  }

  /** Nesting does not matter: `[a, [b, c], group([d, e])]` flattens, and so
      registers, exactly as `[a, b, c, d, e]` does. */
  lemma FlatteningLaw<K, D, V>(a: ExpanderFunction<K, D, V>, b: ExpanderFunction<K, D, V>, c: ExpanderFunction<K, D, V>,
                              d: ExpanderFunction<K, D, V>, e: ExpanderFunction<K, D, V>)
    ensures Flatten(Many([Single(a), Many([Single(b), Single(c)]), Group(Many([Single(d), Single(e)]))]))
         == Flatten(Many([Single(a), Single(b), Single(c), Single(d), Single(e)]))
         == [a, b, c, d, e]
  {
    NestedFlattens(a, b, c, d, e);
    FlatFlattens(a, b, c, d, e);
  }

  datatype CoreError<K, D> =
    | MissingTypeAttribute          // AttributeError: a flattened value has no `.type`
    | NoPositionalArgument          // IndexError: `args[0]` with no arguments
    | NoTypeAttribute               // AttributeError: `args[0].type`
    | UnexpectedKeywords(names: set<string>)   // AssertionError: `assert not kwargs`
    | NoExpander(key: K)            // KeyError: `self._expanders[type]`
    | MissingDependency(dependencyKey: D)     // KeyError: `self._dependencies[dependency_key]`
    | MissingKeywordArgument(name: string)    // TypeError: the expander's own parameter is not supplied
    | RecursionLimit                // RecursionError

  /** The registry dictionary of `GraphDefinition.__init__`, built left to
      right; a later expander for the same type key replaces an earlier one. */
  function Registry<K(==), D, V>(fs: seq<ExpanderFunction<K, D, V>>): (r: Result<map<K, ExpanderFunction<K, D, V>>, CoreError<K, D>>)
    reads fs
    ensures r.Failure? ==> r.error == MissingTypeAttribute
    ensures r.Success? ==> forall k :: k in r.value ==> r.value[k] in fs && r.value[k].typeAttribute == Some(k)
  {
    if fs == [] then Success(map[])
    else
      var init :- Registry(fs[..|fs| - 1]);
      var f := fs[|fs| - 1];
      if f.typeAttribute.None? then Failure(MissingTypeAttribute)
      else Success(init[f.typeAttribute.value := f])
  }

  ghost predicate AllTyped<K, D, V>(fs: seq<ExpanderFunction<K, D, V>>)
    reads fs
  {
    forall i :: 0 <= i < |fs| ==> fs[i].typeAttribute.Some?
  }

  /** The type keys carried by `fs`. */
  ghost function TypeKeys<K, D, V>(fs: seq<ExpanderFunction<K, D, V>>): set<K>
    reads fs
  {
    set i | 0 <= i < |fs| && fs[i].typeAttribute.Some? :: fs[i].typeAttribute.value
  }

  /** Entry `i` is the last one of `fs` tagged with `k`. */
  ghost predicate LastTagged<K, D, V>(fs: seq<ExpanderFunction<K, D, V>>, k: K, i: int)
    reads fs
  {
    && 0 <= i < |fs|
    && fs[i].typeAttribute == Some(k)
    && forall j :: i < j < |fs| ==> fs[j].typeAttribute != Some(k)
  }

  lemma TypeKeysSnoc<K, D, V>(fs: seq<ExpanderFunction<K, D, V>>)
    requires fs != [] && fs[|fs| - 1].typeAttribute.Some?
    ensures TypeKeys(fs) == TypeKeys(fs[..|fs| - 1]) + {fs[|fs| - 1].typeAttribute.value}
  {
    var init := fs[..|fs| - 1];
    forall x | x in TypeKeys(fs) ensures x in TypeKeys(init) + {fs[|fs| - 1].typeAttribute.value} {
      var i :| 0 <= i < |fs| && fs[i].typeAttribute.Some? && fs[i].typeAttribute.value == x;
      if i < |fs| - 1 { assert init[i] == fs[i]; }
    }
    forall x | x in TypeKeys(init) ensures x in TypeKeys(fs) {
      var i :| 0 <= i < |init| && init[i].typeAttribute.Some? && init[i].typeAttribute.value == x;
      assert fs[i] == init[i];
    }
    assert fs[|fs| - 1].typeAttribute.value in TypeKeys(fs);
  }

  /** The registry exists exactly when every value has a type key, and its
      keys are exactly those type keys. */
  lemma {:induction false} RegistryKeys<K, D, V>(fs: seq<ExpanderFunction<K, D, V>>)
    ensures Registry(fs).Success? <==> AllTyped(fs)
    ensures Registry(fs).Success? ==> Registry(fs).value.Keys == TypeKeys(fs)
  {
    if fs != [] {
      var init := fs[..|fs| - 1];
      var f := fs[|fs| - 1];
      RegistryKeys(init);
      assert AllTyped(fs) <==> AllTyped(init) && f.typeAttribute.Some? by {
        if AllTyped(init) && f.typeAttribute.Some? {
          forall i | 0 <= i < |fs| ensures fs[i].typeAttribute.Some? {
            if i < |fs| - 1 { assert fs[i] == init[i]; }
          }
        }
      }
      if Registry(fs).Success? {
        TypeKeysSnoc(fs);
      }
    }
  }

  /** Last one wins: each key of the registry holds the last expander of
      `fs` tagged with that key. */
  lemma {:induction false} RegistryLastWins<K, D, V>(fs: seq<ExpanderFunction<K, D, V>>, k: K)
    requires Registry(fs).Success? && k in Registry(fs).value
    ensures exists i :: LastTagged(fs, k, i) && fs[i] == Registry(fs).value[k]
  {
    var init := fs[..|fs| - 1];
    var f := fs[|fs| - 1];
    if f.typeAttribute == Some(k) {
      assert LastTagged(fs, k, |fs| - 1);
    } else {
      RegistryLastWins(init, k);
      var i :| LastTagged(init, k, i) && init[i] == Registry(init).value[k];
      assert fs[i] == init[i];
      forall j | i < j < |fs| ensures fs[j].typeAttribute != Some(k) {
        if j < |fs| - 1 { assert fs[j] == init[j]; }
      }
      assert LastTagged(fs, k, i);
    }
  }

  /** With pairwise distinct type keys, every flattened expander is reachable
      under its own key. */
  lemma RegistryDistinct<K, D, V>(fs: seq<ExpanderFunction<K, D, V>>)
    requires AllTyped(fs)
    requires forall i, j :: 0 <= i < j < |fs| ==> fs[i].typeAttribute != fs[j].typeAttribute
    ensures Registry(fs).Success?
    ensures forall i :: 0 <= i < |fs| ==> fs[i].typeAttribute.value in Registry(fs).value
    ensures forall i :: 0 <= i < |fs| ==> Registry(fs).value[fs[i].typeAttribute.value] == fs[i]
  {
    RegistryKeys(fs);
    var m := Registry(fs).value;
    forall i | 0 <= i < |fs| ensures fs[i].typeAttribute.value in m && m[fs[i].typeAttribute.value] == fs[i] {
      var k := fs[i].typeAttribute.value;
      assert k in TypeKeys(fs);
      RegistryLastWins(fs, k);
      var i' :| LastTagged(fs, k, i') && fs[i'] == m[k];
    }
  }

  /** Every value of the registry is an occurring expander tagged with its key. */
  lemma RegistryValues<K(!new), D, V>(expanders: Registration<K, D, V>)
    requires Registry(Flatten(expanders)).Success?
    ensures forall k :: k in Registry(Flatten(expanders)).value ==>
              Registry(Flatten(expanders)).value[k].typeAttribute == Some(k) &&
              Occurs(Registry(Flatten(expanders)).value[k], expanders)
  {
    var fs := Flatten(expanders);
    var reg := Registry(fs).value;
    forall k | k in reg ensures reg[k].typeAttribute == Some(k) && Occurs(reg[k], expanders) {
      RegistryLastWins(fs, k);
      FlattenMembers(expanders, reg[k]);
    }
  }

  datatype GraphDefinition<K, D, V> = GraphDefinition(expanders: map<K, ExpanderFunction<K, D, V>>)

  /** `define_graph(expanders)`, i.e. `GraphDefinition(expanders)`. */
  function DefineGraph<K(==,!new), D, V>(expanders: Registration<K, D, V>): (r: Result<GraphDefinition<K, D, V>, CoreError<K, D>>)
    reads Flatten(expanders)
    ensures r.Success? <==> AllTyped(Flatten(expanders))
    ensures r.Success? ==> forall i :: 0 <= i < |Flatten(expanders)| ==>
              Flatten(expanders)[i].typeAttribute.value in r.value.expanders
    ensures r.Success? ==> forall k :: k in r.value.expanders ==> r.value.expanders[k].typeAttribute == Some(k)
    ensures r.Success? ==> forall k :: k in r.value.expanders ==> Occurs(r.value.expanders[k], expanders)
  {
    var fs := Flatten(expanders);
    RegistryKeys(fs);
    var reg :- Registry(fs);
    assert forall i :: 0 <= i < |fs| ==> fs[i].typeAttribute.value in reg by {
      forall i | 0 <= i < |fs| ensures fs[i].typeAttribute.value in reg {
        assert fs[i].typeAttribute.value in TypeKeys(fs);
      }
    }
    RegistryValues(expanders);
    Success(GraphDefinition(reg))
  }

  datatype Graph<K, D, V> = Graph(expanders: map<K, ExpanderFunction<K, D, V>>, dependencies: map<D, V>)

  /** `definition.create_graph(dependencies)`: every graph of a definition
      shares its registry; no dependency map means an empty one. */
  function CreateGraph<K, D, V>(definition: GraphDefinition<K, D, V>, dependencies: Option<map<D, V>>): (g: Graph<K, D, V>)
    ensures g.expanders == definition.expanders
    ensures dependencies.None? ==> g.dependencies == map[]
    ensures dependencies.Some? ==> g.dependencies == dependencies.value
  {
    Graph(definition.expanders, if dependencies.None? then map[] else dependencies.value)
  }

  /** The type key `expand` dispatches on: the `type` keyword, else
      `args[0].type`. */
  function DispatchKey<K, D, V>(call: Call<K, V>): (r: Result<K, CoreError<K, D>>)
    ensures call.typeKeyword.Some? ==> r == Success(call.typeKeyword.value)
    ensures call.typeKeyword.None? && |call.args| == 0 ==> r == Failure(NoPositionalArgument)
    ensures call.typeKeyword.None? && |call.args| > 0 ==>
              r == if call.args[0].typeAttribute.None? then Failure(NoTypeAttribute)
                   else Success(call.args[0].typeAttribute.value)
  {
    if call.typeKeyword.Some? then Success(call.typeKeyword.value)
    else if |call.args| == 0 then Failure(NoPositionalArgument)
    else if call.args[0].typeAttribute.None? then Failure(NoTypeAttribute)
    else Success(call.args[0].typeAttribute.value)
  }

  /** Entry `i` is the first declared dependency whose key is unbound, and is
      what `error` reports. */
  ghost predicate ProvesFirstMissing<K, D, V>(declared: seq<(string, D)>, available: map<D, V>, i: int, error: CoreError<K, D>) {
    && 0 <= i < |declared|
    && error == MissingDependency(declared[i].1)
    && declared[i].1 !in available
    && forall j :: 0 <= j < i ==> declared[j].1 in available
  }

  /** The `(arg_name, self._dependencies[dependency_key])` pairs, in the
      expander's order; the first dependency key absent from the graph fails. */
  function InjectedPairs<K, D(==), V>(declared: seq<(string, D)>, available: map<D, V>): (r: Result<seq<(string, V)>, CoreError<K, D>>)
    ensures r.Success? <==> forall i :: 0 <= i < |declared| ==> declared[i].1 in available
    ensures r.Success? ==> |r.value| == |declared|
    ensures r.Success? ==> forall i :: 0 <= i < |declared| ==> r.value[i] == (declared[i].0, available[declared[i].1])
    ensures r.Failure? ==> exists i :: ProvesFirstMissing(declared, available, i, r.error)
  {
    if declared == [] then Success([])
    else if declared[0].1 !in available then
      assert ProvesFirstMissing<K, D, V>(declared, available, 0, MissingDependency(declared[0].1));
      Failure(MissingDependency(declared[0].1))
    else
      match InjectedPairs(declared[1..], available)
      case Failure(e) =>
        assert exists i :: ProvesFirstMissing(declared, available, i, e) by {
          var i :| ProvesFirstMissing(declared[1..], available, i, e);
          assert ProvesFirstMissing(declared, available, i + 1, e);
        }
        Failure(e)
      case Success(rest) => Success([(declared[0].0, available[declared[0].1])] + rest)
  }

  /** What `expand` calls: the expander, the graph itself, the positional
      arguments unchanged, and the injected keyword arguments. */
  datatype Invocation<K, D, V> = Invocation(
    expander: ExpanderFunction<K, D, V>,
    graph: Graph<K, D, V>,
    args: seq<Argument<K, V>>,
    injected: seq<(string, V)>)

  /** `Graph.expand` up to the point where it calls the expander. */
  function Dispatch<K(==, !new), D(==), V>(g: Graph<K, D, V>, call: Call<K, V>): (r: Result<Invocation<K, D, V>, CoreError<K, D>>)
    reads g.expanders.Values
    ensures DispatchKey<K, D, V>(call).Failure? ==> r == Failure(DispatchKey<K, D, V>(call).error)
    ensures DispatchKey<K, D, V>(call).Success? && call.otherKeywords != {} ==>
              r == Failure(UnexpectedKeywords(call.otherKeywords))
    ensures DispatchKey<K, D, V>(call).Success? && call.otherKeywords == {} && DispatchKey<K, D, V>(call).value !in g.expanders ==>
              r == Failure(NoExpander(DispatchKey<K, D, V>(call).value))
    ensures r.Failure? && DispatchKey<K, D, V>(call).Success? && call.otherKeywords == {} && DispatchKey<K, D, V>(call).value in g.expanders ==>
              exists i :: ProvesFirstMissing(g.expanders[DispatchKey<K, D, V>(call).value].dependencies, g.dependencies, i, r.error)
  {
    var key :- DispatchKey(call);
    if call.otherKeywords != {} then Failure(UnexpectedKeywords(call.otherKeywords))
    else if key !in g.expanders then Failure(NoExpander(key))
    else
      var e := g.expanders[key];
      var pairs :- InjectedPairs(e.dependencies, g.dependencies);
      Success(Invocation(e, g, call.args, Iterables.ToDict(pairs)))
  }

  /** Dispatch succeeds exactly when the key is found, no other keyword is
      given, the expander is registered and all its dependencies are bound;
      the expander invoked is the registered one, it receives this very graph
      and the positional arguments, and it is injected `{name: deps[key]}`
      for each declared `(name, key)`, nothing else. */
  lemma DispatchSpec<K(!new), D, V>(g: Graph<K, D, V>, call: Call<K, V>)
    ensures var key := DispatchKey<K, D, V>(call);
      Dispatch(g, call).Success? <==>
        key.Success? && call.otherKeywords == {} && key.value in g.expanders &&
        forall i :: 0 <= i < |g.expanders[key.value].dependencies| ==>
          g.expanders[key.value].dependencies[i].1 in g.dependencies
    ensures Dispatch(g, call).Success? ==>
      var inv := Dispatch(g, call).value;
      var key := DispatchKey<K, D, V>(call).value;
      && inv.expander == g.expanders[key]
      && inv.graph == g
      && inv.args == call.args
      && (forall name, i :: 0 <= i < |inv.expander.dependencies| && inv.expander.dependencies[i].0 == name ==>
            Iterables.Get(inv.injected, name).Some?)
      && Iterables.KeySet(inv.injected) == Iterables.KeySet(inv.expander.dependencies)
      && (inv.expander.dependencies == [] ==> inv.injected == [])
      && (forall i :: 0 <= i < |inv.expander.dependencies| ==>
            Iterables.Get(inv.injected, inv.expander.dependencies[i].0) ==
            Iterables.LastValue(InjectedPairs<K, D, V>(inv.expander.dependencies, g.dependencies).value, inv.expander.dependencies[i].0))
      && (Iterables.DistinctKeys(inv.expander.dependencies) ==>
            forall i :: 0 <= i < |inv.expander.dependencies| ==>
              Iterables.Get(inv.injected, inv.expander.dependencies[i].0) == Some(g.dependencies[inv.expander.dependencies[i].1]))
  {
    if Dispatch(g, call).Success? {
      var key := DispatchKey<K, D, V>(call).value;
      var deps := g.expanders[key].dependencies;
      InjectedDictionary<K, D, V>(deps, g.dependencies, InjectedPairs<K, D, V>(deps, g.dependencies).value);
    }
  }

  /** The keyword arguments `dict(pairs)` built from the injected pairs:
      one per declared name, each the last pair's value for that name, which
      with distinct names is the dependency that name was declared with. */
  lemma InjectedDictionary<K, D, V>(deps: seq<(string, D)>, available: map<D, V>, pairs: seq<(string, V)>)
    requires InjectedPairs<K, D, V>(deps, available) == Success(pairs)
    ensures forall name, i :: 0 <= i < |deps| && deps[i].0 == name ==> Iterables.Get(Iterables.ToDict(pairs), name).Some?
    ensures Iterables.KeySet(Iterables.ToDict(pairs)) == Iterables.KeySet(deps)
    ensures forall i :: 0 <= i < |deps| ==> Iterables.Get(Iterables.ToDict(pairs), deps[i].0) == Iterables.LastValue(pairs, deps[i].0)
    ensures Iterables.DistinctKeys(deps) ==>
              forall i :: 0 <= i < |deps| ==> Iterables.Get(Iterables.ToDict(pairs), deps[i].0) == Some(available[deps[i].1])
  {
    assert forall i :: 0 <= i < |deps| ==> pairs[i].0 == deps[i].0;
    assert Iterables.KeySet(pairs) == Iterables.KeySet(deps) by {
      forall x | x in Iterables.KeySet(deps) ensures x in Iterables.KeySet(pairs) {
        var i :| 0 <= i < |deps| && deps[i].0 == x;
        assert pairs[i].0 == x;
      }
    }
    var d := Iterables.ToDict(pairs);
    forall name, i | 0 <= i < |deps| && deps[i].0 == name
      ensures Iterables.Get(d, name).Some?
    {
      assert name in Iterables.KeySet(d);
      var j :| 0 <= j < |d| && d[j].0 == name;
    }
    forall i | 0 <= i < |deps|
      ensures Iterables.Get(d, deps[i].0) == Iterables.LastValue(pairs, deps[i].0)
    {
      Iterables.ToDictGet(pairs, deps[i].0);
    }
    if Iterables.DistinctKeys(deps) {
      assert Iterables.DistinctKeys(pairs);
      Iterables.ToDictDistinct(pairs);
      Iterables.GetDistinct(pairs);
    }
  }

  /** A type key without a registered expander fails at lookup, before any
      expander is invoked. */
  lemma DispatchMiss<K(!new), D, V>(g: Graph<K, D, V>, call: Call<K, V>, fuel: nat)
    requires DispatchKey<K, D, V>(call).Success? && call.otherKeywords == {}
    requires DispatchKey<K, D, V>(call).value !in g.expanders
    ensures Dispatch(g, call) == Failure(NoExpander(DispatchKey<K, D, V>(call).value))
    ensures Resolve(g, call, fuel) == Failure(NoExpander(DispatchKey<K, D, V>(call).value))
  {
  }

  /** `graph.expand(...)` run to its result. A nested call inside an expander
      goes back through the graph it received; `fuel` stands for Python's
      recursion limit. */
  function Resolve<K(==, !new), D(==), V>(g: Graph<K, D, V>, call: Call<K, V>, fuel: nat): (r: Result<V, CoreError<K, D>>)
    reads g.expanders.Values
    ensures Dispatch(g, call).Failure? ==> r == Failure(Dispatch(g, call).error)
    ensures Dispatch(g, call).Success? && Dispatch(g, call).value.expander.body.Return? ==>
              r == Success(Dispatch(g, call).value.expander.body.value)
    ensures Dispatch(g, call).Success? && Dispatch(g, call).value.expander.body.ReturnInjected? ==>
              var inv := Dispatch(g, call).value;
              r.Success? <==> inv.expander.body.name in Iterables.KeySet(inv.injected)
    ensures Dispatch(g, call).Success? && Dispatch(g, call).value.expander.body.ExpandNested? && fuel == 0 ==>
              r == Failure(RecursionLimit)
    decreases fuel
  {
    var inv :- Dispatch(g, call);
    match inv.expander.body
    case Return(v) => Success(v)
    case ReturnInjected(name) =>
      (match Iterables.Get(inv.injected, name)
       case None => Failure(MissingKeywordArgument(name))
       case Some(v) => Success(v))
    case ExpandNested(nested) =>
      if fuel == 0 then Failure(RecursionLimit) else Resolve(inv.graph, nested, fuel - 1)
  }

  /** An expander that resolves a nested call re-enters the same registry
      with the same dependencies: its result is that nested resolution's. */
  lemma {:induction false} NestedResolution<K(!new), D, V>(g: Graph<K, D, V>, call: Call<K, V>, nested: Call<K, V>, fuel: nat)
    requires Dispatch(g, call).Success?
    requires Dispatch(g, call).value.expander.body == ExpandNested(nested)
    ensures Resolve(g, call, fuel + 1) == Resolve(g, nested, fuel)
  {
    DispatchSpec(g, call);
  }

  /** A root expander whose body resolves a leaf query re-enters the graph
      and answers with the leaf expander's value. */
  lemma RootThroughLeaf(g: Graph<string, string, int>, root: ExpanderFunction<string, string, int>,
                        leaf: ExpanderFunction<string, string, int>, leafCall: Call<string, int>)
    requires g.expanders == map["root" := root, "leaf" := leaf]
    requires root.body == ExpandNested(leafCall) && root.dependencies == []
    requires leafCall == Call([Argument(Some("leaf"), 0)], None, {})
    requires leaf.body == Return(42) && leaf.dependencies == []
    ensures Resolve(g, Call([Argument(Some("root"), 0)], None, {}), 1) == Success(42)
  {
    var rootCall := Call([Argument(Some("root"), 0)], None, {});
    assert DispatchKey<string, string, int>(rootCall) == Success("root");
    assert Dispatch(g, rootCall) == Success(Invocation(root, g, rootCall.args, []));
    assert DispatchKey<string, string, int>(leafCall) == Success("leaf");
    assert Dispatch(g, leafCall) == Success(Invocation(leaf, g, leafCall.args, []));
    assert Resolve(g, leafCall, 0) == Success(42);
  }

  /** The scenario where a root expander resolves a leaf query through the
      graph and the leaf expander answers 42. */
  method NestedScenario() returns (r: Result<int, CoreError<string, string>>)
    ensures r == Success(42)
  {
    var leafCall := Call([Argument(Some("leaf"), 0)], None, {});
    var root := new ExpanderFunction<string, string, int>(ExpandNested(leafCall));
    root := Expander("root", root);
    var leaf := new ExpanderFunction<string, string, int>(Return(42));
    leaf := Expander("leaf", leaf);
    var registration := Many([Single(root), Single(leaf)]);
    FlattenAllCons(Single(leaf), []);
    FlattenAllCons(Single(root), [Single(leaf)]);
    assert [Single(root)] + [Single(leaf)] == [Single(root), Single(leaf)];
    assert Flatten(registration) == [root, leaf];
    assert [root, leaf][..1] == [root];
    assert [root][..0] == [];
    assert Registry([root]) == Success(map["root" := root]);
    assert Registry([root, leaf]) == Success(map["root" := root, "leaf" := leaf]);
    var definition := DefineGraph(registration);
    assert definition.Success?;
    var g := CreateGraph(definition.value, None);
    assert g.expanders == map["root" := root, "leaf" := leaf];
    RootThroughLeaf(g, root, leaf, leafCall);
    r := Resolve(g, Call([Argument(Some("root"), 0)], None, {}), 1);
  }
}
