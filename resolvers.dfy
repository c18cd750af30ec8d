/** graphlayer/resolvers.py: two ready-made resolvers for object types.

    `constant_object_resolver(type, values)` answers every field query from
    a fixed table keyed by field name. `root_object_resolver(type)` owns a
    table of field handlers that its `field(f)` decorator fills in place;
    each resolution sends every field query to the handler registered for
    its field. The `@resolver(type)` tag both attach is kept as the
    resolver's type; the registry that dispatches on it is module Core. */
module Resolvers {
  import opened Wrappers
  import opened Schema
  import Iterables

  datatype ResolverError =
    | MissingValue(name: string)    // `values[field.name]` raises KeyError
    | MissingHandler(field: Field)  // `field_handlers[field]` raises KeyError

  /** The output keys of a sequence of field queries, in order. */
  function Keys(fqs: seq<FieldQuery>): (ks: seq<string>)
    ensures |ks| == |fqs|
    ensures forall i :: 0 <= i < |fqs| ==> ks[i] == fqs[i].key
  {
    if fqs == [] then [] else [fqs[0].key] + Keys(fqs[1..])
  }

  /** No two field queries share an output key. */
  ghost predicate DistinctFieldKeys(fqs: seq<FieldQuery>) {
    forall i, j :: 0 <= i < j < |fqs| ==> fqs[i].key != fqs[j].key
  }

  /** The object that `query.create_object(to_dict(pairs))` builds has
      exactly the keys of `pairs`, and when those keys are distinct it is
      `pairs` itself, in order. */
  lemma ObjectOfPairs<V>(fqs: seq<FieldQuery>, pairs: seq<(string, V)>)
    requires |pairs| == |fqs|
    requires forall i :: 0 <= i < |fqs| ==> pairs[i].0 == fqs[i].key
    ensures Iterables.KeySet(Iterables.ToDict(pairs)) == set i | 0 <= i < |fqs| :: fqs[i].key
    ensures DistinctFieldKeys(fqs) ==> Iterables.ToDict(pairs) == pairs
  {
    assert Iterables.KeySet(pairs) == set i | 0 <= i < |fqs| :: fqs[i].key;
    if DistinctFieldKeys(fqs) {
      Iterables.ToDictDistinct(pairs);
    }
  }

  /** `(field_query.key, values[field_query.field.name])`. */
  function ConstantEntry<V>(values: map<string, V>, fq: FieldQuery): Result<(string, V), ResolverError> {
    if fq.field.name in values then Success((fq.key, values[fq.field.name]))
    else Failure(MissingValue(fq.field.name))
  }

  function ConstantEntryOf<V>(values: map<string, V>): FieldQuery -> Result<(string, V), ResolverError> {
    fq => ConstantEntry(values, fq)
  }

  /** The entries fail exactly at the first field query whose field name
      has no value. */
  lemma ConstantEntriesFail<V>(values: map<string, V>, fqs: seq<FieldQuery>)
    requires Iterables.MapResults(ConstantEntryOf(values), fqs).Failure?
    ensures exists i ::
      && 0 <= i < |fqs| && fqs[i].field.name !in values
      && (forall j :: 0 <= j < i ==> fqs[j].field.name in values)
      && Iterables.MapResults(ConstantEntryOf(values), fqs).error == MissingValue(fqs[i].field.name)
  {
    var entry := ConstantEntryOf(values);
    var i :| Iterables.FirstFailure(entry, fqs, i) && Iterables.MapResults(entry, fqs).error == entry(fqs[i]).error;
    assert forall j :: 0 <= j < i ==> entry(fqs[j]).Success?;
    assert fqs[i].field.name !in values;
  }

  /** The body of the resolver `constant_object_resolver(type, values)`
      builds: field queries are visited in order and the first whose field
      name has no value fails. */
  function ConstantObjectResolve<V>(values: map<string, V>, query: Query): (r: Result<Object<V>, ResolverError>)
    ensures var fqs := FieldQueriesOf(query);
      r.Success? <==> forall i :: 0 <= i < |fqs| ==> fqs[i].field.name in values
    ensures var fqs := FieldQueriesOf(query);
      r.Failure? ==> exists i ::
        && 0 <= i < |fqs| && fqs[i].field.name !in values
        && (forall j :: 0 <= j < i ==> fqs[j].field.name in values)
        && r.error == MissingValue(fqs[i].field.name)
    ensures var fqs := FieldQueriesOf(query);
      r.Success? ==> Iterables.KeySet(r.value.entries) == set i | 0 <= i < |fqs| :: fqs[i].key
    ensures var fqs := FieldQueriesOf(query);
      r.Success? && DistinctFieldKeys(fqs) ==>
        && |r.value.entries| == |fqs|
        && forall i :: 0 <= i < |fqs| ==> r.value.entries[i] == (fqs[i].key, values[fqs[i].field.name])
  {
    var fqs := FieldQueriesOf(query);
    match Iterables.MapResults(ConstantEntryOf(values), fqs)
    case Failure(e) =>
      ConstantEntriesFail(values, fqs);
      Failure(e)
    case Success(pairs) =>
      ObjectOfPairs(fqs, pairs);
      Success(Object(Iterables.ToDict(pairs)))
  }

  /** A field handler: called as `handle(graph, type_query, args)`. */
  type Handler<!G, V> = (G, Query, seq<Arg>) -> V

  /** The pairs `(key, handler(graph, type_query, args))` of field queries
      that all have a handler. */
  function HandlerPairs<G, V>(handlers: map<Field, Handler<G, V>>, graph: G, fqs: seq<FieldQuery>): (pairs: seq<(string, V)>)
    requires forall i :: 0 <= i < |fqs| ==> fqs[i].field in handlers
    ensures |pairs| == |fqs|
    ensures forall i :: 0 <= i < |fqs| ==>
      pairs[i] == (fqs[i].key, handlers[fqs[i].field](graph, fqs[i].typeQuery, fqs[i].args))
  {
    if fqs == [] then []
    else
      var init := fqs[..|fqs| - 1];
      var fq := fqs[|fqs| - 1];
      HandlerPairs(handlers, graph, init) + [(fq.key, handlers[fq.field](graph, fq.typeQuery, fq.args))]
  }

  /** The function `root_object_resolver(type)` returns, with the handler
      table it shares with its `field` decorator. */
  class RootObjectResolver<G, V> {
    const resolverType: GraphType
    var fieldHandlers: map<Field, Handler<G, V>>

    /** `root_object_resolver(type)`: the table starts empty. */
    constructor (resolverType: GraphType)
      ensures this.resolverType == resolverType && fieldHandlers == map[]
    {
      this.resolverType := resolverType;
      fieldHandlers := map[];
    }

    /** `resolve_root.field(field)(handle)`: registers `handle` for `field`,
        replacing any earlier handler for it, and returns it unchanged. */
    method AddHandler(field: Field, handle: Handler<G, V>) returns (r: Handler<G, V>)
      modifies this
      ensures r == handle
      ensures fieldHandlers == old(fieldHandlers)[field := handle]
    {
      fieldHandlers := fieldHandlers[field := handle];
      r := handle;
    }

    /** `resolve_root(graph, query)`: every field query goes, in order, to
        the handler registered for its field at the time of the call, with
        the graph, its type query and its arguments; the first field query
        whose field has no handler fails. */
    method ResolveRoot(graph: G, query: Query) returns (r: Result<Object<V>, ResolverError>)
      ensures var fqs := FieldQueriesOf(query);
        r.Success? <==> forall i :: 0 <= i < |fqs| ==> fqs[i].field in fieldHandlers
      ensures var fqs := FieldQueriesOf(query);
        r.Failure? ==> exists i ::
          && 0 <= i < |fqs| && fqs[i].field !in fieldHandlers
          && (forall j :: 0 <= j < i ==> fqs[j].field in fieldHandlers)
          && r.error == MissingHandler(fqs[i].field)
      ensures var fqs := FieldQueriesOf(query);
        r.Success? ==> r.value == Object(Iterables.ToDict(HandlerPairs(fieldHandlers, graph, fqs)))
      ensures var fqs := FieldQueriesOf(query);
        r.Success? ==> Iterables.KeySet(r.value.entries) == set i | 0 <= i < |fqs| :: fqs[i].key
      ensures var fqs := FieldQueriesOf(query);
        r.Success? && DistinctFieldKeys(fqs) ==>
          && |r.value.entries| == |fqs|
          && forall i :: 0 <= i < |fqs| ==>
               r.value.entries[i] == (fqs[i].key, fieldHandlers[fqs[i].field](graph, fqs[i].typeQuery, fqs[i].args))
    {
      var fqs := FieldQueriesOf(query);
      var pairs: seq<(string, V)> := [];
      var i := 0;
      while i < |fqs|
        invariant 0 <= i <= |fqs|
        invariant forall j :: 0 <= j < i ==> fqs[j].field in fieldHandlers
        invariant pairs == HandlerPairs(fieldHandlers, graph, fqs[..i])
      {
        var fq := fqs[i];
        if fq.field !in fieldHandlers {
          r := Failure(MissingHandler(fq.field));
          assert r.Success? <==> forall i :: 0 <= i < |fqs| ==> fqs[i].field in fieldHandlers;
          assert fqs == FieldQueriesOf(query);
          return;
        }
        assert fqs[..i + 1][..i] == fqs[..i];
        pairs := pairs + [(fq.key, fieldHandlers[fq.field](graph, fq.typeQuery, fq.args))];
        i := i + 1;
      }
      assert fqs[..i] == fqs;
      ObjectOfPairs(fqs, pairs);
      r := Success(Object(Iterables.ToDict(pairs)));
    }
  }

  /** A handler registered after the resolver was created is the one used
      when resolving, and its result reaches the caller under the field's
      key; here the handler answers with its argument, as in
      tests/test_resolvers.py:75-94. */
  method ArgumentPassingScenario() returns (r: Result<Object<Value>, ResolverError>)
    ensures r == Success(Object([("value", Plain(JInt(42)))]))
  {
    var answer := Param("answer", Int);
    var valueField := Field("value", Int, [answer]);
    var root := ObjectType("Root", [valueField]);
    var resolver := new RootObjectResolver<int, Value>(root);
    var handle: Handler<int, Value> := (graph: int, typeQuery: Query, args: seq<Arg>) => if |args| > 0 then args[0].value else Plain(JNull);
    var returned := resolver.AddHandler(valueField, handle);
    var fq := FieldQuery("value", valueField, ScalarQuery(Int), [Arg(answer, Plain(JInt(42)))]);
    var query := Construct(root, [fq]);
    assert FieldQueriesOf(query) == [fq];
    r := resolver.ResolveRoot(0, query);
  }
}
