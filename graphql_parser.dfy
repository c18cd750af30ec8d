/** graphlayer/graphql/parser.py: the translation of a parsed GraphQL
    document into a graphlayer query for the root type of its operation,
    with the top-level `__schema` selections split off into a document of
    their own for the schema introspection executor. */
module GraphQLParser {
  import opened Wrappers
  import opened Schema
  import opened GraphQLAst
  import Iterables
  import GraphQLNames
  import GraphQLValues

  datatype ParseError =
      /** `find` over the definitions finds no operation. */
    | NoOperation
    | UnsupportedOperation(operation: string)
      /** `graph_type.name` on a collected type that has no name. */
    | UnnamedType(t: GraphType)
      /** `self._types[name]` raises KeyError. */
    | UnknownType(name: string)
      /** `self._fragments[name]` raises KeyError. */
    | UnknownFragment(name: string)
      /** `fragment.type_condition.name` on an inline fragment without one. */
    | MissingTypeCondition
      /** Fragment spreads nested deeper than the fuel allows. */
    | FragmentNestingExhausted
      /** `reduce` of an empty selection set. */
    | EmptySelectionSet
      /** `getattr(graph_type.fields, name)` fails. */
    | NoSuchField(t: GraphType, name: string)
      /** `getattr(field.params, name)` fails. */
    | NoSuchParam(field: Field, name: string)
    | BadValue(valueError: GraphQLValues.ValueError)
    | BadMerge(queryError: QueryError)

  function Message(e: ParseError): Option<string> {
    match e
    case UnsupportedOperation(operation) => Some("unsupported operation: " + operation)
    case _ => None
  }

  /** The value `document_text_to_query` returns. */
  datatype GraphQLQuery = GraphQLQuery(graphQuery: Option<Query>, schemaDocument: Option<Document>)

  /** A fragment definition's type condition and selection set. */
  type Fragment = (string, SelectionSet)

  /** The state a `Parser` is created with; it never changes afterwards. */
  datatype Parser = Parser(
    fragments: seq<(string, Fragment)>,
    types: map<string, GraphType>,
    variables: map<string, Json>)

  /** The root type of an operation: `query` reads from the query type,
      `mutation` from the mutation type when there is one, and every other
      operation fails. */
  function RootType(operation: string, queryType: GraphType, mutationType: Option<GraphType>): (r: Result<GraphType, ParseError>)
    ensures r.Success? <==> operation == "query" || (operation == "mutation" && mutationType.Some?)
    ensures operation == "query" ==> r == Success(queryType)
    ensures operation == "mutation" && mutationType.Some? ==> r == Success(mutationType.value)
    ensures r.Failure? ==> r.error == UnsupportedOperation(operation)
  {
    if operation == "query" then Success(queryType)
    else if operation == "mutation" && mutationType.Some? then Success(mutationType.value)
    else Failure(UnsupportedOperation(operation))
  }

  /** The message of tests/graphql/test_parser.py:64-83. */
  lemma MutationWithoutMutationType(queryType: GraphType)
    ensures RootType("mutation", queryType, None).Failure?
    ensures Message(RootType("mutation", queryType, None).error) == Some("unsupported operation: mutation")
  {
    assert "unsupported operation: " + "mutation" == "unsupported operation: mutation";
  }

  /** `getattr(fields, name)` on an object type's fields: the first field
      with that name. */
  function FieldNamed(fields: seq<Field>, name: string): (r: Option<Field>)
    ensures r.Some? ==> exists i :: 0 <= i < |fields| && fields[i] == r.value && (forall k :: 0 <= k < i ==> fields[k].name != name)
    ensures r.Some? ==> r.value.name == name
    ensures r.None? <==> forall i :: 0 <= i < |fields| ==> fields[i].name != name
  {
    match Iterables.Find((f: Field) => f.name == name, fields)
    case Some(i) => Some(fields[i])
    case None => None
  }

  /** The field `_get_field` finds: the one of that name on the type left
      once every list and nullable layer is removed. */
  function FieldLookup(t: GraphType, name: string): (r: Result<Field, ParseError>)
    ensures r.Success? <==> Innermost(t).ObjectType? && exists i :: 0 <= i < |Innermost(t).fields| && Innermost(t).fields[i].name == name
    ensures r.Success? ==> r.value.name == name && FieldNamed(Innermost(t).fields, name) == Some(r.value)
    ensures r.Failure? ==> r.error == NoSuchField(Innermost(t), name)
  {
    var inner := Innermost(t);
    if inner.ObjectType? then
      match FieldNamed(inner.fields, name)
      case Some(field) => Success(field)
      case None => Failure(NoSuchField(inner, name))
    else
      Failure(NoSuchField(inner, name))
  }

  /** List and nullable layers do not change which field is found. */
  lemma FieldLookupUnwraps(t: GraphType, name: string)
    ensures FieldLookup(ListType(t), name) == FieldLookup(t, name)
    ensures FieldLookup(NullableType(t), name) == FieldLookup(t, name)
  {
  }

  /** `_get_field`: unwraps list and nullable layers one at a time, then
      looks the field up. */
  method GetField(t: GraphType, name: string) returns (r: Result<Field, ParseError>)
    ensures r == FieldLookup(t, name)
  {
    var graphType := t;
    while graphType.ListType? || graphType.NullableType?
      invariant Innermost(graphType) == Innermost(t)
      decreases graphType
    {
      graphType := graphType.elementType;
    }
    if graphType.ObjectType? {
      match FieldNamed(graphType.fields, name)
      case Some(field) => r := Success(field);
      case None => r := Failure(NoSuchField(graphType, name));
    } else {
      r := Failure(NoSuchField(graphType, name));
    }
  }

  /** `getattr(field.params, name)`: the first parameter with that name. */
  function ParamNamed(params: seq<Param>, name: string): (r: Option<Param>)
    ensures r.Some? ==> r.value in params && r.value.name == name
    ensures r.None? <==> forall i :: 0 <= i < |params| ==> params[i].name != name
  {
    match Iterables.Find((q: Param) => q.name == name, params)
    case Some(i) => Some(params[i])
    case None => None
  }

  /** `get_arg_value(arg)`: the parameter named by the snake_case form of
      the argument's name, bound to the argument's value read and converted
      to the parameter's type. */
  function ReadArg(variables: map<string, Json>, field: Field, arg: Argument): (r: Result<Arg, ParseError>)
    ensures r.Success? ==>
      && ParamNamed(field.params, GraphQLNames.CamelToSnake(arg.name)) == Some(r.value.param)
      && GraphQLValues.ReadValueNode(variables, arg.value, r.value.param.paramType) == Success(r.value.value)
    ensures ParamNamed(field.params, GraphQLNames.CamelToSnake(arg.name)).None? ==>
      r == Failure(NoSuchParam(field, GraphQLNames.CamelToSnake(arg.name)))
    ensures ParamNamed(field.params, GraphQLNames.CamelToSnake(arg.name)).Some? ==>
      var param := ParamNamed(field.params, GraphQLNames.CamelToSnake(arg.name)).value;
      var value := GraphQLValues.ReadValueNode(variables, arg.value, param.paramType);
      && (r.Success? <==> value.Success?)
      && (r.Success? ==> r.value == Arg(param, value.value))
      && (r.Failure? ==> r.error == BadValue(value.error))
  {
    var name := GraphQLNames.CamelToSnake(arg.name);
    match ParamNamed(field.params, name)
    case None => Failure(NoSuchParam(field, name))
    case Some(param) =>
      match GraphQLValues.ReadValueNode(variables, arg.value, param.paramType)
      case Failure(e) => Failure(BadValue(e))
      case Success(value) => Success(Arg(param, value))
  }

  function ArgReaderOf(variables: map<string, Json>, field: Field): Argument -> Result<Arg, ParseError> {
    arg => ReadArg(variables, field, arg)
  }

  /** The field queries of a sequence of queries, one query after another. */
  function AllFieldQueries(qs: seq<Query>): seq<FieldQuery> {
    if qs == [] then [] else FieldQueriesOf(qs[0]) + AllFieldQueries(qs[1..])
  }

  /** `reduce(lambda left, right: left + right, rest, acc)`: it succeeds
      exactly when every query is for the type of the first, and then the sum
      is for that type; otherwise the first query for another type fails. */
  function FoldAdd(acc: Query, rest: seq<Query>): (r: Result<Query, ParseError>)
    ensures rest == [] ==> r == Success(acc)
    ensures r.Success? <==> forall i :: 0 <= i < |rest| ==> rest[i].queryType == acc.queryType
    ensures r.Success? ==> r.value.queryType == acc.queryType
    ensures r.Failure? ==> exists i ::
      && 0 <= i < |rest| && rest[i].queryType != acc.queryType
      && (forall k :: 0 <= k < i ==> rest[k].queryType == acc.queryType)
      && r.error == BadMerge(IncompatibleQueries(acc.queryType, rest[i].queryType))
    decreases |rest|
  {
    if rest == [] then Success(acc)
    else
      match Add(acc, rest[0])
      case Failure(e) => Failure(BadMerge(e))
      case Success(sum) => FoldAdd(sum, rest[1..])
  }

  /** Adding up queries that were all rebuilt for `t` never fails, and
      gives the query for `t` with all their field queries, in order. */
  lemma {:induction false} FoldAddConcatenates(acc: Query, rest: seq<Query>, t: GraphType)
    requires acc == Construct(t, FieldQueriesOf(acc))
    requires forall i :: 0 <= i < |rest| ==> rest[i] == Construct(t, FieldQueriesOf(rest[i]))
    ensures FoldAdd(acc, rest) == Success(Construct(t, FieldQueriesOf(acc) + AllFieldQueries(rest)))
    decreases |rest|
  {
    if rest == [] {
      assert FieldQueriesOf(acc) + [] == FieldQueriesOf(acc);
    } else {
      var sum := Construct(t, FieldQueriesOf(acc) + FieldQueriesOf(rest[0]));
      assert acc.queryType == t && rest[0].queryType == t;
      assert Add(acc, rest[0]) == Success(sum);
      ConstructRebuilds(t, FieldQueriesOf(acc) + FieldQueriesOf(rest[0]));
      FoldAddConcatenates(sum, rest[1..], t);
      if Innermost(t).ObjectType? {
        FieldQueriesOfConstruct(t, FieldQueriesOf(acc) + FieldQueriesOf(rest[0]));
        assert FieldQueriesOf(acc) + FieldQueriesOf(rest[0]) + AllFieldQueries(rest[1..])
            == FieldQueriesOf(acc) + AllFieldQueries(rest);
      } else {
        ConstructWithoutObject(t, FieldQueriesOf(sum) + AllFieldQueries(rest[1..]));
        ConstructWithoutObject(t, FieldQueriesOf(acc) + AllFieldQueries(rest));
      }
    }
  }

  /** `read_selection_set(selection_set, graph_type)`: no selection set
      gives the query for the type with no fields. */
  function ReadSelectionSet(p: Parser, ss: Option<SelectionSet>, t: GraphType, fuel: nat): (r: Result<Query, ParseError>)
    ensures ss.None? ==> r == Success(Construct(t, []))
    ensures ss.Some? ==> r == ReadSet(p, ss.value, t, fuel)
    ensures r.Success? ==> r.value.queryType == t
    decreases fuel, ss, 0
  {
    match ss
    case None => Success(Construct(t, []))
    case Some(s) => ReadSet(p, s, t, fuel)
  }

  /** The `reduce` branch of `read_selection_set`: every selection is read,
      rebuilt for `t`, and the results are added up. The query for `t`
      holds the field queries of the selections, in order. */
  function ReadSet(p: Parser, s: SelectionSet, t: GraphType, fuel: nat): (r: Result<Query, ParseError>)
    ensures s.selections == [] ==> r == Failure(EmptySelectionSet)
    ensures s.selections != [] ==> (r.Success? <==> ReadSelections(p, s.selections, t, fuel).Success?)
    ensures r.Success? ==> r.value.queryType == t
    ensures r.Success? ==>
      && ReadSelections(p, s.selections, t, fuel).Success?
      && r.value == Construct(t, AllFieldQueries(ReadSelections(p, s.selections, t, fuel).value))
    decreases fuel, s, 0
  {
    if s.selections == [] then Failure(EmptySelectionSet)
    else
      var qs :- ReadSelections(p, s.selections, t, fuel);
      FoldAddConcatenates(qs[0], qs[1..], t);
      assert AllFieldQueries(qs) == FieldQueriesOf(qs[0]) + AllFieldQueries(qs[1..]);
      FoldAdd(qs[0], qs[1..])
  }

  /** `self._read_graphql_selection(s, graph_type).for_type(graph_type)`
      for each selection, in order. */
  function ReadSelections(p: Parser, sels: seq<Selection>, t: GraphType, fuel: nat): (r: Result<seq<Query>, ParseError>)
    ensures r.Success? <==> forall i :: 0 <= i < |sels| ==> ReadSelection(p, sels[i], t, fuel).Success?
    ensures r.Success? ==> |r.value| == |sels|
    ensures r.Success? ==> forall i :: 0 <= i < |sels| ==>
      r.value[i] == ForType(ReadSelection(p, sels[i], t, fuel).value, t)
    ensures r.Success? ==> forall i :: 0 <= i < |sels| ==>
      r.value[i] == Construct(t, FieldQueriesOf(r.value[i]))
    decreases fuel, sels, 1
  {
    if sels == [] then Success([])
    else
      var q :- ReadSelection(p, sels[0], t, fuel);
      var rest :- ReadSelections(p, sels[1..], t, fuel);
      ReadSelectionsJoin(p, sels, t, fuel, q, rest);
      Success([ForType(q, t)] + rest)
  }

  /** The successful step of `ReadSelections`: the first selection's query,
      rebuilt for `t`, goes in front of the rest's. */
  lemma ReadSelectionsJoin(p: Parser, sels: seq<Selection>, t: GraphType, fuel: nat, q: Query, rest: seq<Query>)
    requires sels != [] && ReadSelection(p, sels[0], t, fuel) == Success(q)
    requires |rest| == |sels| - 1
    requires forall i :: 0 <= i < |rest| ==> ReadSelection(p, sels[1..][i], t, fuel).Success?
    requires forall i :: 0 <= i < |rest| ==> rest[i] == ForType(ReadSelection(p, sels[1..][i], t, fuel).value, t)
    requires forall i :: 0 <= i < |rest| ==> rest[i] == Construct(t, FieldQueriesOf(rest[i]))
    ensures forall i :: 0 <= i < |sels| ==> ReadSelection(p, sels[i], t, fuel).Success?
    ensures forall i :: 0 <= i < |sels| ==>
      ([ForType(q, t)] + rest)[i] == ForType(ReadSelection(p, sels[i], t, fuel).value, t)
    ensures forall i :: 0 <= i < |sels| ==>
      ([ForType(q, t)] + rest)[i] == Construct(t, FieldQueriesOf(([ForType(q, t)] + rest)[i]))
    decreases fuel, sels, 0
  {
    var rel := (s: Selection, x: Query) =>
      s in sels && ReadSelection(p, s, t, fuel).Success?
      && x == ForType(ReadSelection(p, s, t, fuel).value, t) && x == Construct(t, FieldQueriesOf(x));
    ConstructRebuilds(t, FieldQueriesOf(q));
    assert rel(sels[0], ForType(q, t));
    assert forall i :: 0 <= i < |rest| ==> rel(sels[1..][i], rest[i]);
    Iterables.ConsPointwise(rel, sels, ForType(q, t), rest);
  }

  /** Reading one more selection in front. */
  lemma ReadSelectionsCons(p: Parser, sel: Selection, rest: seq<Selection>, t: GraphType, fuel: nat)
    requires ReadSelection(p, sel, t, fuel).Success? && ReadSelections(p, rest, t, fuel).Success?
    ensures ReadSelections(p, [sel] + rest, t, fuel)
         == Success([ForType(ReadSelection(p, sel, t, fuel).value, t)] + ReadSelections(p, rest, t, fuel).value)
  {
    assert ([sel] + rest)[0] == sel;
    assert ([sel] + rest)[1..] == rest;
  }

  /** `_read_graphql_selection`: a field is read and wrapped in a query for
      `graph_type`; an inline fragment is read on its own type condition; a
      spread reads the fragment of that name (sections 2.8 and 2.8.2 of the
      GraphQL specification, October 2021). */
  function ReadSelection(p: Parser, sel: Selection, t: GraphType, fuel: nat): (r: Result<Query, ParseError>)
    ensures sel.FieldSelection? ==>
      && (r.Success? <==> ReadField(p, sel.field, t, fuel).Success?)
      && (r.Success? ==> r.value == Construct(t, [ReadField(p, sel.field, t, fuel).value]))
    ensures sel.InlineFragment? ==> r == ReadFragment(p, sel.typeCondition, sel.selectionSet, fuel)
    ensures sel.FragmentSpread? && Iterables.Get(p.fragments, sel.fragmentName).None? ==>
      r == Failure(UnknownFragment(sel.fragmentName))
    ensures sel.FragmentSpread? && Iterables.Get(p.fragments, sel.fragmentName).Some? ==>
      var fragment := Iterables.Get(p.fragments, sel.fragmentName).value;
      r == if fuel == 0 then Failure(FragmentNestingExhausted) else ReadFragment(p, Some(fragment.0), fragment.1, fuel - 1)
    decreases fuel, sel, 0
  {
    match sel
    case FieldSelection(f) =>
      var fq :- ReadField(p, f, t, fuel);
      Success(Construct(t, [fq]))
    case InlineFragment(typeCondition, s) =>
      ReadFragment(p, typeCondition, s, fuel)
    case FragmentSpread(name) =>
      match Iterables.Get(p.fragments, name)
      case None => Failure(UnknownFragment(name))
      case Some(fragment) =>
        if fuel == 0 then Failure(FragmentNestingExhausted)
        else ReadFragment(p, Some(fragment.0), fragment.1, fuel - 1)
  }

  /** A spread of a known fragment, with fuel left, reads the fragment's
      selections for the type its type condition names. */
  lemma SpreadReads(p: Parser, name: string, t: GraphType, fuel: nat)
    requires Iterables.Get(p.fragments, name).Some? && fuel >= 1
    requires Iterables.Get(p.fragments, name).value.0 in p.types
    ensures ReadSelection(p, FragmentSpread(name), t, fuel)
         == ReadSet(p, Iterables.Get(p.fragments, name).value.1, p.types[Iterables.Get(p.fragments, name).value.0], fuel - 1)
  {
  }

  /** `_read_graphql_fragment`: the fragment's selections are read for the
      type its type condition names. */
  function ReadFragment(p: Parser, typeCondition: Option<string>, s: SelectionSet, fuel: nat): (r: Result<Query, ParseError>)
    ensures typeCondition.None? ==> r == Failure(MissingTypeCondition)
    ensures typeCondition.Some? && typeCondition.value !in p.types ==> r == Failure(UnknownType(typeCondition.value))
    ensures typeCondition.Some? && typeCondition.value in p.types ==> r == ReadSet(p, s, p.types[typeCondition.value], fuel)
    decreases fuel, s, 1
  {
    match typeCondition
    case None => Failure(MissingTypeCondition)
    case Some(name) =>
      if name in p.types then ReadSet(p, s, p.types[name], fuel)
      else Failure(UnknownType(name))
  }

  /** `_read_graphql_field`: the field query's key is the response key, its
      field is the field named by the snake_case form of the name, its
      arguments are read in order against that field's parameters, and its
      type query is read for the field's type. */
  function ReadField(p: Parser, f: FieldNode, t: GraphType, fuel: nat): (r: Result<FieldQuery, ParseError>)
    ensures FieldLookup(t, GraphQLNames.CamelToSnake(f.name)).Failure? ==>
      r == Failure(FieldLookup(t, GraphQLNames.CamelToSnake(f.name)).error)
    ensures r.Success? ==> r.value.key == GraphQLNames.FieldKey(f)
    ensures r.Success? ==> FieldLookup(t, GraphQLNames.CamelToSnake(f.name)) == Success(r.value.field)
    ensures r.Success? ==> Iterables.MapResults(ArgReaderOf(p.variables, r.value.field), f.arguments) == Success(r.value.args)
    ensures r.Success? ==> r.value.typeQuery.queryType == r.value.field.fieldType
    decreases fuel, f, 0
  {
    var key := GraphQLNames.FieldKey(f);
    var field :- FieldLookup(t, GraphQLNames.CamelToSnake(f.name));
    var args :- Iterables.MapResults(ArgReaderOf(p.variables, field), f.arguments);
    var typeQuery :- ReadSelectionSet(p, f.selectionSet, field.fieldType, fuel);
    Success(FieldQuery(key, field, typeQuery, args))
  }

  /** How `ReadField` depends on its sub-selection: on success the type
      query is what the sub-selection reads for the field's type, and once
      the field is found, reading succeeds exactly when every argument and
      the sub-selection do, failing with the first of their errors.
      (Kept apart from `ReadField`'s own contract so that the mutually
      recursive readers' contracts do not unfold one another.) */
  lemma ReadFieldSpec(p: Parser, f: FieldNode, t: GraphType, fuel: nat)
    ensures ReadField(p, f, t, fuel).Success? ==>
      ReadSelectionSet(p, f.selectionSet, ReadField(p, f, t, fuel).value.field.fieldType, fuel)
      == Success(ReadField(p, f, t, fuel).value.typeQuery)
    ensures FieldLookup(t, GraphQLNames.CamelToSnake(f.name)).Success? ==>
      var r := ReadField(p, f, t, fuel);
      var field := FieldLookup(t, GraphQLNames.CamelToSnake(f.name)).value;
      var args := Iterables.MapResults(ArgReaderOf(p.variables, field), f.arguments);
      var sub := ReadSelectionSet(p, f.selectionSet, field.fieldType, fuel);
      && (r.Success? <==> args.Success? && sub.Success?)
      && (args.Failure? ==> r == Failure(args.error))
      && (args.Success? && sub.Failure? ==> r == Failure(sub.error))
      && (args.Success? && sub.Success? ==> r == Success(FieldQuery(GraphQLNames.FieldKey(f), field, sub.value, args.value)))
  {
  }

  /** The field queries one selection adds to the query of its selection
      set. */
  function Contribution(p: Parser, sel: Selection, t: GraphType, fuel: nat): seq<FieldQuery> {
    match ReadSelection(p, sel, t, fuel)
    case Success(q) => FieldQueriesOf(q)
    case Failure(_) => []
  }

  function Contributions(p: Parser, sels: seq<Selection>, t: GraphType, fuel: nat): seq<FieldQuery> {
    if sels == [] then [] else Contribution(p, sels[0], t, fuel) + Contributions(p, sels[1..], t, fuel)
  }

  lemma {:induction false} SelectionsContribute(p: Parser, sels: seq<Selection>, t: GraphType, fuel: nat)
    requires Innermost(t).ObjectType?
    requires ReadSelections(p, sels, t, fuel).Success?
    ensures AllFieldQueries(ReadSelections(p, sels, t, fuel).value) == Contributions(p, sels, t, fuel)
  {
    if sels != [] {
      var q := ReadSelection(p, sels[0], t, fuel).value;
      var rest := ReadSelections(p, sels[1..], t, fuel).value;
      assert ReadSelections(p, sels, t, fuel).value == [ForType(q, t)] + rest;
      assert ([ForType(q, t)] + rest)[1..] == rest;
      FieldQueriesOfConstruct(t, FieldQueriesOf(q));
      SelectionsContribute(p, sels[1..], t, fuel);
    }
  }

  /** A selection set read for an object type (under any wrappers) holds
      exactly the field queries its selections contribute, one selection
      after another. */
  lemma SelectionSetExpands(p: Parser, s: SelectionSet, t: GraphType, fuel: nat)
    requires Innermost(t).ObjectType?
    requires ReadSet(p, s, t, fuel).Success?
    ensures FieldQueriesOf(ReadSet(p, s, t, fuel).value) == Contributions(p, s.selections, t, fuel)
  {
    SelectionsContribute(p, s.selections, t, fuel);
    FieldQueriesOfConstruct(t, AllFieldQueries(ReadSelections(p, s.selections, t, fuel).value));
  }

  /** A field selection contributes its one field query. */
  lemma FieldContributes(p: Parser, f: FieldNode, t: GraphType, fuel: nat)
    requires Innermost(t).ObjectType?
    requires ReadField(p, f, t, fuel).Success?
    ensures Contribution(p, FieldSelection(f), t, fuel) == [ReadField(p, f, t, fuel).value]
  {
    FieldQueriesOfConstruct(t, [ReadField(p, f, t, fuel).value]);
  }

  /** An inline fragment on an object type contributes, in its place, what
      its own selections contribute for that type. */
  lemma InlineFragmentContributes(p: Parser, name: string, s: SelectionSet, t: GraphType, fuel: nat)
    requires name in p.types && Innermost(p.types[name]).ObjectType?
    requires ReadSet(p, s, p.types[name], fuel).Success?
    ensures Contribution(p, InlineFragment(Some(name), s), t, fuel) == Contributions(p, s.selections, p.types[name], fuel)
  {
    SelectionSetExpands(p, s, p.types[name], fuel);
  }

  /** A spread of a known fragment on an object type, read with one more
      unit of fuel than the fragment's own selections, contributes what
      those selections contribute for that type. */
  lemma SpreadContributes(p: Parser, name: string, typeCondition: string, s: SelectionSet, t: GraphType, fuel: nat)
    requires Iterables.Get(p.fragments, name) == Some((typeCondition, s))
    requires typeCondition in p.types && Innermost(p.types[typeCondition]).ObjectType?
    requires ReadSet(p, s, p.types[typeCondition], fuel).Success?
    ensures Contribution(p, FragmentSpread(name), t, fuel + 1) == Contributions(p, s.selections, p.types[typeCondition], fuel)
  {
    assert ReadSelection(p, FragmentSpread(name), t, fuel + 1) == ReadSet(p, s, p.types[typeCondition], fuel);
    SelectionSetExpands(p, s, p.types[typeCondition], fuel);
  }

  predicate IsOperation(d: Definition) {
    d.OperationDefinition?
  }

  /** Only a top-level field selection named `__schema` goes to the schema
      document. */
  predicate IsSchemaSelection(sel: Selection) {
    sel.FieldSelection? && sel.field.name == "__schema"
  }

  /** `(fragment.name.value, fragment)` for each fragment definition, in
      document order: at most one entry per definition, none without a
      fragment definition (what the entries are is stated by
      `FragmentTableSound`, `FragmentTableComplete` and `FragmentTableAppend`). */
  function FragmentTable(defs: seq<Definition>): (r: seq<(string, Fragment)>)
    ensures |r| <= |defs|
    ensures (forall j :: 0 <= j < |defs| ==> !defs[j].FragmentDefinition?) ==> r == []
  {
    if defs == [] then [] else FragmentEntries(defs[0]) + FragmentTable(defs[1..])
  }

  /** The fragment a single definition contributes to the table. */
  function FragmentEntries(d: Definition): seq<(string, Fragment)> {
    if d.FragmentDefinition? then [(d.name, (d.typeCondition, d.selectionSet))] else []
  }

  /** `entry` is what some fragment definition of `defs` contributes. */
  ghost predicate DefinedFragment(defs: seq<Definition>, entry: (string, Fragment)) {
    exists j :: 0 <= j < |defs| && defs[j] == FragmentDefinition(entry.0, entry.1.0, entry.1.1)
  }

  /** Every entry of the table comes from a fragment definition of the document. */
  lemma {:induction false} FragmentTableSound(defs: seq<Definition>)
    ensures forall i :: 0 <= i < |FragmentTable(defs)| ==> DefinedFragment(defs, FragmentTable(defs)[i])
  {
    if defs != [] {
      FragmentTableSound(defs[1..]);
      var r := FragmentTable(defs);
      var e := FragmentEntries(defs[0]);
      var rest := FragmentTable(defs[1..]);
      assert r == e + rest;
      forall i | 0 <= i < |r| ensures DefinedFragment(defs, r[i]) {
        if i < |e| {
          assert r[i] == e[0] && defs[0].FragmentDefinition?;
          assert defs[0] == FragmentDefinition(r[i].0, r[i].1.0, r[i].1.1);
        } else {
          assert r[i] == rest[i - |e|];
          assert DefinedFragment(defs[1..], rest[i - |e|]);
          var j :| 0 <= j < |defs[1..]| && defs[1..][j] == FragmentDefinition(r[i].0, r[i].1.0, r[i].1.1);
          assert defs[j + 1] == defs[1..][j];
        }
      }
    }
  }

  /** The table of a document made of two parts is the table of the first
      part followed by the table of the second: document order is kept. */
  lemma {:induction false} FragmentTableAppend(a: seq<Definition>, b: seq<Definition>)
    ensures FragmentTable(a + b) == FragmentTable(a) + FragmentTable(b)
  {
    if a == [] {
      assert a + b == b;
    } else {
      FragmentTableAppend(a[1..], b);
      FragmentTableAppendStep(a, b);
    }
  }

  lemma FragmentTableAppendStep(a: seq<Definition>, b: seq<Definition>)
    requires a != []
    requires FragmentTable(a[1..] + b) == FragmentTable(a[1..]) + FragmentTable(b)
    ensures FragmentTable(a + b) == FragmentTable(a) + FragmentTable(b)
  {
    var e, x, y := FragmentEntries(a[0]), FragmentTable(a[1..]), FragmentTable(b);
    assert FragmentTable(a + b) == e + FragmentTable(a[1..] + b) by { FragmentTableCons(a, b); }
    assert FragmentTable(a) == e + x by { FragmentTableCons(a, b); }
    Iterables.ConcatAssociates(e, x, y);
  }

  lemma FragmentTableCons(a: seq<Definition>, b: seq<Definition>)
    requires a != []
    ensures FragmentTable(a + b) == FragmentEntries(a[0]) + FragmentTable(a[1..] + b)
    ensures FragmentTable(a) == FragmentEntries(a[0]) + FragmentTable(a[1..])
  {
    assert (a + b)[0] == a[0];
    assert (a + b)[1..] == a[1..] + b;
  }

  /** Every fragment definition of the document has its entry in the table. */
  lemma {:induction false} FragmentTableComplete(defs: seq<Definition>)
    ensures forall j :: 0 <= j < |defs| && defs[j].FragmentDefinition? ==>
      (defs[j].name, (defs[j].typeCondition, defs[j].selectionSet)) in FragmentTable(defs)
  {
    if defs != [] {
      FragmentTableComplete(defs[1..]);
      forall j | 0 < j < |defs| && defs[j].FragmentDefinition?
        ensures (defs[j].name, (defs[j].typeCondition, defs[j].selectionSet)) in FragmentTable(defs)
      {
        assert defs[j] == defs[1..][j - 1];
      }
    }
  }

  /** The last fragment definition named `name`, scanning from the end. */
  function LastFragment(defs: seq<Definition>, name: string): Option<Fragment> {
    if defs == [] then None
    else
      var d := defs[|defs| - 1];
      if d.FragmentDefinition? && d.name == name then Some((d.typeCondition, d.selectionSet))
      else LastFragment(defs[..|defs| - 1], name)
  }

  /** `to_dict` of the table: a spread finds the last fragment definition
      with its name, and none when no fragment has that name. */
  lemma {:induction false} FragmentLookup(defs: seq<Definition>, name: string)
    ensures Iterables.Get(Iterables.ToDict(FragmentTable(defs)), name) == LastFragment(defs, name)
  {
    Iterables.ToDictGet(FragmentTable(defs), name);
    LastValueTable(defs, name);
  }

  lemma {:induction false} LastValueTable(defs: seq<Definition>, name: string)
    ensures Iterables.LastValue(FragmentTable(defs), name) == LastFragment(defs, name)
  {
    if defs != [] {
      var init := defs[..|defs| - 1];
      var d := defs[|defs| - 1];
      assert init + [d] == defs;
      FragmentTableAppend(init, [d]);
      FragmentTableCons([d], []);
      assert [d][1..] + [] == [];
      LastValueTable(init, name);
      var table := FragmentTable(init) + FragmentEntries(d);
      if d.FragmentDefinition? {
        assert table[..|table| - 1] == FragmentTable(init);
      } else {
        assert table == FragmentTable(init);
      }
    }
  }

  /** `_collect_types`: every input that is not `None`, each once. */
  method CollectTypes(types: seq<Option<GraphType>>) returns (all: set<GraphType>)
    ensures forall t :: t in all <==> exists i :: 0 <= i < |types| && types[i] == Some(t)
  {
    all := {};
    for i := 0 to |types|
      invariant forall t :: t in all <==> exists j :: 0 <= j < i && types[j] == Some(t)
    {
      if types[i].Some? && types[i].value !in all {
        all := all + {types[i].value};
      }
    }
  }

  /** `m` is a table of the types of `all` by name: every type has a name
      with an entry, and every entry is a type of `all` under its own name.
      Which type an entry holds when two share a name depends on the
      iteration order of the Python set. */
  ghost predicate ByName(all: set<GraphType>, m: map<string, GraphType>) {
    && (forall t :: t in all ==> TypeName(t).Some? && TypeName(t).value in m)
    && (forall name :: name in m ==> m[name] in all && TypeName(m[name]) == Some(name))
  }

  /** `to_dict((graph_type.name, graph_type) for graph_type in all_types)`:
      the set is visited in an unspecified order, and a type without a name
      fails. */
  method TypesByName(all: set<GraphType>) returns (r: Result<map<string, GraphType>, ParseError>)
    ensures r.Success? <==> forall t :: t in all ==> TypeName(t).Some?
    ensures r.Success? ==> ByName(all, r.value)
    ensures r.Failure? ==> exists t :: t in all && TypeName(t).None? && r.error == UnnamedType(t)
  {
    var rest := all;
    var m: map<string, GraphType> := map[];
    while rest != {}
      invariant rest <= all
      invariant forall t :: t in all - rest ==> TypeName(t).Some? && TypeName(t).value in m
      invariant forall name :: name in m ==> m[name] in all - rest && TypeName(m[name]) == Some(name)
      decreases rest
    {
      var t :| t in rest;
      match TypeName(t)
      case None =>
        return Failure(UnnamedType(t));
      case Some(name) =>
        m := m[name := t];
      rest := rest - {t};
    }
    r := Success(m);
  }

  /** `schema` is `defs` with only the entry at `index` replaced, by the
      operation keeping just its `__schema` selections. */
  ghost predicate SchemaDefinitions(defs: seq<Definition>, index: nat, selections: seq<Selection>, schema: seq<Definition>) {
    && index < |defs| && |schema| == |defs|
    && schema[index] == defs[index].(selectionSet := SelectionSet(selections))
    && forall j :: 0 <= j < |defs| && j != index ==> schema[j] == defs[j]
  }

  /** The operation of a document: the first operation definition. */
  function OperationIndex(document: Document): (r: Option<nat>)
    ensures r.Some? ==> r.value < |document.definitions| && document.definitions[r.value].OperationDefinition?
    ensures r.Some? ==> forall k :: 0 <= k < r.value ==> !IsOperation(document.definitions[k])
    ensures r.None? <==> forall k :: 0 <= k < |document.definitions| ==> !IsOperation(document.definitions[k])
  {
    Iterables.Find(IsOperation, document.definitions)
  }

  /** The types `_collect_types` gathers: the query type, the mutation type
      when there is one, and the extra types. */
  function DeclaredTypes(queryType: GraphType, mutationType: Option<GraphType>, types: seq<GraphType>): set<GraphType> {
    {queryType} + (if mutationType.Some? then {mutationType.value} else {}) + (set t | t in types)
  }

  /** The set `_collect_types` builds from the query type, the optional
      mutation type and the extra types. */
  method CollectDeclaredTypes(queryType: GraphType, mutationType: Option<GraphType>, types: seq<GraphType>)
    returns (all: set<GraphType>)
    ensures all == DeclaredTypes(queryType, mutationType, types)
  {
    var candidates := [Some(queryType), mutationType] + seq(|types|, j requires 0 <= j < |types| => Some(types[j]));
    all := CollectTypes(candidates);
    forall t | t in all ensures t in DeclaredTypes(queryType, mutationType, types) {
      var i :| 0 <= i < |candidates| && candidates[i] == Some(t);
      if i >= 2 { assert types[i - 2] == t; }
    }
    forall t | t in types ensures t in all {
      var i :| 0 <= i < |types| && types[i] == t;
      assert candidates[i + 2] == Some(t);
    }
    assert candidates[0] == Some(queryType);
    assert candidates[1] == mutationType;
  }

  /** The schema document's definitions: a copy of the document's
      definitions in which the operation at `index` keeps only the
      selections given. */
  method SchemaDocument(defs: seq<Definition>, index: nat, selections: seq<Selection>) returns (schema: seq<Definition>)
    requires index < |defs|
    ensures SchemaDefinitions(defs, index, selections, schema)
  {
    var copy := new Definition[|defs|](j requires 0 <= j < |defs| => defs[j]);
    copy[index] := defs[index].(selectionSet := SelectionSet(selections));
    schema := copy[..];
  }

  /** `document_text_to_query` on a parsed and validated document. The
      optional `types` and `variables` are passed as empty when absent. */
  method DocumentToQuery(
    document: Document,
    queryType: GraphType,
    mutationType: Option<GraphType>,
    types: seq<GraphType>,
    variables: map<string, Json>)
    returns (r: Result<GraphQLQuery, ParseError>)
    ensures OperationIndex(document).None? ==> r == Failure(NoOperation)
    ensures OperationIndex(document).Some? ==>
      var operation := document.definitions[OperationIndex(document).value];
      RootType(operation.operation, queryType, mutationType).Failure? ==>
        r == Failure(RootType(operation.operation, queryType, mutationType).error)
    ensures r.Failure? ==>
      || (OperationIndex(document).None? && r.error == NoOperation)
      || (OperationIndex(document).Some? &&
          var operation := document.definitions[OperationIndex(document).value];
          var root := RootType(operation.operation, queryType, mutationType);
          || (root.Failure? && r.error == root.error)
          || (root.Success? && Iterables.Partition(IsSchemaSelection, operation.selectionSet.selections).1 != [] && exists t :: t in DeclaredTypes(queryType, mutationType, types) && TypeName(t).None? && r.error == UnnamedType(t))
          || (root.Success? && Iterables.Partition(IsSchemaSelection, operation.selectionSet.selections).1 != [] && exists m ::
                && ByName(DeclaredTypes(queryType, mutationType, types), m)
                && ReadSet(Parser(Iterables.ToDict(FragmentTable(document.definitions)), m, variables),
                           SelectionSet(Iterables.Partition(IsSchemaSelection, operation.selectionSet.selections).1),
                           root.value, |FragmentTable(document.definitions)|)
                   == Failure(r.error)))
    ensures OperationIndex(document).Some? ==>
      var operation := document.definitions[OperationIndex(document).value];
      RootType(operation.operation, queryType, mutationType).Success? &&
      Iterables.Partition(IsSchemaSelection, operation.selectionSet.selections).1 == [] ==>
        r.Success?
    ensures r.Success? ==>
      && OperationIndex(document).Some?
      && var index := OperationIndex(document).value;
         var operation := document.definitions[index];
         var selections := operation.selectionSet.selections;
         var parts := Iterables.Partition(IsSchemaSelection, selections);
         var root := RootType(operation.operation, queryType, mutationType);
         && root.Success?
         && (r.value.schemaDocument.None? <==> forall k :: 0 <= k < |selections| ==> !IsSchemaSelection(selections[k]))
         && (r.value.schemaDocument.Some? ==>
               SchemaDefinitions(document.definitions, index, parts.0, r.value.schemaDocument.value.definitions))
         && (r.value.graphQuery.None? <==> forall k :: 0 <= k < |selections| ==> IsSchemaSelection(selections[k]))
         && (r.value.graphQuery.Some? ==>
               && r.value.graphQuery.value.queryType == root.value
               && exists m ::
                    && ByName(DeclaredTypes(queryType, mutationType, types), m)
                    && ReadSet(Parser(Iterables.ToDict(FragmentTable(document.definitions)), m, variables),
                               SelectionSet(parts.1), root.value, |FragmentTable(document.definitions)|)
                       == Success(r.value.graphQuery.value))
  {
    var defs := document.definitions;
    var found := Iterables.Find(IsOperation, defs);
    if found.None? {
      return Failure(NoOperation);
    }
    var index := found.value;
    var operation := defs[index];
    var rootType := RootType(operation.operation, queryType, mutationType);
    if rootType.Failure? {
      return Failure(rootType.error);
    }
    var root := rootType.value;
    var table := FragmentTable(defs);
    var fragments := Iterables.ToDict(table);
    var selections := operation.selectionSet.selections;
    var (schemaSelections, otherSelections) := Iterables.Partition(IsSchemaSelection, selections);

    var schemaDocument: Option<Document> := None;
    if |schemaSelections| != 0 {
      var schemaDefinitions := SchemaDocument(defs, index, schemaSelections);
      schemaDocument := Some(Document(schemaDefinitions));
    }

    var graphQuery: Option<Query> := None;
    if otherSelections != [] {
      var all := CollectDeclaredTypes(queryType, mutationType, types);
      var byName :- TypesByName(all);
      var parser := Parser(fragments, byName, variables);
      var query :- ReadSet(parser, SelectionSet(otherSelections), root, |table|);
      graphQuery := Some(query);
    }
    r := Success(GraphQLQuery(graphQuery, schemaDocument));
  }
}
