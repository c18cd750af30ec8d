/** The type system and query representation that the engine works on. They
    live in graphlayer/schema.py and graphlayer/representations.py, which are
    not part of this model; this module gives them the minimal shape and the
    assumed semantics that the modelled files rely on:
    - calling a type with field queries, `T(f1, f2)`, builds a query for `T`:
      list and nullable types wrap a query for their element type, an object
      type holds the field queries, any other type is a scalar query;
    - `q1 + q2` on two queries for the same type concatenates their field
      queries; `q.for_type(T)` rebuilds the query's field queries for `T`;
    - `query.create_object(d)` wraps the ordered dictionary `d`.
    Types are finite trees: a schema whose types refer to each other in a
    cycle cannot be written as a value of this datatype. */
module Schema {
  import opened Wrappers

  /** Input data: a GraphQL literal once read, or a variable's value. A
      floating-point literal keeps its text. */
  datatype Json =
    | JNull
    | JBool(b: bool)
    | JInt(i: int)
    | JFloat(literal: string)
    | JString(s: string)
    | JList(items: seq<Json>)
    | JObject(entries: seq<(string, Json)>)

  /** A member of a Python `enum.Enum` class: its name and its value. */
  datatype EnumMember = EnumMember(name: string, value: Json)

  datatype GraphType =
    | Boolean
    | Float
    | Int
    | String
    | EnumType(name: string, members: seq<EnumMember>)
    | ObjectType(name: string, fields: seq<Field>)
    | InputObjectType(name: string, inputFields: seq<InputField>)
    | ListType(elementType: GraphType)
    | NullableType(elementType: GraphType)

  datatype Field = Field(name: string, fieldType: GraphType, params: seq<Param>)

  datatype Param = Param(name: string, paramType: GraphType)

  datatype InputField = InputField(name: string, fieldType: GraphType)

  /** `graph_type.name`: list and nullable types have none. */
  function TypeName(t: GraphType): Option<string> {
    match t
    case Boolean => Some("Boolean")
    case Float => Some("Float")
    case Int => Some("Int")
    case String => Some("String")
    case EnumType(name, _) => Some(name)
    case ObjectType(name, _) => Some(name)
    case InputObjectType(name, _) => Some(name)
    case ListType(_) => None
    case NullableType(_) => None
  }

  predicate IsWrapper(t: GraphType) {
    t.ListType? || t.NullableType?
  }

  /** A converted argument value: a plain scalar, an enum member, a list, or
      an input object built from its snake-cased fields. */
  datatype Value =
    | Plain(json: Json)
    | Member(member: EnumMember)
    | Items(items: seq<Value>)
    | InputObject(typeName: string, entries: seq<(string, Value)>)

  /** `param(value)`: a bound argument. */
  datatype Arg = Arg(param: Param, value: Value)

  datatype Query =
    | ScalarQuery(queryType: GraphType)
    | ObjectQuery(queryType: GraphType, fieldQueries: seq<FieldQuery>)
    | ListQuery(queryType: GraphType, elementQuery: Query)
    | NullableQuery(queryType: GraphType, elementQuery: Query)

  /** `field.query(key=..., args=..., type_query=...)`. */
  datatype FieldQuery = FieldQuery(key: string, field: Field, typeQuery: Query, args: seq<Arg>)

  /** `graph_type(*field_queries)`. */
  function Construct(t: GraphType, fieldQueries: seq<FieldQuery>): (q: Query)
    ensures q.queryType == t
  {
    match t
    case ListType(e) => ListQuery(t, Construct(e, fieldQueries))
    case NullableType(e) => NullableQuery(t, Construct(e, fieldQueries))
    case ObjectType(_, _) => ObjectQuery(t, fieldQueries)
    case _ => ScalarQuery(t)
  }

  /** The field queries of the innermost object query. */
  function FieldQueriesOf(q: Query): seq<FieldQuery> {
    match q
    case ScalarQuery(_) => []
    case ObjectQuery(_, fqs) => fqs
    case ListQuery(_, e) => FieldQueriesOf(e)
    case NullableQuery(_, e) => FieldQueriesOf(e)
  }

  /** The type under every list and nullable layer. */
  function Innermost(t: GraphType): (e: GraphType)
    ensures !IsWrapper(e)
  {
    match t
    case ListType(e) => Innermost(e)
    case NullableType(e) => Innermost(e)
    case _ => t
  }

  /** A query built for a type whose innermost type is an object type gives
      back exactly the field queries it was built from. */
  lemma {:induction false} FieldQueriesOfConstruct(t: GraphType, fqs: seq<FieldQuery>)
    requires Innermost(t).ObjectType?
    ensures FieldQueriesOf(Construct(t, fqs)) == fqs
  {
    match t
    case ListType(e) => FieldQueriesOfConstruct(e, fqs);
    case NullableType(e) => FieldQueriesOfConstruct(e, fqs);
    case ObjectType(_, _) =>
  }

  /** Below a type with no object type inside its wrappers, the field
      queries play no part: every query built for it is the same. */
  lemma {:induction false} ConstructWithoutObject(t: GraphType, fqs: seq<FieldQuery>)
    requires !Innermost(t).ObjectType?
    ensures Construct(t, fqs) == Construct(t, [])
    ensures FieldQueriesOf(Construct(t, fqs)) == []
  {
    match t
    case ListType(e) => ConstructWithoutObject(e, fqs);
    case NullableType(e) => ConstructWithoutObject(e, fqs);
    case _ =>
  }

  /** A query built for `t` is rebuilt unchanged from its own field
      queries. */
  lemma ConstructRebuilds(t: GraphType, fqs: seq<FieldQuery>)
    ensures Construct(t, FieldQueriesOf(Construct(t, fqs))) == Construct(t, fqs)
  {
    if Innermost(t).ObjectType? {
      FieldQueriesOfConstruct(t, fqs);
    } else {
      ConstructWithoutObject(t, fqs);
      ConstructWithoutObject(t, FieldQueriesOf(Construct(t, fqs)));
    }
  }

  /** `q.for_type(t)`. */
  function ForType(q: Query, t: GraphType): Query {
    Construct(t, FieldQueriesOf(q))
  }

  datatype QueryError = IncompatibleQueries(left: GraphType, right: GraphType)

  /** `left + right`. */
  function Add(left: Query, right: Query): Result<Query, QueryError> {
    if left.queryType == right.queryType then
      Success(Construct(left.queryType, FieldQueriesOf(left) + FieldQueriesOf(right)))
    else
      Failure(IncompatibleQueries(left.queryType, right.queryType))
  }

  /** `query.create_object(d)`: a result object with the entries of `d`. */
  datatype Object<V> = Object(entries: seq<(string, V)>)
}
