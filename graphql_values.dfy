/** Argument values in graphlayer/graphql/parser.py: `_read_graphql_value`
    turns a literal or a variable reference into plain data, and
    `_convert_graphql_value` turns plain data into the value a parameter of
    the declared type expects. */
module GraphQLValues {
  import opened Wrappers
  import opened Schema
  import opened GraphQLAst
  import Iterables
  import GraphQLNames

  datatype ValueError =
      /** `variables[name]` raises KeyError. */
    | UnknownVariable(name: string)
      /** A node kind the reader does not handle: the null literal. */
    | UnhandledValue
      /** `enum_values[0]` raises IndexError: no member has the value. */
    | NoMatchingMember(enumName: string, json: Json)
      /** Iterating a value that Python cannot iterate. */
    | NotIterable(json: Json)
      /** `.items()` on a value that is not a dictionary. */
    | NotAnObject(json: Json)
      /** `getattr(value_type.fields, name)` raises AttributeError. */
    | UnknownInputField(typeName: string, name: string)
      /** A declared type the converter does not handle. */
    | UnhandledType(t: GraphType)

  /** The start of the `ValueError` messages; the rest of each message is
      the Python class of the node or type. */
  function MessagePrefix(e: ValueError): Option<string> {
    match e
    case UnhandledValue => Some("unhandled value: ")
    case UnhandledType(_) => Some("unhandled type: ")
    case _ => None
  }

  /** `_read_graphql_value`: literals become plain data, list and object
      literals are read element by element (sections 2.9.7 and 2.9.8 of the
      GraphQL specification, October 2021), a variable is looked up by name
      (section 2.10), and the null literal is not handled. */
  function ReadValue(variables: map<string, Json>, v: ValueNode): (r: Result<Json, ValueError>)
    ensures v.Variable? ==>
      r == if v.variableName in variables then Success(variables[v.variableName]) else Failure(UnknownVariable(v.variableName))
    ensures v.NullValue? ==> r == Failure(UnhandledValue)
    ensures v.BooleanValue? ==> r == Success(JBool(v.b))
    ensures v.EnumValue? ==> r == Success(JString(v.symbol))
    ensures v.IntValue? ==> r == Success(JInt(v.i))
    ensures v.StringValue? ==> r == Success(JString(v.s))
    ensures r.Success? && v.ListValue? ==> r.value.JList? && |r.value.items| == |v.values|
    ensures v.ListValue? ==>
      && (r.Success? <==> ReadValues(variables, v.values).Success?)
      && (r.Success? ==> r.value == JList(ReadValues(variables, v.values).value))
      && (r.Failure? ==> r.error == ReadValues(variables, v.values).error)
    ensures r.Success? && v.ObjectValue? ==>
      && r.value.JObject?
      && Iterables.KeySet(r.value.entries) == set i | 0 <= i < |v.fields| :: v.fields[i].name
    ensures v.ObjectValue? ==>
      && (r.Success? <==> ReadFields(variables, v.fields).Success?)
      && (r.Success? ==> r.value == JObject(Iterables.ToDict(ReadFields(variables, v.fields).value)))
      && (r.Failure? ==> r.error == ReadFields(variables, v.fields).error)
    decreases v
  {
    match v
    case BooleanValue(b) => Success(JBool(b))
    case EnumValue(symbol) => Success(JString(symbol))
    case FloatValue(literal) => Success(JFloat(literal))
    case IntValue(i) => Success(JInt(i))
    case ListValue(values) =>
      var items :- ReadValues(variables, values);
      Success(JList(items))
    case ObjectValue(fields) =>
      var entries :- ReadFields(variables, fields);
      Success(JObject(Iterables.ToDict(entries)))
    case StringValue(s) => Success(JString(s))
    case Variable(name) =>
      if name in variables then Success(variables[name]) else Failure(UnknownVariable(name))
    case NullValue => Failure(UnhandledValue)
  }

  /** `[self._read_graphql_value(element) for element in value.values]`. */
  function ReadValues(variables: map<string, Json>, values: seq<ValueNode>): (r: Result<seq<Json>, ValueError>)
    ensures r.Success? ==> |r.value| == |values|
    ensures r.Success? ==> forall i :: 0 <= i < |values| ==> ReadValue(variables, values[i]) == Success(r.value[i])
    decreases values
  {
    if values == [] then Success([])
    else
      var first :- ReadValue(variables, values[0]);
      var rest :- ReadValues(variables, values[1..]);
      Success([first] + rest)
  }

  /** The `(name, value)` pairs of an object literal, before `to_dict`. */
  function ReadFields(variables: map<string, Json>, fields: seq<ObjectField>): (r: Result<seq<(string, Json)>, ValueError>)
    ensures r.Success? ==> |r.value| == |fields|
    ensures r.Success? ==> forall i :: 0 <= i < |fields| ==>
      r.value[i].0 == fields[i].name && ReadValue(variables, fields[i].value) == Success(r.value[i].1)
    decreases fields
  {
    if fields == [] then Success([])
    else
      var first :- ReadValue(variables, fields[0].value);
      var rest :- ReadFields(variables, fields[1..]);
      Success([(fields[0].name, first)] + rest)
  }

  /** The reader as a function value, for `[... for element in ...]`. */
  function ReaderOf(variables: map<string, Json>): ValueNode -> Result<Json, ValueError> {
    v => ReadValue(variables, v)
  }

  /** A list literal is read exactly as the comprehension over its elements:
      it fails with the first element that fails. */
  lemma {:induction false} ReadValuesIsMap(variables: map<string, Json>, values: seq<ValueNode>)
    ensures ReadValues(variables, values) == Iterables.MapResults(ReaderOf(variables), values)
  {
    if values != [] {
      ReadValuesIsMap(variables, values[1..]);
    }
  }

  /** The literal that denotes a piece of plain data, as a client writes it. */
  function Literal(j: Json): ValueNode {
    match j
    case JNull => NullValue
    case JBool(b) => BooleanValue(b)
    case JInt(i) => IntValue(i)
    case JFloat(literal) => FloatValue(literal)
    case JString(s) => StringValue(s)
    case JList(items) => ListValue(seq(|items|, i requires 0 <= i < |items| => Literal(items[i])))
    case JObject(entries) =>
      ObjectValue(seq(|entries|, i requires 0 <= i < |entries| => ObjectField(entries[i].0, Literal(entries[i].1))))
  }

  /** Data a literal can denote for this reader: no null anywhere, and no
      object with a repeated key. */
  ghost predicate Writable(j: Json) {
    match j
    case JNull => false
    case JList(items) => forall i :: 0 <= i < |items| ==> Writable(items[i])
    case JObject(entries) =>
      && Iterables.DistinctKeys(entries)
      && forall i :: 0 <= i < |entries| ==> Writable(entries[i].1)
    case _ => true
  }

  /** Reading the literal of a piece of data gives that data back, whatever
      the variables. */
  lemma {:induction false} ReadLiteral(variables: map<string, Json>, j: Json)
    requires Writable(j)
    ensures ReadValue(variables, Literal(j)) == Success(j)
    decreases j, 1, 0
  {
    match j
    case JList(items) =>
      ReadLiterals(variables, items);
    case JObject(entries) =>
      ReadObjectFields(variables, j, entries);
      Iterables.ToDictDistinct(entries);
    case _ =>
  }

  lemma {:induction false} ReadLiterals(variables: map<string, Json>, items: seq<Json>)
    requires forall i :: 0 <= i < |items| ==> Writable(items[i])
    ensures ReadValues(variables, seq(|items|, i requires 0 <= i < |items| => Literal(items[i]))) == Success(items)
    decreases items, 0, 0
  {
    if items != [] {
      var nodes := seq(|items|, i requires 0 <= i < |items| => Literal(items[i]));
      var rest := items[1..];
      var restNodes := seq(|rest|, i requires 0 <= i < |rest| => Literal(rest[i]));
      assert nodes[1..] == restNodes by {
        forall i | 0 <= i < |rest| ensures nodes[1..][i] == restNodes[i] {
          assert rest[i] == items[i + 1];
        }
      }
      assert ReadValue(variables, nodes[0]) == Success(items[0]) by {
        ReadLiteral(variables, items[0]);
      }
      ReadLiterals(variables, rest);
      assert ReadValues(variables, nodes) == Success([items[0]] + rest);
      assert items == [items[0]] + rest;
    }
  }

  /** The entries of an object literal; `parent` is the object they sit
      in, which bounds the recursion. */
  lemma {:induction false} ReadObjectFields(variables: map<string, Json>, parent: Json, entries: seq<(string, Json)>)
    requires forall i :: 0 <= i < |entries| ==> entries[i].1 < parent && Writable(entries[i].1)
    ensures ReadFields(variables, seq(|entries|, i requires 0 <= i < |entries| => ObjectField(entries[i].0, Literal(entries[i].1))))
         == Success(entries)
    decreases parent, 0, |entries|
  {
    var fields := seq(|entries|, i requires 0 <= i < |entries| => ObjectField(entries[i].0, Literal(entries[i].1)));
    if entries != [] {
      var rest := entries[1..];
      var restFields := seq(|rest|, i requires 0 <= i < |rest| => ObjectField(rest[i].0, Literal(rest[i].1)));
      assert fields[1..] == restFields by {
        forall i | 0 <= i < |rest| ensures fields[1..][i] == restFields[i] {
          assert rest[i] == entries[i + 1];
        }
      }
      assert ReadValue(variables, fields[0].value) == Success(entries[0].1) by {
        ReadLiteral(variables, entries[0].1);
      }
      ReadObjectFields(variables, parent, rest);
      assert ReadFields(variables, fields) == Success([(entries[0].0, entries[0].1)] + rest);
      assert entries == [entries[0]] + rest;
    }
  }

  /** `for element in graphql_value`: a list yields its items, a string its
      characters and a dictionary its keys; nothing else can be iterated. */
  function Elements(j: Json): (r: Result<seq<Json>, ValueError>)
    ensures j.JList? ==> r == Success(j.items)
    ensures r.Failure? <==> !(j.JList? || j.JString? || j.JObject?)
    ensures j.JString? ==>
      && r.Success? && |r.value| == |j.s|
      && forall i :: 0 <= i < |j.s| ==> r.value[i] == JString([j.s[i]])
    ensures j.JObject? ==>
      && r.Success? && |r.value| == |j.entries|
      && forall i :: 0 <= i < |j.entries| ==> r.value[i] == JString(j.entries[i].0)
  {
    match j
    case JList(items) => Success(items)
    case JString(s) => Success(seq(|s|, i requires 0 <= i < |s| => JString([s[i]])))
    case JObject(entries) => Success(seq(|entries|, i requires 0 <= i < |entries| => JString(entries[i].0)))
    case _ => Failure(NotIterable(j))
  }

  /** `getattr(fields, name)` on the fields of an input object type: the
      first input field with that name. */
  function InputFieldNamed(fields: seq<InputField>, name: string): (r: Option<InputField>)
    ensures r.Some? ==> r.value in fields && r.value.name == name
    ensures r.None? <==> forall i :: 0 <= i < |fields| ==> fields[i].name != name
  {
    match Iterables.Find((f: InputField) => f.name == name, fields)
    case Some(i) => Some(fields[i])
    case None => None
  }

  /** Whether an enum member's value is the given data. */
  function HasValue(j: Json): EnumMember -> bool {
    (m: EnumMember) => m.value == j
  }

  /** `_convert_graphql_value`: the branches are tried in the order of the
      source, enum types first. */
  function ConvertValue(j: Json, t: GraphType): (r: Result<Value, ValueError>)
    ensures (t.Boolean? || t.Float? || t.Int? || t.String?) ==> r == Success(Plain(j))
    ensures t.ObjectType? ==> r == Failure(UnhandledType(t))
    ensures t.EnumType? ==> (r.Success? <==> exists i :: 0 <= i < |t.members| && t.members[i].value == j)
    ensures t.EnumType? && r.Success? ==> exists i ::
      && 0 <= i < |t.members| && t.members[i].value == j
      && (forall k :: 0 <= k < i ==> t.members[k].value != j)
      && r.value == Member(t.members[i])
    ensures t.ListType? ==> r == ConvertList(j, t.elementType)
    ensures t.InputObjectType? ==> r == ConvertInputObject(j, t)
    decreases t, 1, 0
  {
    match t
    case EnumType(name, members) =>
      (match Iterables.Find(HasValue(j), members)
       case Some(i) => Success(Member(members[i]))
       case None => Failure(NoMatchingMember(name, j)))
    case NullableType(e) => ConvertValue(j, e)
    case Boolean => Success(Plain(j))
    case Float => Success(Plain(j))
    case Int => Success(Plain(j))
    case String => Success(Plain(j))
    case ListType(e) => ConvertList(j, e)
    case InputObjectType(_, _) => ConvertInputObject(j, t)
    case ObjectType(_, _) => Failure(UnhandledType(t))
  }

  /** The list branch: iterate the data and convert every element to the
      element type; data that cannot be iterated fails first. */
  function ConvertList(j: Json, e: GraphType): (r: Result<Value, ValueError>)
    ensures Elements(j).Failure? ==> r == Failure(Elements(j).error)
    ensures Elements(j).Success? ==>
      && (r.Success? <==> ConvertItems(Elements(j).value, e).Success?)
      && (r.Success? ==> r.value == Items(ConvertItems(Elements(j).value, e).value))
      && (r.Failure? ==> r.error == ConvertItems(Elements(j).value, e).error)
    decreases e, 3, 0
  {
    var elements :- Elements(j);
    var items :- ConvertItems(elements, e);
    Success(Items(items))
  }

  /** The input-object branch: data that is not a dictionary fails; otherwise
      every entry converts and the type is built from the snake_cased keys,
      a later duplicate key overwriting an earlier one. */
  function ConvertInputObject(j: Json, t: GraphType): (r: Result<Value, ValueError>)
    requires t.InputObjectType?
    ensures !j.JObject? ==> r == Failure(NotAnObject(j))
    ensures j.JObject? ==>
      && (r.Success? <==> ConvertEntries(j.entries, t).Success?)
      && (r.Success? ==> r.value == InputObject(t.name, Iterables.ToDict(ConvertEntries(j.entries, t).value)))
      && (r.Failure? ==> r.error == ConvertEntries(j.entries, t).error)
    ensures r.Success? ==>
      && j.JObject?
      && r.value.InputObject? && r.value.typeName == t.name
      && Iterables.KeySet(r.value.entries) == set i | 0 <= i < |j.entries| :: GraphQLNames.CamelToSnake(j.entries[i].0)
    decreases t, 0, (if j.JObject? then |j.entries| else 0) + 1
  {
    if j.JObject? then
      var entries :- ConvertEntries(j.entries, t);
      SnakeKeys(j.entries, entries);
      Success(InputObject(t.name, Iterables.ToDict(entries)))
    else
      Failure(NotAnObject(j))
  }

  lemma SnakeKeys<V, W>(entries: seq<(string, V)>, converted: seq<(string, W)>)
    requires |converted| == |entries|
    requires forall i :: 0 <= i < |entries| ==> converted[i].0 == GraphQLNames.CamelToSnake(entries[i].0)
    ensures Iterables.KeySet(converted) == set i | 0 <= i < |entries| :: GraphQLNames.CamelToSnake(entries[i].0)
  {
  }

  /** `[convert(element, element_type) for element in ...]`. */
  function ConvertItems(items: seq<Json>, e: GraphType): (r: Result<seq<Value>, ValueError>)
    ensures r.Success? <==> forall i :: 0 <= i < |items| ==> ConvertValue(items[i], e).Success?
    ensures r.Success? ==> |r.value| == |items|
    ensures r.Success? ==> forall i :: 0 <= i < |items| ==> ConvertValue(items[i], e) == Success(r.value[i])
    decreases e, 2, |items|
  {
    if items == [] then Success([])
    else
      var first :- ConvertValue(items[0], e);
      var rest :- ConvertItems(items[1..], e);
      Success([first] + rest)
  }

  /** `(snake_key, get_field_value(key, value))` for one entry of an input
      object: the input field is looked up by the snake_case key, and the
      value is converted to that field's type. */
  function ConvertEntry(entry: (string, Json), t: GraphType): (r: Result<(string, Value), ValueError>)
    requires t.InputObjectType?
    ensures InputFieldNamed(t.inputFields, GraphQLNames.CamelToSnake(entry.0)).None? ==>
      r == Failure(UnknownInputField(t.name, GraphQLNames.CamelToSnake(entry.0)))
    ensures InputFieldNamed(t.inputFields, GraphQLNames.CamelToSnake(entry.0)).Some? ==>
      var converted := ConvertValue(entry.1, InputFieldNamed(t.inputFields, GraphQLNames.CamelToSnake(entry.0)).value.fieldType);
      && (r.Success? <==> converted.Success?)
      && (r.Success? ==> r.value == (GraphQLNames.CamelToSnake(entry.0), converted.value))
      && (r.Failure? ==> r.error == converted.error)
    decreases t, 0, 0
  {
    var key := GraphQLNames.CamelToSnake(entry.0);
    match InputFieldNamed(t.inputFields, key)
    case None => Failure(UnknownInputField(t.name, key))
    case Some(field) =>
      var value :- ConvertValue(entry.1, field.fieldType);
      Success((key, value))
  }

  /** The pairs of an input object, before `to_dict`. */
  function ConvertEntries(entries: seq<(string, Json)>, t: GraphType): (r: Result<seq<(string, Value)>, ValueError>)
    requires t.InputObjectType?
    ensures r.Success? <==> forall i :: 0 <= i < |entries| ==> ConvertEntry(entries[i], t).Success?
    ensures r.Success? ==> |r.value| == |entries|
    ensures r.Success? ==> forall i :: 0 <= i < |entries| ==> ConvertEntry(entries[i], t) == Success(r.value[i])
    ensures r.Success? ==> forall i :: 0 <= i < |entries| ==> r.value[i].0 == GraphQLNames.CamelToSnake(entries[i].0)
    decreases t, 0, |entries|
  {
    if entries == [] then Success([])
    else
      var first :- ConvertEntry(entries[0], t);
      var rest :- ConvertEntries(entries[1..], t);
      Success([first] + rest)
  }

  function ConvertEntryOf(t: GraphType): ((string, Json)) -> Result<(string, Value), ValueError>
    requires t.InputObjectType?
  {
    entry => ConvertEntry(entry, t)
  }

  /** An input object converts entry by entry and fails with the first
      entry that fails. */
  lemma {:induction false} ConvertEntriesIsMap(entries: seq<(string, Json)>, t: GraphType)
    requires t.InputObjectType?
    ensures ConvertEntries(entries, t) == Iterables.MapResults(ConvertEntryOf(t), entries)
  {
    if entries != [] {
      ConvertEntriesIsMap(entries[1..], t);
    }
  }

  /** A key that names no input field of the type fails the whole input
      object, once every entry before it has converted. */
  lemma UnknownInputFieldFails(j: Json, t: GraphType, i: nat)
    requires t.InputObjectType? && j.JObject? && i < |j.entries|
    requires forall k :: 0 <= k < i ==> ConvertEntry(j.entries[k], t).Success?
    requires InputFieldNamed(t.inputFields, GraphQLNames.CamelToSnake(j.entries[i].0)).None?
    ensures ConvertValue(j, t) == Failure(UnknownInputField(t.name, GraphQLNames.CamelToSnake(j.entries[i].0)))
  {
    var f := ConvertEntryOf(t);
    var entries := j.entries;
    ConvertEntriesIsMap(entries, t);
    assert forall k :: 0 <= k < |entries[..i]| ==> f(entries[..i][k]).Success? by {
      forall k | 0 <= k < |entries[..i]| ensures f(entries[..i][k]).Success? {
        assert entries[..i][k] == entries[k];
      }
    }
    assert f(entries[i]) == ConvertEntry(entries[i], t);
    Iterables.MapResultsFailsAt(f, entries, i, Iterables.MapResults(f, entries[..i]).value);
  }

  /** The converter for one declared type, as a function value. */
  function ConverterTo(t: GraphType): Json -> Result<Value, ValueError> {
    j => ConvertValue(j, t)
  }

  /** A list converts element by element, keeping length and order, and
      fails with the first element that fails. */
  lemma {:induction false} ConvertItemsIsMap(items: seq<Json>, e: GraphType)
    ensures ConvertItems(items, e) == Iterables.MapResults(ConverterTo(e), items)
  {
    if items != [] {
      ConvertItemsIsMap(items[1..], e);
    }
  }

  /** A nullable type converts as its element type. */
  lemma NullableDelegates(j: Json, e: GraphType)
    ensures ConvertValue(j, NullableType(e)) == ConvertValue(j, e)
  {
  }

  /** `_read_value_node`: read, then convert to the declared type. */
  function ReadValueNode(variables: map<string, Json>, v: ValueNode, t: GraphType): (r: Result<Value, ValueError>)
    ensures r.Success? ==> ReadValue(variables, v).Success? && ConvertValue(ReadValue(variables, v).value, t) == r
    ensures ReadValue(variables, v).Failure? ==> r == Failure(ReadValue(variables, v).error)
    ensures ReadValue(variables, v).Success? ==> r == ConvertValue(ReadValue(variables, v).value, t)
  {
    var j :- ReadValue(variables, v);
    ConvertValue(j, t)
  }
}
