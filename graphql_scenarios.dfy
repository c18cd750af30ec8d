/** Two documents from the repository's parser tests, followed end to end
    through `DocumentToQuery`: inline fragments and named fragments on the
    root type are expanded in place, between the fields around them. */
module GraphQLParserScenarios {
  import opened Wrappers
  import opened Schema
  import opened GraphQLAst
  import Iterables
  import GraphQLNames
  import GraphQLParser

  /** `g.field("value", type=g.Int)` */
  const ValueField: Field := Field("value", Int, [])

  /** `g.ObjectType("Root", (g.field("value", type=g.Int),))` */
  const Root: GraphType := ObjectType("Root", [ValueField])

  /** `key: value` */
  function AliasedValue(key: string): Selection {
    FieldSelection(FieldNode(Some(key), "value", [], None))
  }

  /** `g.key(key, Root.fields.value())` */
  function ValueQuery(key: string): FieldQuery {
    FieldQuery(key, ValueField, ScalarQuery(Int), [])
  }

  const Expected: Query :=
    ObjectQuery(Root, [ValueQuery("one"), ValueQuery("two"), ValueQuery("three"), ValueQuery("four")])

  /** Any table of the declared types by name maps "Root" to the root type. */
  lemma {:induction false} RootByName(m: map<string, GraphType>)
    requires GraphQLParser.ByName(GraphQLParser.DeclaredTypes(Root, None, []), m)
    ensures "Root" in m && m["Root"] == Root
  {
    assert Root in GraphQLParser.DeclaredTypes(Root, None, []);
    assert TypeName(Root) == Some("Root");
  }

  /** The field `value` is found on the root type under its own name. */
  lemma {:induction false} ValueLookup()
    ensures GraphQLParser.FieldLookup(Root, GraphQLNames.CamelToSnake("value")) == Success(ValueField)
  {
    assert GraphQLNames.NoUpper("value");
    GraphQLNames.CamelToSnakeKeepsLowercase("value");
    assert Root.fields[0].name == "value";
  }

  lemma {:induction false} ReadValueField(p: GraphQLParser.Parser, key: string, fuel: nat)
    ensures GraphQLParser.ReadField(p, FieldNode(Some(key), "value", [], None), Root, fuel) == Success(ValueQuery(key))
  {
    ValueLookup();
    assert Iterables.MapResults(GraphQLParser.ArgReaderOf(p.variables, ValueField), []) == Success([]);
    assert GraphQLParser.ReadSelectionSet(p, None, Int, fuel) == Success(ScalarQuery(Int));
  }

  /** `key: value` on the root type reads as the one field query `key`. */
  lemma {:induction false} ReadAliasedValue(p: GraphQLParser.Parser, key: string, fuel: nat)
    ensures GraphQLParser.ReadSelection(p, AliasedValue(key), Root, fuel) == Success(ObjectQuery(Root, [ValueQuery(key)]))
  {
    ReadValueField(p, key, fuel);
  }

  /** A selection set made of `key: value` alone. */
  lemma {:induction false} ReadOneValue(p: GraphQLParser.Parser, key: string, fuel: nat)
    ensures GraphQLParser.ReadSet(p, SelectionSet([AliasedValue(key)]), Root, fuel) == Success(ObjectQuery(Root, [ValueQuery(key)]))
  {
    var sels := [AliasedValue(key)];
    ReadAliasedValue(p, key, fuel);
    var qs := GraphQLParser.ReadSelections(p, sels, Root, fuel);
    assert qs.Success?;
    assert qs.value == [ObjectQuery(Root, [ValueQuery(key)])];
    assert GraphQLParser.AllFieldQueries(qs.value) == [ValueQuery(key)];
  }

  /** The field queries `key: value` for each key, in order. */
  function ValueQueries(keys: seq<string>): seq<FieldQuery> {
    if keys == [] then [] else [ValueQuery(keys[0])] + ValueQueries(keys[1..])
  }

  lemma {:induction false} FourValueQueries()
    ensures ValueQueries(["one", "two", "three", "four"]) == FieldQueriesOf(Expected)
  {
    var keys := ["one", "two", "three", "four"];
    assert keys[1..] == ["two", "three", "four"];
    assert keys[1..][1..] == ["three", "four"];
    assert keys[1..][1..][1..] == ["four"];
    assert keys[1..][1..][1..][1..] == [];
  }

  /** Each selection reads as the one field query `key: value` of the key
      at the same place. */
  ghost predicate ReadAsValues(p: GraphQLParser.Parser, sels: seq<Selection>, keys: seq<string>, fuel: nat)
    decreases |sels|
  {
    if sels == [] || keys == [] then sels == [] && keys == []
    else
      && GraphQLParser.ReadSelection(p, sels[0], Root, fuel) == Success(ObjectQuery(Root, [ValueQuery(keys[0])]))
      && ReadAsValues(p, sels[1..], keys[1..], fuel)
  }

  /** One more selection that reads as `key: value`, in front. */
  lemma ReadAsValuesCons(p: GraphQLParser.Parser, sels: seq<Selection>, keys: seq<string>, fuel: nat)
    requires sels != [] && keys != []
    requires GraphQLParser.ReadSelection(p, sels[0], Root, fuel) == Success(ObjectQuery(Root, [ValueQuery(keys[0])]))
    requires ReadAsValues(p, sels[1..], keys[1..], fuel)
    ensures ReadAsValues(p, sels, keys, fuel)
  {
  }

  /** Selections that each read as one field query `key: value` add up to
      those field queries, in order. */
  lemma {:induction false} ValueSelections(p: GraphQLParser.Parser, sels: seq<Selection>, keys: seq<string>, fuel: nat)
    requires ReadAsValues(p, sels, keys, fuel)
    ensures GraphQLParser.ReadSelections(p, sels, Root, fuel).Success?
    ensures GraphQLParser.AllFieldQueries(GraphQLParser.ReadSelections(p, sels, Root, fuel).value) == ValueQueries(keys)
    decreases |sels|
  {
    if sels != [] {
      ValueSelections(p, sels[1..], keys[1..], fuel);
      GraphQLParser.ReadSelectionsCons(p, sels[0], sels[1..], Root, fuel);
      assert [sels[0]] + sels[1..] == sels;
      var qs := GraphQLParser.ReadSelections(p, sels, Root, fuel).value;
      assert qs[1..] == GraphQLParser.ReadSelections(p, sels[1..], Root, fuel).value;
    }
  }

  /** An inline fragment on the root type that holds `key: value` alone. */
  lemma {:induction false} InlineOfOne(p: GraphQLParser.Parser, key: string, fuel: nat)
    requires "Root" in p.types && p.types["Root"] == Root
    ensures GraphQLParser.ReadSelection(p, InlineFragment(Some("Root"), SelectionSet([AliasedValue(key)])), Root, fuel)
         == Success(ObjectQuery(Root, [ValueQuery(key)]))
  {
    ReadOneValue(p, key, fuel);
  }

  /** The operation's selections in `test_inline_fragments_are_expanded`. */
  const InlineSelectionList: seq<Selection> := [
    AliasedValue("one"),
    InlineFragment(Some("Root"), SelectionSet([AliasedValue("two")])),
    AliasedValue("three"),
    InlineFragment(Some("Root"), SelectionSet([AliasedValue("four")]))]

  const InlineDocument: Document :=
    Document([OperationDefinition("query", None, [], SelectionSet(InlineSelectionList))])

  /** The operation's selections in `test_named_fragments_are_expanded`. */
  const NamedSelectionList: seq<Selection> := [
    AliasedValue("one"),
    FragmentSpread("Two"),
    AliasedValue("three"),
    FragmentSpread("Four")]

  const NamedDefinitions: seq<Definition> := [
    OperationDefinition("query", None, [], SelectionSet(NamedSelectionList)),
    FragmentDefinition("Two", "Root", SelectionSet([AliasedValue("two")])),
    FragmentDefinition("Four", "Root", SelectionSet([AliasedValue("four")]))]

  const NamedDocument: Document := Document(NamedDefinitions)

  lemma {:induction false} NoSchemaSelections(sels: seq<Selection>)
    requires forall i :: 0 <= i < |sels| ==> !GraphQLParser.IsSchemaSelection(sels[i])
    ensures Iterables.Partition(GraphQLParser.IsSchemaSelection, sels).1 == sels
  {
    if sels != [] {
      NoSchemaSelections(sels[1..]);
    }
  }

  lemma {:induction false} InlineSelections(p: GraphQLParser.Parser, fuel: nat)
    requires "Root" in p.types && p.types["Root"] == Root
    ensures GraphQLParser.ReadSet(p, SelectionSet(InlineSelectionList), Root, fuel) == Success(Expected)
  {
    InlineSelectionsRead(p, fuel);
    ValueSelections(p, InlineSelectionList, ["one", "two", "three", "four"], fuel);
    FourValueQueries();
  }

  lemma {:induction false} InlineSelectionsRead(p: GraphQLParser.Parser, fuel: nat)
    requires "Root" in p.types && p.types["Root"] == Root
    ensures ReadAsValues(p, InlineSelectionList, ["one", "two", "three", "four"], fuel)
  {
    var keys := ["one", "two", "three", "four"];
    var sels := InlineSelectionList;
    assert ReadAsValues(p, sels[4..], keys[4..], fuel);
    InlineOfOne(p, "four", fuel);
    ReadAsValuesCons(p, sels[3..], keys[3..], fuel);
    ReadAliasedValue(p, "three", fuel);
    ReadAsValuesCons(p, sels[2..], keys[2..], fuel);
    InlineOfOne(p, "two", fuel);
    ReadAsValuesCons(p, sels[1..], keys[1..], fuel);
    ReadAliasedValue(p, "one", fuel);
    ReadAsValuesCons(p, sels, keys, fuel);
  }

  lemma {:induction false} NamedFragmentTable()
    ensures GraphQLParser.FragmentTable(NamedDefinitions)
         == [("Two", ("Root", SelectionSet([AliasedValue("two")]))), ("Four", ("Root", SelectionSet([AliasedValue("four")])))]
  {
    var defs := NamedDefinitions;
    assert defs[1..][1..][1..] == [];
    assert GraphQLParser.FragmentTable(defs[1..][1..]) == [("Four", ("Root", SelectionSet([AliasedValue("four")])))];
  }

  lemma {:induction false} NamedFragments()
    ensures Iterables.Get(Iterables.ToDict(GraphQLParser.FragmentTable(NamedDefinitions)), "Two")
         == Some(("Root", SelectionSet([AliasedValue("two")])))
    ensures Iterables.Get(Iterables.ToDict(GraphQLParser.FragmentTable(NamedDefinitions)), "Four")
         == Some(("Root", SelectionSet([AliasedValue("four")])))
    ensures |GraphQLParser.FragmentTable(NamedDefinitions)| == 2
  {
    NamedFragmentTable();
    var table := GraphQLParser.FragmentTable(NamedDefinitions);
    Iterables.ToDictGet(table, "Two");
    Iterables.ToDictGet(table, "Four");
    assert table[..1] == [table[0]];
  }

  /** A spread of a fragment on the root type that holds `key: value`
      alone. */
  lemma {:induction false} SpreadOfOne(p: GraphQLParser.Parser, name: string, key: string, fuel: nat)
    requires Iterables.Get(p.fragments, name) == Some(("Root", SelectionSet([AliasedValue(key)])))
    requires "Root" in p.types && p.types["Root"] == Root
    requires fuel >= 1
    ensures GraphQLParser.ReadSelection(p, FragmentSpread(name), Root, fuel) == Success(ObjectQuery(Root, [ValueQuery(key)]))
  {
    var s := SelectionSet([AliasedValue(key)]);
    assert GraphQLParser.ReadSet(p, s, Root, fuel - 1) == Success(ObjectQuery(Root, [ValueQuery(key)])) by {
      ReadOneValue(p, key, fuel - 1);
    }
    GraphQLParser.SpreadReads(p, name, Root, fuel);
  }

  lemma {:induction false} NamedSelectionsRead(p: GraphQLParser.Parser, fuel: nat)
    requires Iterables.Get(p.fragments, "Two") == Some(("Root", SelectionSet([AliasedValue("two")])))
    requires Iterables.Get(p.fragments, "Four") == Some(("Root", SelectionSet([AliasedValue("four")])))
    requires "Root" in p.types && p.types["Root"] == Root
    requires fuel >= 1
    ensures ReadAsValues(p, NamedSelectionList, ["one", "two", "three", "four"], fuel)
  {
    var keys := ["one", "two", "three", "four"];
    var sels := NamedSelectionList;
    assert ReadAsValues(p, sels[4..], keys[4..], fuel);
    SpreadOfOne(p, "Four", "four", fuel);
    ReadAsValuesCons(p, sels[3..], keys[3..], fuel);
    ReadAliasedValue(p, "three", fuel);
    ReadAsValuesCons(p, sels[2..], keys[2..], fuel);
    SpreadOfOne(p, "Two", "two", fuel);
    ReadAsValuesCons(p, sels[1..], keys[1..], fuel);
    ReadAliasedValue(p, "one", fuel);
    ReadAsValuesCons(p, sels, keys, fuel);
  }

  lemma {:induction false} NamedSelections(p: GraphQLParser.Parser, fuel: nat)
    requires p.fragments == Iterables.ToDict(GraphQLParser.FragmentTable(NamedDefinitions))
    requires "Root" in p.types && p.types["Root"] == Root
    requires fuel >= 1
    ensures GraphQLParser.ReadSet(p, SelectionSet(NamedSelectionList), Root, fuel) == Success(Expected)
  {
    NamedFragments();
    NamedSelectionsRead(p, fuel);
    ValueSelections(p, NamedSelectionList, ["one", "two", "three", "four"], fuel);
    FourValueQueries();
  }

  /** What `DocumentToQuery` needs to know about one of the two documents:
      its first definition is the `query` operation with the given
      selections, none of them asks for `__schema`, no type is unnamed, and
      whichever table of the types by name is built, the selections read as
      `Expected`. */
  ghost predicate Translates(document: Document, selections: seq<Selection>) {
    && GraphQLParser.OperationIndex(document) == Some(0)
    && document.definitions[0].operation == "query"
    && document.definitions[0].selectionSet.selections == selections
    && selections != []
    && (forall k :: 0 <= k < |selections| ==> !GraphQLParser.IsSchemaSelection(selections[k]))
    && Iterables.Partition(GraphQLParser.IsSchemaSelection, selections).1 == selections
    && (forall t :: t in GraphQLParser.DeclaredTypes(Root, None, []) ==> TypeName(t).Some?)
    && (forall m :: GraphQLParser.ByName(GraphQLParser.DeclaredTypes(Root, None, []), m) ==>
          GraphQLParser.ReadSet(GraphQLParser.Parser(Iterables.ToDict(GraphQLParser.FragmentTable(document.definitions)), m, map[]),
                                SelectionSet(selections), Root, |GraphQLParser.FragmentTable(document.definitions)|)
          == Success(Expected))
  }

  lemma {:induction false} DeclaredRootIsNamed()
    ensures forall t :: t in GraphQLParser.DeclaredTypes(Root, None, []) ==> TypeName(t).Some?
  {
    assert GraphQLParser.DeclaredTypes(Root, None, []) == {Root};
  }

  lemma {:induction false} InlineOperation()
    ensures GraphQLParser.OperationIndex(InlineDocument) == Some(0)
    ensures GraphQLParser.FragmentTable(InlineDocument.definitions) == []
  {
    var defs := InlineDocument.definitions;
    assert GraphQLParser.IsOperation(defs[0]);
    assert GraphQLParser.FragmentTable(defs[1..]) == [];
  }

  lemma {:induction false} InlineReads()
    ensures forall m | GraphQLParser.ByName(GraphQLParser.DeclaredTypes(Root, None, []), m) ::
      GraphQLParser.ReadSet(GraphQLParser.Parser(Iterables.ToDict([]), m, map[]), SelectionSet(InlineSelectionList), Root, 0)
      == Success(Expected)
  {
    forall m | GraphQLParser.ByName(GraphQLParser.DeclaredTypes(Root, None, []), m)
      ensures GraphQLParser.ReadSet(GraphQLParser.Parser(Iterables.ToDict([]), m, map[]), SelectionSet(InlineSelectionList), Root, 0)
           == Success(Expected)
    {
      RootByName(m);
      InlineSelections(GraphQLParser.Parser(Iterables.ToDict([]), m, map[]), 0);
    }
  }

  lemma {:induction false} InlineTranslates()
    ensures Translates(InlineDocument, InlineSelectionList)
  {
    assert forall i :: 0 <= i < |InlineSelectionList| ==> !GraphQLParser.IsSchemaSelection(InlineSelectionList[i]);
    NoSchemaSelections(InlineSelectionList);
    InlineOperation();
    DeclaredRootIsNamed();
    InlineReads();
  }

  lemma {:induction false} NamedTranslates()
    ensures Translates(NamedDocument, NamedSelectionList)
  {
    var defs := NamedDocument.definitions;
    assert GraphQLParser.IsOperation(defs[0]);
    assert forall i :: 0 <= i < |NamedSelectionList| ==> !GraphQLParser.IsSchemaSelection(NamedSelectionList[i]);
    NoSchemaSelections(NamedSelectionList);
    NamedFragments();
    DeclaredRootIsNamed();
    forall m | GraphQLParser.ByName(GraphQLParser.DeclaredTypes(Root, None, []), m)
      ensures GraphQLParser.ReadSet(GraphQLParser.Parser(Iterables.ToDict(GraphQLParser.FragmentTable(defs)), m, map[]),
                                    SelectionSet(NamedSelectionList), Root, |GraphQLParser.FragmentTable(defs)|)
           == Success(Expected)
    {
      RootByName(m);
      var p := GraphQLParser.Parser(Iterables.ToDict(GraphQLParser.FragmentTable(defs)), m, map[]);
      NamedSelections(p, |GraphQLParser.FragmentTable(defs)|);
    }
  }

  /** `DocumentToQuery` on either document, with `Root` as the query type,
      no mutation type, no extra types and no variables. */
  method Translate(document: Document, selections: seq<Selection>) returns (r: Result<GraphQLParser.GraphQLQuery, GraphQLParser.ParseError>)
    requires Translates(document, selections)
    ensures r == Success(GraphQLParser.GraphQLQuery(Some(Expected), None))
  {
    assert GraphQLParser.RootType("query", Root, None) == Success(Root);
    r := GraphQLParser.DocumentToQuery(document, Root, None, [], map[]);
    assert r.Success?;
    assert r.value.schemaDocument.None?;
    assert !GraphQLParser.IsSchemaSelection(selections[0]);
    assert r.value.graphQuery.Some?;
  }

  /** `test_inline_fragments_are_expanded`: the inline fragments' fields
      take their places among the others. */
  method InlineFragmentsExpanded() returns (r: Result<GraphQLParser.GraphQLQuery, GraphQLParser.ParseError>)
    ensures r == Success(GraphQLParser.GraphQLQuery(Some(Expected), None))
  {
    InlineTranslates();
    r := Translate(InlineDocument, InlineSelectionList);
  }

  /** `test_named_fragments_are_expanded`: each spread is replaced by the
      fields of the fragment it names. */
  method NamedFragmentsExpanded() returns (r: Result<GraphQLParser.GraphQLQuery, GraphQLParser.ParseError>)
    ensures r == Success(GraphQLParser.GraphQLQuery(Some(Expected), None))
  {
    NamedTranslates();
    r := Translate(NamedDocument, NamedSelectionList);
  }
}
