/** The graphql-core syntax tree that graphlayer/graphql/parser.py walks.
    Parsing and validation belong to graphql-core and are not part of this
    model: the translation starts from an already parsed document. Only the
    node kinds and attributes the translation reads are kept; directives
    and source locations are dropped. */
module GraphQLAst {
  import opened Wrappers

  /** A literal input value or a variable reference (section 2.9 of the
      GraphQL specification, October 2021). An integer literal is held as
      the number its digits denote; a float literal keeps its text. */
  datatype ValueNode =
    | BooleanValue(b: bool)
    | EnumValue(symbol: string)
    | FloatValue(literal: string)
    | IntValue(i: int)
    | ListValue(values: seq<ValueNode>)
    | ObjectValue(fields: seq<ObjectField>)
    | StringValue(s: string)
    | Variable(variableName: string)
    | NullValue

  /** One `name: value` entry of an object literal. */
  datatype ObjectField = ObjectField(name: string, value: ValueNode)

  /** One `name: value` argument of a field. */
  datatype Argument = Argument(name: string, value: ValueNode)

  /** A field selection `alias: name(arguments) { selections }`; the alias
      and the nested selection set are optional. */
  datatype FieldNode = FieldNode(
    alias: Option<string>,
    name: string,
    arguments: seq<Argument>,
    selectionSet: Option<SelectionSet>)

  datatype Selection =
    | FieldSelection(field: FieldNode)
      /** `... on T { ... }`; the type condition may be omitted. */
    | InlineFragment(typeCondition: Option<string>, selectionSet: SelectionSet)
      /** `...Name` */
    | FragmentSpread(fragmentName: string)

  datatype SelectionSet = SelectionSet(selections: seq<Selection>)

  datatype Definition =
      /** `query`, `mutation` or `subscription`, with an optional name and
          the names of its declared variables. */
    | OperationDefinition(
        operation: string,
        operationName: Option<string>,
        variableNames: seq<string>,
        selectionSet: SelectionSet)
    | FragmentDefinition(name: string, typeCondition: string, selectionSet: SelectionSet)

  datatype Document = Document(definitions: seq<Definition>)
}
