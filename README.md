# graphlayer core, modelled in Dafny

graphlayer is a Python library for answering graph queries. A *graph
definition* is built from *expanders*: functions tagged with the type of
query they answer and with the dependencies they need injected. A *graph*
binds a definition to concrete dependencies and dispatches every `expand`
call to the expander registered for the query's type. On top of that core
sit:

- field-dispatch resolvers that build objects from per-field handlers;
- cardinality selectors (`many`, `single`, `single_or_null`);
- an SQL adapter that turns an object query into selected columns, cuts
  each result row into per-field slices and joins related tables;
- a translator from a parsed GraphQL document into a graphlayer query.

This project models those five parts and proves what each promises its
callers. It covers:

- registry construction and dispatch, with dependency injection and
  re-entry into the same graph;
- the fixed-table and the handler-table resolvers;
- the selectors' exact error conditions;
- the SQL query builders, the row layout loop, row reading, and the
  association-join fan-out;
- GraphQL root type choice, the `__schema` split, response keys, fragment
  expansion, literal and variable reading, conversion by declared type, and
  camelCase to snake_case names.

Modules follow the Python files:

| Dafny file | module | source |
|---|---|---|
| `wrappers.dfy` | `Wrappers` | `Option` and `Result`, standing for `None` and raised exceptions |
| `iterables.dfy` | `Iterables` | the helpers of `graphlayer/iterables.py` (`to_dict`, `to_multidict`, `find`, `partition`), with the Python semantics stated as definitions |
| `schema.dfy` | `Schema` | the types, queries and values of `graphlayer/schema.py`, as far as the core uses them |
| `core.dfy` | `Core` | `graphlayer/core.py` |
| `resolvers.dfy` | `Resolvers` | `graphlayer/resolvers.py` |
| `fields.dfy` | `Fields` | `graphlayer/fields.py` |
| `sqlalchemy.dfy` | `SqlAlchemy` | `graphlayer/sqlalchemy.py` |
| `graphql_ast.dfy` | `GraphQLAst` | the graphql-core syntax tree the translator reads |
| `graphql_names.dfy` | `GraphQLNames` | `_field_key` and `_camel_case_to_snake_case` |
| `graphql_values.dfy` | `GraphQLValues` | `_read_graphql_value`, `_convert_graphql_value`, `_read_value_node` |
| `graphql_parser.dfy` | `GraphQLParser` | the rest of `graphlayer/graphql/parser.py` |
| `graphql_scenarios.dfy` | `GraphQLParserScenarios` | the fragment-expansion cases of `tests/graphql/test_parser.py` |

State changes are modelled where the source changes state:

- The `expander` and `dependencies` decorators set attributes on a function
  object. They are methods on the class `Core.ExpanderFunction`.
- `root_object_resolver` owns a handler table that its `field` decorator
  updates in place. It is the class `Resolvers.RootObjectResolver`.
- Loops are methods with loop invariants, each proved against a
  specification function: the row layout of `sql_table_resolver.resolve`,
  the unwrapping loop of `_get_field`, `_to_list_query`, `_collect_types`,
  and the schema-document copy.

Everything else is datatypes, functions and lemmas.

Dictionary semantics follow Python:

- `to_dict` keeps the first position of a key and the last value given for
  it.
- When two expanders carry the same type key, the later one wins.
- `to_multidict` collects a key's values in order of appearance.

Expanders are modelled as follows:

- What an expander does when called is a small `Body` term. It can return a
  value, return an injected dependency, or call `expand` again on the graph
  it received.
- Running a call takes a `fuel` bound standing for Python's recursion limit.
- Fragment spreads in the GraphQL translator are bounded by a fuel equal to
  the number of fragment definitions. This stands for the "no fragment
  cycles" rule that graphql-core's validation enforces before translation.

## Model

| member | source | states |
|---|---|---|
| Core.ExpanderFunction.constructor | graphlayer/core.py:55-68 | a plain function carries no type tag and no dependencies until a decorator sets them |
| Core.Expander | graphlayer/core.py:55-60 | `@expander(type)` tags the same function object with the type key, keeps its dependencies, and returns it |
| Core.Dependencies | graphlayer/core.py:63-68 | `@dependencies(**kwargs)` sets the declared `(name, key)` list on the same function object, keeps its type tag, and returns it |
| Core.Flatten | graphlayer/core.py:42-52 | a registration that is a single expander flattens to itself alone, and every flattened expander occurs in the registration |
| Core.FlattenAll | graphlayer/core.py:42-48 | an empty list flattens to nothing, and every flattened expander occurs in one of the list's items |
| Core.FlattenMembers | graphlayer/core.py:42-52 | an expander appears in the flattening of a registration exactly when it occurs in it: a leaf flattens to itself, and lists and expander groups are descended into |
| Core.FlattenAllMembers | graphlayer/core.py:42-52 | the flattening of a list holds exactly the expanders that occur in one of its items |
| Core.FlattenAllAppend | graphlayer/core.py:42-52 | flattening keeps left-to-right order: flattening a concatenation concatenates the flattenings |
| Core.FlattenAllCons | graphlayer/core.py:42-52 | the first item's expanders come first, followed by the rest's |
| Core.FlatteningLaw | graphlayer/core.py:42-52 | a nested list with a group inside flattens to its five leaves in source order |
| Core.Registry | graphlayer/core.py:10-13 | building the table fails only for an expander without a type tag; every entry is one of the flattened expanders and carries its key as tag |
| Core.RegistryKeys | graphlayer/core.py:10-13 | the registry exists exactly when every flattened expander has a type tag, and its keys are exactly those tags |
| Core.RegistryLastWins | graphlayer/core.py:10-13 | each registered key holds the last expander in order that carries that tag |
| Core.RegistryDistinct | graphlayer/core.py:10-13 | with distinct tags, every flattened expander is reachable under its own tag |
| Core.RegistryValues | graphlayer/core.py:10-13 | every registered expander carries its own key as tag and occurs in the registration |
| Core.DefineGraph | graphlayer/core.py:4-13 | a definition is built exactly when every expander is tagged; every expander's tag is a key; every entry is tagged with its key and comes from the registration |
| Core.CreateGraph | graphlayer/core.py:15-19 | a graph shares its definition's registry; without an argument it binds an empty dependency map |
| Core.DispatchKey | graphlayer/core.py:28-30 | the dispatch key is the `type` keyword when given, otherwise the type of the first positional argument, and the call fails without one |
| Core.InjectedPairs | graphlayer/core.py:34-38 | injection succeeds exactly when every declared key is bound, giving `(name, deps[key])` in declaration order; otherwise it fails at the first unbound key |
| Core.DispatchSpec | graphlayer/core.py:27-39 | dispatch succeeds exactly when the key is found, no other keyword is left, an expander is registered and all its dependencies are bound; the registered expander then receives this very graph and the positional arguments, and each declared name is bound to the last value `to_dict` keeps for it, which with distinct names is `dependencies[key]` |
| Core.InjectedDictionary | graphlayer/core.py:35-38 | the injected dictionary has exactly the declared names as keys; each holds the last value given for it, and with distinct names the value of its own dependency key |
| Core.Dispatch | graphlayer/core.py:27-38 | a missing dispatch key, a leftover keyword and a type without an expander each fail with their own error; an unbound dependency fails naming the first unbound key |
| Core.Resolve | graphlayer/core.py:39 | an expander's failure to dispatch is the call's failure; a returned value is the result; a returned injected name succeeds exactly when that name was injected; nesting past the recursion bound fails |
| Core.DispatchMiss | graphlayer/core.py:33 | a key without an expander fails at lookup and no expander runs |
| Core.NestedResolution | graphlayer/core.py:39 | an expander that calls `expand` on the graph it received resolves to what the nested call resolves to on the same graph |
| Core.RootThroughLeaf | tests/test_core.py:25-42 | a root expander that expands a leaf through the graph it was given yields the leaf's value |
| Core.NestedScenario | tests/test_core.py:25-42 | the root-to-leaf scenario built from decorated functions resolves to 42 |
| Resolvers.ObjectOfPairs | graphlayer/resolvers.py:26-29 | a built object's keys are exactly the query's field keys, one entry per field query when the keys are distinct |
| Resolvers.ConstantEntriesFail | graphlayer/resolvers.py:9 | projecting the table fails at the first field query whose field name has no value |
| Resolvers.ConstantObjectResolve | graphlayer/resolvers.py:5-13 | the object maps each field key to `values[field.name]` in query order; it succeeds exactly when every name is present and otherwise fails at the first missing one |
| Resolvers.HandlerPairs | graphlayer/resolvers.py:21-24 | each field query is answered by its handler called with exactly the graph, its type query and its arguments |
| Resolvers.RootObjectResolver.constructor | graphlayer/resolvers.py:16-17 | a new root resolver starts with an empty handler table |
| Resolvers.RootObjectResolver.AddHandler | graphlayer/resolvers.py:31-36 | `field(f)(handle)` registers the handler, replaces any earlier one for that field, and returns the handler unchanged |
| Resolvers.RootObjectResolver.ResolveRoot | graphlayer/resolvers.py:19-29 | resolution uses the table as it is at call time; it succeeds exactly when every field has a handler, fails at the first field without one, and yields one entry per field key holding that handler's answer |
| Resolvers.ArgumentPassingScenario | tests/test_resolvers.py:75-94 | a handler added after creation is used, and its answer to the passed argument reaches the caller under the field's key |
| Fields.SelectValue | graphlayer/fields.py:5-24 | a selected value is the only element; `None` only for an empty sequence under zero-or-one; the error names the cardinality |
| Fields.SingleSelects | graphlayer/fields.py:5-12 | `single` succeeds exactly for one element and returns it; otherwise it fails with "expected exactly one value" |
| Fields.SingleOrNullSelects | graphlayer/fields.py:15-24 | `single_or_null` gives `None` for no element and the element for one; for two or more it fails with "expected zero or one values" |
| Fields.SingleRefinesSingleOrNull | graphlayer/fields.py:5-24 | whatever `single` accepts, `single_or_null` accepts with the same value; they differ only on the empty sequence |
| Fields.Many | graphlayer/fields.py:1-2 | `many` hands back the field it is given |
| SqlAlchemy.ToSqlExpression | graphlayer/sqlalchemy.py:125-129 | one expression stands for itself; any other number becomes a tuple |
| SqlAlchemy.ValuesOf | graphlayer/sqlalchemy.py:47-53 | a direct join's foreign-key side is the right-hand expressions of its pairs, in order |
| SqlAlchemy.SqlQueryType | graphlayer/sqlalchemy.py:161-165 | the SQL type key is tagged apart from every plain graph type key |
| SqlAlchemy.SqlQuery.Where | graphlayer/sqlalchemy.py:182-187 | `where` appends exactly one clause at the end, keeps the type query and the index, and keeps the query's type key |
| SqlAlchemy.SqlQuery.IndexBy | graphlayer/sqlalchemy.py:175-180 | `index_by` replaces the index and keeps the clauses, the type query and the type key |
| SqlAlchemy.WhereIndexByCommute | graphlayer/sqlalchemy.py:175-187 | adding a clause and setting the index give the same query in either order |
| SqlAlchemy.Select | graphlayer/sqlalchemy.py:149-158 | `select` returns an SQL query unchanged; otherwise it starts with no clauses and no index, taking the element query of a list query |
| SqlAlchemy.SelectIdempotent | graphlayer/sqlalchemy.py:149-158 | selecting a selected query changes nothing |
| SqlAlchemy.SelectedKey | graphlayer/sqlalchemy.py:161-171 | a selected list query is keyed by the SQL key of its element type, never by a plain graph key |
| SqlAlchemy.ListQueryOf | graphlayer/sqlalchemy.py:115-122 | a successful conversion is a list query over the innermost element type |
| SqlAlchemy.StripInnermost | graphlayer/sqlalchemy.py:115-122 | stripping list and nullable layers ends at the innermost type |
| SqlAlchemy.StripConstruct | graphlayer/sqlalchemy.py:115-122 | a query built for a type loses its layers in lockstep with the type, keeping its fields |
| SqlAlchemy.ListQueryOfConstruct | graphlayer/sqlalchemy.py:115-122 | a field's query becomes a list query whose element is neither list nor nullable |
| SqlAlchemy.ToListQuery | graphlayer/sqlalchemy.py:115-122 | the unwrapping loop computes the list query of the specification |
| SqlAlchemy.SqlJoin | graphlayer/sqlalchemy.py:28-36 | three arguments give an association join and one argument a direct join; any other count fails |
| SqlAlchemy.MapValues | graphlayer/sqlalchemy.py:61-62 | only a direct join can be wrapped, and wrapping keeps its expressions |
| SqlAlchemy.JoinQuery | graphlayer/sqlalchemy.py:46-54 | the joined query filters on the local expressions being in the selected ones, and is indexed by those local expressions |
| SqlAlchemy.DirectJoinIndex | graphlayer/sqlalchemy.py:46-54 | a direct join's index exists exactly when the field type becomes a list query, failing with that conversion's error, and is what the joined sub-query filtered and indexed by the join's local expressions returns |
| SqlAlchemy.SplitRow | graphlayer/sqlalchemy.py:95-98 | an association row is cut into its left-key columns and the rest: the two parts make up the row and the first has the left-key width |
| SqlAlchemy.Pairs | graphlayer/sqlalchemy.py:103-107 | one association fans out into one pair per right-side value |
| SqlAlchemy.ValuesForPairs | graphlayer/sqlalchemy.py:103-107 | the fan-out of a left key yields its values for that key and nothing for any other |
| SqlAlchemy.AssociationIndex | graphlayer/sqlalchemy.py:90-107 | the multidict gives each left key the right-side entries of its associations, in association order |
| SqlAlchemy.AssociationValues | graphlayer/sqlalchemy.py:90-107 | each association row is split at the left-key width, and a left key collects the index entries of its right keys in association order |
| SqlAlchemy.UnmatchedAssociation | graphlayer/sqlalchemy.py:103-107 | an association whose right key is absent from the index contributes nothing |
| SqlAlchemy.AssociationPairsAppend | graphlayer/sqlalchemy.py:103-107 | the fan-out of more rows appends to the fan-out of fewer |
| SqlAlchemy.CreateReader | graphlayer/sqlalchemy.py:21-146 | an expression reads a column; a direct or decorated join reads the index of its sub-query; an association join reads the multidict built from the association rows and the right side's index; a decorated join selects with its cardinality; creation fails only when a join's field type cannot become a list query |
| SqlAlchemy.DecoratedReader | graphlayer/sqlalchemy.py:132-146 | a decorated join has a reader exactly when the bare join has one, and it reads the same index |
| SqlAlchemy.Read | graphlayer/sqlalchemy.py:21-112 | an expression reads column 0 of its slice; a join reader yields the indexed entries of its slice, or none for an absent key |
| SqlAlchemy.SelectingRead | graphlayer/sqlalchemy.py:132-146 | a decorated reader applies its selector to what the join reads |
| SqlAlchemy.WrappedFields | graphlayer/fields.py:5-24 | `single` and `single_or_null` wrap exactly the direct joins, with the matching cardinality and unchanged expressions; `many` changes nothing |
| SqlAlchemy.AllExpressions | graphlayer/sqlalchemy.py:233-236 | no fields select no columns |
| SqlAlchemy.AllExpressionsAppend | graphlayer/sqlalchemy.py:233-236 | the columns of two field lists are the columns of the first followed by those of the second |
| SqlAlchemy.AllExpressionsSnoc | graphlayer/sqlalchemy.py:233-236 | each loop step adds one field's columns at the end |
| SqlAlchemy.Slices | graphlayer/sqlalchemy.py:233-236 | there is one slice per field, the i-th being field i's range |
| SqlAlchemy.SliceCovers | graphlayer/sqlalchemy.py:233-236 | slice i lies inside the selected columns and covers exactly field i's expressions |
| SqlAlchemy.SplitAt | graphlayer/sqlalchemy.py:233-236 | the columns split into those before field i, field i's own, and those after |
| SqlAlchemy.SlicesAdjoin | graphlayer/sqlalchemy.py:233-236 | each slice starts where the previous one ends |
| SqlAlchemy.LayoutSpec | graphlayer/sqlalchemy.py:233-238 | slices are contiguous and do not overlap, slice i holds exactly field i's expressions, and together they cover all selected columns from 0 |
| SqlAlchemy.LastSliceEnds | graphlayer/sqlalchemy.py:233-238 | the first slice starts at 0 and the last one ends where the index columns begin |
| SqlAlchemy.RowLayout | graphlayer/sqlalchemy.py:233-236 | the accumulating loop computes exactly the specified columns and slices |
| SqlAlchemy.SliceRow | graphlayer/sqlalchemy.py:248 | a slice inside the row cuts exactly those columns |
| SqlAlchemy.Drop | graphlayer/sqlalchemy.py:246 | the index columns are the row after the selected columns |
| SqlAlchemy.GetField | graphlayer/sqlalchemy.py:216-221 | a field is found exactly when the table has it; a computed field is built from the query's arguments; a missing one fails naming it |
| SqlAlchemy.ReadRow | graphlayer/sqlalchemy.py:244-251 | a row reads exactly when every field's reader accepts its slice; the object's keys are the field keys, and with distinct keys each holds its own reader's value on its own slice |
| SqlAlchemy.PlanReads | graphlayer/sqlalchemy.py:244-251 | with distinct field keys, the dictionary of a read row holds under each key its own field's value |
| SqlAlchemy.ReadRowValue | graphlayer/sqlalchemy.py:244-251 | looking a key up in a read row gives the value read for that key |
| SqlAlchemy.ReadRows | graphlayer/sqlalchemy.py:196-256 | without an index, each row gives one object in row order; with an index the result is indexed; reading fails exactly when some row fails |
| SqlAlchemy.IndexedRowsSpec | graphlayer/sqlalchemy.py:206-213 | an indexed result maps each key to the objects of the rows whose trailing columns equal it, in row order |
| SqlAlchemy.IndexedRowsKeys | graphlayer/sqlalchemy.py:206-213 | the index keys are exactly the rows' trailing index columns |
| SqlAlchemy.Plan | graphlayer/sqlalchemy.py:240-249 | each field query is read under its key, from its own slice, with its own reader |
| SqlAlchemy.RowsAreCut | graphlayer/sqlalchemy.py:244-256 | in a row of the selected width plus the index width, every slice fits, has its field's width, and leaves exactly the index columns |
| SqlAlchemy.ResolveSqlQuery | graphlayer/sqlalchemy.py:190-256 | the resolver computes the specified result: fields, readers, layout, then rows read as a list or as an index |
| SqlAlchemy.GetFields | graphlayer/sqlalchemy.py:216-234 | the fields are looked up in query order and the first missing one fails |
| SqlAlchemy.CreateReaders | graphlayer/sqlalchemy.py:240-242 | readers are created in field order and the first failure stops the loop |
| SqlAlchemy.PlanColumns | graphlayer/sqlalchemy.py:240-251 | each planned column keeps its field query's key, slice and reader |
| GraphQLNames.FieldKey | graphlayer/graphql/parser.py:253-257 | the response key is the alias when present, otherwise the field name |
| GraphQLNames.LowerRunEnd | graphlayer/graphql/parser.py:262 | the scan stops at the first character that is not lowercase |
| GraphQLNames.Lower | graphlayer/graphql/parser.py:260-263 | lower-casing maps each character and leaves no uppercase letter |
| GraphQLNames.CamelToSnake | graphlayer/graphql/parser.py:260-263 | the converted name has no uppercase letter |
| GraphQLNames.UnscoredAppend | graphlayer/graphql/parser.py:260-263 | removing underscores distributes over concatenation |
| GraphQLNames.SplitWords | graphlayer/graphql/parser.py:262 | the first substitution only lengthens a name, by at most one underscore for every three characters, and leaves only the empty name empty |
| GraphQLNames.SplitBoundaries | graphlayer/graphql/parser.py:263 | the second substitution only lengthens a name, by at most one underscore for every two characters, and leaves only the empty name empty |
| GraphQLNames.SplitWordsInsertsUnderscores | graphlayer/graphql/parser.py:262 | the first substitution only inserts underscores |
| GraphQLNames.SplitBoundariesInsertsUnderscores | graphlayer/graphql/parser.py:263 | the second substitution only inserts underscores |
| GraphQLNames.LowerUnscored | graphlayer/graphql/parser.py:263 | lower-casing commutes with removing underscores |
| GraphQLNames.CamelToSnakeInsertsOnlyUnderscores | graphlayer/graphql/parser.py:260-263 | conversion lower-cases the name and inserts underscores; it changes nothing else |
| GraphQLNames.SplitWordsKeeps | graphlayer/graphql/parser.py:262 | a name with no uppercase letter passes the first substitution unchanged |
| GraphQLNames.SplitBoundariesKeeps | graphlayer/graphql/parser.py:263 | a name with no uppercase letter passes the second substitution unchanged |
| GraphQLNames.CamelToSnakeKeepsLowercase | graphlayer/graphql/parser.py:260-263 | a name with no uppercase letter is left unchanged |
| GraphQLNames.CamelToSnakeIdempotent | graphlayer/graphql/parser.py:260-263 | converting a converted name changes nothing |
| GraphQLNames.SplitBoundariesNoBoundary | graphlayer/graphql/parser.py:263 | without a lowercase-or-digit then uppercase pair, the second substitution changes nothing |
| GraphQLNames.SplitWordsTwoWords | graphlayer/graphql/parser.py:262 | one capitalised word after a lowercase head gets one underscore before it |
| GraphQLNames.LowerRunEndAll | graphlayer/graphql/parser.py:262 | an all-lowercase tail is scanned to its end |
| GraphQLNames.SplitBoundariesTwoWords | graphlayer/graphql/parser.py:263 | an already split two-word name passes the second substitution unchanged |
| GraphQLNames.LowerTwoWords | graphlayer/graphql/parser.py:263 | lower-casing a split two-word name lowers only the capital |
| GraphQLNames.CamelToSnakeTwoWords | graphlayer/graphql/parser.py:260-263 | `headCtail` becomes `head_ctail` for a lowercase head and tail |
| GraphQLNames.CamelToSnakeOneValue | tests/graphql/test_parser.py:109-129 | `oneValue` becomes `one_value` |
| GraphQLNames.CamelToSnakeArgZero | tests/graphql/test_parser.py:541-565 | `argZero` becomes `arg_zero` |
| GraphQLNames.CamelToSnakeFieldZero | graphlayer/graphql/parser.py:260-263 | `fieldZero` becomes `field_zero` |
| GraphQLValues.ReadValue | graphlayer/graphql/parser.py:222-247 | a variable is looked up by name and fails when absent; booleans, enums, integers and strings give their value; the null literal fails as unhandled; a list literal succeeds exactly when its elements read and gives their list; an object literal succeeds exactly when its fields read and gives their dictionary; a failure is the failing part's error |
| GraphQLValues.ReadValues | graphlayer/graphql/parser.py:231-235 | a list literal reads element by element, keeping length and order |
| GraphQLValues.ReadFields | graphlayer/graphql/parser.py:236-240 | an object literal reads each field under its own name |
| GraphQLValues.ReadValuesIsMap | graphlayer/graphql/parser.py:231-235 | reading a list literal is the comprehension over its elements and stops at the first failure |
| GraphQLValues.ReadLiteral | graphlayer/graphql/parser.py:222-247 | reading the literal that writes a piece of data gives back that data, for any variables |
| GraphQLValues.ReadLiterals | graphlayer/graphql/parser.py:231-235 | reading the literals of a list of data gives that list back |
| GraphQLValues.ReadObjectFields | graphlayer/graphql/parser.py:236-240 | reading the fields written for an object's entries gives those entries back |
| GraphQLValues.Elements | graphlayer/graphql/parser.py:203-207 | iteration yields a list's items, a string's characters and a dictionary's keys; anything else cannot be iterated |
| GraphQLValues.InputFieldNamed | graphlayer/graphql/parser.py:210-211 | an input field is found exactly when one has that name |
| GraphQLValues.ConvertValue | graphlayer/graphql/parser.py:189-220 | scalars pass through; a nullable type converts as its element; an enum gives its first member with that value and fails without one; a list converts as its elements; an input object converts as its entries; an object type is unhandled |
| GraphQLValues.ConvertList | graphlayer/graphql/parser.py:199-207 | a value that cannot be iterated fails; otherwise the list converts exactly when each of its items does, giving the converted items with the first failing item's error |
| GraphQLValues.ConvertInputObject | graphlayer/graphql/parser.py:208-218 | a non-dictionary fails; otherwise it converts exactly when its entries do, giving an input object of that type whose keys are the snake_case forms of the given keys |
| GraphQLValues.ConvertEntry | graphlayer/graphql/parser.py:209-217 | an entry whose snake-cased key names no field fails as an unknown input field; otherwise it converts exactly when its value converts to that field's type, under the snake-cased key |
| GraphQLValues.UnknownInputFieldFails | graphlayer/graphql/parser.py:209-217 | converting an input object fails naming the first key that matches no field when the entries before it convert |
| GraphQLValues.ConvertEntriesIsMap | graphlayer/graphql/parser.py:209-217 | converting the entries is the comprehension over them and stops at the first failure |
| GraphQLValues.ConvertEntries | graphlayer/graphql/parser.py:209-217 | the entries convert exactly when each one does, in order, each giving its snake-cased key and its converted value |
| GraphQLValues.ConvertItems | graphlayer/graphql/parser.py:203-207 | the items convert exactly when each one does, keeping length and order, each item giving its own converted value |
| GraphQLValues.ConvertItemsIsMap | graphlayer/graphql/parser.py:203-207 | a list converts element by element, keeping length and order, and fails at the first element that fails |
| GraphQLValues.NullableDelegates | graphlayer/graphql/parser.py:197-198 | a nullable type converts as its element type |
| GraphQLValues.ReadValueNode | graphlayer/graphql/parser.py:185-187 | an argument node succeeds exactly when it reads and the read value converts to the declared type; a read failure is the result's failure, and otherwise the result is the conversion of the read value |
| GraphQLParser.RootType | graphlayer/graphql/parser.py:41-46 | `query` selects the query type and `mutation` the mutation type when given; anything else fails as unsupported |
| GraphQLParser.MutationWithoutMutationType | tests/graphql/test_parser.py:64-83 | a mutation without a mutation type fails with "unsupported operation: mutation" |
| GraphQLParser.FieldNamed | graphlayer/graphql/parser.py:179-183 | the found field is the first one of that name; none is found exactly when no field has it |
| GraphQLParser.FieldLookup | graphlayer/graphql/parser.py:179-183 | a field is found exactly when the innermost type is an object type with a field of that name |
| GraphQLParser.FieldLookupUnwraps | graphlayer/graphql/parser.py:179-183 | list and nullable layers do not change which field is found |
| GraphQLParser.GetField | graphlayer/graphql/parser.py:179-183 | the unwrapping loop finds the specified field |
| GraphQLParser.ParamNamed | graphlayer/graphql/parser.py:164-167 | a parameter is found exactly when one has that name |
| GraphQLParser.ReadArg | graphlayer/graphql/parser.py:164-167 | an argument goes to the parameter named by its snake_case name and an unknown name fails; for a known one it succeeds exactly when its value reads to the parameter's type, giving that value, and a bad value fails as such |
| GraphQLParser.FoldAdd | graphlayer/graphql/parser.py:125-134 | adding up nothing gives the first query; adding succeeds exactly when every query is for the first one's type, the sum is for that type, and otherwise the first query of another type fails the merge |
| GraphQLParser.FoldAddConcatenates | graphlayer/graphql/parser.py:121-134 | adding up queries rebuilt for one type never fails and concatenates their fields in order |
| GraphQLParser.ReadSelectionSet | graphlayer/graphql/parser.py:121-134 | no selection set gives the bare type's query; the result is always for the requested type |
| GraphQLParser.ReadSet | graphlayer/graphql/parser.py:121-134 | an empty selection set fails; otherwise it succeeds exactly when each selection reads, and it is for the requested type |
| GraphQLParser.ReadSelections | graphlayer/graphql/parser.py:130-134 | every selection is read in order and rebuilt for the type; it succeeds exactly when each one does |
| GraphQLParser.ReadSelectionsCons | graphlayer/graphql/parser.py:130-134 | one more selection in front is read first |
| GraphQLParser.ReadSelection | graphlayer/graphql/parser.py:136-148 | a field becomes a query for the type holding it; an inline fragment is read as a fragment; a spread reads its named fragment and fails for an unknown name |
| GraphQLParser.ReadFragment | graphlayer/graphql/parser.py:150-157 | a fragment without a type condition fails; an unknown condition type fails; otherwise its selections are read for that type |
| GraphQLParser.ReadField | graphlayer/graphql/parser.py:159-177 | the field query's key is the response key, its field is the snake_case lookup, its arguments are each read, and its sub-query is for the field's type; a failed lookup is the result's failure |
| GraphQLParser.ReadFieldSpec | graphlayer/graphql/parser.py:159-177 | the sub-query is what the field's selection set reads; once the field is found, reading succeeds exactly when every argument and the selection set do, failing with the first of their errors |
| GraphQLParser.SelectionsContribute | graphlayer/graphql/parser.py:121-148 | the fields of the read selections are each selection's contribution, in order |
| GraphQLParser.SelectionSetExpands | graphlayer/graphql/parser.py:121-134 | a selection set read for an object type holds exactly its selections' contributions, in order |
| GraphQLParser.FieldContributes | graphlayer/graphql/parser.py:137-139 | a field selection contributes its one field query |
| GraphQLParser.InlineFragmentContributes | graphlayer/graphql/parser.py:141-157 | an inline fragment contributes, in its place, what its selections contribute |
| GraphQLParser.SpreadContributes | graphlayer/graphql/parser.py:144-145 | a spread of a known fragment contributes, in its place, what the fragment's selections contribute |
| GraphQLParser.FragmentTable | graphlayer/graphql/parser.py:48-54 | the table has at most one entry per definition, and none for a document without fragment definitions |
| GraphQLParser.FragmentTableSound | graphlayer/graphql/parser.py:48-54 | every entry of the table is a fragment definition of the document |
| GraphQLParser.FragmentTableComplete | graphlayer/graphql/parser.py:48-54 | every fragment definition of the document has its entry in the table |
| GraphQLParser.FragmentTableAppend | graphlayer/graphql/parser.py:48-54 | the table keeps document order: the table of two parts is the first part's table followed by the second's |
| GraphQLParser.FragmentLookup | graphlayer/graphql/parser.py:48-54 | looking a name up in the dictionary finds the last fragment definition with that name, and nothing when there is none |
| GraphQLParser.CollectTypes | graphlayer/graphql/parser.py:101-112 | the collected types are exactly the given types that are not `None`, each once |
| GraphQLParser.TypesByName | graphlayer/graphql/parser.py:82-85 | the table is built exactly when every type has a name, maps each name to its type, and otherwise fails naming an unnamed one |
| GraphQLParser.OperationIndex | graphlayer/graphql/parser.py:36-39 | the operation is the first definition of the document that is an operation, and there is none exactly when no definition is one |
| GraphQLParser.CollectDeclaredTypes | graphlayer/graphql/parser.py:81 | the collected types are the query type, the mutation type when given, and the extra types |
| GraphQLParser.SchemaDocument | graphlayer/graphql/parser.py:62-79 | the schema document differs from the input only at the operation, whose selections are the `__schema` ones |
| GraphQLParser.DocumentToQuery | graphlayer/graphql/parser.py:22-98 | no operation fails; the root type follows the operation; a schema document exists exactly when there are `__schema` selections and a graph query exactly when other selections remain, read for the root type; with the operation found, its root type known and no other selection, it succeeds; type naming and reading fail only when other selections remain; every error comes from one of these steps |
| GraphQLParserScenarios.ValueSelections | graphlayer/graphql/parser.py:130-134 | selections that each read as one value field read together as those fields in order |
| GraphQLParserScenarios.InlineSelections | tests/graphql/test_parser.py:211-241 | inline fragments on the root type are expanded in document order |
| GraphQLParserScenarios.NamedSelections | tests/graphql/test_parser.py:244-279 | spreads of named fragments are expanded in document order |
| GraphQLParserScenarios.Translate | graphlayer/graphql/parser.py:22-98 | the translated document yields the expected graph query and no schema document |
| GraphQLParserScenarios.InlineFragmentsExpanded | tests/graphql/test_parser.py:211-241 | the inline-fragment query translates to one query with fields one, two, three, four |
| GraphQLParserScenarios.NamedFragmentsExpanded | tests/graphql/test_parser.py:244-279 | the named-fragment query translates to one query with fields one, two, three, four |
| Iterables.ToDictGet | graphlayer/core.py:10-13 | a key of the built dictionary holds the last value given for it |
| Iterables.ToMultidictSpec | graphlayer/sqlalchemy.py:103-107 | a multidict's keys are the pairs' keys, each holding its values in order |
| Iterables.PartitionIsPermutation | graphlayer/graphql/parser.py:57-60 | the split keeps every selection, each going to exactly one side |
| Iterables.MapResults | graphlayer/sqlalchemy.py:240-242 | a comprehension that raises succeeds exactly when every element does and fails at the first failing one |
| Iterables.Find | graphlayer/graphql/parser.py:36-39 | the found index is the first that matches; none is found exactly when nothing matches |

## Left out

- Parsing and validating GraphQL text is graphql-core's job and is not
  modelled (`graphql_parser.parse` and `validate`, graphlayer/graphql/parser.py:29-34).
  The translation starts from a parsed document. All of
  `graphlayer/graphql/__init__.py` and `create_graphql_schema` are not part
  of this model.
- Fragment cycles: validation rejects them. Spreads are instead bounded by
  a fuel equal to the number of fragment definitions, and the recursion
  past that bound fails with `FragmentNestingExhausted`.
- Core.Resolve: a call that nests deeper than its fuel fails. This stands
  for Python's recursion limit.
- Float literals are kept as their text, because floating point is not
  modelled.
- Lower-casing covers ASCII letters only; Python's Unicode case tables are
  not modelled.
- The null literal is not handled by `_read_graphql_value`, so it is an
  `UnhandledValue` error, as in the code.
- Defaults: input-object field defaults, parameter defaults and "missing
  value" errors belong to `graphlayer/schema.py`, which is not part of this
  model. Conversion builds the entries that the input does give.
- Schema.Add: the real `+` of two object queries merges field queries that
  share a response key, recursively (tests/graphql/test_parser.py:329-510).
  The model adds queries for the same type by concatenating their field
  queries, so same-key merging is not modelled.
- GraphQLParser.FoldAddConcatenates: states concatenation, as `Schema.Add`
  does; same-key merging is not modelled.
- GraphQLParser.SelectionSetExpands: a selection set's fields are its
  selections' contributions concatenated; same-key merging is not modelled.
- GraphQLParser.InlineFragmentContributes: the fragment's fields take its
  place by concatenation; same-key merging is not modelled.
- GraphQLParser.SpreadContributes: the fragment's fields take the spread's
  place by concatenation; same-key merging is not modelled.
- The query algebra of `graphlayer/schema.py` is not part of this model.
  Its `+`, `for_type` and object construction are given assumed semantics:
  queries for the same type add by concatenating their fields. Interface
  types and unions are not modelled.
- The helpers of `graphlayer/iterables.py` are not part of this model.
  `to_dict`, `to_multidict`, `find` and `partition` have assumed Python
  semantics, stated as definitions.
- GraphQLParser.CollectTypes: uses structural equality of types rather
  than Python object identity in the set, so two equal type values count
  once.
- Building and running SQL is left out. Expressions, tables and sessions
  are opaque tokens. Query results are rows supplied as input, through an
  `Env` that also supplies what a joined sub-query returns. The `.filter`,
  `.in_`, `tuple_`, `and_` and `with_session(...).all()` calls are not
  modelled.
- `_copy_with` is modelled as a datatype update: the copy is a new value
  and the original is untouched by construction. Python's per-attribute
  `setattr` loop is not modelled.
- `graphlayer/resolvers.py` imports `resolver`, which `graphlayer/core.py`
  does not define. It is modelled as the type tag that `expander` sets.
- The dependency-injected root handlers expected by tests/test_resolvers.py:52-72
  are not modelled, because the resolver code does not inject dependencies.
- `graphlayer/expanders.py` is not part of this model. It calls `expander`
  with three arguments, which the one-argument decorator in core does not
  accept.
- Schema types are finite trees. The cyclic schemas that Python builds
  with lambdas cannot be expressed.
