/** graphlayer/sqlalchemy.py without SQLAlchemy: the bookkeeping that turns
    a query for a table-backed type into columns to select, and the rows that
    come back into objects.

    SQL expressions are symbolic tokens and result rows are sequences of
    opaque cell values given as input. What the adapter asks the database or
    the graph for is supplied by an `Env`: the rows of an association table,
    and the indexed result of resolving a nested SQL query. */
module SqlAlchemy {
  import opened Wrappers
  import opened Schema
  import Iterables
  import Fields

  /** A cell of a result row; only equality of cells matters here. */
  datatype Datum = DNull | DInt(i: int) | DText(s: string)

  type Row = seq<Datum>

  /** Where a `column.in_(query)` subquery selects from. */
  datatype Source =
    | BaseQuery                     // the resolver's own (filtered) table query
    | AssociationTable(name: string)

  /** SQL expressions, as tokens. */
  datatype Expr =
    | Column(table: string, name: string)
    | TupleOf(items: seq<Expr>)                         // `sqlalchemy.tuple_(*items)`
    | InSelect(lhs: Expr, source: Source, selected: seq<Expr>)  // `lhs.in_(source.add_columns(*selected))`

  /** `_to_sql_expression(expressions)`: one expression stands for itself;
      any other number of them, none included, becomes a tuple. */
  function ToSqlExpression(exprs: seq<Expr>): (e: Expr)
    ensures |exprs| == 1 <==> e !in [TupleOf(exprs)]
    ensures |exprs| == 1 ==> e == exprs[0]
  {
    if |exprs| == 1 then exprs[0] else TupleOf(exprs)
  }

  /** A join given as a Python dict from local to remote expressions. */
  type Join = seq<(Expr, Expr)>

  /** `join.values()`, in order. */
  function ValuesOf(join: Join): (vs: seq<Expr>)
    ensures |vs| == |join|
    ensures forall i :: 0 <= i < |join| ==> vs[i] == join[i].1
  {
    if join == [] then [] else [join[0].1] + ValuesOf(join[1..])
  }

  // ---------------------------------------------------------------------
  // Queries

  /** Type keys: a graph type's own key, and the key
      `(_sql_query_type_key, t)` that no graph type can equal. */
  datatype TypeKey = GraphKey(graphType: GraphType) | SqlKey(sqlType: GraphType)

  /** `_sql_query_type(t)`. */
  function SqlQueryType(t: GraphType): (k: TypeKey)
    ensures k.SqlKey? && k.sqlType == t
    ensures forall t' :: k != GraphKey(t')
  {
    SqlKey(t)
  }

  /** `_SqlQuery(type_query, where_clauses, index_expressions)`; `None`
      as index means "return a list". */
  datatype SqlQuery = SqlQuery(typeQuery: Query, whereClauses: seq<Expr>, indexExpressions: Option<seq<Expr>>) {
    /** `.type`. */
    function Type(): TypeKey {
      SqlQueryType(typeQuery.queryType)
    }

    /** `.where(where)`: a new query with `where` as its last clause. */
    function Where(where: Expr): (r: SqlQuery)
      ensures r.typeQuery == typeQuery && r.indexExpressions == indexExpressions
      ensures |r.whereClauses| == |whereClauses| + 1
      ensures r.whereClauses[..|whereClauses|] == whereClauses && r.whereClauses[|whereClauses|] == where
      ensures r.Type() == Type()
    {
      SqlQuery(typeQuery, whereClauses + [where], indexExpressions)
    }

    /** `.index_by(index_expressions)`: a new query with that index. */
    function IndexBy(index: seq<Expr>): (r: SqlQuery)
      ensures r.typeQuery == typeQuery && r.whereClauses == whereClauses
      ensures r.indexExpressions == Some(index)
      ensures r.Type() == Type()
    {
      SqlQuery(typeQuery, whereClauses, Some(index))
    }
  }

  /** The two builders touch different parts, so their order does not
      matter. */
  lemma WhereIndexByCommute(q: SqlQuery, where: Expr, index: seq<Expr>)
    ensures q.Where(where).IndexBy(index) == q.IndexBy(index).Where(where)
  {
  }

  /** What `select` accepts: a graph query or an SQL query. */
  datatype AnyQuery = GraphQuery(query: Query) | Sql(sqlQuery: SqlQuery)

  /** `select(query)`: an SQL query is returned as it is; a list query is
      replaced by its element query; a fresh SQL query has no clauses and no
      index. */
  function Select(q: AnyQuery): (r: SqlQuery)
    ensures q.Sql? ==> r == q.sqlQuery
    ensures q.GraphQuery? ==> r.whereClauses == [] && r.indexExpressions.None?
    ensures q.GraphQuery? && q.query.ListQuery? ==> r.typeQuery == q.query.elementQuery
    ensures q.GraphQuery? && !q.query.ListQuery? ==> r.typeQuery == q.query
  {
    match q
    case Sql(sq) => sq
    case GraphQuery(gq) =>
      var elementQuery := if gq.ListQuery? then gq.elementQuery else gq;
      SqlQuery(elementQuery, [], None)
  }

  /** `select` is idempotent. */
  lemma SelectIdempotent(q: AnyQuery)
    ensures Select(Sql(Select(q))) == Select(q)
  {
  }

  /** A selected query for a list of `T` carries the key that
      `sql_table_resolver(T, ...)` registers under, and no graph type's key. */
  lemma SelectedKey(elementQuery: Query, t: GraphType)
    ensures Select(GraphQuery(ListQuery(ListType(elementQuery.queryType), elementQuery))).Type() == SqlQueryType(elementQuery.queryType)
    ensures Select(GraphQuery(ListQuery(t, elementQuery))).Type() != GraphKey(t)
  {
  }

  // ---------------------------------------------------------------------
  // `_to_list_query`

  datatype SqlError =
    | NoElementQuery                                 // `type_query.element_query` on a non-wrapping query
    | WrongArgumentCount(count: nat)                 // `_direct_sql_join(*args)` with other than one argument
    | BadJoinArguments                               // a join argument of the wrong kind
    | NoMapValues                                    // `map_values` on a field that lacks it
    | UnknownField(field: Field)                     // `fields[field_query.field]` raises KeyError
    | EmptyColumnSlice                               // `row[0]` on an empty slice
    | WrongCardinality(error: Fields.CardinalityError)

  /** The `element_query` of a list or nullable query. */
  function ElementQueryOf(q: Query): Result<Query, SqlError> {
    match q
    case ListQuery(_, e) => Success(e)
    case NullableQuery(_, e) => Success(e)
    case _ => Failure(NoElementQuery)
  }

  /** The number of list and nullable layers around a type. */
  function Depth(t: GraphType): nat {
    match t
    case ListType(e) => Depth(e) + 1
    case NullableType(e) => Depth(e) + 1
    case _ => 0
  }

  /** The loop of `_to_list_query`: peel one layer off the type and one off
      the type query at each step, while the type is a list or nullable type. */
  function Strip(t: GraphType, q: Query): Result<(GraphType, Query), SqlError> {
    if IsWrapper(t) then
      var e :- ElementQueryOf(q);
      Strip(t.elementType, e)
    else Success((t, q))
  }

  /** `_to_list_query(field_query)`, as a function of the field's type and
      the field query's type query. */
  function ListQueryOf(fieldType: GraphType, typeQuery: Query): (r: Result<Query, SqlError>)
    ensures r.Success? ==> r.value.ListQuery? && r.value.queryType == ListType(Innermost(fieldType))
  {
    var (e, q) :- Strip(fieldType, typeQuery);
    StripInnermost(fieldType, typeQuery);
    Success(ListQuery(ListType(e), q))
  }

  lemma {:induction false} StripInnermost(t: GraphType, q: Query)
    ensures Strip(t, q).Success? ==> Strip(t, q).value.0 == Innermost(t)
  {
    if IsWrapper(t) && ElementQueryOf(q).Success? {
      StripInnermost(t.elementType, ElementQueryOf(q).value);
    }
  }

  /** Peeling a query built for `t` cannot fail: it takes exactly as many
      steps as `t` has layers and ends at the query built for the innermost
      type, with the same field queries. */
  lemma {:induction false} StripConstruct(t: GraphType, fqs: seq<FieldQuery>)
    ensures Strip(t, Construct(t, fqs)) == Success((Innermost(t), Construct(Innermost(t), fqs)))
  {
    match t
    case ListType(e) => StripConstruct(e, fqs);
    case NullableType(e) => StripConstruct(e, fqs);
    case _ =>
  }

  /** `_to_list_query` on a field query whose type query was built for the
      field's type: a list of the innermost type, over the innermost query. */
  lemma ListQueryOfConstruct(t: GraphType, fqs: seq<FieldQuery>)
    ensures ListQueryOf(t, Construct(t, fqs)) == Success(ListQuery(ListType(Innermost(t)), Construct(Innermost(t), fqs)))
    ensures !IsWrapper(ListQueryOf(t, Construct(t, fqs)).value.queryType.elementType)
  {
    StripConstruct(t, fqs);
  }

  /** `_to_list_query(field_query)`. */
  method ToListQuery(fq: FieldQuery) returns (r: Result<Query, SqlError>)
    ensures r == ListQueryOf(fq.field.fieldType, fq.typeQuery)
  {
    var elementType := fq.field.fieldType;
    var typeQuery := fq.typeQuery;
    while IsWrapper(elementType)
      invariant Strip(elementType, typeQuery) == Strip(fq.field.fieldType, fq.typeQuery)
      decreases Depth(elementType)
    {
      match ElementQueryOf(typeQuery)
      case Failure(e) =>
        return Failure(e);
      case Success(next) =>
        elementType := elementType.elementType;
        typeQuery := next;
    }
    r := Success(ListQuery(ListType(elementType), typeQuery));
  }

  // ---------------------------------------------------------------------
  // Fields

  /** The field kinds of sqlalchemy.py. A decorated field only ever wraps a
      direct join, the one kind with `map_values`. */
  datatype SqlField =
    | ExpressionField(expression: Expr)
    | DirectJoin(join: Join)
    | AssociationJoin(leftJoin: Join, association: string, rightJoin: Join)
    | Decorated(directJoin: Join, cardinality: Fields.Cardinality)

  /** `expression(e)`. */
  function Expression(e: Expr): SqlField {
    ExpressionField(e)
  }

  /** An argument of `sql_join`: a join dict or an association table. */
  datatype JoinArgument = JoinDict(join: Join) | Table(name: string)

  /** `sql_join(*args)`: three arguments build an association join, any
      other count a direct join, which takes exactly one. */
  function SqlJoin(args: seq<JoinArgument>): (r: Result<SqlField, SqlError>)
    ensures r.Success? ==> (|args| == 3 <==> r.value.AssociationJoin?)
    ensures r.Success? ==> (|args| != 3 <==> r.value.DirectJoin?)
    ensures |args| == 3 && args[0].JoinDict? && args[1].Table? && args[2].JoinDict? ==>
              r == Success(AssociationJoin(args[0].join, args[1].name, args[2].join))
    ensures |args| == 1 && args[0].JoinDict? ==> r == Success(DirectJoin(args[0].join))
    ensures |args| != 1 && |args| != 3 ==> r == Failure(WrongArgumentCount(|args|))
  {
    if |args| == 3 then
      if args[0].JoinDict? && args[1].Table? && args[2].JoinDict? then
        Success(AssociationJoin(args[0].join, args[1].name, args[2].join))
      else Failure(BadJoinArguments)
    else if |args| != 1 then Failure(WrongArgumentCount(|args|))
    else if args[0].JoinDict? then Success(DirectJoin(args[0].join))
    else Failure(BadJoinArguments)
  }

  /** `field.expressions()`: the columns the field needs from its own row. */
  function Expressions(f: SqlField): seq<Expr> {
    match f
    case ExpressionField(e) => [e]
    case DirectJoin(join) => Iterables.KeysOf(join)
    case AssociationJoin(left, _, _) => Iterables.KeysOf(left)
    case Decorated(join, _) => Iterables.KeysOf(join)
  }

  /** `field.map_values(select_value)`: only a direct join has it; the
      result keeps the join's columns. */
  function MapValues(f: SqlField, c: Fields.Cardinality): (r: Result<SqlField, SqlError>)
    ensures r.Success? <==> f.DirectJoin?
    ensures r.Success? ==> Expressions(r.value) == Expressions(f)
    ensures r.Failure? ==> r.error == NoMapValues
  {
    if f.DirectJoin? then Success(Decorated(f.join, c)) else Failure(NoMapValues)
  }

  // ---------------------------------------------------------------------
  // Values and readers

  /** What a reader produces: a cell, the objects a join found, one object
      or `None` after a selector, or an object of the nested resolver. */
  datatype SqlValue =
    | Cell(datum: Datum)
    | Many(items: seq<SqlValue>)
    | Record(obj: Object<SqlValue>)
    | NoneValue

  /** An indexed result: `to_multidict` of (index columns, object) pairs. */
  type Index = map<Row, seq<SqlValue>>

  /** What the adapter asks of the world. `associationRows(table, columns)`
      runs `SELECT columns FROM table`; `resolveIndexed(q)` is
      `graph.resolve(q)` for an indexed SQL query. */
  datatype Env = Env(
    associationRows: (string, seq<Expr>) -> seq<Row>,
    resolveIndexed: SqlQuery -> Index)

  /** The SQL query a join resolves through the graph:
      `select(list_query).where(key.in_(source)).index_by(index)`. */
  function JoinQuery(listQuery: Query, lhs: seq<Expr>, source: Source, selected: seq<Expr>): (r: SqlQuery)
    ensures r.whereClauses == [InSelect(ToSqlExpression(lhs), source, selected)]
    ensures r.indexExpressions == Some(lhs)
    ensures listQuery.ListQuery? ==> r.typeQuery == listQuery.elementQuery
  {
    Select(GraphQuery(listQuery)).Where(InSelect(ToSqlExpression(lhs), source, selected)).IndexBy(lhs)
  }

  /** The association rows split at the width of the left join, as
      `(left key, right key)` pairs; Python slicing never fails. */
  function SplitRow(row: Row, leftWidth: nat): (r: (Row, Row))
    ensures r.0 + r.1 == row
    ensures |r.0| == if leftWidth <= |row| then leftWidth else |row|
  {
    if leftWidth <= |row| then (row[..leftWidth], row[leftWidth..]) else (row, [])
  }

  /** The pairs one association row contributes: its left key with each
      right-side entry of its right key. */
  function RowPairs(row: Row, leftWidth: nat, right: Index): seq<(Row, SqlValue)> {
    var (l, r) := SplitRow(row, leftWidth);
    Pairs(l, Iterables.GetAll(right, r))
  }

  /** The `(left_key, right_value)` pairs of the association comprehension. */
  function AssociationPairs(rows: seq<Row>, leftWidth: nat, right: Index): seq<(Row, SqlValue)> {
    if rows == [] then [] else RowPairs(rows[0], leftWidth, right) + AssociationPairs(rows[1..], leftWidth, right)
  }

  function Pairs(l: Row, vs: seq<SqlValue>): (ps: seq<(Row, SqlValue)>)
    ensures |ps| == |vs|
    ensures forall i :: 0 <= i < |vs| ==> ps[i] == (l, vs[i])
  {
    if vs == [] then [] else [(l, vs[0])] + Pairs(l, vs[1..])
  }

  /** The right-side values reachable from left key `l`: the right-side
      entries of each association of `l`, in association order. */
  function ValuesForLeft(rows: seq<Row>, leftWidth: nat, right: Index, l: Row): seq<SqlValue> {
    if rows == [] then []
    else
      var (l', r) := SplitRow(rows[0], leftWidth);
      (if l' == l then Iterables.GetAll(right, r) else []) + ValuesForLeft(rows[1..], leftWidth, right, l)
  }

  /** The association join's index: the multidict gives each left key the
      right-side entries of its associations, in association order, and a
      left key without associations reads nothing. */
  function AssociationIndex(rows: seq<Row>, leftWidth: nat, right: Index): (r: Index)
    ensures forall l :: Iterables.GetAll(r, l) == ValuesForLeft(rows, leftWidth, right, l)
  {
    AssociationIndexReads(rows, leftWidth, right);
    Iterables.ToMultidict(AssociationPairs(rows, leftWidth, right))
  }

  lemma {:induction false} ValuesForPairs(l: Row, vs: seq<SqlValue>, k: Row)
    ensures Iterables.ValuesFor(Pairs(l, vs), k) == if l == k then vs else []
  {
    if vs != [] {
      var ps := Pairs(l, vs);
      ValuesForPairs(l, vs[..|vs| - 1], k);
      assert ps[..|ps| - 1] == Pairs(l, vs[..|vs| - 1]);
      assert vs[..|vs| - 1] + [vs[|vs| - 1]] == vs;
    }
  }

  lemma AssociationIndexReads(rows: seq<Row>, leftWidth: nat, right: Index)
    ensures forall l :: Iterables.GetAll(Iterables.ToMultidict(AssociationPairs(rows, leftWidth, right)), l) ==
                        ValuesForLeft(rows, leftWidth, right, l)
  {
    forall l ensures Iterables.GetAll(Iterables.ToMultidict(AssociationPairs(rows, leftWidth, right)), l) ==
                     ValuesForLeft(rows, leftWidth, right, l)
    {
      Iterables.ToMultidictSpec(AssociationPairs(rows, leftWidth, right), l);
      AssociationValues(rows, leftWidth, right, l);
    }
  }

  lemma {:induction false} AssociationValues(rows: seq<Row>, leftWidth: nat, right: Index, l: Row)
    ensures Iterables.ValuesFor(AssociationPairs(rows, leftWidth, right), l) == ValuesForLeft(rows, leftWidth, right, l)
  {
    if rows != [] {
      var (l', r) := SplitRow(rows[0], leftWidth);
      AssociationValues(rows[1..], leftWidth, right, l);
      Iterables.ValuesForAppend(RowPairs(rows[0], leftWidth, right), AssociationPairs(rows[1..], leftWidth, right), l);
      ValuesForPairs(l', Iterables.GetAll(right, r), l);
    }
  }

  /** An association whose right key has no right-side entry contributes
      nothing, wherever it stands among the associations. */
  lemma UnmatchedAssociation(before: seq<Row>, row: Row, after: seq<Row>, leftWidth: nat, right: Index)
    requires SplitRow(row, leftWidth).1 !in right
    ensures AssociationPairs(before + [row] + after, leftWidth, right) == AssociationPairs(before + after, leftWidth, right)
  {
    AssociationPairsAppend(before, [row] + after, leftWidth, right);
    AssociationPairsAppend(before, after, leftWidth, right);
    assert ([row] + after)[0] == row;
    assert ([row] + after)[1..] == after;
    assert RowPairs(row, leftWidth, right) == [];
    assert before + [row] + after == before + ([row] + after);
  }

  lemma {:induction false} AssociationPairsAppend(a: seq<Row>, b: seq<Row>, leftWidth: nat, right: Index)
    ensures AssociationPairs(a + b, leftWidth, right) == AssociationPairs(a, leftWidth, right) + AssociationPairs(b, leftWidth, right)
  {
    if a == [] {
      assert a + b == b;
    } else {
      AssociationPairsAppend(a[1..], b, leftWidth, right);
      AssociationPairsCons(a, b, leftWidth, right);
    }
  }

  lemma AssociationPairsCons(a: seq<Row>, b: seq<Row>, leftWidth: nat, right: Index)
    requires a != []
    ensures AssociationPairs(a + b, leftWidth, right) == RowPairs(a[0], leftWidth, right) + AssociationPairs(a[1..] + b, leftWidth, right)
  {
    assert (a + b)[0] == a[0];
    assert (a + b)[1..] == a[1..] + b;
  }

  /** How a field reads its slice of a row. */
  datatype Reader =
    | ColumnReader                          // `row[0]`
    | IndexReader(index: Index)             // `result.get(tuple(row), ())`
    | SelectingReader(index: Index, cardinality: Fields.Cardinality)  // `select_value` after it

  /** The index a direct join reads from: the nested resolution of
      `select(list_query).where(values.in_(keys)).index_by(values)`. */
  function DirectJoinIndex(env: Env, join: Join, fq: FieldQuery): (r: Result<Index, SqlError>)
    ensures r.Success? <==> ListQueryOf(fq.field.fieldType, fq.typeQuery).Success?
    ensures r.Failure? ==> r.error == ListQueryOf(fq.field.fieldType, fq.typeQuery).error
    ensures r.Success? ==>
      r.value == env.resolveIndexed(JoinQuery(ListQueryOf(fq.field.fieldType, fq.typeQuery).value, ValuesOf(join), BaseQuery, Iterables.KeysOf(join)))
  {
    var listQuery :- ListQueryOf(fq.field.fieldType, fq.typeQuery);
    Success(env.resolveIndexed(JoinQuery(listQuery, ValuesOf(join), BaseQuery, Iterables.KeysOf(join))))
  }

  /** `field.create_reader(graph, field_query, base_query, session)`. */
  function CreateReader(env: Env, f: SqlField, fq: FieldQuery): (r: Result<Reader, SqlError>)
    ensures f.ExpressionField? ==> r == Success(ColumnReader)
    ensures r.Success? && f.DirectJoin? ==> r.value.IndexReader?
    ensures r.Success? && f.AssociationJoin? ==> r.value.IndexReader?
    ensures r.Success? && f.Decorated? ==> r.value.SelectingReader? && r.value.cardinality == f.cardinality
    ensures r.Failure? <==> !f.ExpressionField? && ListQueryOf(fq.field.fieldType, fq.typeQuery).Failure?
    ensures r.Success? && f.DirectJoin? ==> r.value.index == DirectJoinIndex(env, f.join, fq).value
    ensures r.Success? && f.Decorated? ==> r.value.index == DirectJoinIndex(env, f.directJoin, fq).value
    ensures r.Success? && f.AssociationJoin? ==>
      r.value.index == AssociationIndex(
        env.associationRows(f.association, ValuesOf(f.leftJoin) + Iterables.KeysOf(f.rightJoin)),
        |f.leftJoin|,
        env.resolveIndexed(JoinQuery(ListQueryOf(fq.field.fieldType, fq.typeQuery).value, ValuesOf(f.rightJoin),
                                     AssociationTable(f.association), Iterables.KeysOf(f.rightJoin))))
  {
    match f
    case ExpressionField(_) => Success(ColumnReader)
    case DirectJoin(join) =>
      var index :- DirectJoinIndex(env, join, fq);
      Success(IndexReader(index))
    case AssociationJoin(left, association, right) =>
      var rows := env.associationRows(association, ValuesOf(left) + Iterables.KeysOf(right));
      var listQuery :- ListQueryOf(fq.field.fieldType, fq.typeQuery);
      var rightResult := env.resolveIndexed(JoinQuery(listQuery, ValuesOf(right), AssociationTable(association), Iterables.KeysOf(right)));
      Success(IndexReader(AssociationIndex(rows, |left|, rightResult)))
    case Decorated(join, c) =>
      var index :- DirectJoinIndex(env, join, fq);
      Success(SelectingReader(index, c))
  }

  /** A decorated join reads what the join it wraps reads, passed through
      its selector. */
  lemma DecoratedReader(env: Env, join: Join, c: Fields.Cardinality, fq: FieldQuery)
    ensures CreateReader(env, Decorated(join, c), fq).Success? <==> CreateReader(env, DirectJoin(join), fq).Success?
    ensures CreateReader(env, Decorated(join, c), fq).Success? ==>
      CreateReader(env, Decorated(join, c), fq).value ==
        SelectingReader(CreateReader(env, DirectJoin(join), fq).value.index, c)
  {
  }

  /** `read(row_slice)`. */
  function Read(reader: Reader, slice: Row): (r: Result<SqlValue, SqlError>)
    ensures reader.ColumnReader? ==> (r.Success? <==> |slice| > 0)
    ensures reader.ColumnReader? && |slice| > 0 ==> r == Success(Cell(slice[0]))
    ensures reader.IndexReader? ==> r == Success(Many(if slice in reader.index then reader.index[slice] else []))
  {
    match reader
    case ColumnReader => if |slice| == 0 then Failure(EmptyColumnSlice) else Success(Cell(slice[0]))
    case IndexReader(index) => Success(Many(Iterables.GetAll(index, slice)))
    case SelectingReader(index, c) =>
      match Fields.SelectValue(c, Iterables.GetAll(index, slice))
      case Failure(e) => Failure(WrongCardinality(e))
      case Success(None) => Success(NoneValue)
      case Success(Some(v)) => Success(v)
  }

  /** A field wrapped by `single` or `single_or_null` reads the wrapped
      field's values through the selector: the selected value, `None`, or
      the selector's error. */
  lemma SelectingRead(index: Index, c: Fields.Cardinality, slice: Row)
    ensures var values := Read(IndexReader(index), slice).value.items;
      Read(SelectingReader(index, c), slice) ==
        match Fields.SelectValue(c, values)
        case Failure(e) => Failure(WrongCardinality(e))
        case Success(o) => Success(if o.None? then NoneValue else o.value)
  {
  }

  /** `single(field)` and `single_or_null(field)` on the adapter's fields:
      only a direct join can be wrapped; the wrapped field keeps the
      join's columns and reads through the selector. */
  lemma WrappedFields(env: Env, f: SqlField, fq: FieldQuery)
    ensures Fields.Single(MapValues, f).Success? <==> f.DirectJoin?
    ensures Fields.SingleOrNull(MapValues, f).Success? <==> f.DirectJoin?
    ensures f.DirectJoin? ==> Fields.Single(MapValues, f) == Success(Decorated(f.join, Fields.ExactlyOne))
    ensures f.DirectJoin? ==> Fields.SingleOrNull(MapValues, f) == Success(Decorated(f.join, Fields.ZeroOrOne))
    ensures f.DirectJoin? ==> Expressions(Fields.Single(MapValues, f).value) == Expressions(f)
    ensures Fields.Many(f) == f
  {
  }

  // ---------------------------------------------------------------------
  // Row layout

  /** The columns of a sequence of fields, concatenated in order. */
  function AllExpressions(fs: seq<SqlField>): (es: seq<Expr>)
    ensures fs == [] ==> es == []
  {
    if fs == [] then [] else Expressions(fs[0]) + AllExpressions(fs[1..])
  }

  lemma {:induction false} AllExpressionsAppend(a: seq<SqlField>, b: seq<SqlField>)
    ensures AllExpressions(a + b) == AllExpressions(a) + AllExpressions(b)
  {
    if a == [] {
      assert a + b == b;
    } else {
      var ab := a + b;
      assert ab[0] == a[0];
      assert ab[1..] == a[1..] + b;
      AllExpressionsAppend(a[1..], b);
      calc {
        AllExpressions(ab);
        Expressions(a[0]) + AllExpressions(a[1..] + b);
        Expressions(a[0]) + (AllExpressions(a[1..]) + AllExpressions(b));
        (Expressions(a[0]) + AllExpressions(a[1..])) + AllExpressions(b);
      }
    }
  }

  /** Adding one field adds its columns at the end. */
  lemma AllExpressionsSnoc(fs: seq<SqlField>, i: nat)
    requires i < |fs|
    ensures AllExpressions(fs[..i + 1]) == AllExpressions(fs[..i]) + Expressions(fs[i])
  {
    assert fs[..i + 1] == fs[..i] + [fs[i]];
    AllExpressionsAppend(fs[..i], [fs[i]]);
    assert [fs[i]][1..] == [];
  }

  /** A half-open column range `[start, end)`. */
  type Slice = (nat, nat)

  /** `slice(len(query_expressions), len(query_expressions) + len(expressions))`
      for field `i`. */
  function SliceOf(fs: seq<SqlField>, i: nat): Slice
    requires i < |fs|
  {
    (|AllExpressions(fs[..i])|, |AllExpressions(fs[..i])| + |Expressions(fs[i])|)
  }

  function Slices(fs: seq<SqlField>): (ss: seq<Slice>)
    ensures |ss| == |fs|
    ensures forall i :: 0 <= i < |fs| ==> ss[i] == SliceOf(fs, i)
  {
    seq(|fs|, i requires 0 <= i < |fs| => SliceOf(fs, i))
  }

  /** Slice `i` lies within the selected expressions and covers exactly
      field `i`'s columns. */
  lemma SliceCovers(fs: seq<SqlField>, i: nat)
    requires i < |fs|
    ensures SliceOf(fs, i).1 <= |AllExpressions(fs)|
    ensures AllExpressions(fs)[SliceOf(fs, i).0..SliceOf(fs, i).1] == Expressions(fs[i])
  {
    SplitAt(fs, i);
  }

  lemma SplitAt(fs: seq<SqlField>, i: nat)
    requires i < |fs|
    ensures AllExpressions(fs) == AllExpressions(fs[..i]) + Expressions(fs[i]) + AllExpressions(fs[i + 1..])
  {
    assert fs == fs[..i + 1] + fs[i + 1..];
    AllExpressionsAppend(fs[..i + 1], fs[i + 1..]);
    AllExpressionsSnoc(fs, i);
  }

  /** Slice `i` starts where slice `i - 1` ends. */
  lemma SlicesAdjoin(fs: seq<SqlField>, i: nat)
    requires 0 < i < |fs|
    ensures SliceOf(fs, i).0 == SliceOf(fs, i - 1).1
  {
    AllExpressionsSnoc(fs, i - 1);
  }

  /** The slices are contiguous and in order, the first starts at 0, the
      last ends at the number of selected expressions, and slice `i` covers
      exactly field `i`'s columns. */
  lemma LayoutSpec(fs: seq<SqlField>)
    ensures forall i :: 0 <= i < |fs| ==> SliceOf(fs, i).0 <= SliceOf(fs, i).1 <= |AllExpressions(fs)|
    ensures forall i :: 0 <= i < |fs| ==> AllExpressions(fs)[SliceOf(fs, i).0..SliceOf(fs, i).1] == Expressions(fs[i])
    ensures |fs| > 0 ==> SliceOf(fs, 0).0 == 0 && SliceOf(fs, |fs| - 1).1 == |AllExpressions(fs)|
    ensures forall i :: 0 < i < |fs| ==> SliceOf(fs, i).0 == SliceOf(fs, i - 1).1
  {
    forall i | 0 <= i < |fs|
      ensures SliceOf(fs, i).1 <= |AllExpressions(fs)|
      ensures AllExpressions(fs)[SliceOf(fs, i).0..SliceOf(fs, i).1] == Expressions(fs[i])
    {
      SliceCovers(fs, i);
    }
    forall i | 0 < i < |fs| ensures SliceOf(fs, i).0 == SliceOf(fs, i - 1).1 {
      SlicesAdjoin(fs, i);
    }
    if |fs| > 0 {
      LastSliceEnds(fs);
    }
  }

  lemma LastSliceEnds(fs: seq<SqlField>)
    requires |fs| > 0
    ensures SliceOf(fs, 0).0 == 0 && SliceOf(fs, |fs| - 1).1 == |AllExpressions(fs)|
  {
    assert fs[..0] == [];
    var last := |fs| - 1;
    assert fs[..last + 1] == fs;
    AllExpressionsSnoc(fs, last);
  }

  /** The state of the layout loop after `i` fields: the expressions of
      those fields and one slice for each. */
  ghost predicate LaidOut(fs: seq<SqlField>, i: nat, slices: seq<Slice>, exprs: seq<Expr>) {
    && i <= |fs|
    && exprs == AllExpressions(fs[..i])
    && |slices| == i
    && forall j :: 0 <= j < i ==> slices[j] == SliceOf(fs, j)
  }

  /** The first loop of `resolve`: each field's slice and the selected
      expressions, accumulated field by field. */
  method RowLayout(fs: seq<SqlField>) returns (slices: seq<Slice>, exprs: seq<Expr>)
    ensures exprs == AllExpressions(fs) && slices == Slices(fs)
  {
    slices := [];
    exprs := [];
    var i := 0;
    while i < |fs|
      invariant LaidOut(fs, i, slices, exprs)
      decreases |fs| - i
    {
      var expressions := Expressions(fs[i]);
      LayoutStep(fs, i, slices, exprs);
      slices := slices + [(|exprs|, |exprs| + |expressions|)];
      exprs := exprs + expressions;
      i := i + 1;
    }
    LayoutDone(fs, i, slices, exprs);
  }

  /** Once every field is laid out, the loop holds the specified layout. */
  lemma LayoutDone(fs: seq<SqlField>, i: nat, slices: seq<Slice>, exprs: seq<Expr>)
    requires LaidOut(fs, i, slices, exprs) && i >= |fs|
    ensures exprs == AllExpressions(fs) && slices == Slices(fs)
  {
    assert fs[..i] == fs;
  }

  /** One turn of the layout loop: field `i` takes the next slice. */
  lemma LayoutStep(fs: seq<SqlField>, i: nat, slices: seq<Slice>, exprs: seq<Expr>)
    requires LaidOut(fs, i, slices, exprs) && i < |fs|
    ensures LaidOut(fs, i + 1, slices + [(|exprs|, |exprs| + |Expressions(fs[i])|)], exprs + Expressions(fs[i]))
  {
    var slices' := slices + [(|exprs|, |exprs| + |Expressions(fs[i])|)];
    assert exprs + Expressions(fs[i]) == AllExpressions(fs[..i + 1]) by {
      AllExpressionsSnoc(fs, i);
    }
    assert forall j :: 0 <= j < i + 1 ==> slices'[j] == SliceOf(fs, j) by {
      forall j | 0 <= j < i + 1 ensures slices'[j] == SliceOf(fs, j) {
        if j < i { assert slices'[j] == slices[j]; }
      }
    }
  }

  /** `row[start:end]` with Python's clamping. */
  function SliceRow(row: Row, s: Slice): (r: Row)
    ensures s.0 <= s.1 <= |row| ==> r == row[s.0..s.1]
  {
    var lo := if s.0 <= |row| then s.0 else |row|;
    var hi := if s.1 <= |row| then (if s.1 >= lo then s.1 else lo) else |row|;
    row[lo..hi]
  }

  /** `row[n:]` with Python's clamping. */
  function Drop(row: Row, n: nat): (r: Row)
    ensures n <= |row| ==> r == row[n..]
    ensures n >= |row| ==> r == []
  {
    if n <= |row| then row[n..] else []
  }

  // ---------------------------------------------------------------------
  // Resolution

  /** An entry of the `fields` table: a field, or a callable building one
      from the field query's arguments. */
  datatype FieldEntry = Fixed(field: SqlField) | Computed(build: seq<Arg> -> SqlField)

  /** `get_field(field_query)`. */
  function GetField(fields: map<Field, FieldEntry>, fq: FieldQuery): (r: Result<SqlField, SqlError>)
    ensures r.Success? <==> fq.field in fields
    ensures r.Success? && fields[fq.field].Fixed? ==> r.value == fields[fq.field].field
    ensures r.Success? && fields[fq.field].Computed? ==> r.value == fields[fq.field].build(fq.args)
    ensures r.Failure? ==> r.error == UnknownField(fq.field)
  {
    if fq.field !in fields then Failure(UnknownField(fq.field))
    else match fields[fq.field]
      case Fixed(f) => Success(f)
      case Computed(build) => Success(build(fq.args))
  }

  function GetFieldOf(fields: map<Field, FieldEntry>): FieldQuery -> Result<SqlField, SqlError> {
    fq => GetField(fields, fq)
  }

  /** A planned column of the result: key, slice and reader. */
  datatype Planned = Planned(key: string, slice: Slice, reader: Reader)

  /** `(key, read(row[row_slice]))`. */
  function ReadEntry(p: Planned, row: Row): Result<(string, SqlValue), SqlError> {
    var v :- Read(p.reader, SliceRow(row, p.slice));
    Success((p.key, v))
  }

  function ReadEntryOf(row: Row): Planned -> Result<(string, SqlValue), SqlError> {
    p => ReadEntry(p, row)
  }

  /** The object `read_row` builds from one row: one entry per planned
      column, read from that column's slice; the first failing reader
      fails the row. */
  function ReadRow(plan: seq<Planned>, row: Row): (r: Result<Object<SqlValue>, SqlError>)
    ensures r.Success? <==> forall i :: 0 <= i < |plan| ==> Read(plan[i].reader, SliceRow(row, plan[i].slice)).Success?
    ensures r.Success? ==> Iterables.KeySet(r.value.entries) == set i | 0 <= i < |plan| :: plan[i].key
    ensures r.Success? ==> forall i :: 0 <= i < |plan| ==>
      Iterables.LastValue(Iterables.MapResults(ReadEntryOf(row), plan).value, plan[i].key).Some?
    ensures r.Success? && DistinctPlanKeys(plan) ==>
      forall i :: 0 <= i < |plan| ==>
        Iterables.Get(r.value.entries, plan[i].key) == Some(Read(plan[i].reader, SliceRow(row, plan[i].slice)).value)
  {
    var pairs :- Iterables.MapResults(ReadEntryOf(row), plan);
    PlanPairs(plan, row, pairs);
    PlanKeys(plan, pairs);
    PlanReads(plan, row, pairs);
    Success(Object(Iterables.ToDict(pairs)))
  }

  /** The pairs a successful row read collects: one per planned column, in
      plan order, each holding what that column's reader read. */
  lemma PlanPairs(plan: seq<Planned>, row: Row, pairs: seq<(string, SqlValue)>)
    requires Iterables.MapResults(ReadEntryOf(row), plan) == Success(pairs)
    ensures |pairs| == |plan|
    ensures forall i :: 0 <= i < |plan| ==>
      Read(plan[i].reader, SliceRow(row, plan[i].slice)).Success? &&
      pairs[i] == (plan[i].key, Read(plan[i].reader, SliceRow(row, plan[i].slice)).value)
  {
    forall i | 0 <= i < |plan|
      ensures Read(plan[i].reader, SliceRow(row, plan[i].slice)).Success?
      ensures pairs[i] == (plan[i].key, Read(plan[i].reader, SliceRow(row, plan[i].slice)).value)
    {
      assert ReadEntryOf(row)(plan[i]) == ReadEntry(plan[i], row);
    }
  }

  /** Pairs keyed like the plan have exactly the plan's keys, and each
      planned key has a last value. */
  lemma PlanKeys<V>(plan: seq<Planned>, pairs: seq<(string, V)>)
    requires |pairs| == |plan| && forall i :: 0 <= i < |plan| ==> pairs[i].0 == plan[i].key
    ensures Iterables.KeySet(pairs) == set i | 0 <= i < |plan| :: plan[i].key
    ensures forall i :: 0 <= i < |plan| ==> Iterables.LastValue(pairs, plan[i].key).Some?
  {
    forall i | 0 <= i < |plan| ensures Iterables.LastValue(pairs, plan[i].key).Some? {
      LastValueFound(pairs, i);
    }
  }

  /** No two planned columns share a key. */
  ghost predicate DistinctPlanKeys(plan: seq<Planned>) {
    forall i, j :: 0 <= i < j < |plan| ==> plan[i].key != plan[j].key
  }

  /** With distinct planned keys, each key looks up what its own column read. */
  lemma PlanReads(plan: seq<Planned>, row: Row, pairs: seq<(string, SqlValue)>)
    requires |pairs| == |plan|
    requires forall i :: 0 <= i < |plan| ==>
      Read(plan[i].reader, SliceRow(row, plan[i].slice)).Success? &&
      pairs[i] == (plan[i].key, Read(plan[i].reader, SliceRow(row, plan[i].slice)).value)
    ensures DistinctPlanKeys(plan) ==>
      forall i :: 0 <= i < |plan| ==>
        Iterables.Get(Iterables.ToDict(pairs), plan[i].key) == Some(Read(plan[i].reader, SliceRow(row, plan[i].slice)).value)
  {
    if DistinctPlanKeys(plan) {
      assert Iterables.DistinctKeys(pairs);
      Iterables.ToDictDistinct(pairs);
      Iterables.GetDistinct(pairs);
    }
  }

  lemma {:induction false} LastValueFound<K(!new), V>(pairs: seq<(K, V)>, i: nat)
    requires i < |pairs|
    ensures Iterables.LastValue(pairs, pairs[i].0).Some?
  {
    if pairs[|pairs| - 1].0 != pairs[i].0 {
      assert i < |pairs| - 1;
      assert pairs[..|pairs| - 1][i] == pairs[i];
      LastValueFound(pairs[..|pairs| - 1], i);
    }
  }

  /** The value a row's object holds under a planned column's key is what
      the last planned column with that key read. */
  lemma ReadRowValue(plan: seq<Planned>, row: Row, key: string)
    requires ReadRow(plan, row).Success?
    ensures Iterables.Get(ReadRow(plan, row).value.entries, key) ==
            Iterables.LastValue(Iterables.MapResults(ReadEntryOf(row), plan).value, key)
  {
    Iterables.ToDictGet(Iterables.MapResults(ReadEntryOf(row), plan).value, key);
  }

  /** What `resolve_sql_query` returns. */
  datatype SqlResult = ObjectList(objects: seq<Object<SqlValue>>) | Indexed(index: Index)

  /** `(tuple(row[width:]), object)`: the index columns of a row and the
      object read from it. */
  function IndexedRow(plan: seq<Planned>, width: nat, row: Row): Result<(Row, SqlValue), SqlError> {
    var obj :- ReadRow(plan, row);
    Success((Drop(row, width), Record(obj)))
  }

  function ReadRowOf(plan: seq<Planned>): Row -> Result<Object<SqlValue>, SqlError> {
    row => ReadRow(plan, row)
  }

  function IndexedRowOf(plan: seq<Planned>, width: nat): Row -> Result<(Row, SqlValue), SqlError> {
    row => IndexedRow(plan, width, row)
  }

  /** The final comprehension over the rows, for a plan whose own columns
      are the first `width`: one object per row in row order, or, with an
      index, `to_multidict` of (index columns, object) pairs. */
  function ReadRows(plan: seq<Planned>, width: nat, indexed: bool, rows: seq<Row>): (r: Result<SqlResult, SqlError>)
    ensures r.Success? <==> forall i :: 0 <= i < |rows| ==> ReadRow(plan, rows[i]).Success?
    ensures !indexed && r.Success? ==> r.value.ObjectList? && |r.value.objects| == |rows|
    ensures !indexed && r.Success? ==> forall i :: 0 <= i < |rows| ==> ReadRow(plan, rows[i]) == Success(r.value.objects[i])
    ensures indexed && r.Success? ==> r.value.Indexed?
  {
    if !indexed then
      var objects :- Iterables.MapResults(ReadRowOf(plan), rows);
      Success(ObjectList(objects))
    else
      var pairs :- Iterables.MapResults(IndexedRowOf(plan, width), rows);
      Success(Indexed(Iterables.ToMultidict(pairs)))
  }

  /** An indexed result maps each index key to the objects of the rows whose
      trailing columns are that key, in row order. */
  lemma IndexedRowsSpec(plan: seq<Planned>, width: nat, rows: seq<Row>, key: Row)
    requires ReadRows(plan, width, true, rows).Success?
    ensures var pairs := Iterables.MapResults(IndexedRowOf(plan, width), rows).value;
      && |pairs| == |rows|
      && (forall i :: 0 <= i < |rows| ==> pairs[i] == (Drop(rows[i], width), Record(ReadRow(plan, rows[i]).value)))
      && Iterables.GetAll(ReadRows(plan, width, true, rows).value.index, key) == Iterables.ValuesFor(pairs, key)
  {
    var pairs := Iterables.MapResults(IndexedRowOf(plan, width), rows).value;
    Iterables.ToMultidictSpec(pairs, key);
    forall i | 0 <= i < |rows|
      ensures pairs[i] == (Drop(rows[i], width), Record(ReadRow(plan, rows[i]).value))
    {
      assert pairs[i] == IndexedRowOf(plan, width)(rows[i]).value;
    }
  }

  /** The keys of an indexed result are the index columns of the rows. */
  lemma IndexedRowsKeys(plan: seq<Planned>, width: nat, rows: seq<Row>)
    requires ReadRows(plan, width, true, rows).Success?
    ensures ReadRows(plan, width, true, rows).value.index.Keys == set i | 0 <= i < |rows| :: Drop(rows[i], width)
  {
    var pairs := Iterables.MapResults(IndexedRowOf(plan, width), rows).value;
    Iterables.ToMultidictSpec(pairs, []);
    assert forall i :: 0 <= i < |rows| ==> pairs[i].0 == Drop(rows[i], width) by {
      forall i | 0 <= i < |rows| ensures pairs[i].0 == Drop(rows[i], width) {
        assert pairs[i] == IndexedRowOf(plan, width)(rows[i]).value;
      }
    }
    PairKeys(pairs, width, rows);
  }

  lemma PairKeys(pairs: seq<(Row, SqlValue)>, width: nat, rows: seq<Row>)
    requires |pairs| == |rows|
    requires forall i :: 0 <= i < |rows| ==> pairs[i].0 == Drop(rows[i], width)
    ensures Iterables.KeySet(pairs) == set i | 0 <= i < |rows| :: Drop(rows[i], width)
  {
    var keys := set i | 0 <= i < |rows| :: Drop(rows[i], width);
    forall k | k in Iterables.KeySet(pairs) ensures k in keys {
      var i :| 0 <= i < |pairs| && pairs[i].0 == k;
    }
    forall k | k in keys ensures k in Iterables.KeySet(pairs) {
      var i :| 0 <= i < |rows| && Drop(rows[i], width) == k;
      assert pairs[i].0 == k;
    }
  }

  /** `zip(xs, ys)` on sequences of equal length. */
  function Zip<A, B>(xs: seq<A>, ys: seq<B>): (zs: seq<(A, B)>)
    requires |xs| == |ys|
    ensures |zs| == |xs|
    ensures forall i :: 0 <= i < |xs| ==> zs[i] == (xs[i], ys[i])
  {
    if xs == [] then [] else [(xs[0], ys[0])] + Zip(xs[1..], ys[1..])
  }

  function CreateReaderOf(env: Env): ((FieldQuery, SqlField)) -> Result<Reader, SqlError> {
    (p: (FieldQuery, SqlField)) => CreateReader(env, p.1, p.0)
  }

  /** The `readers` list: key, slice and reader of each field query. */
  function Plan(fqs: seq<FieldQuery>, fs: seq<SqlField>, readers: seq<Reader>): (plan: seq<Planned>)
    requires |fqs| == |fs| == |readers|
    ensures |plan| == |fqs|
    ensures forall i :: 0 <= i < |fqs| ==> plan[i] == Planned(fqs[i].key, SliceOf(fs, i), readers[i])
  {
    seq(|fqs|, i requires 0 <= i < |fqs| => Planned(fqs[i].key, SliceOf(fs, i), readers[i]))
  }

  /** `resolve(graph, query, where, extra_expressions, process_row,
      session)` over the rows the database returns for it. */
  function ResolveSpec(env: Env, fields: map<Field, FieldEntry>, query: SqlQuery, rows: seq<Row>): Result<SqlResult, SqlError> {
    var fqs := FieldQueriesOf(query.typeQuery);
    var fs :- Iterables.MapResults(GetFieldOf(fields), fqs);
    var readers :- Iterables.MapResults(CreateReaderOf(env), Zip(fqs, fs));
    ReadRows(Plan(fqs, fs, readers), |AllExpressions(fs)|, query.indexExpressions.Some?, rows)
  }

  /** When each row has exactly the selected columns followed by the index
      columns, every planned column reads precisely its own field's columns
      and the index key of a row is precisely its index columns. */
  lemma RowsAreCut(fs: seq<SqlField>, indexWidth: nat, row: Row, i: nat)
    requires |row| == |AllExpressions(fs)| + indexWidth
    requires i < |fs|
    ensures SliceOf(fs, i).1 <= |row|
    ensures |SliceRow(row, SliceOf(fs, i))| == |Expressions(fs[i])|
    ensures SliceRow(row, SliceOf(fs, i)) == row[SliceOf(fs, i).0..SliceOf(fs, i).1]
    ensures |Drop(row, |AllExpressions(fs)|)| == indexWidth
  {
    SplitAt(fs, i);
  }

  /** `resolve_sql_query(graph, query, session)`: look up every field and
      lay out its columns, create the readers, then read every row. */
  method ResolveSqlQuery(env: Env, fields: map<Field, FieldEntry>, query: SqlQuery, rows: seq<Row>) returns (r: Result<SqlResult, SqlError>)
    ensures r == ResolveSpec(env, fields, query, rows)
  {
    var fqs := FieldQueriesOf(query.typeQuery);
    var found := GetFields(fields, fqs);
    if found.Failure? {
      return Failure(found.error);
    }
    var fs := found.value;
    var slices, exprs := RowLayout(fs);
    var created := CreateReaders(env, fqs, fs);
    if created.Failure? {
      return Failure(created.error);
    }
    var plan := PlanColumns(fqs, slices, created.value);
    assert plan == Plan(fqs, fs, created.value);
    r := ReadRows(plan, |exprs|, query.indexExpressions.Some?, rows);
  }

  /** `get_field` for each field query, in order. */
  method GetFields(fields: map<Field, FieldEntry>, fqs: seq<FieldQuery>) returns (r: Result<seq<SqlField>, SqlError>)
    ensures r == Iterables.MapResults(GetFieldOf(fields), fqs)
  {
    var fs: seq<SqlField> := [];
    var i := 0;
    while i < |fqs|
      invariant 0 <= i <= |fqs|
      invariant Iterables.MapResults(GetFieldOf(fields), fqs[..i]) == Success(fs)
    {
      var f := GetField(fields, fqs[i]);
      Iterables.MapResultsStep(GetFieldOf(fields), fqs, i, fs);
      if f.Failure? {
        return Failure(f.error);
      }
      fs := fs + [f.value];
      i := i + 1;
    }
    assert fqs[..i] == fqs;
    r := Success(fs);
  }

  /** The second loop of `resolve`: a reader for each field query and its
      field, in order. */
  method CreateReaders(env: Env, fqs: seq<FieldQuery>, fs: seq<SqlField>) returns (r: Result<seq<Reader>, SqlError>)
    requires |fqs| == |fs|
    ensures r == Iterables.MapResults(CreateReaderOf(env), Zip(fqs, fs))
  {
    var pairs := Zip(fqs, fs);
    var readers: seq<Reader> := [];
    var i := 0;
    while i < |pairs|
      invariant 0 <= i <= |pairs|
      invariant Iterables.MapResults(CreateReaderOf(env), pairs[..i]) == Success(readers)
    {
      var reader := CreateReader(env, fs[i], fqs[i]);
      Iterables.MapResultsStep(CreateReaderOf(env), pairs, i, readers);
      assert CreateReaderOf(env)(pairs[i]) == reader;
      if reader.Failure? {
        return Failure(reader.error);
      }
      readers := readers + [reader.value];
      i := i + 1;
    }
    assert pairs[..i] == pairs;
    r := Success(readers);
  }

  /** `readers.append((field_query.key, row_slice, reader))` for each field. */
  method PlanColumns(fqs: seq<FieldQuery>, slices: seq<Slice>, readers: seq<Reader>) returns (plan: seq<Planned>)
    requires |fqs| == |slices| == |readers|
    ensures |plan| == |fqs|
    ensures forall i :: 0 <= i < |fqs| ==> plan[i] == Planned(fqs[i].key, slices[i], readers[i])
  {
    plan := [];
    var i := 0;
    while i < |fqs|
      invariant 0 <= i <= |fqs|
      invariant |plan| == i
      invariant forall j :: 0 <= j < i ==> plan[j] == Planned(fqs[j].key, slices[j], readers[j])
    {
      plan := plan + [Planned(fqs[i].key, slices[i], readers[i])];
      i := i + 1;
    }
  }
}
