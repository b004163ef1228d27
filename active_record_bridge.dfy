/** The ActiveRecord bridge: the search attributes it predefines for the
    columns of a model, and the :operator option it turns into a find
    options block. */
module ActiveRecordBridge {
  import opened Values
  import opened SqlFragments
  import opened TextCriteria
  import opened SearchAttributes
  import TextConditions

  /** A table column: its name and whether its Ruby class is Comparable. */
  datatype Column = Column(name: string, comparable: bool)

  /** The ActiveRecord class a bridge serves, reduced to what the bridge
      asks of it. The database-specific operations are parameters. */
  datatype ArModel = ArModel(
    tableName: string,
    primaryKey: string,
    columns: seq<Column>,
    quote: string -> string,                // connection.quote_column_name
    sanitizeHash: (Value, Value) -> string, // sanitize_sql_hash(column => value)
    sanitize: Value -> string,              // SqlFragment.sanitize
    typeCast: (string, Value) -> Value)     // write a column of a new record, read it back

  /** SINGLE_COLUMN_OPERATORS */
  const SingleColumnOperators: seq<string> :=
    ["eq", "neq", "lt", "lte", "gt", "gte", "contains", "starts_with", "ends_with"]

  /** MULTI_COLUMN_OPERATORS */
  const MultiColumnOperators: seq<string> := ["full_text"]

  // ---------------------------------------------------------------------
  // automatic_search_attribute_builders

  /** The options of an automatic builder. */
  function AutomaticOptions(typeCast: Value, column: string, operator: string): Options {
    map["type_cast" := Plain(typeCast), "column" := Plain(Str(column)), "operator" := Plain(Sym(operator))]
  }

  /** The builders one column contributes: equality under the column's
      name, and for a comparable column min_ (>=) and max_ (<=) bounds. */
  function ColumnBuilders(c: Column, typeCast: Value): (r: seq<Builder>)
    ensures |r| == if c.comparable then 3 else 1
    ensures r[0] == Builder(c.name, AutomaticOptions(typeCast, c.name, "eq"), None)
    ensures c.comparable ==> r[1] == Builder("min_" + c.name, AutomaticOptions(typeCast, c.name, "gte"), None)
    ensures c.comparable ==> r[2] == Builder("max_" + c.name, AutomaticOptions(typeCast, c.name, "lte"), None)
  {
    var eq := Builder(c.name, AutomaticOptions(typeCast, c.name, "eq"), None);
    if c.comparable then
      [eq,
       Builder("min_" + c.name, AutomaticOptions(typeCast, c.name, "gte"), None),
       Builder("max_" + c.name, AutomaticOptions(typeCast, c.name, "lte"), None)]
    else [eq]
  }

  /** The builders of a column list, column after column. */
  function AllColumnBuilders(cols: seq<Column>, typeCast: Value): seq<Builder>
    decreases |cols|
  {
    if |cols| == 0 then []
    else AllColumnBuilders(cols[..|cols| - 1], typeCast) + ColumnBuilders(cols[|cols| - 1], typeCast)
  }

  /** automatic_search_attribute_builders(options): every builder carries
      options[:type_cast]. */
  method AutomaticSearchAttributeBuilders(ar: ArModel, options: Value) returns (builders: seq<Builder>)
    ensures builders == AllColumnBuilders(ar.columns, HashGet(options, Sym("type_cast")))
  {
    var typeCast := HashGet(options, Sym("type_cast"));
    builders := [];
    var i := 0;
    while i < |ar.columns|
      invariant 0 <= i <= |ar.columns|
      invariant builders == AllColumnBuilders(ar.columns[..i], typeCast)
    {
      var c := ar.columns[i];
      builders := builders + [Builder(c.name, AutomaticOptions(typeCast, c.name, "eq"), None)];
      if c.comparable {
        builders := builders + [Builder("min_" + c.name, AutomaticOptions(typeCast, c.name, "gte"), None)];
        builders := builders + [Builder("max_" + c.name, AutomaticOptions(typeCast, c.name, "lte"), None)];
      }
      assert ar.columns[..i + 1][..i] == ar.columns[..i];
      i := i + 1;
    }
    assert ar.columns[..i] == ar.columns;
  }

  /** Where the builders of column k start. */
  function BuildersBefore(cols: seq<Column>, typeCast: Value, k: nat): nat
    requires k <= |cols|
  {
    |AllColumnBuilders(cols[..k], typeCast)|
  }

  /** The builders of every column appear in column order: those of
      column k sit right after those of the columns before it. */
  lemma {:induction false} ColumnBuildersInOrder(cols: seq<Column>, typeCast: Value, k: nat)
    requires k < |cols|
    ensures BuildersBefore(cols, typeCast, k) + |ColumnBuilders(cols[k], typeCast)| <= |AllColumnBuilders(cols, typeCast)|
    ensures AllColumnBuilders(cols, typeCast)[BuildersBefore(cols, typeCast, k)..BuildersBefore(cols, typeCast, k) + |ColumnBuilders(cols[k], typeCast)|]
         == ColumnBuilders(cols[k], typeCast)
    decreases |cols|
  {
    var n := |cols| - 1;
    var init := cols[..n];
    if k == n {
      assert cols[..k] == init;
    } else {
      ColumnBuildersInOrder(init, typeCast, k);
      assert init[..k] == cols[..k];
      assert init[k] == cols[k];
      PrefixOfConcat(AllColumnBuilders(init, typeCast), ColumnBuilders(cols[n], typeCast),
                     BuildersBefore(cols, typeCast, k), BuildersBefore(cols, typeCast, k) + |ColumnBuilders(cols[k], typeCast)|);
    }
  }

  lemma PrefixOfConcat<T>(a: seq<T>, b: seq<T>, i: nat, j: nat)
    requires i <= j <= |a|
    ensures (a + b)[i..j] == a[i..j]
  {
  }

  /** One builder for each column, and two more for each comparable one. */
  lemma {:induction false} AutomaticBuilderCount(cols: seq<Column>, typeCast: Value)
    ensures |AllColumnBuilders(cols, typeCast)| == |cols| + 2 * |set k | 0 <= k < |cols| && cols[k].comparable|
    decreases |cols|
  {
    if |cols| > 0 {
      var n := |cols| - 1;
      var init := cols[..n];
      AutomaticBuilderCount(init, typeCast);
      var s := set k | 0 <= k < n && init[k].comparable;
      var t := set k | 0 <= k < |cols| && cols[k].comparable;
      assert s == set k | 0 <= k < n && cols[k].comparable;
      if cols[n].comparable {
        assert t == s + {n};
      } else {
        assert t == s;
      }
    }
  }

  // ---------------------------------------------------------------------
  // The find options blocks

  /** { :conditions => v } */
  function Conditions(v: Value): Value {
    Hash([(Sym("conditions"), v)])
  }

  /** "table.`column`", as the blocks name a column. */
  function SqlColumn(ar: ArModel, column: Value): string {
    ar.tableName + "." + ar.quote(ToS(column))
  }

  /** eq: the model's own equality condition on the column. */
  function EqualityBlock(ar: ArModel, name: Name, column: Value): (b: Block)
    ensures forall vs :: b(vs) == Conditions(Str(ar.sanitizeHash(column, Get(vs, name))))
  {
    vs => Conditions(Str(ar.sanitizeHash(column, Get(vs, name))))
  }

  /** neq: nil asks for a non-null column, anything else for a different or null one. */
  function InequalityBlock(name: Name, col: string): (b: Block)
    ensures forall vs :: Get(vs, name) == Nil ==> b(vs) == Conditions(Str(col + " IS NOT NULL"))
    ensures forall vs :: Get(vs, name) != Nil ==>
      b(vs) == Conditions(List([Str(col + " <> ? OR " + col + " IS NULL"), Get(vs, name)]))
  {
    vs => if Get(vs, name) == Nil then Conditions(Str(col + " IS NOT NULL"))
          else Conditions(List([Str(col + " <> ? OR " + col + " IS NULL"), Get(vs, name)]))
  }

  /** lt, lte, gt, gte: a nil bound contributes nothing. */
  function ComparisonBlock(name: Name, col: string, op: string): (b: Block)
    ensures forall vs :: Get(vs, name) == Nil ==> b(vs) == Nil
    ensures forall vs :: Get(vs, name) != Nil ==> b(vs) == Conditions(List([Str(col + " " + op + " ?"), Get(vs, name)]))
  {
    vs => if Get(vs, name) == Nil then Nil else Conditions(List([Str(col + " " + op + " ?"), Get(vs, name)]))
  }

  /** Where a LIKE pattern lets the value occur. */
  datatype Anchor = Anywhere | AtStart | AtEnd

  function Wildcarded(s: string, a: Anchor): string {
    match a
    case Anywhere => "%" + s + "%"
    case AtStart => s + "%"
    case AtEnd => "%" + s
  }

  /** contains, starts_with, ends_with: an empty to_s contributes nothing. */
  function LikeBlock(name: Name, col: string, a: Anchor): (b: Block)
    ensures forall vs :: ToS(Get(vs, name)) == "" ==> b(vs) == Nil
    ensures forall vs :: ToS(Get(vs, name)) != "" ==>
      b(vs) == Conditions(List([Str(col + " LIKE ?"), Str(Wildcarded(ToS(Get(vs, name)), a))]))
  {
    vs => var s := ToS(Get(vs, name));
          if s == "" then Nil else Conditions(List([Str(col + " LIKE ?"), Str(Wildcarded(s, a))]))
  }

  /** full_text: the condition of the text criterion parsed from the value,
      over all the columns; an empty to_s contributes nothing. */
  function FullTextBlock(name: Name, cols: seq<string>, ex: ExcludeOption): (b: Block)
    ensures forall vs :: ToS(Get(vs, name)) == "" ==> b(vs) == Nil
    ensures forall vs :: ToS(Get(vs, name)) != "" ==>
      b(vs) == Conditions(ToValue(ConditionOf(Parse(ToS(Get(vs, name)), TextOptions(ex, Nil)), cols)))
  {
    vs => var s := ToS(Get(vs, name));
          if s == "" then Nil else Conditions(ToValue(ConditionOf(Parse(s, TextOptions(ex, Nil)), cols)))
  }

  /** The operators of the two lists. */
  datatype Operator = Eq | Neq | Lt | Lte | Gt | Gte | Contains | StartsWith | EndsWith | FullText

  /** The operator listed under this name, if any. */
  function OperatorNamed(s: string): (r: Option<Operator>)
    ensures r.Some? <==> s in SingleColumnOperators || s in MultiColumnOperators
    ensures r.Some? ==> (r.value.FullText? <==> s in MultiColumnOperators)
  {
    if s == "eq" then Some(Eq)
    else if s == "neq" then Some(Neq)
    else if s == "lt" then Some(Lt)
    else if s == "lte" then Some(Lte)
    else if s == "gt" then Some(Gt)
    else if s == "gte" then Some(Gte)
    else if s == "contains" then Some(Contains)
    else if s == "starts_with" then Some(StartsWith)
    else if s == "ends_with" then Some(EndsWith)
    else if s == "full_text" then Some(FullText)
    else None
  }

  /** The block a single-column operator writes. */
  function SingleColumnBlock(ar: ArModel, name: Name, op: Operator, column: Value): Block {
    var col := SqlColumn(ar, column);
    match op
    case Eq => EqualityBlock(ar, name, column)
    case Neq => InequalityBlock(name, col)
    case Lt => ComparisonBlock(name, col, "<")
    case Lte => ComparisonBlock(name, col, "<=")
    case Gt => ComparisonBlock(name, col, ">")
    case Gte => ComparisonBlock(name, col, ">=")
    case Contains => LikeBlock(name, col, Anywhere)
    case StartsWith => LikeBlock(name, col, AtStart)
    case EndsWith => LikeBlock(name, col, AtEnd)
    case FullText => EqualityBlock(ar, name, column)
  }

  // ---------------------------------------------------------------------
  // The exclusion of full_text

  predicate IsDigit(c: char) {
    '0' <= c <= '9'
  }

  /** /^[^0-9].{0,2}$/ on a keyword (keywords hold no line break): one to
      three characters, the first not a digit. */
  function DefaultExclusion(): (m: Matcher)
    ensures m.Pattern? && forall kw :: m.hits(kw) <==> 1 <= |kw| <= 3 && !IsDigit(kw[0])
  {
    Pattern(kw => 1 <= |kw| <= 3 && !IsDigit(kw[0]))
  }

  /** options.delete(:exclude) || the default: a string or any other
      object is one literal, a list is a list of literals. */
  function ExclusionOf(o: Opt): (r: ExcludeOption)
    ensures !OptTruthy(o) ==> r == One(DefaultExclusion())
    ensures o.Matchers? ==> r == o.e
    ensures o.Plain? && o.v.Str? && OptTruthy(o) ==> r == One(Literal(o.v.s))
  {
    if !OptTruthy(o) then One(DefaultExclusion())
    else match o
      case Matchers(e) => e
      case Plain(v) =>
        if v.List? then Many(seq(|v.items|, k requires 0 <= k < |v.items| => Literal(ToS(v.items[k]))))
        else One(Literal(ToS(v)))
      case Proc(_) => One(Literal(ToS(OptValue(o))))
  }

  /** Keywords of one to three characters not starting with a digit are
      dropped from a full-text search by default. */
  lemma DefaultExclusionDrops(kw: string)
    ensures Excluded(NormalizeExclude(ExclusionOf(Plain(Nil))), kw) <==> 1 <= |kw| <= 3 && !IsDigit(kw[0])
  {
    var ex := NormalizeExclude(ExclusionOf(Plain(Nil)));
    assert ex == Some([DefaultExclusion()]);
    if 1 <= |kw| <= 3 && !IsDigit(kw[0]) {
      assert Hits(ex.value[0], kw);
    }
  }

  // ---------------------------------------------------------------------
  // rewrite_search_attribute_builder

  /** The operator's name as operator.to_s. */
  function OperatorName(o: Opt): string {
    ToS(OptValue(o))
  }

  /** The branch of the case statement a Symbol operator selects; a String
      operator passes the list check but selects none. */
  predicate SelectsBranch(o: Opt) {
    OptValue(o).Sym?
  }

  /** A single-column operator: consumes :column and :type_cast. */
  function RewriteSingleColumn(ar: ArModel, name: Name, op: Operator, branch: bool, opts: Options, block: Option<Block>): (r: Rewritten)
    ensures r.options.Keys <= opts.Keys + {"store_as"}
    ensures "column" !in r.options
    ensures r.outcome.Fail? <==> !OptTruthy(Fetch(opts, "column")) || OptValue(Fetch(opts, "column")).List?
    ensures r.outcome.Fail? ==> r.outcome.error.kind == ArgumentError && r.block == block
    ensures r.outcome.Pass? ==> "type_cast" !in r.options
    ensures r.outcome.Pass? ==>
      (Fetch(r.options, "store_as").Proc? <==> OptTruthy(Fetch(opts, "type_cast")) || Fetch(opts, "store_as").Proc?)
    ensures r.outcome.Pass? && branch ==> r.block == Some(SingleColumnBlock(ar, name, op, OptValue(opts["column"])))
    ensures r.outcome.Pass? && !branch ==> r.block == block
  {
    var column := Fetch(opts, "column");
    var o1 := opts - {"column"};
    if !OptTruthy(column) || OptValue(column).List? then
      Rewritten(o1, block, Fail(Error(ArgumentError, "operator requires the :column options to contain a column name.")))
    else
      var columnName := ToS(OptValue(column));
      var o2 := o1 - {"type_cast"};
      var o3 := if OptTruthy(Fetch(o1, "type_cast")) then o2["store_as" := Proc(v => ar.typeCast(columnName, v))] else o2;
      var b := if branch then Some(SingleColumnBlock(ar, name, op, OptValue(column))) else block;
      Rewritten(o3, b, Pass)
  }

  /** Array(options.delete(:columns) || options.delete(:column)) */
  function ColumnNames(opts: Options): seq<Value> {
    if OptTruthy(Fetch(opts, "columns")) then ToArray(OptValue(opts["columns"]))
    else ToArray(OptValue(Fetch(opts, "column")))
  }

  function SqlColumns(ar: ArModel, names: seq<Value>): (r: seq<string>)
    ensures |r| == |names| && forall k :: 0 <= k < |names| ==> r[k] == SqlColumn(ar, names[k])
  {
    seq(|names|, k requires 0 <= k < |names| => SqlColumn(ar, names[k]))
  }

  /** A multi-column operator: consumes :columns (or, when that is nil or
      false, :column) and, for full_text, :exclude. */
  function RewriteMultiColumn(ar: ArModel, name: Name, branch: bool, opts: Options, block: Option<Block>): (r: Rewritten)
    ensures r.options.Keys <= opts.Keys
    ensures "columns" !in r.options
    ensures OptTruthy(Fetch(opts, "columns")) ==> "column" in opts ==> "column" in r.options
    ensures r.outcome.Fail? <==> ColumnNames(opts) == []
    ensures r.outcome.Fail? ==> r.outcome.error.kind == ArgumentError && r.block == block
    ensures r.outcome.Pass? && branch ==>
      "exclude" !in r.options
      && r.block == Some(FullTextBlock(name, SqlColumns(ar, ColumnNames(opts)), ExclusionOf(Fetch(opts, "exclude"))))
    ensures r.outcome.Pass? && !branch ==> r.block == block
  {
    var o1 := if OptTruthy(Fetch(opts, "columns")) then opts - {"columns"} else opts - {"columns", "column"};
    assert o1.Keys <= opts.Keys && "columns" !in o1;
    var names := ColumnNames(opts);
    if names == [] then
      Rewritten(o1, block, Fail(Error(ArgumentError, "operator requires the :column or :columns options to contain column names.")))
    else if branch then
      Rewritten(o1 - {"exclude"}, Some(FullTextBlock(name, SqlColumns(ar, names), ExclusionOf(Fetch(opts, "exclude")))), Pass)
    else
      Rewritten(o1, block, Pass)
  }

  /** rewrite_search_attribute_builder: consumes :operator; without one the
      builder is left as it is, an unknown one raises ArgumentError. */
  function Rewrite(ar: ArModel, b: Builder): (r: Rewritten)
    ensures "operator" !in r.options
    ensures !OptTruthy(Fetch(b.options, "operator")) ==> r == Rewritten(b.options - {"operator"}, b.block, Pass)
    ensures r.outcome.Fail? ==> r.outcome.error.kind == ArgumentError
    ensures OptTruthy(Fetch(b.options, "operator")) && OperatorNamed(OperatorName(b.options["operator"])).None? ==>
      r.outcome.Fail? && r.block == b.block
  {
    var op := Fetch(b.options, "operator");
    var o1 := b.options - {"operator"};
    var named := OperatorNamed(OperatorName(op));
    if !OptTruthy(op) then Rewritten(o1, b.block, Pass)
    else if named.None? then Rewritten(o1, b.block, Fail(Error(ArgumentError, "Unknown operator " + OperatorName(op))))
    else if named.value.FullText? then RewriteMultiColumn(ar, b.name, SelectsBranch(op), o1, b.block)
    else RewriteSingleColumn(ar, b.name, named.value, SelectsBranch(op), o1, b.block)
  }

  // ---------------------------------------------------------------------
  // What the rewrite guarantees

  /** The operator of the k-th automatic builder of a column: eq, then gte
      (min_) and lte (max_). */
  function AutomaticOperator(k: nat): Operator {
    if k == 0 then Eq else if k == 1 then Gte else Lte
  }

  /** A builder with automatic options naming a single-column operator
      is rewritten without error into one add_search_attribute accepts:
      its block is the operator's on the column, and :type_cast has become
      a :store_as coercion exactly when it was asked for. */
  lemma AutomaticRewrite(ar: ArModel, name: Name, typeCast: Value, column: string, opname: string, op: Operator)
    requires OperatorNamed(opname) == Some(op) && !op.FullText?
    ensures var r := Rewrite(ar, Builder(name, AutomaticOptions(typeCast, column, opname), None));
      r.outcome.Pass? && InvalidKeys(r.options) == {}
      && r.block == Some(SingleColumnBlock(ar, name, op, Str(column)))
      && (Fetch(r.options, "store_as").Proc? <==> Truthy(typeCast))
  {
    var b := Builder(name, AutomaticOptions(typeCast, column, opname), None);
    var o1 := map["type_cast" := Plain(typeCast), "column" := Plain(Str(column))];
    assert b.options - {"operator"} == o1;
    assert Fetch(b.options, "operator") == Plain(Sym(opname));
    assert Rewrite(ar, b) == RewriteSingleColumn(ar, name, op, true, o1, None);
    AutomaticColumnOptions(ar, name, op, typeCast, column, o1);
  }

  /** What is left of an automatic builder's options once :operator is
      consumed rewrites without error. */
  lemma AutomaticColumnOptions(ar: ArModel, name: Name, op: Operator, typeCast: Value, column: string, o1: Options)
    requires o1 == map["type_cast" := Plain(typeCast), "column" := Plain(Str(column))]
    ensures var r := RewriteSingleColumn(ar, name, op, true, o1, None);
      r.outcome.Pass? && InvalidKeys(r.options) == {}
      && r.block == Some(SingleColumnBlock(ar, name, op, Str(column)))
      && (Fetch(r.options, "store_as").Proc? <==> Truthy(typeCast))
  {
    assert Fetch(o1, "column") == Plain(Str(column)) && Fetch(o1, "type_cast") == Plain(typeCast);
    assert "store_as" !in o1;
    var r := RewriteSingleColumn(ar, name, op, true, o1, None);
    assert r.options.Keys <= {"store_as"};
  }

  /** Each automatic builder of a column is rewritten in this way. */
  lemma ColumnBuilderRewrites(ar: ArModel, c: Column, typeCast: Value, k: nat)
    requires k < |ColumnBuilders(c, typeCast)|
    ensures var b := ColumnBuilders(c, typeCast)[k];
      var r := Rewrite(ar, b);
      r.outcome.Pass? && InvalidKeys(r.options) == {}
      && r.block == Some(SingleColumnBlock(ar, b.name, AutomaticOperator(k), Str(c.name)))
      && (Fetch(r.options, "store_as").Proc? <==> Truthy(typeCast))
  {
    var b := ColumnBuilders(c, typeCast)[k];
    if k == 0 {
      AutomaticRewrite(ar, b.name, typeCast, c.name, "eq", Eq);
    } else if k == 1 {
      AutomaticRewrite(ar, b.name, typeCast, c.name, "gte", Gte);
    } else {
      AutomaticRewrite(ar, b.name, typeCast, c.name, "lte", Lte);
    }
  }

  /** Every builder automatic_search_attribute_builders returns is
      rewritten without error, and add_search_attribute accepts it. */
  lemma {:induction false} AutomaticBuildersRewrite(ar: ArModel, cols: seq<Column>, typeCast: Value, i: nat, d: Decls)
    requires i < |AllColumnBuilders(cols, typeCast)|
    ensures var b := AllColumnBuilders(cols, typeCast)[i];
      var r := Rewrite(ar, b);
      r.outcome.Pass? && AddSearchAttribute(d, Builder(b.name, r.options, r.block)).outcome.Pass?
    decreases |cols|
  {
    var n := |cols| - 1;
    var init := AllColumnBuilders(cols[..n], typeCast);
    if i < |init| {
      AutomaticBuildersRewrite(ar, cols[..n], typeCast, i, d);
    } else {
      ColumnBuilderRewrites(ar, cols[n], typeCast, i - |init|);
    }
  }

  /** A block's answer is nil or { :conditions => c } for a fragment c
      whose placeholders are as many as its bound values. */
  ghost predicate BalancedConditions(v: Value) {
    v.Nil?
    || (v.Hash? && |v.entries| == 1 && v.entries[0].0 == Sym("conditions")
        && FromValue(v.entries[0].1).Ok? && Balanced(FromValue(v.entries[0].1).value))
  }

  /** Neither the table name nor a quoted column name holds a '?'. */
  ghost predicate PlainNames(ar: ArModel) {
    '?' !in ar.tableName && forall s :: '?' !in ar.quote(s)
  }

  lemma SqlColumnPlain(ar: ArModel, column: Value)
    requires PlainNames(ar)
    ensures '?' !in SqlColumn(ar, column)
  {
    var q := ar.quote(ToS(column));
    assert '?' !in q;
    assert SqlColumn(ar, column) == ar.tableName + "." + q;
  }

  lemma OnePlaceholder(a: string, b: string)
    requires '?' !in a && '?' !in b
    ensures CountChar('?', a + "?" + b) == 1
  {
    CountCharConcat('?', a + "?", b);
    CountCharConcat('?', a, "?");
    CountCharAbsent('?', a);
    CountCharAbsent('?', b);
  }

  /** A template of this form with one bound value is balanced. */
  lemma OneParameter(v: Value, a: string, b: string, x: Value)
    requires '?' !in a && '?' !in b
    requires v == Conditions(List([Str(a + "?" + b), x]))
    ensures BalancedConditions(v)
  {
    OnePlaceholder(a, b);
    assert FromValue(v.entries[0].1) == Ok(Frag(a + "?" + b, [x]));
  }

  /** The conditions of the neq, comparison and LIKE blocks bind exactly
      one value per placeholder (eq delegates to the model's own
      sanitize_sql_hash, which is not part of this model). */
  lemma {:induction false} SingleColumnBalanced(ar: ArModel, name: Name, op: Operator, column: Value, vs: Attrs)
    requires PlainNames(ar) && !op.Eq? && !op.FullText?
    ensures BalancedConditions(SingleColumnBlock(ar, name, op, column)(vs))
  {
    var col := SqlColumn(ar, column);
    SqlColumnPlain(ar, column);
    var x := Get(vs, name);
    var v := SingleColumnBlock(ar, name, op, column)(vs);
    match op
    case Neq =>
      if x == Nil {
        CountCharAbsent('?', col + " IS NOT NULL");
        assert FromValue(v.entries[0].1) == Ok(Frag(col + " IS NOT NULL", []));
      } else {
        assert col + " <> ? OR " + col + " IS NULL" == (col + " <> ") + "?" + (" OR " + col + " IS NULL");
        OneParameter(v, col + " <> ", " OR " + col + " IS NULL", x);
      }
    case Lt =>
      if x != Nil {
        assert col + " " + "<" + " ?" == (col + " < ") + "?" + "";
        OneParameter(v, col + " < ", "", x);
      }
    case Lte =>
      if x != Nil {
        assert col + " " + "<=" + " ?" == (col + " <= ") + "?" + "";
        OneParameter(v, col + " <= ", "", x);
      }
    case Gt =>
      if x != Nil {
        assert col + " " + ">" + " ?" == (col + " > ") + "?" + "";
        OneParameter(v, col + " > ", "", x);
      }
    case Gte =>
      if x != Nil {
        assert col + " " + ">=" + " ?" == (col + " >= ") + "?" + "";
        OneParameter(v, col + " >= ", "", x);
      }
    case Contains =>
      LikeBalanced(name, col, Anywhere, vs);
    case StartsWith =>
      LikeBalanced(name, col, AtStart, vs);
    case EndsWith =>
      LikeBalanced(name, col, AtEnd, vs);
  }

  lemma LikeBalanced(name: Name, col: string, a: Anchor, vs: Attrs)
    requires '?' !in col
    ensures BalancedConditions(LikeBlock(name, col, a)(vs))
  {
    var s := ToS(Get(vs, name));
    if s != "" {
      assert col + " LIKE ?" == (col + " LIKE ") + "?" + "";
      OneParameter(LikeBlock(name, col, a)(vs), col + " LIKE ", "", Str(Wildcarded(s, a)));
    }
  }

  /** The full-text condition binds exactly one value per placeholder. */
  lemma FullTextBalanced(ar: ArModel, name: Name, names: seq<Value>, ex: ExcludeOption, vs: Attrs)
    requires PlainNames(ar)
    ensures BalancedConditions(FullTextBlock(name, SqlColumns(ar, names), ex)(vs))
  {
    var cols := SqlColumns(ar, names);
    var s := ToS(Get(vs, name));
    if s != "" {
      forall k | 0 <= k < |cols|
        ensures '?' !in cols[k]
      {
        SqlColumnPlain(ar, names[k]);
      }
      var f := ConditionOf(Parse(s, TextOptions(ex, Nil)), cols);
      TextConditions.ConditionBalanced(Parse(s, TextOptions(ex, Nil)), cols);
      FragmentRoundTrip(f);
    }
  }
}
