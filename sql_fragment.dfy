/** SQL fragments: a template with positional `?` placeholders and the list of
    values bound to them, with the AND / OR / NOT combinators that keep
    precedence by parenthesising and keep parameters in left-to-right order. */
module SqlFragments {
  import opened Values

  /** Empty is the Ruby `[]`; Frag(t, ps) is `[t, ps...]`. */
  datatype Fragment = Empty | Frag(template: string, params: seq<Value>)

  /** sqlParameters: the bound values (none for the empty fragment). */
  function Params(f: Fragment): seq<Value> {
    if f.Empty? then [] else f.params
  }

  /** The placeholder count agrees with the number of bound values. */
  predicate Balanced(f: Fragment) {
    f.Empty? || CountChar('?', f.template) == |f.params|
  }

  /** SqlFragment.new(x) for one argument: nil, "" and [] (and {}) give the
      empty fragment, a string is a parameterless template, an array is
      [template, params...]; a value without `empty?` raises. */
  function FromValue(v: Value): (r: Result<Fragment>)
    ensures r.Ok? <==> (v.Nil? || v.Str? || v.List? || v.Hash?)
    ensures r.Ok? && r.value.Empty? <==> Blank(v) && !v.Bool? && (v.Str? ==> v.s == "")
    ensures v.Str? && v.s != "" ==> r == Ok(Frag(v.s, []))
    ensures v.List? && |v.items| > 0 && v.items[0].Str? ==> r == Ok(Frag(v.items[0].s, v.items[1..]))
  {
    match v
    case Nil => Ok(Empty)
    case Str(s) => if s == "" then Ok(Empty) else Ok(Frag(s, []))
    case List(items) => if items == [] then Ok(Empty) else Ok(Frag(ToS(items[0]), items[1..]))
    case Hash(entries) => if entries == [] then Ok(Empty) else Ok(Frag(ToS(v), []))
    case _ => Err(Error(NoMethodError, "undefined method `empty?'"))
  }

  /** The fragment as the Ruby Array it is: [] or [template, params...]. */
  function ToValue(f: Fragment): (r: Value)
    ensures r.List? && (|r.items| == 0 <==> f.Empty?)
  {
    if f.Empty? then List([]) else List([Str(f.template)] + f.params)
  }

  /** Building a fragment from its own Array gives the fragment back. */
  lemma FragmentRoundTrip(f: Fragment)
    ensures FromValue(ToValue(f)) == Ok(f)
  {
    if f.Frag? {
      assert ToValue(f).items[1..] == f.params;
    }
  }

  /** SqlFragment.new(*args): several arguments are taken as one array. */
  function New(args: seq<Value>): (r: Result<Fragment>)
    ensures |args| == 0 ==> r == Ok(Empty)
    ensures |args| > 1 && args[0].Str? ==> r == Ok(Frag(args[0].s, args[1..]))
  {
    if |args| > 1 then FromValue(List(args))
    else if |args| == 1 then FromValue(args[0])
    else Ok(Empty)
  }

  /** The SQL of a conjunction or disjunction of two non-empty templates. */
  function Combine(t1: string, op: string, t2: string): string {
    "(" + t1 + ") " + op + " (" + t2 + ")"
  }

  /** SqlFragment#and: the empty fragment is an identity on either side. */
  function And(f: Fragment, g: Fragment): (r: Fragment)
    ensures Params(r) == Params(f) + Params(g)
    ensures r.Empty? <==> f.Empty? && g.Empty?
  {
    if g.Empty? then f
    else if f.Empty? then g
    else Frag(Combine(f.template, "AND", g.template), f.params + g.params)
  }

  /** SqlFragment#or: the empty fragment is an identity on either side. */
  function Or(f: Fragment, g: Fragment): (r: Fragment)
    ensures Params(r) == Params(f) + Params(g)
    ensures r.Empty? <==> f.Empty? && g.Empty?
  {
    if g.Empty? then f
    else if f.Empty? then g
    else Frag(Combine(f.template, "OR", g.template), f.params + g.params)
  }

  /** SqlFragment#not: a no-op on the empty fragment. */
  function Not(f: Fragment): (r: Fragment)
    ensures Params(r) == Params(f)
    ensures r.Empty? <==> f.Empty?
  {
    if f.Empty? then f else Frag("NOT(" + f.template + ")", f.params)
  }

  /** The empty fragment is a two-sided identity of both combinators. */
  lemma IdentityLaws(f: Fragment)
    ensures And(f, Empty) == f && And(Empty, f) == f
    ensures Or(f, Empty) == f && Or(Empty, f) == f
    ensures Not(Empty) == Empty
  {
  }

  /** Two non-empty fragments combine into "(t1) AND (t2)" / "(t1) OR (t2)". */
  lemma CombinedShape(f: Fragment, g: Fragment)
    requires f.Frag? && g.Frag?
    ensures And(f, g) == Frag("(" + f.template + ") AND (" + g.template + ")", f.params + g.params)
    ensures Or(f, g) == Frag("(" + f.template + ") OR (" + g.template + ")", f.params + g.params)
    ensures Not(f) == Frag("NOT(" + f.template + ")", f.params)
  {
  }

  lemma {:induction false} CombinePlaceholders(t1: string, op: string, t2: string)
    requires '?' !in op
    ensures CountChar('?', Combine(t1, op, t2)) == CountChar('?', t1) + CountChar('?', t2)
  {
    var a := "(" + t1;
    var m := ") " + op + " (";
    var b := a + m;
    var c := b + t2;
    assert Combine(t1, op, t2) == c + ")";
    CountCharConcat('?', "(", t1);
    CountCharConcat('?', a, m);
    CountCharAbsent('?', m);
    CountCharAbsent('?', "(");
    CountCharConcat('?', b, t2);
    CountCharConcat('?', c, ")");
    CountCharAbsent('?', ")");
  }

  /** and, or and not keep every placeholder matched with one parameter. */
  lemma BalancePreserved(f: Fragment, g: Fragment)
    requires Balanced(f) && Balanced(g)
    ensures Balanced(And(f, g)) && Balanced(Or(f, g)) && Balanced(Not(f))
  {
    if f.Frag? && g.Frag? {
      CombinePlaceholders(f.template, "AND", g.template);
      CombinePlaceholders(f.template, "OR", g.template);
    }
    if f.Frag? {
      CountCharConcat('?', "NOT(", f.template);
      CountCharConcat('?', "NOT(" + f.template, ")");
      CountCharAbsent('?', "NOT(");
      CountCharAbsent('?', ")");
    }
  }

  /** The constructor examples documented at the head of the Ruby class. */
  lemma DocumentedConstructors()
    ensures New([]) == Ok(Empty) && New([Str("")]) == Ok(Empty)
    ensures New([Str("a=1")]) == Ok(Frag("a=1", []))
    ensures New([List([Str("a=?"), Int(1)])]) == Ok(Frag("a=?", [Int(1)]))
  {
  }

  /** The combinator examples documented at the head of the Ruby class. */
  lemma DocumentedCombinations()
    ensures Or(Frag("a=?", [Int(1)]), Empty) == Frag("a=?", [Int(1)])
    ensures Or(Frag("a=?", [Int(1)]), Frag("b=2", [])) == Frag("(a=?) OR (b=2)", [Int(1)])
    ensures And(Or(Frag("a=?", [Int(1)]), Frag("b=?", [Int(2)])), Frag("c=3", []))
         == Frag("((a=?) OR (b=?)) AND (c=3)", [Int(1), Int(2)])
  {
    assert Combine("a=?", "OR", "b=2") == "(a=?) OR (b=2)";
    assert Combine("a=?", "OR", "b=?") == "(a=?) OR (b=?)";
    assert Combine("(a=?) OR (b=?)", "AND", "c=3") == "((a=?) OR (b=?)) AND (c=3)";
  }

  /** A mutable SqlFragment: `and!`, `or!` and `<<` replace its contents in
      place; the logical operator of `<<` defaults to :and. */
  class SqlFragment {
    var contents: Fragment
    var logicalOperator: Value

    constructor (f: Fragment)
      ensures contents == f && logicalOperator == Sym("and")
    {
      contents := f;
      logicalOperator := Sym("and");
    }

    /** logical_operator=: nil (or false) resets it to :and. */
    method SetLogicalOperator(op: Value)
      modifies this`logicalOperator
      ensures logicalOperator == (if Truthy(op) then op else Sym("and"))
      ensures Truthy(logicalOperator)
    {
      logicalOperator := if Truthy(op) then op else Sym("and");
    }

    /** and!: the receiver now holds exactly `and` of its old contents. */
    method AndInPlace(g: Fragment)
      modifies this`contents
      ensures contents == And(old(contents), g)
    {
      contents := And(contents, g);
    }

    /** or!: the receiver now holds exactly `or` of its old contents. */
    method OrInPlace(g: Fragment)
      modifies this`contents
      ensures contents == Or(old(contents), g)
    {
      contents := Or(contents, g);
    }

    /** `<<`: dispatches on the logical operator; any other operator raises
        and leaves the contents alone. */
    method Push(g: Fragment) returns (r: Outcome)
      modifies this`contents
      ensures r.Pass? <==> logicalOperator in {Sym("and"), Sym("and!"), Sym("or"), Sym("or!")}
      ensures r.Fail? ==> r.error.kind == RuntimeError
      ensures logicalOperator in {Sym("and"), Sym("and!")} ==> contents == And(old(contents), g)
      ensures logicalOperator in {Sym("or"), Sym("or!")} ==> contents == Or(old(contents), g)
      ensures r.Fail? ==> contents == old(contents)
    {
      if logicalOperator == Sym("and") || logicalOperator == Sym("and!") {
        AndInPlace(g);
        r := Pass;
      } else if logicalOperator == Sym("or") || logicalOperator == Sym("or!") {
        OrInPlace(g);
        r := Pass;
      } else {
        r := Fail(Error(RuntimeError, "Unsupported logical_operator " + ToS(logicalOperator)));
      }
    }
  }
}
