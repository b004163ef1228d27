/** What the SQL condition of a full-text criterion selects. The condition is
    rebuilt as a tree whose rendering is the fragment `condition` builds, and
    the tree is given SQL's three-valued meaning over one row: a column may be
    NULL, `col like ?` on NULL is unknown, and a row is selected when the
    condition is true. */
module TextConditions {
  import opened Values
  import opened SqlFragments
  import opened TextCriteria

  // ---------------------------------------------------------------------
  // Three-valued logic

  datatype Tri = Yes | No | Unknown

  function TriAnd(a: Tri, b: Tri): Tri {
    if a == No || b == No then No else if a == Yes && b == Yes then Yes else Unknown
  }

  function TriOr(a: Tri, b: Tri): Tri {
    if a == Yes || b == Yes then Yes else if a == No && b == No then No else Unknown
  }

  function TriNot(a: Tri): Tri {
    match a
    case Yes => No
    case No => Yes
    case Unknown => Unknown
  }

  // ---------------------------------------------------------------------
  // Condition trees and their SQL

  /** A condition as `condition` assembles it, before rendering. Like(f, kw, g)
      is `f like '%kw%'`, guarded by `f is not null AND` when g holds. */
  datatype Cond =
    | NoCond
    | Like(field: string, keyword: string, guarded: bool)
    | Conj(left: Cond, right: Cond)
    | Disj(left: Cond, right: Cond)
    | Neg(arg: Cond)

  function Sql(c: Cond): Fragment {
    match c
    case NoCond => Empty
    case Like(f, kw, g) => Frag(Clause(f, g), [Str(LikePattern(kw))])
    case Conj(l, r) => And(Sql(l), Sql(r))
    case Disj(l, r) => Or(Sql(l), Sql(r))
    case Neg(a) => Not(Sql(a))
  }

  function FieldsTree(fields: seq<string>, kw: string, guarded: bool): Cond
    decreases |fields|
  {
    if |fields| == 0 then NoCond
    else Disj(FieldsTree(fields[..|fields| - 1], kw, guarded), Like(fields[|fields| - 1], kw, guarded))
  }

  function AllTree(kws: seq<string>, fields: seq<string>, guarded: bool): Cond
    decreases |kws|
  {
    if |kws| == 0 then NoCond
    else Conj(AllTree(kws[..|kws| - 1], fields, guarded), FieldsTree(fields, kws[|kws| - 1], guarded))
  }

  function AnyTree(kws: seq<string>, fields: seq<string>): Cond
    decreases |kws|
  {
    if |kws| == 0 then NoCond
    else Disj(AnyTree(kws[..|kws| - 1], fields), FieldsTree(fields, kws[|kws| - 1], false))
  }

  function ConditionTree(kw: Keywords, fields: seq<string>): Cond {
    Conj(Conj(Conj(NoCond, AllTree(kw.mandatory, fields, false)),
              Neg(AllTree(kw.negative, fields, true))),
         AnyTree(kw.optional, fields))
  }

  lemma {:induction false} FieldsSql(fields: seq<string>, kw: string, guarded: bool)
    ensures Sql(FieldsTree(fields, kw, guarded)) == FieldsDisjunction(fields, kw, guarded)
    decreases |fields|
  {
    if |fields| > 0 {
      FieldsSql(fields[..|fields| - 1], kw, guarded);
    }
  }

  lemma {:induction false} AllSql(kws: seq<string>, fields: seq<string>, guarded: bool)
    ensures Sql(AllTree(kws, fields, guarded)) == AllKeywords(kws, fields, guarded)
    decreases |kws|
  {
    if |kws| > 0 {
      AllSql(kws[..|kws| - 1], fields, guarded);
      FieldsSql(fields, kws[|kws| - 1], guarded);
    }
  }

  lemma {:induction false} AnySql(kws: seq<string>, fields: seq<string>)
    ensures Sql(AnyTree(kws, fields)) == AnyKeyword(kws, fields)
    decreases |kws|
  {
    if |kws| > 0 {
      AnySql(kws[..|kws| - 1], fields);
      FieldsSql(fields, kws[|kws| - 1], false);
    }
  }

  /** The tree renders to exactly the fragment `condition` returns. */
  lemma ConditionSql(kw: Keywords, fields: seq<string>)
    ensures Sql(ConditionTree(kw, fields)) == ConditionOf(kw, fields)
  {
    var a := AllTree(kw.mandatory, fields, false);
    var n := AllTree(kw.negative, fields, true);
    var o := AnyTree(kw.optional, fields);
    TreeSql(a, n, o);
    AllSql(kw.mandatory, fields, false);
    AllSql(kw.negative, fields, true);
    AnySql(kw.optional, fields);
  }

  /** How the three groups of the tree render. */
  lemma TreeSql(a: Cond, n: Cond, o: Cond)
    ensures Sql(Conj(Conj(Conj(NoCond, a), Neg(n)), o)) == And(And(And(Empty, Sql(a)), Not(Sql(n))), Sql(o))
  {
    var c1 := Conj(NoCond, a);
    var c2 := Conj(c1, Neg(n));
    assert Sql(c1) == And(Empty, Sql(a));
    assert Sql(c2) == And(Sql(c1), Not(Sql(n)));
    assert Sql(Conj(c2, o)) == And(Sql(c2), Sql(o));
  }

  // ---------------------------------------------------------------------
  // Placeholders

  /** Every column name is free of `?`. */
  predicate PlainFields(fields: seq<string>) {
    forall k :: 0 <= k < |fields| ==> '?' !in fields[k]
  }

  predicate PlainTree(c: Cond) {
    match c
    case NoCond => true
    case Like(f, _, _) => '?' !in f
    case Conj(l, r) => PlainTree(l) && PlainTree(r)
    case Disj(l, r) => PlainTree(l) && PlainTree(r)
    case Neg(a) => PlainTree(a)
  }

  lemma ClausePlaceholders(f: string, guarded: bool)
    requires '?' !in f
    ensures CountChar('?', Clause(f, guarded)) == 1
  {
    var t := f + " like ?";
    LikePlaceholder(f);
    if guarded {
      var g := f + " is not null AND ";
      CountCharAbsent('?', f);
      CountCharAbsent('?', " is not null AND ");
      CountCharConcat('?', f, " is not null AND ");
      CountCharConcat('?', g, t);
      assert Clause(f, guarded) == g + t;
    }
  }

  lemma LikePlaceholder(f: string)
    requires '?' !in f
    ensures CountChar('?', f + " like ?") == 1
  {
    var t := f + " like ?";
    CountCharAbsent('?', f + " like ");
    assert t == (f + " like ") + "?";
    assert t[..|t| - 1] == f + " like ";
  }

  lemma {:induction false} TreeBalanced(c: Cond)
    requires PlainTree(c)
    ensures Balanced(Sql(c))
  {
    match c
    case NoCond =>
    case Like(f, _, g) => ClausePlaceholders(f, g);
    case Conj(l, r) => TreeBalanced(l); TreeBalanced(r); BalancePreserved(Sql(l), Sql(r));
    case Disj(l, r) => TreeBalanced(l); TreeBalanced(r); BalancePreserved(Sql(l), Sql(r));
    case Neg(a) => TreeBalanced(a); BalancePreserved(Sql(a), Sql(a));
  }

  lemma {:induction false} FieldsPlain(fields: seq<string>, kw: string, guarded: bool)
    requires PlainFields(fields)
    ensures PlainTree(FieldsTree(fields, kw, guarded))
    decreases |fields|
  {
    if |fields| > 0 {
      FieldsPlain(fields[..|fields| - 1], kw, guarded);
    }
  }

  lemma {:induction false} AllPlain(kws: seq<string>, fields: seq<string>, guarded: bool)
    requires PlainFields(fields)
    ensures PlainTree(AllTree(kws, fields, guarded))
    decreases |kws|
  {
    if |kws| > 0 {
      AllPlain(kws[..|kws| - 1], fields, guarded);
      FieldsPlain(fields, kws[|kws| - 1], guarded);
    }
  }

  lemma {:induction false} AnyPlain(kws: seq<string>, fields: seq<string>)
    requires PlainFields(fields)
    ensures PlainTree(AnyTree(kws, fields))
    decreases |kws|
  {
    if |kws| > 0 {
      AnyPlain(kws[..|kws| - 1], fields);
      FieldsPlain(fields, kws[|kws| - 1], false);
    }
  }

  /** With column names free of `?`, the condition has one placeholder per
      bound parameter. */
  lemma ConditionBalanced(kw: Keywords, fields: seq<string>)
    requires PlainFields(fields)
    ensures Balanced(ConditionOf(kw, fields))
  {
    AllPlain(kw.mandatory, fields, false);
    AllPlain(kw.negative, fields, true);
    AnyPlain(kw.optional, fields);
    assert PlainTree(Conj(NoCond, AllTree(kw.mandatory, fields, false)));
    TreeBalanced(ConditionTree(kw, fields));
    ConditionSql(kw, fields);
  }

  /** With optional keywords only, the condition is the optional group alone. */
  lemma OptionalOnly(kw: Keywords, fields: seq<string>)
    requires kw.mandatory == [] && kw.negative == []
    ensures ConditionOf(kw, fields) == AnyKeyword(kw.optional, fields)
  {
  }

  // ---------------------------------------------------------------------
  // What a row satisfies

  /** A row maps a column to its value, None standing for NULL. */
  type Row = string -> Option<string>

  /** The SQL meaning of a tree on one row; matches(v, kw) says whether the
      value v is LIKE '%kw%' for the database at hand. An empty fragment puts
      no constraint on the row, and the combinators drop it as `and`, `or`
      and `not` do. */
  function Eval(c: Cond, row: Row, matches: (string, string) -> bool): Tri {
    match c
    case NoCond => Yes
    case Like(f, kw, g) =>
      if row(f).None? then (if g then No else Unknown)
      else if matches(row(f).value, kw) then Yes else No
    case Conj(l, r) => TriAnd(Eval(l, row, matches), Eval(r, row, matches))
    case Disj(l, r) =>
      if Sql(l).Empty? then Eval(r, row, matches)
      else if Sql(r).Empty? then Eval(l, row, matches)
      else TriOr(Eval(l, row, matches), Eval(r, row, matches))
    case Neg(a) => if Sql(a).Empty? then Yes else TriNot(Eval(a, row, matches))
  }

  /** Some column of the row holds the keyword. */
  predicate Hit(fields: seq<string>, kw: string, row: Row, matches: (string, string) -> bool) {
    exists k :: 0 <= k < |fields| && row(fields[k]).Some? && matches(row(fields[k]).value, kw)
  }

  /** Hit, checked column by column in the order of the folds. */
  predicate HitIn(fields: seq<string>, kw: string, row: Row, matches: (string, string) -> bool)
    decreases |fields|
  {
    var n := |fields| - 1;
    |fields| > 0 && (HitIn(fields[..n], kw, row, matches) || (row(fields[n]).Some? && matches(row(fields[n]).value, kw)))
  }

  predicate AllHit(kws: seq<string>, fields: seq<string>, row: Row, matches: (string, string) -> bool)
    decreases |kws|
  {
    |kws| == 0 || (AllHit(kws[..|kws| - 1], fields, row, matches) && HitIn(fields, kws[|kws| - 1], row, matches))
  }

  predicate AnyHit(kws: seq<string>, fields: seq<string>, row: Row, matches: (string, string) -> bool)
    decreases |kws|
  {
    |kws| > 0 && (AnyHit(kws[..|kws| - 1], fields, row, matches) || HitIn(fields, kws[|kws| - 1], row, matches))
  }

  lemma {:induction false} HitInIsHit(fields: seq<string>, kw: string, row: Row, matches: (string, string) -> bool)
    ensures HitIn(fields, kw, row, matches) <==> Hit(fields, kw, row, matches)
    decreases |fields|
  {
    if |fields| > 0 {
      var n := |fields| - 1;
      var init := fields[..n];
      HitInIsHit(init, kw, row, matches);
      if Hit(fields, kw, row, matches) {
        var k :| 0 <= k < |fields| && row(fields[k]).Some? && matches(row(fields[k]).value, kw);
        if k < n {
          assert init[k] == fields[k];
        }
      }
      if Hit(init, kw, row, matches) {
        var k :| 0 <= k < |init| && row(init[k]).Some? && matches(row(init[k]).value, kw);
        assert fields[k] == init[k];
      }
    }
  }

  lemma {:induction false} AllHitIsAll(kws: seq<string>, fields: seq<string>, row: Row, matches: (string, string) -> bool)
    ensures AllHit(kws, fields, row, matches) <==> forall k :: 0 <= k < |kws| ==> Hit(fields, kws[k], row, matches)
    decreases |kws|
  {
    if |kws| > 0 {
      var n := |kws| - 1;
      var init := kws[..n];
      AllHitIsAll(init, fields, row, matches);
      HitInIsHit(fields, kws[n], row, matches);
      if AllHit(kws, fields, row, matches) {
        forall k | 0 <= k < |kws| ensures Hit(fields, kws[k], row, matches) {
          if k < n {
            assert kws[k] == init[k];
          }
        }
      }
      if forall k :: 0 <= k < |kws| ==> Hit(fields, kws[k], row, matches) {
        forall k | 0 <= k < |init| ensures Hit(fields, init[k], row, matches) {
          assert init[k] == kws[k];
        }
      }
    }
  }

  lemma {:induction false} AnyHitIsAny(kws: seq<string>, fields: seq<string>, row: Row, matches: (string, string) -> bool)
    ensures AnyHit(kws, fields, row, matches) <==> exists k :: 0 <= k < |kws| && Hit(fields, kws[k], row, matches)
    decreases |kws|
  {
    if |kws| > 0 {
      var n := |kws| - 1;
      var init := kws[..n];
      AnyHitIsAny(init, fields, row, matches);
      HitInIsHit(fields, kws[n], row, matches);
      if exists k :: 0 <= k < |kws| && Hit(fields, kws[k], row, matches) {
        var k :| 0 <= k < |kws| && Hit(fields, kws[k], row, matches);
        if k < n {
          assert init[k] == kws[k];
        }
      }
      if exists k :: 0 <= k < |init| && Hit(fields, init[k], row, matches) {
        var k :| 0 <= k < |init| && Hit(fields, init[k], row, matches);
        assert kws[k] == init[k];
      }
    }
  }

  lemma {:induction false} FieldsMeaning(fields: seq<string>, kw: string, guarded: bool, row: Row, matches: (string, string) -> bool)
    requires |fields| > 0
    ensures Sql(FieldsTree(fields, kw, guarded)).Frag?
    ensures Eval(FieldsTree(fields, kw, guarded), row, matches) == Yes <==> HitIn(fields, kw, row, matches)
    ensures guarded ==> Eval(FieldsTree(fields, kw, guarded), row, matches) != Unknown
    decreases |fields|
  {
    var n := |fields| - 1;
    if n == 0 {
      assert fields[..n] == [];
    } else {
      FieldsMeaning(fields[..n], kw, guarded, row, matches);
    }
  }

  lemma {:induction false} AllMeaning(kws: seq<string>, fields: seq<string>, guarded: bool, row: Row, matches: (string, string) -> bool)
    requires |fields| > 0
    ensures Sql(AllTree(kws, fields, guarded)).Empty? <==> |kws| == 0
    ensures Eval(AllTree(kws, fields, guarded), row, matches) == Yes <==> AllHit(kws, fields, row, matches)
    ensures guarded ==> Eval(AllTree(kws, fields, guarded), row, matches) != Unknown
    decreases |kws|
  {
    if |kws| > 0 {
      var n := |kws| - 1;
      AllMeaning(kws[..n], fields, guarded, row, matches);
      FieldsMeaning(fields, kws[n], guarded, row, matches);
    }
  }

  lemma {:induction false} AnyMeaning(kws: seq<string>, fields: seq<string>, row: Row, matches: (string, string) -> bool)
    requires |fields| > 0
    ensures Sql(AnyTree(kws, fields)).Empty? <==> |kws| == 0
    ensures |kws| > 0 ==> (Eval(AnyTree(kws, fields), row, matches) == Yes <==> AnyHit(kws, fields, row, matches))
    decreases |kws|
  {
    if |kws| > 0 {
      var n := |kws| - 1;
      AnyMeaning(kws[..n], fields, row, matches);
      FieldsMeaning(fields, kws[n], false, row, matches);
    }
  }

  /** The rows a full-text condition selects: every mandatory keyword is in
      some column, NOT every negative keyword is (the negative group is one
      NOT over the AND of the negatives, so a row is dropped only when it holds
      all of them), and some optional keyword is, when there are any. The
      null guards make the negative group true or false, never unknown. */
  lemma Selects(kw: Keywords, fields: seq<string>, row: Row, matches: (string, string) -> bool)
    requires |fields| > 0
    ensures Eval(ConditionTree(kw, fields), row, matches) == Yes <==>
      (forall k :: 0 <= k < |kw.mandatory| ==> Hit(fields, kw.mandatory[k], row, matches))
      && (kw.negative == [] || exists k :: 0 <= k < |kw.negative| && !Hit(fields, kw.negative[k], row, matches))
      && (kw.optional == [] || exists k :: 0 <= k < |kw.optional| && Hit(fields, kw.optional[k], row, matches))
  {
    SelectsFolded(kw, fields, row, matches);
    AllHitIsAll(kw.mandatory, fields, row, matches);
    AllHitIsAll(kw.negative, fields, row, matches);
    AnyHitIsAny(kw.optional, fields, row, matches);
  }

  lemma SelectsFolded(kw: Keywords, fields: seq<string>, row: Row, matches: (string, string) -> bool)
    requires |fields| > 0
    ensures Eval(ConditionTree(kw, fields), row, matches) == Yes <==>
      AllHit(kw.mandatory, fields, row, matches)
      && (kw.negative == [] || !AllHit(kw.negative, fields, row, matches))
      && (kw.optional == [] || AnyHit(kw.optional, fields, row, matches))
  {
    var a := AllTree(kw.mandatory, fields, false);
    var n := AllTree(kw.negative, fields, true);
    var o := AnyTree(kw.optional, fields);
    EvalTree(a, n, o, row, matches);
    AllMeaning(kw.mandatory, fields, false, row, matches);
    AllMeaning(kw.negative, fields, true, row, matches);
    AnyMeaning(kw.optional, fields, row, matches);
  }

  /** The three groups of the tree are and-ed together. */
  lemma EvalTree(a: Cond, n: Cond, o: Cond, row: Row, matches: (string, string) -> bool)
    ensures var e := Eval(Conj(Conj(Conj(NoCond, a), Neg(n)), o), row, matches);
      e == Yes <==> (Eval(a, row, matches) == Yes && Eval(Neg(n), row, matches) == Yes && Eval(o, row, matches) == Yes)
    ensures Eval(Neg(n), row, matches) == if Sql(n).Empty? then Yes else TriNot(Eval(n, row, matches))
  {
    var c1 := Conj(NoCond, a);
    var c2 := Conj(c1, Neg(n));
    assert Eval(c1, row, matches) == TriAnd(Yes, Eval(a, row, matches));
    assert Eval(c2, row, matches) == TriAnd(Eval(c1, row, matches), Eval(Neg(n), row, matches));
    assert Eval(Conj(c2, o), row, matches) == TriAnd(Eval(c2, row, matches), Eval(o, row, matches));
  }

  /** Without columns the condition is empty and selects every row. */
  lemma NoFields(kw: Keywords, row: Row, matches: (string, string) -> bool)
    ensures ConditionOf(kw, []) == Empty
    ensures Eval(ConditionTree(kw, []), row, matches) == Yes
  {
    assert forall kws: seq<string>, g: bool :: Sql(AllTree(kws, [], g)) == AllKeywords(kws, [], g) by {
      forall kws: seq<string>, g: bool ensures Sql(AllTree(kws, [], g)) == AllKeywords(kws, [], g) {
        AllSql(kws, [], g);
      }
    }
    ConditionSql(kw, []);
    EmptyMeansYes(ConditionTree(kw, []), row, matches);
  }

  lemma {:induction false} EmptyMeansYes(c: Cond, row: Row, matches: (string, string) -> bool)
    requires Sql(c).Empty?
    ensures Eval(c, row, matches) == Yes
  {
    match c
    case NoCond =>
    case Like(_, _, _) =>
    case Conj(l, r) => EmptyMeansYes(l, row, matches); EmptyMeansYes(r, row, matches);
    case Disj(l, r) => EmptyMeansYes(r, row, matches);
    case Neg(a) =>
  }
}
