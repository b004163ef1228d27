/** merge_find_options of the ActiveRecord bridge: the find options every
    search attribute contributes, gathered under their keys and merged key
    by key into one options Hash for ActiveRecord::Base.find. */
module ActiveRecordMerge {
  import opened Values
  import opened ActiveRecordBridge
  import SF = SqlFragments

  /** VALID_FIND_OPTIONS */
  const ValidFindOptions: seq<Value> :=
    [Sym("conditions"), Sym("include"), Sym("joins"), Sym("order"), Sym("select"), Sym("group"), Sym("having")]

  /** validate_find_options: assert_valid_keys, which a non-Hash does not
      answer. */
  function ValidateFindOptions(v: Value): (r: Outcome)
    ensures r.Pass? <==> v.Hash? && forall k :: 0 <= k < |v.entries| ==> v.entries[k].0 in ValidFindOptions
    ensures r.Fail? ==> r.error.kind == (if v.Hash? then ArgumentError else NoMethodError)
  {
    if !v.Hash? then Fail(Error(NoMethodError, "undefined method `assert_valid_keys'"))
    else if forall k :: 0 <= k < |v.entries| ==> v.entries[k].0 in ValidFindOptions then Pass
    else Fail(Error(ArgumentError, "Unknown key(s)"))
  }

  /** all_options: for every find key, the values gathered under it. */
  type Gathered = map<Value, seq<Value>>

  function Under(all: Gathered, key: Value): seq<Value> {
    if key in all then all[key] else []
  }

  /** A value merge_find_options skips: blank, or empty. */
  predicate Skipped(v: Value) {
    Blank(v)
  }

  /** options.each: every value that is not skipped is appended under its key. */
  function AddEntries(all: Gathered, es: seq<(Value, Value)>): Gathered
    decreases |es|
  {
    if |es| == 0 then all
    else
      var a := AddEntries(all, es[..|es| - 1]);
      var e := es[|es| - 1];
      if Skipped(e.1) then a else a[e.0 := Under(a, e.0) + [e.1]]
  }

  /** The inject over options_array.compact: nil is dropped, every other
      options Hash is validated, then gathered; the first invalid one raises. */
  function Collect(list: seq<Value>): Result<Gathered>
    decreases |list|
  {
    if |list| == 0 then Ok(map[])
    else
      var r := Collect(list[..|list| - 1]);
      var o := list[|list| - 1];
      if r.Err? || o.Nil? then r
      else
        var valid := ValidateFindOptions(o);
        if valid.Fail? then Err(valid.error) else Ok(AddEntries(r.value, o.entries))
  }

  /** The gathering loop: all_options is filled in place, options Hash after
      options Hash, entry after entry. */
  method CollectFindOptions(list: seq<Value>) returns (r: Result<Gathered>)
    ensures r == Collect(list)
  {
    var all: Gathered := map[];
    var i := 0;
    while i < |list|
      invariant 0 <= i <= |list|
      invariant Collect(list[..i]) == Ok(all)
    {
      assert list[..i + 1][..i] == list[..i];
      var o := list[i];
      if !o.Nil? {
        var valid := ValidateFindOptions(o);
        if valid.Fail? {
          r := Err(valid.error);
          ErrorPersists(list, i + 1);
          return;
        }
        ghost var before := all;
        var j := 0;
        while j < |o.entries|
          invariant 0 <= j <= |o.entries|
          invariant AddEntries(before, o.entries[..j]) == all
        {
          assert o.entries[..j + 1][..j] == o.entries[..j];
          var key := o.entries[j].0;
          var value := o.entries[j].1;
          if !Skipped(value) {
            all := all[key := Under(all, key) + [value]];
          }
          j := j + 1;
        }
        assert o.entries[..j] == o.entries;
      }
      i := i + 1;
    }
    assert list[..i] == list;
    r := Ok(all);
  }

  /** An error raised while gathering a prefix is the error of the whole list. */
  lemma {:induction false} ErrorPersists(list: seq<Value>, k: nat)
    requires k <= |list| && Collect(list[..k]).Err?
    ensures Collect(list) == Collect(list[..k])
    decreases |list| - k
  {
    if k < |list| {
      assert list[..k + 1][..k] == list[..k];
      ErrorPersists(list, k + 1);
    } else {
      assert list[..k] == list;
    }
  }

  // ---------------------------------------------------------------------
  // The merged options

  /** The merged options, one field per key merge_find_options may write. */
  datatype Merged = Merged(
    conditions: Option<string>,
    includes: Option<seq<Value>>,
    joins: Option<string>,
    group: Option<string>,
    order: Option<string>,
    select: Option<string>)

  /** SqlFragment.sanitize of each value. */
  function Sanitized(ar: ArModel, vs: seq<Value>): (r: seq<string>)
    ensures |r| == |vs| && forall k :: 0 <= k < |vs| ==> r[k] == ar.sanitize(vs[k])
  {
    seq(|vs|, k requires 0 <= k < |vs| => ar.sanitize(vs[k]))
  }

  /** SqlFragment.sanitize(v) first builds SqlFragment.new(v), which asks
      v whether it is `empty?`: only nil, a String, an Array or a Hash
      answer. */
  predicate Sanitizes(vs: seq<Value>) {
    forall v :: v in vs ==> SF.FromValue(v).Ok?
  }

  /** The sanitize calls of a merge, value after value: the first value
      SqlFragment.new refuses raises its error. */
  function SanitizeEach(vs: seq<Value>): (r: Outcome)
    ensures r.Pass? <==> Sanitizes(vs)
    ensures r.Fail? ==> exists v :: v in vs && SF.FromValue(v).Err? && r.error == SF.FromValue(v).error
    decreases |vs|
  {
    if |vs| == 0 then Pass
    else if SF.FromValue(vs[0]).Err? then Fail(SF.FromValue(vs[0]).error)
    else
      assert vs == [vs[0]] + vs[1..];
      SanitizeEach(vs[1..])
  }

  /** Array(x) of each :include value. */
  function Arrays(vs: seq<Value>): (r: seq<seq<Value>>)
    ensures |r| == |vs| && forall k :: 0 <= k < |vs| ==> r[k] == ToArray(vs[k])
  {
    seq(|vs|, k requires 0 <= k < |vs| => ToArray(vs[k]))
  }

  /** The primary key a having clause groups by when no group is given. */
  function DefaultGroup(ar: ArModel): Value {
    Str(ar.tableName + "." + ar.primaryKey)
  }

  /** all_options[:group] = [table.pk] when there is a having and no group. */
  function WithDefaultGroup(ar: ArModel, all: Gathered): (r: Gathered)
    ensures Under(all, Sym("having")) != [] && Under(all, Sym("group")) == [] ==> Under(r, Sym("group")) == [DefaultGroup(ar)]
    ensures Under(all, Sym("having")) == [] || Under(all, Sym("group")) != [] ==> r == all
    ensures forall key :: key != Sym("group") ==> Under(r, key) == Under(all, key)
  {
    if Under(all, Sym("having")) != [] && Under(all, Sym("group")) == [] then all[Sym("group") := [DefaultGroup(ar)]]
    else all
  }

  /** "(" + fragments.uniq.join(") AND (") + ")" */
  function Conjunction(ar: ArModel, vs: seq<Value>): string {
    "(" + Join(Dedup(Sanitized(ar, vs)), ") AND (") + ")"
  }

  /** " HAVING (h1) AND (h2)", or nothing without a having. */
  function HavingClause(ar: ArModel, having: seq<Value>): string {
    if having == [] then "" else " HAVING " + Conjunction(ar, having)
  }

  /** groups.uniq.join(", "), then the having conditions. */
  function MergedGroup(ar: ArModel, groups: seq<Value>, having: seq<Value>): (r: Option<string>)
    ensures r.Some? <==> groups != []
    ensures |groups| == 1 ==> r == Some(ar.sanitize(groups[0]) + HavingClause(ar, having))
  {
    assert |groups| == 1 ==> Dedup(Sanitized(ar, groups)) == [ar.sanitize(groups[0])];
    if groups == [] then None
    else Some(Join(Dedup(Sanitized(ar, groups)), ", ") + HavingClause(ar, having))
  }

  /** The merge of the gathered values, key by key; a key with no value
      is left out. */
  function MergeGathered(ar: ArModel, all: Gathered): Merged {
    var conditions := Under(all, Sym("conditions"));
    var includes := Under(all, Sym("include"));
    var joins := Under(all, Sym("joins"));
    var groups := Under(all, Sym("group"));
    var having := Under(all, Sym("having"));
    var orders := Under(all, Sym("order"));
    var selects := Under(all, Sym("select"));
    var mergedJoins := if joins == [] then None else Some(Join(Dedup(Sanitized(ar, joins)), " "));
    Merged(
      if conditions == [] then None else Some(Conjunction(ar, conditions)),
      if includes == [] then None else Some(UnionAll(Arrays(includes))),
      mergedJoins,
      MergedGroup(ar, groups, having),
      if orders == [] then None else Some(Join(Sanitized(ar, orders), ", ")),
      if selects != [] then Some(Join(Dedup(Sanitized(ar, selects)), ", "))
      else if mergedJoins.Some? then Some("DISTINCT " + ar.tableName + ".*")
      else None)
  }

  /** The gathered values merge_find_options sanitizes, in the order it
      merges their keys: conditions, joins, group, the having conditions
      inside the group branch, order, select. */
  function ToSanitize(all: Gathered): seq<Value> {
    var groups := Under(all, Sym("group"));
    Under(all, Sym("conditions")) + Under(all, Sym("joins")) + groups
    + (if groups != [] then Under(all, Sym("having")) else [])
    + Under(all, Sym("order")) + Under(all, Sym("select"))
  }

  /** merge_find_options, up to the Hash it builds: the gathering may
      raise, then any of the sanitize calls. */
  function MergeOf(ar: ArModel, list: seq<Value>): Result<Merged> {
    var c := Collect(list);
    if c.Err? then Err(c.error)
    else
      var all := WithDefaultGroup(ar, c.value);
      var s := SanitizeEach(ToSanitize(all));
      if s.Fail? then Err(s.error) else Ok(MergeGathered(ar, all))
  }

  function Entry(key: string, v: Option<Value>): seq<(Value, Value)> {
    if v.Some? then [(Sym(key), v.value)] else []
  }

  function StrOf(s: Option<string>): Option<Value> {
    if s.Some? then Some(Str(s.value)) else None
  }

  /** The Hash merge_find_options returns, its keys in the order it writes them. */
  function ToHash(m: Merged): (r: Value)
    ensures r.Hash? && (r.entries == [] <==> m == Merged(None, None, None, None, None, None))
  {
    Hash(Entry("conditions", StrOf(m.conditions))
         + Entry("include", if m.includes.Some? then Some(List(m.includes.value)) else None)
         + Entry("joins", StrOf(m.joins))
         + Entry("group", StrOf(m.group))
         + Entry("order", StrOf(m.order))
         + Entry("select", StrOf(m.select)))
  }

  function Merge(ar: ArModel, list: seq<Value>): Result<Value> {
    var m := MergeOf(ar, list);
    if m.Err? then Err(m.error) else Ok(ToHash(m.value))
  }

  /** merge_find_options: gathers all_options in place, gives a having
      without a group its default group, then merges key by key. */
  method MergeFindOptions(ar: ArModel, list: seq<Value>) returns (r: Result<Value>)
    ensures r == Merge(ar, list)
  {
    var all := CollectFindOptions(list);
    if all.Err? {
      return Err(all.error);
    }
    var gathered := all.value;
    if Under(gathered, Sym("having")) != [] && Under(gathered, Sym("group")) == [] {
      gathered := gathered[Sym("group") := [DefaultGroup(ar)]];
    }
    var sanitized := SanitizeEach(ToSanitize(gathered));
    if sanitized.Fail? {
      return Err(sanitized.error);
    }
    r := Ok(ToHash(MergeGathered(ar, gathered)));
  }

  // ---------------------------------------------------------------------
  // What merge_find_options computes

  /** The values an options Hash holds under a key, in order, without the
      skipped ones. */
  function EntryValues(es: seq<(Value, Value)>, key: Value): seq<Value>
    decreases |es|
  {
    if |es| == 0 then []
    else
      var e := es[|es| - 1];
      EntryValues(es[..|es| - 1], key) + (if e.0 == key && !Skipped(e.1) then [e.1] else [])
  }

  /** The values the options Hashes of a list hold under a key, Hash after Hash. */
  function ValuesAt(list: seq<Value>, key: Value): seq<Value>
    decreases |list|
  {
    if |list| == 0 then []
    else
      var o := list[|list| - 1];
      ValuesAt(list[..|list| - 1], key) + (if o.Hash? then EntryValues(o.entries, key) else [])
  }

  /** Every element of the list is nil or a valid options Hash. */
  predicate AllValid(list: seq<Value>) {
    forall i :: 0 <= i < |list| ==> list[i].Nil? || ValidateFindOptions(list[i]).Pass?
  }

  /** The values of a list that merge_find_options sanitizes, key by key. */
  function SanitizedValues(list: seq<Value>): seq<Value> {
    ValuesAt(list, Sym("conditions")) + ValuesAt(list, Sym("joins")) + ValuesAt(list, Sym("group"))
    + ValuesAt(list, Sym("having")) + ValuesAt(list, Sym("order")) + ValuesAt(list, Sym("select"))
  }

  /** A list merge_find_options merges without raising: every element is
      valid, and SqlFragment.new accepts every value it sanitizes. */
  predicate Mergeable(list: seq<Value>) {
    AllValid(list) && Sanitizes(SanitizedValues(list))
  }

  /** The i-th element is the first one validate_find_options refuses. */
  predicate FirstRefused(list: seq<Value>, i: int) {
    0 <= i < |list| && !list[i].Nil? && ValidateFindOptions(list[i]).Fail? && AllValid(list[..i])
  }

  lemma {:induction false} AddEntriesUnder(all: Gathered, es: seq<(Value, Value)>, key: Value)
    ensures Under(AddEntries(all, es), key) == Under(all, key) + EntryValues(es, key)
    ensures key in AddEntries(all, es) <==> key in all || EntryValues(es, key) != []
    decreases |es|
  {
    if |es| > 0 {
      AddEntriesUnder(all, es[..|es| - 1], key);
    }
  }

  lemma AllValidSnoc(list: seq<Value>)
    requires |list| > 0
    ensures AllValid(list) <==> AllValid(list[..|list| - 1]) && (list[|list| - 1].Nil? || ValidateFindOptions(list[|list| - 1]).Pass?)
  {
    var n := |list| - 1;
    var init := list[..n];
    if AllValid(init) && (list[n].Nil? || ValidateFindOptions(list[n]).Pass?) {
      forall i | 0 <= i < |list| ensures list[i].Nil? || ValidateFindOptions(list[i]).Pass? {
        if i < n { assert list[i] == init[i]; }
      }
    }
  }

  /** Gathering fails exactly when some element is refused. */
  lemma {:induction false} CollectOk(list: seq<Value>)
    ensures Collect(list).Ok? <==> AllValid(list)
    decreases |list|
  {
    if |list| > 0 {
      CollectOk(list[..|list| - 1]);
      AllValidSnoc(list);
    }
  }

  /** The error raised is that of the first element refused. */
  lemma {:induction false} CollectError(list: seq<Value>)
    requires Collect(list).Err?
    ensures exists i :: FirstRefused(list, i) && Collect(list).error == ValidateFindOptions(list[i]).error
    decreases |list|
  {
    var n := |list| - 1;
    var init := list[..n];
    if Collect(init).Err? {
      CollectError(init);
      var i :| FirstRefused(init, i) && Collect(init).error == ValidateFindOptions(init[i]).error;
      assert init[..i] == list[..i];
      assert FirstRefused(list, i);
    } else {
      CollectOk(init);
      assert init == list[..n];
      assert FirstRefused(list, n);
    }
  }

  /** A successful gathering holds under each key exactly the values the
      list holds there, and no key with no value. */
  lemma {:induction false} CollectValues(list: seq<Value>, key: Value)
    requires Collect(list).Ok?
    ensures Under(Collect(list).value, key) == ValuesAt(list, key)
    ensures key in Collect(list).value ==> Collect(list).value[key] != []
    decreases |list|
  {
    if |list| > 0 {
      var n := |list| - 1;
      var o := list[n];
      CollectValues(list[..n], key);
      if !o.Nil? {
        AddEntriesUnder(Collect(list[..n]).value, o.entries, key);
      }
    }
  }

  /** What a valid list sanitizes is what its Hashes hold under the
      sanitized keys, and the default group, a String, besides. */
  lemma SanitizedGathered(ar: ArModel, list: seq<Value>)
    requires AllValid(list)
    ensures Collect(list).Ok?
    ensures var ts := ToSanitize(WithDefaultGroup(ar, Collect(list).value));
      (Sanitizes(ts) <==> Sanitizes(SanitizedValues(list)))
      && forall v :: v in ts && SF.FromValue(v).Err? ==> v in SanitizedValues(list)
  {
    CollectOk(list);
    var c := Collect(list).value;
    CollectValues(list, Sym("conditions"));
    CollectValues(list, Sym("joins"));
    CollectValues(list, Sym("group"));
    CollectValues(list, Sym("having"));
    CollectValues(list, Sym("order"));
    CollectValues(list, Sym("select"));
    assert SF.FromValue(DefaultGroup(ar)).Ok?;
  }

  /** merge_find_options raises exactly when some element is refused or
      some value it sanitizes is refused by SqlFragment.new: the error of
      the first refused element, an ArgumentError for a Hash with an
      unknown key and a NoMethodError for anything else that is not nil;
      past the validation, the NoMethodError of a sanitized value that is
      not nil, a String, an Array or a Hash. */
  lemma MergeFails(ar: ArModel, list: seq<Value>)
    ensures Merge(ar, list).Err? <==> !Mergeable(list)
    ensures !AllValid(list) ==> exists i :: FirstRefused(list, i) && Merge(ar, list).error == ValidateFindOptions(list[i]).error
    ensures AllValid(list) && Merge(ar, list).Err? ==>
      exists v :: v in SanitizedValues(list) && SF.FromValue(v).Err? && Merge(ar, list).error == SF.FromValue(v).error
  {
    CollectOk(list);
    if Collect(list).Err? {
      CollectError(list);
    } else {
      SanitizedGathered(ar, list);
    }
  }

  /** A mergeable list merges its gathered values. */
  lemma MergeableOk(ar: ArModel, list: seq<Value>)
    requires Mergeable(list)
    ensures Collect(list).Ok?
    ensures MergeOf(ar, list) == Ok(MergeGathered(ar, WithDefaultGroup(ar, Collect(list).value)))
  {
    SanitizedGathered(ar, list);
  }

  /** The gathered values of a valid list under a key, after the having
      default. */
  lemma GatheredValues(ar: ArModel, list: seq<Value>, key: Value)
    requires AllValid(list)
    ensures Collect(list).Ok?
    ensures key != Sym("group") ==> Under(WithDefaultGroup(ar, Collect(list).value), key) == ValuesAt(list, key)
  {
    CollectOk(list);
    CollectValues(list, key);
  }

  /** :conditions: present when some element holds conditions, and then
      the sanitized conditions, each kept once, joined with AND. */
  lemma MergeConditions(ar: ArModel, list: seq<Value>)
    requires Mergeable(list)
    ensures MergeOf(ar, list).Ok?
    ensures var m := MergeOf(ar, list).value; var vs := ValuesAt(list, Sym("conditions"));
      (m.conditions.Some? <==> vs != []) && (vs != [] ==> m.conditions == Some(Conjunction(ar, vs)))
  {
    MergeableOk(ar, list);
    GatheredValues(ar, list, Sym("conditions"));
  }

  /** :include: the set union of the Array(x) of every include, in the
      order elements are first seen. */
  lemma MergeIncludes(ar: ArModel, list: seq<Value>)
    requires Mergeable(list)
    ensures MergeOf(ar, list).Ok?
    ensures var m := MergeOf(ar, list).value; var vs := ValuesAt(list, Sym("include"));
      (m.includes.Some? <==> vs != []) && (vs != [] ==> m.includes == Some(Dedup(Flatten(Arrays(vs)))))
  {
    MergeableOk(ar, list);
    GatheredValues(ar, list, Sym("include"));
    UnionAllIsDedupFlatten(Arrays(ValuesAt(list, Sym("include"))));
  }

  /** :joins: the sanitized joins, each kept once, joined with a space. */
  lemma MergeJoins(ar: ArModel, list: seq<Value>)
    requires Mergeable(list)
    ensures MergeOf(ar, list).Ok?
    ensures var m := MergeOf(ar, list).value; var vs := ValuesAt(list, Sym("joins"));
      (m.joins.Some? <==> vs != []) && (vs != [] ==> m.joins == Some(Join(Dedup(Sanitized(ar, vs)), " ")))
  {
    MergeableOk(ar, list);
    GatheredValues(ar, list, Sym("joins"));
  }

  /** :order: the sanitized orders joined with a comma, repeats kept. */
  lemma MergeOrder(ar: ArModel, list: seq<Value>)
    requires Mergeable(list)
    ensures MergeOf(ar, list).Ok?
    ensures var m := MergeOf(ar, list).value; var vs := ValuesAt(list, Sym("order"));
      (m.order.Some? <==> vs != []) && (vs != [] ==> m.order == Some(Join(Sanitized(ar, vs), ", ")))
  {
    MergeableOk(ar, list);
    GatheredValues(ar, list, Sym("order"));
  }

  /** :group: present when some element holds a group or a having; a
      having without any group groups by the primary key; the having
      conditions, each kept once, follow joined with AND. */
  lemma MergeGroup(ar: ArModel, list: seq<Value>)
    requires Mergeable(list)
    ensures MergeOf(ar, list).Ok?
    ensures var m := MergeOf(ar, list).value;
      var gs := ValuesAt(list, Sym("group")); var hs := ValuesAt(list, Sym("having"));
      (m.group.Some? <==> gs != [] || hs != [])
      && m.group == MergedGroup(ar, if gs == [] && hs != [] then [DefaultGroup(ar)] else gs, hs)
  {
    MergeableOk(ar, list);
    GatheredValues(ar, list, Sym("having"));
    CollectValues(list, Sym("group"));
  }

  /** A having without any group groups by the primary key of the table. */
  lemma HavingWithoutGroup(ar: ArModel, list: seq<Value>)
    requires Mergeable(list)
    requires ValuesAt(list, Sym("group")) == [] && ValuesAt(list, Sym("having")) != []
    ensures MergeOf(ar, list).Ok?
    ensures MergeOf(ar, list).value.group
         == Some(ar.sanitize(DefaultGroup(ar)) + HavingClause(ar, ValuesAt(list, Sym("having"))))
  {
    MergeGroup(ar, list);
  }

  /** :select: the sanitized selects, each kept once, joined with a comma;
      with joins and no select, the columns of the model's own table only. */
  lemma MergeSelect(ar: ArModel, list: seq<Value>)
    requires Mergeable(list)
    ensures MergeOf(ar, list).Ok?
    ensures var m := MergeOf(ar, list).value;
      var ss := ValuesAt(list, Sym("select")); var js := ValuesAt(list, Sym("joins"));
      (m.select.Some? <==> ss != [] || js != [])
      && (ss != [] ==> m.select == Some(Join(Dedup(Sanitized(ar, ss)), ", ")))
      && (ss == [] && js != [] ==> m.select == Some("DISTINCT " + ar.tableName + ".*"))
  {
    MergeableOk(ar, list);
    GatheredValues(ar, list, Sym("select"));
    GatheredValues(ar, list, Sym("joins"));
  }

  /** A nil anywhere in the list changes nothing: options_array.compact. */
  lemma {:induction false} CollectSkipsNil(a: seq<Value>, b: seq<Value>)
    ensures Collect(a + [Nil] + b) == Collect(a + b)
    decreases |b|
  {
    if |b| == 0 {
      assert (a + [Nil] + b)[..|a|] == a;
      assert a + b == a;
    } else {
      var n := |b| - 1;
      CollectSkipsNil(a, b[..n]);
      assert (a + [Nil] + b)[..|a + [Nil] + b| - 1] == a + [Nil] + b[..n];
      assert (a + b)[..|a + b| - 1] == a + b[..n];
    }
  }

  lemma MergeSkipsNil(ar: ArModel, a: seq<Value>, b: seq<Value>)
    ensures Merge(ar, a + [Nil] + b) == Merge(ar, a + b)
  {
    CollectSkipsNil(a, b);
  }

  /** Nothing to merge gives the empty Hash. */
  lemma MergeNothing(ar: ArModel)
    ensures Merge(ar, []) == Ok(Hash([]))
    ensures Merge(ar, [Nil, Hash([])]) == Ok(Hash([]))
  {
    assert Collect([]) == Ok(map[]);
    var none := Merged(None, None, None, None, None, None);
    assert WithDefaultGroup(ar, map[]) == map[];
    assert MergeGathered(ar, map[]) == none;
    MergeSkipsNil(ar, [], [Hash([])]);
    assert [] + [Nil] + [Hash([])] == [Nil, Hash([])];
    assert [Hash([])][..0] == [];
    assert ValidateFindOptions(Hash([])) == Pass;
    assert AddEntries(map[], []) == map[];
    assert Collect([Hash([])]) == Ok(map[]);
  }

  lemma OneHashValues(k: Value, v: Value, key: Value)
    ensures ValuesAt([Hash([(k, v)])], key) == if k == key && !Skipped(v) then [v] else []
  {
    var list := [Hash([(k, v)])];
    assert list[..0] == [];
    assert [(k, v)][..0] == [];
    var r: seq<Value> := if k == key && !Skipped(v) then [v] else [];
    assert EntryValues([(k, v)], key) == [] + r == r;
    assert ValuesAt(list, key) == [] + r;
  }

  lemma OneConditionValid(c: Value)
    ensures AllValid([Hash([(Sym("conditions"), c)])])
  {
    var es := [(Sym("conditions"), c)];
    assert ValidFindOptions[0] == Sym("conditions");
    assert ValidateFindOptions(Hash(es)) == Pass;
  }

  lemma OneConditionMerged(ar: ArModel, c: Value)
    requires !Skipped(c) && SF.FromValue(c).Ok?
    ensures MergeOf(ar, [Hash([(Sym("conditions"), c)])]).Ok?
    ensures MergeOf(ar, [Hash([(Sym("conditions"), c)])]).value
         == Merged(Some(Conjunction(ar, [c])), None, None, None, None, None)
  {
    OneConditionFront(ar, c);
    OneConditionBack(ar, c);
  }

  /** One condition is a mergeable list. */
  lemma OneConditionMergeable(c: Value)
    requires !Skipped(c) && SF.FromValue(c).Ok?
    ensures Mergeable([Hash([(Sym("conditions"), c)])])
  {
    OneConditionValid(c);
    OneConditionSanitized(c);
  }

  lemma OneConditionFront(ar: ArModel, c: Value)
    requires !Skipped(c) && SF.FromValue(c).Ok?
    ensures MergeOf(ar, [Hash([(Sym("conditions"), c)])]).Ok?
    ensures var m := MergeOf(ar, [Hash([(Sym("conditions"), c)])]).value;
      m.conditions == Some(Conjunction(ar, [c])) && m.includes == None && m.joins == None
  {
    var list := [Hash([(Sym("conditions"), c)])];
    var k := Sym("conditions");
    OneConditionMergeable(c);
    OneHashValues(k, c, k);
    OneHashValues(k, c, Sym("include"));
    OneHashValues(k, c, Sym("joins"));
    MergeConditions(ar, list);
    MergeIncludes(ar, list);
    MergeJoins(ar, list);
  }

  lemma OneConditionBack(ar: ArModel, c: Value)
    requires !Skipped(c) && SF.FromValue(c).Ok?
    ensures MergeOf(ar, [Hash([(Sym("conditions"), c)])]).Ok?
    ensures var m := MergeOf(ar, [Hash([(Sym("conditions"), c)])]).value;
      m.group == None && m.order == None && m.select == None
  {
    var list := [Hash([(Sym("conditions"), c)])];
    var k := Sym("conditions");
    OneConditionMergeable(c);
    OneHashValues(k, c, Sym("joins"));
    OneHashValues(k, c, Sym("group"));
    OneHashValues(k, c, Sym("having"));
    OneHashValues(k, c, Sym("order"));
    OneHashValues(k, c, Sym("select"));
    MergeGroup(ar, list);
    MergeOrder(ar, list);
    MergeSelect(ar, list);
  }

  /** One condition is the one value sanitized, unless it is blank. */
  lemma OneConditionSanitized(c: Value)
    requires !Skipped(c)
    ensures SanitizedValues([Hash([(Sym("conditions"), c)])]) == [c]
  {
    var list := [Hash([(Sym("conditions"), c)])];
    var k := Sym("conditions");
    OneHashValues(k, c, k);
    OneHashValues(k, c, Sym("joins"));
    OneHashValues(k, c, Sym("group"));
    OneHashValues(k, c, Sym("having"));
    OneHashValues(k, c, Sym("order"));
    OneHashValues(k, c, Sym("select"));
    var e: seq<Value> := [];
    assert SanitizedValues(list) == [c] + e + e + e + e + e;
  }

  lemma ConjunctionOne(ar: ArModel, c: Value)
    ensures Conjunction(ar, [c]) == "(" + ar.sanitize(c) + ")"
  {
    var sc := ar.sanitize(c);
    assert Sanitized(ar, [c]) == [sc];
    assert Dedup([sc]) == [sc];
    assert Join([sc], ") AND (") == sc;
  }

  /** One condition: the Hash holds it sanitized and parenthesised, and
      nothing else; a condition SqlFragment.new refuses raises its error. */
  lemma OneCondition(ar: ArModel, c: Value)
    requires !Skipped(c)
    ensures Merge(ar, [Hash([(Sym("conditions"), c)])])
         == if SF.FromValue(c).Ok? then Ok(Hash([(Sym("conditions"), Str("(" + ar.sanitize(c) + ")"))]))
            else Err(SF.FromValue(c).error)
  {
    if SF.FromValue(c).Ok? {
      OneConditionMerged(ar, c);
      ConjunctionOne(ar, c);
      var e := Entry("conditions", Some(Str("(" + ar.sanitize(c) + ")")));
      assert e + [] + [] + [] + [] + [] == [(Sym("conditions"), Str("(" + ar.sanitize(c) + ")"))];
    } else {
      OneConditionRefused(ar, c);
    }
  }

  lemma OneConditionRefused(ar: ArModel, c: Value)
    requires !Skipped(c) && SF.FromValue(c).Err?
    ensures Merge(ar, [Hash([(Sym("conditions"), c)])]) == Err(SF.FromValue(c).error)
  {
    var list := [Hash([(Sym("conditions"), c)])];
    OneConditionValid(c);
    OneConditionSanitized(c);
    MergeFails(ar, list);
  }

  /** A Symbol order, as in `{:order => :name}`, passes validation and
      raises when it is sanitized: a Symbol has no `empty?`. */
  lemma SymbolOrderRaises(ar: ArModel, name: string)
    ensures Merge(ar, [Hash([(Sym("order"), Sym(name))])]).Err?
    ensures Merge(ar, [Hash([(Sym("order"), Sym(name))])]).error.kind == NoMethodError
  {
    var list := [Hash([(Sym("order"), Sym(name))])];
    SymbolOrderGathered(name, list);
    SanitizeRaises(ar, list, Sym(name));
  }

  /** A valid list raises a NoMethodError once one value it sanitizes is
      refused by SqlFragment.new. */
  lemma SanitizeRaises(ar: ArModel, list: seq<Value>, v: Value)
    requires AllValid(list) && v in SanitizedValues(list) && SF.FromValue(v).Err?
    ensures Merge(ar, list).Err? && Merge(ar, list).error.kind == NoMethodError
  {
    MergeFails(ar, list);
    RefusedKind(SanitizedValues(list), Merge(ar, list).error);
  }

  lemma SymbolOrderGathered(name: string, list: seq<Value>)
    requires list == [Hash([(Sym("order"), Sym(name))])]
    ensures AllValid(list) && Sym(name) in SanitizedValues(list)
  {
    var o := Sym("order");
    assert ValidFindOptions[3] == o;
    assert ValidateFindOptions(list[0]) == Pass;
    OneHashValues(o, Sym(name), o);
    var vs := ValuesAt(list, o);
    assert vs == [Sym(name)];
  }

  /** SqlFragment.new refuses a value with a NoMethodError. */
  lemma RefusedKind(vs: seq<Value>, e: Error)
    requires exists v :: v in vs && SF.FromValue(v).Err? && e == SF.FromValue(v).error
    ensures e.kind == NoMethodError
  {
  }

  // ---------------------------------------------------------------------
  // Repeated options

  lemma {:induction false} ValuesAtConcat(a: seq<Value>, b: seq<Value>, key: Value)
    ensures ValuesAt(a + b, key) == ValuesAt(a, key) + ValuesAt(b, key)
    decreases |b|
  {
    if |b| == 0 {
      assert a + b == a;
    } else {
      var b', x := b[..|b| - 1], b[|b| - 1];
      assert b == b' + [x];
      ValuesAtConcat(a, b', key);
      ValuesAtConcatStep(a, b', x, key);
    }
  }

  lemma ValuesAtConcatStep(a: seq<Value>, b: seq<Value>, x: Value, key: Value)
    requires ValuesAt(a + b, key) == ValuesAt(a, key) + ValuesAt(b, key)
    ensures ValuesAt(a + (b + [x]), key) == ValuesAt(a, key) + ValuesAt(b + [x], key)
  {
    var ab, bx := a + b, b + [x];
    var tx := if x.Hash? then EntryValues(x.entries, key) else [];
    assert a + bx == ab + [x];
    ValuesAtSnoc(ab, x, key);
    ValuesAtSnoc(b, x, key);
    var va, vb := ValuesAt(a, key), ValuesAt(b, key);
    assert ValuesAt(a + bx, key) == (va + vb) + tx;
    assert (va + vb) + tx == va + (vb + tx);
  }

  lemma ValuesAtSnoc(list: seq<Value>, x: Value, key: Value)
    ensures ValuesAt(list + [x], key) == ValuesAt(list, key) + (if x.Hash? then EntryValues(x.entries, key) else [])
  {
    assert (list + [x])[..|list|] == list;
  }

  lemma AllValidTwice(list: seq<Value>)
    requires AllValid(list)
    ensures AllValid(list + list)
  {
    forall i | 0 <= i < |list + list| ensures (list + list)[i].Nil? || ValidateFindOptions((list + list)[i]).Pass? {
      if i >= |list| { assert (list + list)[i] == list[i - |list|]; }
    }
  }

  /** A list twice over sanitizes the same values twice over. */
  lemma MergeableTwice(list: seq<Value>)
    requires Mergeable(list)
    ensures Mergeable(list + list)
  {
    AllValidTwice(list);
    ValuesAtConcat(list, list, Sym("conditions"));
    ValuesAtConcat(list, list, Sym("joins"));
    ValuesAtConcat(list, list, Sym("group"));
    ValuesAtConcat(list, list, Sym("having"));
    ValuesAtConcat(list, list, Sym("order"));
    ValuesAtConcat(list, list, Sym("select"));
  }

  lemma SanitizedConcat(ar: ArModel, a: seq<Value>, b: seq<Value>)
    ensures Sanitized(ar, a + b) == Sanitized(ar, a) + Sanitized(ar, b)
  {
  }

  lemma SanitizedTwice(ar: ArModel, vs: seq<Value>)
    ensures Dedup(Sanitized(ar, vs + vs)) == Dedup(Sanitized(ar, vs))
  {
    SanitizedConcat(ar, vs, vs);
    DedupAbsorbs(Sanitized(ar, vs), Sanitized(ar, vs));
  }

  lemma IncludesTwice(vs: seq<Value>)
    ensures Dedup(Flatten(Arrays(vs + vs))) == Dedup(Flatten(Arrays(vs)))
  {
    assert Arrays(vs + vs) == Arrays(vs) + Arrays(vs);
    FlattenConcat(Arrays(vs), Arrays(vs));
    DedupAbsorbs(Flatten(Arrays(vs)), Flatten(Arrays(vs)));
  }

  lemma GroupTwice(ar: ArModel, gs: seq<Value>, hs: seq<Value>)
    ensures MergedGroup(ar, if gs + gs == [] && hs + hs != [] then [DefaultGroup(ar)] else gs + gs, hs + hs)
         == MergedGroup(ar, if gs == [] && hs != [] then [DefaultGroup(ar)] else gs, hs)
  {
    SanitizedTwice(ar, gs);
    SanitizedTwice(ar, hs);
    assert gs + gs == [] <==> gs == [];
    assert hs + hs == [] <==> hs == [];
    if gs == [] {
      assert gs + gs == gs;
    }
  }

  lemma ConditionsTwice(ar: ArModel, list: seq<Value>)
    requires Mergeable(list) && Mergeable(list + list)
    ensures MergeOf(ar, list).Ok? && MergeOf(ar, list + list).Ok?
    ensures MergeOf(ar, list + list).value.conditions == MergeOf(ar, list).value.conditions
  {
    MergeConditions(ar, list);
    MergeConditions(ar, list + list);
    ValuesAtConcat(list, list, Sym("conditions"));
    SanitizedTwice(ar, ValuesAt(list, Sym("conditions")));
  }

  lemma IncludesTwiceMerged(ar: ArModel, list: seq<Value>)
    requires Mergeable(list) && Mergeable(list + list)
    ensures MergeOf(ar, list).Ok? && MergeOf(ar, list + list).Ok?
    ensures MergeOf(ar, list + list).value.includes == MergeOf(ar, list).value.includes
  {
    MergeIncludes(ar, list);
    MergeIncludes(ar, list + list);
    ValuesAtConcat(list, list, Sym("include"));
    IncludesTwice(ValuesAt(list, Sym("include")));
  }

  lemma JoinsTwice(ar: ArModel, list: seq<Value>)
    requires Mergeable(list) && Mergeable(list + list)
    ensures MergeOf(ar, list).Ok? && MergeOf(ar, list + list).Ok?
    ensures MergeOf(ar, list + list).value.joins == MergeOf(ar, list).value.joins
  {
    MergeJoins(ar, list);
    MergeJoins(ar, list + list);
    ValuesAtConcat(list, list, Sym("joins"));
    SanitizedTwice(ar, ValuesAt(list, Sym("joins")));
  }

  lemma GroupTwiceMerged(ar: ArModel, list: seq<Value>)
    requires Mergeable(list) && Mergeable(list + list)
    ensures MergeOf(ar, list).Ok? && MergeOf(ar, list + list).Ok?
    ensures MergeOf(ar, list + list).value.group == MergeOf(ar, list).value.group
  {
    MergeGroup(ar, list);
    MergeGroup(ar, list + list);
    ValuesAtConcat(list, list, Sym("group"));
    ValuesAtConcat(list, list, Sym("having"));
    GroupTwice(ar, ValuesAt(list, Sym("group")), ValuesAt(list, Sym("having")));
  }

  lemma SelectTwice(ar: ArModel, list: seq<Value>)
    requires Mergeable(list) && Mergeable(list + list)
    ensures MergeOf(ar, list).Ok? && MergeOf(ar, list + list).Ok?
    ensures MergeOf(ar, list + list).value.select == MergeOf(ar, list).value.select
  {
    MergeSelect(ar, list);
    MergeSelect(ar, list + list);
    ValuesAtConcat(list, list, Sym("select"));
    ValuesAtConcat(list, list, Sym("joins"));
    SanitizedTwice(ar, ValuesAt(list, Sym("select")));
  }

  lemma OrderTwice(ar: ArModel, list: seq<Value>)
    requires Mergeable(list) && Mergeable(list + list)
    ensures MergeOf(ar, list).Ok? && MergeOf(ar, list + list).Ok?
    ensures var os := Sanitized(ar, ValuesAt(list, Sym("order")));
      (MergeOf(ar, list).value.order.None? <==> MergeOf(ar, list + list).value.order.None?)
      && (MergeOf(ar, list).value.order.Some? ==> MergeOf(ar, list + list).value.order == Some(Join(os + os, ", ")))
  {
    MergeOrder(ar, list);
    MergeOrder(ar, list + list);
    ValuesAtConcat(list, list, Sym("order"));
    SanitizedConcat(ar, ValuesAt(list, Sym("order")), ValuesAt(list, Sym("order")));
  }

  /** Merging every options Hash a second time changes no key but :order,
      where the orders repeat: conditions, joins, groups, havings and
      selects are kept once, and :include is a set union. */
  lemma MergeTwice(ar: ArModel, list: seq<Value>)
    requires Mergeable(list)
    ensures MergeOf(ar, list).Ok? && MergeOf(ar, list + list).Ok?
    ensures var m := MergeOf(ar, list).value; var m2 := MergeOf(ar, list + list).value;
      var os := Sanitized(ar, ValuesAt(list, Sym("order")));
      m2.conditions == m.conditions && m2.includes == m.includes && m2.joins == m.joins
      && m2.group == m.group && m2.select == m.select
      && (m.order.None? <==> m2.order.None?)
      && (m.order.Some? ==> m2.order == Some(Join(os + os, ", ")))
  {
    MergeableTwice(list);
    ConditionsTwice(ar, list);
    IncludesTwiceMerged(ar, list);
    JoinsTwice(ar, list);
    GroupTwiceMerged(ar, list);
    SelectTwice(ar, list);
    OrderTwice(ar, list);
  }
}
