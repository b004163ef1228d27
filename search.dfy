/** SearchApi::Search::Base: a search class declares its model once and
    its search attributes one by one; a search instance holds a value per
    attribute and turns the attributes that are not ignored into find
    options through the model's bridge. */
module Search {
  import opened Values
  import opened SearchAttributes
  import opened Bridges

  /** A model class: its name and, when it responds to search_api_bridge,
      the bridge it answers. */
  datatype Model = Model(name: string, bridge: Option<Bridge>)

  /** An argument of model(...): a model class or any other value. */
  datatype ModelArg = ClassArg(m: Model) | ValueArg(v: Value)

  predicate IsOptionsArg(a: ModelArg) {
    a.ValueArg? && a.v.Hash?
  }

  predicate HasBridge(a: ModelArg) {
    a.ClassArg? && a.m.bridge.Some?
  }

  // ---------------------------------------------------------------------
  // The class side, as values

  /** The checks model(*args) makes before it sets the model: the model
      and the options its automatic attributes are built with. */
  function ModelChoice(current: Option<Model>, args: seq<ModelArg>): (r: Result<(Model, Value)>)
    requires |args| > 0
    ensures current.Some? ==> r == Err(Error(RuntimeError, "model is already set"))
    ensures r.Err? ==> r.error.kind == (if current.Some? then RuntimeError else ArgumentError)
    ensures r.Ok? <==> (current.None?
      && ((|args| == 1 && HasBridge(args[0])) || (|args| == 2 && HasBridge(args[0]) && IsOptionsArg(args[1]))))
    ensures r.Ok? ==> r.value.0 == args[0].m && r.value.0.bridge.Some?
    ensures r.Ok? && |args| == 2 ==> r.value.1 == args[1].v
    ensures r.Ok? && |args| == 1 ==> r.value.1 == Hash([])
  {
    if current.Some? then Err(Error(RuntimeError, "model is already set"))
    else
      var last := args[|args| - 1];
      var options := if IsOptionsArg(last) then last.v else Hash([]);
      var rest := if IsOptionsArg(last) then args[..|args| - 1] else args;
      if |rest| != 1 then Err(Error(ArgumentError, "Bad arguments for model"))
      else if !HasBridge(rest[0]) then Err(Error(ArgumentError, "doesn't respond to search_api_bridge"))
      else Ok((rest[0].m, options))
  }

  /** What one builder passed to search_accessor leaves: the declarations,
      the options Hash the builder was made with, and whether it raised. */
  datatype Step = Step(decls: Decls, shared: Options, outcome: Outcome)

  /** One builder: rewritten by the bridge once the model is set, then
      added. The builder starts with the entries of the options Hash it
      shares; edits made in place show in that Hash afterwards. */
  function AccessorStep(br: Option<Bridge>, d: Decls, shared: Options, name: Name, block: Option<Block>): (s: Step)
    ensures s.outcome.Fail? ==> s.decls == d
  {
    var rw := if br.Some? then RewriteOf(br.value, Builder(name, shared, block)) else Rewritten(shared, block, Pass);
    var inPlace := br.None? || EditsInPlace(br.value);
    if rw.outcome.Fail? then Step(d, if inPlace then rw.options else shared, rw.outcome)
    else
      var a := AddSearchAttribute(d, Builder(name, rw.options, rw.block));
      Step(a.decls, if inPlace then a.options else shared, a.outcome)
  }

  /** search_accessor(names..., options, &block): one builder per name,
      all of them holding the same options Hash, until one raises. */
  function Accessors(br: Option<Bridge>, d: Decls, shared: Options, names: seq<Name>, block: Option<Block>): (s: Step)
    decreases |names|
  {
    if |names| == 0 then Step(d, shared, Pass)
    else
      var s := AccessorStep(br, d, shared, names[0], block);
      if s.outcome.Fail? then s else Accessors(br, s.decls, s.shared, names[1..], block)
  }

  /** The names from i on: the builder of names[i], then the rest. */
  lemma AccessorsAt(br: Option<Bridge>, d: Decls, shared: Options, names: seq<Name>, i: nat, block: Option<Block>)
    requires i < |names|
    ensures Accessors(br, d, shared, names[i..], block) ==
      var s := AccessorStep(br, d, shared, names[i], block);
      if s.outcome.Fail? then s else Accessors(br, s.decls, s.shared, names[i + 1..], block)
  {
    assert names[i..][0] == names[i] && names[i..][1..] == names[i + 1..];
  }

  /** The automatic attributes: search_accessor(builder) for each builder,
      each holding its own options Hash, until one raises. */
  function AddBuilders(br: Bridge, d: Decls, bs: seq<Builder>): (s: Step)
    decreases |bs|
  {
    if |bs| == 0 then Step(d, map[], Pass)
    else
      var s := AccessorStep(Some(br), d, bs[0].options, bs[0].name, bs[0].block);
      if s.outcome.Fail? then s else AddBuilders(br, s.decls, bs[1..])
  }

  /** Every declared attribute has a default value and a writer. */
  predicate WellFormed(d: Decls) {
    forall n :: n in d.attributes ==> n in d.defaults && n in d.writers
  }

  // ---------------------------------------------------------------------
  // The search class

  class SearchClass {
    var model: Option<Model>
    var decls: Decls
    /** The before_find_options callbacks, in registration order. */
    var callbacks: seq<Callback>
    /** Instance methods written in the class body. */
    var methods: map<Name, Action>
    /** An instance before_find_options written in the class body. */
    var hook: Option<Action>

    ghost predicate Valid()
      reads this
    {
      (model.Some? ==> model.value.bridge.Some?) && WellFormed(decls)
    }

    /** The bridge rewrite_search_attribute_builder consults: none until
        the model is set. */
    function Bridge(): Option<Bridge>
      reads this
    {
      if model.Some? then model.value.bridge else None
    }

    constructor ()
      ensures model == None && decls == NoDecls() && callbacks == [] && methods == map[] && hook == None
      ensures Valid()
    {
      model := None;
      decls := NoDecls();
      callbacks := [];
      methods := map[];
      hook := None;
    }

    /** add_search_attribute(builder): the builder's options Hash receives
        its :default. */
    method AddSearchAttribute(b: SearchAttributeBuilder) returns (r: Outcome)
      modifies this, b.options
      ensures var a := SearchAttributes.AddSearchAttribute(old(decls), old(b.Snapshot()));
        decls == a.decls && b.options.entries == a.options && r == a.outcome
      ensures model == old(model) && callbacks == old(callbacks) && methods == old(methods) && hook == old(hook)
    {
      var a := SearchAttributes.AddSearchAttribute(decls, b.Snapshot());
      decls := a.decls;
      b.options.entries := a.options;
      r := a.outcome;
    }

    /** search_accessor(builder): the bridge rewrites the builder once the
        model is set, then the builder is added. */
    method SearchAccessorBuilder(b: SearchAttributeBuilder) returns (r: Outcome)
      requires Valid()
      modifies this, b, b.options
      ensures Valid()
      ensures var s := AccessorStep(old(Bridge()), old(decls), old(b.options.entries), b.name, old(b.block));
        decls == s.decls && old(b.options).entries == s.shared && r == s.outcome
      ensures model == old(model) && callbacks == old(callbacks) && methods == old(methods) && hook == old(hook)
    {
      ghost var shared := b.options;
      ghost var before := b.Snapshot();
      if model.Some? {
        r := RewriteSearchAttributeBuilder(model.value.bridge.value, b);
        if r.Fail? {
          return;
        }
      }
      r := AddSearchAttribute(b);
    }

    /** search_accessor(name, ..., options, &block): one builder per name,
        all holding the caller's options Hash. */
    method SearchAccessor(names: seq<Name>, options: OptionsHash, block: Option<Block>) returns (r: Outcome)
      requires Valid()
      modifies this, options
      ensures Valid()
      ensures var s := Accessors(old(Bridge()), old(decls), old(options.entries), names, block);
        decls == s.decls && options.entries == s.shared && r == s.outcome
      ensures model == old(model) && callbacks == old(callbacks) && methods == old(methods) && hook == old(hook)
    {
      var i := 0;
      r := Pass;
      while i < |names|
        invariant 0 <= i <= |names|
        invariant Valid() && r == Pass
        invariant model == old(model) && callbacks == old(callbacks) && methods == old(methods) && hook == old(hook)
        invariant Accessors(Bridge(), old(decls), old(options.entries), names, block)
          == Accessors(Bridge(), decls, options.entries, names[i..], block)
      {
        AccessorsAt(Bridge(), decls, options.entries, names, i, block);
        var b := new SearchAttributeBuilder(names[i], options, block);
        r := SearchAccessorBuilder(b);
        if r.Fail? {
          return;
        }
        i := i + 1;
      }
      assert names[i..] == [];
    }

    /** model(*args): without arguments, the model (nil until set);
        otherwise sets the model once and adds the bridge's automatic
        search attributes. The model stays set if one of them raises. */
    method Model(args: seq<ModelArg>) returns (m: Option<Model>, r: Outcome)
      requires Valid()
      modifies this
      ensures Valid()
      ensures |args| == 0 ==> m == old(model) && r == Pass && model == old(model) && decls == old(decls)
      ensures |args| > 0 ==> m == None
      ensures |args| > 0 && ModelChoice(old(model), args).Err? ==>
        r == Fail(ModelChoice(old(model), args).error) && model == old(model) && decls == old(decls)
      ensures |args| > 0 && ModelChoice(old(model), args).Ok? ==>
        var (chosen, options) := ModelChoice(old(model), args).value;
        var s := AddBuilders(chosen.bridge.value, old(decls), AutomaticBuilders(chosen.bridge.value, options));
        model == Some(chosen) && decls == s.decls && r == s.outcome
      ensures callbacks == old(callbacks) && methods == old(methods) && hook == old(hook)
    {
      if |args| == 0 {
        return model, Pass;
      }
      m := None;
      var c := ModelChoice(model, args);
      if c.Err? {
        return None, Fail(c.error);
      }
      var (chosen, options) := c.value;
      model := Some(chosen);
      var br := chosen.bridge.value;
      var bs := AutomaticBuilders(br, options);
      var i := 0;
      r := Pass;
      while i < |bs|
        invariant 0 <= i <= |bs|
        invariant Valid() && r == Pass && model == Some(chosen) && Bridge() == Some(br)
        invariant callbacks == old(callbacks) && methods == old(methods) && hook == old(hook)
        invariant AddBuilders(br, old(decls), bs) == AddBuilders(br, decls, bs[i..])
      {
        var h := new OptionsHash(bs[i].options);
        var b := new SearchAttributeBuilder(bs[i].name, h, bs[i].block);
        r := SearchAccessorBuilder(b);
        if r.Fail? {
          return;
        }
        i := i + 1;
      }
    }

    /** def find_options_for_x ... in the class body. */
    method DefineFindOptions(name: Name, body: Block)
      modifies this
      ensures decls == old(decls).(finders := old(decls).finders[name := UserDefined(body)])
      ensures model == old(model) && callbacks == old(callbacks) && methods == old(methods) && hook == old(hook)
      ensures old(Valid()) ==> Valid()
    {
      decls := decls.(finders := decls.finders[name := UserDefined(body)]);
    }

    /** def name ... in the class body: an instance method a Symbol
        callback can name. */
    method DefineMethod(name: Name, body: Action)
      modifies this
      ensures methods == old(methods)[name := body]
      ensures model == old(model) && decls == old(decls) && callbacks == old(callbacks) && hook == old(hook)
    {
      methods := methods[name := body];
    }

    /** def before_find_options ... in the class body. */
    method DefineHook(body: Action)
      modifies this
      ensures hook == Some(body)
      ensures model == old(model) && decls == old(decls) && callbacks == old(callbacks) && methods == old(methods)
    {
      hook := Some(body);
    }
  }

  // ---------------------------------------------------------------------
  // Search instances, as values

  /** send("x=", v): the writer of a declared attribute; NoMethodError for
      any other name. */
  function SetValue(d: Decls, vs: Attrs, name: Name, v: Value): (r: Result<Attrs>)
    ensures name !in d.writers ==> r.Err? && r.error.kind == NoMethodError
    ensures name in d.writers ==> (r.Ok? <==> Write(d.writers[name], v).Ok?)
    ensures r.Ok? ==> (r.value.Keys == vs.Keys + {name}
      && (forall n :: n in vs && n != name ==> r.value[n] == vs[n])
      && r.value[name] == Write(d.writers[name], v).value)
    ensures r.Ok? && (v == Ignored || d.writers[name].Direct?) ==> Get(r.value, name) == v
  {
    if name !in d.writers then Err(Error(NoMethodError, "undefined method `" + name + "='"))
    else
      var w := Write(d.writers[name], v);
      if w.Err? then Err(w.error) else Ok(vs[name := w.value])
  }

  /** The attribute values after a sequence of writes, and whether one
      raised (the writes before it stay done). */
  datatype Assigned = Assigned(values: Attrs, outcome: Outcome)

  function Writes(d: Decls, vs: Attrs, ws: seq<(Name, Value)>): (r: Assigned)
    decreases |ws|
  {
    if |ws| == 0 then Assigned(vs, Pass)
    else
      var s := SetValue(d, vs, ws[0].0, ws[0].1);
      if s.Err? then Assigned(vs, Fail(s.error)) else Writes(d, s.value, ws[1..])
  }

  /** The writes attributes=(hash) makes: one per entry, the key turned
      into a method name by interpolation. */
  function Named(es: seq<(Value, Value)>): (r: seq<(Name, Value)>)
    ensures |r| == |es|
    ensures forall k :: 0 <= k < |es| ==> r[k] == (ToS(es[k].0), es[k].1)
  {
    seq(|es|, k requires 0 <= k < |es| => (ToS(es[k].0), es[k].1))
  }

  /** attributes=(hash) */
  function AssignAll(d: Decls, vs: Attrs, es: seq<(Value, Value)>): Assigned {
    Writes(d, vs, Named(es))
  }

  predicate HasKey(es: seq<(Value, Value)>, key: Value) {
    exists k :: 0 <= k < |es| && es[k].0 == key
  }

  function DefaultAt(defaults: map<Name, Value>, n: Name): Value {
    if n in defaults then defaults[n] else Nil
  }

  /** One step of the inject of initialize: a declared attribute that the
      Hash has under neither its Symbol nor its String key is appended
      with its default value. */
  function WithDefault(acc: seq<(Value, Value)>, n: Name, defaults: map<Name, Value>): (r: seq<(Value, Value)>)
    ensures |acc| <= |r| && r[..|acc|] == acc
  {
    if HasKey(acc, Sym(n)) || HasKey(acc, Str(n)) then acc else acc + [(Sym(n), DefaultAt(defaults, n))]
  }

  function WithDefaults(names: seq<Name>, defaults: map<Name, Value>, acc: seq<(Value, Value)>): (r: seq<(Value, Value)>)
    decreases |names|
    ensures |acc| <= |r| && r[..|acc|] == acc
  {
    if |names| == 0 then acc else WithDefaults(names[1..], defaults, WithDefault(acc, names[0], defaults))
  }

  lemma HasKeyPrefix(a: seq<(Value, Value)>, r: seq<(Value, Value)>, key: Value)
    requires |a| <= |r| && r[..|a|] == a
    ensures HasKey(a, key) ==> HasKey(r, key)
  {
    if HasKey(a, key) {
      var k :| 0 <= k < |a| && a[k].0 == key;
      assert r[k] == a[k];
    }
  }

  /** An entry the inject appended: a declared attribute under its Symbol,
      with its default, absent from the Hash it started from. */
  predicate Appended(e: (Value, Value), names: seq<Name>, defaults: map<Name, Value>, acc: seq<(Value, Value)>) {
    e.0.Sym? && e.0.name in names && e.1 == DefaultAt(defaults, e.0.name)
    && !HasKey(acc, e.0) && !HasKey(acc, Str(e.0.name))
  }

  lemma {:induction false} WithDefaultsAppends(names: seq<Name>, defaults: map<Name, Value>, acc: seq<(Value, Value)>)
    ensures var r := WithDefaults(names, defaults, acc);
      forall k :: |acc| <= k < |r| ==> Appended(r[k], names, defaults, acc)
    decreases |names|
  {
    if |names| > 0 {
      var n := names[0];
      var acc' := WithDefault(acc, n, defaults);
      var r := WithDefaults(names, defaults, acc);
      assert r == WithDefaults(names[1..], defaults, acc');
      WithDefaultsAppends(names[1..], defaults, acc');
      forall k | |acc| <= k < |r|
        ensures Appended(r[k], names, defaults, acc)
      {
        if k < |acc'| {
          assert r[k] == acc'[k];
        } else {
          assert Appended(r[k], names[1..], defaults, acc');
          HasKeyPrefix(acc, acc', r[k].0);
          HasKeyPrefix(acc, acc', Str(r[k].0.name));
        }
      }
    }
  }

  lemma {:induction false} WithDefaultsDistinct(names: seq<Name>, defaults: map<Name, Value>, acc: seq<(Value, Value)>)
    ensures var r := WithDefaults(names, defaults, acc);
      forall k, j :: |acc| <= k < j < |r| ==> r[k].0 != r[j].0
    decreases |names|
  {
    if |names| > 0 {
      var n := names[0];
      var acc' := WithDefault(acc, n, defaults);
      var r := WithDefaults(names, defaults, acc);
      assert r == WithDefaults(names[1..], defaults, acc');
      WithDefaultsDistinct(names[1..], defaults, acc');
      WithDefaultsAppends(names[1..], defaults, acc');
      forall k, j | |acc| <= k < j < |r|
        ensures r[k].0 != r[j].0
      {
        if k < |acc'| {
          assert r[k] == acc'[k];
          assert k == |acc'| - 1;
          assert Appended(r[j], names[1..], defaults, acc');
        }
      }
    }
  }

  lemma {:induction false} WithDefaultsCovers(names: seq<Name>, defaults: map<Name, Value>, acc: seq<(Value, Value)>)
    ensures var r := WithDefaults(names, defaults, acc);
      forall n :: n in names ==> HasKey(r, Sym(n)) || HasKey(r, Str(n))
    decreases |names|
  {
    if |names| > 0 {
      var n := names[0];
      var acc' := WithDefault(acc, n, defaults);
      var r := WithDefaults(names, defaults, acc);
      assert r == WithDefaults(names[1..], defaults, acc');
      WithDefaultsCovers(names[1..], defaults, acc');
      if !(HasKey(acc, Sym(n)) || HasKey(acc, Str(n))) {
        assert acc'[|acc|].0 == Sym(n);
      }
      HasKeyPrefix(acc, acc', Sym(n));
      HasKeyPrefix(acc, acc', Str(n));
      HasKeyPrefix(acc', r, Sym(n));
      HasKeyPrefix(acc', r, Str(n));
    }
  }

  /** The Hash initialize assigns: the given one (nil meaning {}), then the
      defaults. */
  function InitialHash(d: Decls, given: Option<seq<(Value, Value)>>): seq<(Value, Value)> {
    WithDefaults(d.attributes, d.defaults, if given.Some? then given.value else [])
  }

  /** send(x), and so ignored?(x): NoMethodError unless x is declared. */
  function Reader(d: Decls, vs: Attrs, name: Name): (r: Result<Value>)
    ensures r.Ok? <==> name in d.writers
    ensures r.Ok? ==> r.value == Get(vs, name)
  {
    if name in d.writers then Ok(Get(vs, name)) else Err(Error(NoMethodError, "undefined method `" + name + "'"))
  }

  /** attributes: a Hash from each declared attribute to its value. */
  function AttributesOf(d: Decls, vs: Attrs): (r: Value)
    ensures r.Hash? && |r.entries| == |Dedup(d.attributes)|
    ensures forall k :: 0 <= k < |r.entries| ==> r.entries[k] == (Sym(Dedup(d.attributes)[k]), Get(vs, Dedup(d.attributes)[k]))
  {
    var names := Dedup(d.attributes);
    Hash(seq(|names|, k requires 0 <= k < |names| => (Sym(names[k]), Get(vs, names[k]))))
  }

  /** The attributes find_options keeps: those not ignored, in order. */
  function Active(names: seq<Name>, vs: Attrs): (r: seq<Name>)
    decreases |names|
    ensures forall n :: n in r <==> n in names && !IsIgnored(Get(vs, n))
    ensures |r| <= |names|
    ensures (forall n :: n in names ==> IsIgnored(Get(vs, n))) ==> r == []
  {
    if |names| == 0 then []
    else
      var r := Active(names[..|names| - 1], vs);
      var n := names[|names| - 1];
      if IsIgnored(Get(vs, n)) then r else r + [n]
  }

  /** find_options_for_x: {} for an ignored attribute whose method comes
      from a block, the block's answer otherwise; NoMethodError when the
      attribute has no such method. */
  function FindOptionsFor(d: Decls, vs: Attrs, name: Name): (r: Result<Value>)
    ensures r.Err? <==> name !in d.finders
    ensures r.Err? ==> r.error.kind == NoMethodError
    ensures name in d.finders && d.finders[name].Generated? ==>
      r == Ok(if IsIgnored(Get(vs, name)) then Hash([]) else d.finders[name].block(vs))
  {
    if name !in d.finders then Err(Error(NoMethodError, "undefined method `find_options_for_" + name + "'"))
    else
      var f := d.finders[name];
      if f.UserDefined? then Ok(f.body(vs))
      else if IsIgnored(Get(vs, name)) then Ok(Hash([]))
      else Ok(f.block(vs))
  }

  /** The index of the first name without a finder, or the length of the
      list when every name has one. */
  function FirstMissing(d: Decls, names: seq<Name>): (j: nat)
    decreases |names|
    ensures j <= |names|
    ensures forall i :: 0 <= i < j ==> names[i] in d.finders
    ensures j < |names| ==> names[j] !in d.finders
  {
    if |names| == 0 || names[0] !in d.finders then 0
    else
      var j := 1 + FirstMissing(d, names[1..]);
      assert forall i :: 1 <= i < j ==> names[i] == names[1..][i - 1];
      j
  }

  /** The map of find_options: the options of each attribute, in order,
      or the NoMethodError of the first attribute without a finder. */
  function CollectOptions(d: Decls, vs: Attrs, names: seq<Name>): (r: Result<seq<Value>>)
    decreases |names|
    ensures r.Ok? <==> forall n :: n in names ==> n in d.finders
    ensures r.Ok? ==> (|r.value| == |names|
      && forall k :: 0 <= k < |names| ==> Ok(r.value[k]) == FindOptionsFor(d, vs, names[k]))
    ensures r.Err? ==> r.error.kind == NoMethodError
    ensures r.Err? ==>
      && FirstMissing(d, names) < |names|
      && r.error == FindOptionsFor(d, vs, names[FirstMissing(d, names)]).error
  {
    if |names| == 0 then Ok([])
    else
      var o := FindOptionsFor(d, vs, names[0]);
      if o.Err? then Err(o.error)
      else
        var rest := CollectOptions(d, vs, names[1..]);
        if rest.Err? then
          assert names[1..][FirstMissing(d, names[1..])] == names[FirstMissing(d, names)];
          Err(rest.error)
        else Ok([o.value] + rest.value)
  }

  /** find_options: the options of the attributes that are not ignored,
      merged by the bridge. */
  function FindOptionsOf(br: Bridge, d: Decls, vs: Attrs): (r: Result<Value>)
    ensures (forall n :: n in d.attributes ==> IsIgnored(Get(vs, n))) ==> r == MergeFindOptions(br, [])
    ensures var active := Active(d.attributes, vs); var j := FirstMissing(d, active);
      j < |active| ==> r.Err? && r.error.kind == NoMethodError && r.error == FindOptionsFor(d, vs, active[j]).error
    ensures var active := Active(d.attributes, vs);
      FirstMissing(d, active) == |active| ==>
        exists list: seq<Value> ::
          && |list| == |active|
          && (forall k :: 0 <= k < |list| ==> Ok(list[k]) == FindOptionsFor(d, vs, active[k]))
          && r == MergeFindOptions(br, list)
  {
    var list := CollectOptions(d, vs, Active(d.attributes, vs));
    if list.Err? then Err(list.error) else MergeFindOptions(br, list.value)
  }

  // ---------------------------------------------------------------------
  // Search instances

  class SearchInstance {
    const cls: SearchClass
    var values: Attrs

    constructor (cls: SearchClass)
      ensures this.cls == cls && values == map[]
    {
      this.cls := cls;
      values := map[];
    }

    /** send("x=", v) */
    method SetAttribute(name: Name, v: Value) returns (r: Outcome)
      modifies this
      ensures var a := SetValue(cls.decls, old(values), name, v);
        (a.Ok? ==> values == a.value && r == Pass) && (a.Err? ==> values == old(values) && r == Fail(a.error))
    {
      var a := SetValue(cls.decls, values, name, v);
      if a.Err? {
        return Fail(a.error);
      }
      values := a.value;
      r := Pass;
    }

    /** A sequence of writer calls, up to the first that raises. */
    method ApplyWrites(ws: seq<(Name, Value)>) returns (r: Outcome)
      modifies this
      ensures var a := Writes(cls.decls, old(values), ws); values == a.values && r == a.outcome
    {
      var i := 0;
      while i < |ws|
        invariant 0 <= i <= |ws|
        invariant Writes(cls.decls, old(values), ws) == Writes(cls.decls, values, ws[i..])
      {
        r := SetAttribute(ws[i].0, ws[i].1);
        if r.Fail? {
          return;
        }
        i := i + 1;
      }
      r := Pass;
    }

    /** attributes=(hash): the writer of each key in turn. */
    method SetAttributes(es: seq<(Value, Value)>) returns (r: Outcome)
      modifies this
      ensures var a := AssignAll(cls.decls, old(values), es); values == a.values && r == a.outcome
    {
      r := ApplyWrites(Named(es));
    }

    /** initialize(attributes = nil): raises without a model, then
        assigns the given Hash completed with the defaults. */
    method Initialize(given: Option<seq<(Value, Value)>>) returns (r: Outcome)
      modifies this
      ensures cls.model.None? ==> r == Fail(Error(RuntimeError, "Can't create an instance without model")) && values == old(values)
      ensures cls.model.Some? ==>
        var a := AssignAll(cls.decls, old(values), InitialHash(cls.decls, given)); values == a.values && r == a.outcome
    {
      if cls.model.None? {
        return Fail(Error(RuntimeError, "Can't create an instance without model"));
      }
      r := SetAttributes(InitialHash(cls.decls, given));
    }

    /** ignore!(x): the sentinel, stored uncoerced. */
    method IgnoreBang(name: Name) returns (r: Outcome)
      modifies this
      ensures name in cls.decls.writers ==> r == Pass && values == old(values)[name := Ignored]
      ensures name !in cls.decls.writers ==> r.Fail? && r.error.kind == NoMethodError && values == old(values)
    {
      r := SetAttribute(name, Ignored);
    }
  }

  // ---------------------------------------------------------------------
  // What a search instance promises

  /** Writing a sequence in two parts: the second part runs from where the
      first left off, unless the first raised. */
  lemma {:induction false} WritesConcat(d: Decls, vs: Attrs, p: seq<(Name, Value)>, q: seq<(Name, Value)>)
    ensures Writes(d, vs, p + q) ==
      (var a := Writes(d, vs, p); if a.outcome.Fail? then a else Writes(d, a.values, q))
    decreases |p|
  {
    if |p| == 0 {
      assert p + q == q;
    } else {
      assert (p + q)[0] == p[0];
      assert (p + q)[1..] == p[1..] + q;
      var s := SetValue(d, vs, p[0].0, p[0].1);
      if s.Ok? {
        WritesConcat(d, s.value, p[1..], q);
      }
    }
  }

  /** An attribute no write names keeps its value. */
  lemma {:induction false} WritesUntouched(d: Decls, vs: Attrs, ws: seq<(Name, Value)>, n: Name)
    requires forall k :: 0 <= k < |ws| ==> ws[k].0 != n
    ensures Get(Writes(d, vs, ws).values, n) == Get(vs, n)
    decreases |ws|
  {
    if |ws| > 0 {
      var s := SetValue(d, vs, ws[0].0, ws[0].1);
      if s.Ok? {
        WritesUntouched(d, s.value, ws[1..], n);
      }
    }
  }

  /** An attribute written exactly once, by writes that all succeed, holds
      what its writer stored. */
  lemma WritesOnce(d: Decls, vs: Attrs, ws: seq<(Name, Value)>, k: nat)
    requires k < |ws|
    requires forall j :: 0 <= j < |ws| && j != k ==> ws[j].0 != ws[k].0
    requires Writes(d, vs, ws).outcome.Pass?
    ensures ws[k].0 in d.writers && Write(d.writers[ws[k].0], ws[k].1).Ok?
    ensures Get(Writes(d, vs, ws).values, ws[k].0) == Write(d.writers[ws[k].0], ws[k].1).value
  {
    var n := ws[k].0;
    var p, q := ws[..k], ws[k + 1..];
    assert ws == p + ([ws[k]] + q);
    WritesConcat(d, vs, p, [ws[k]] + q);
    var a := Writes(d, vs, p);
    assert a.outcome.Pass?;
    WritesConcat(d, a.values, [ws[k]], q);
    var s := SetValue(d, a.values, n, ws[k].1);
    assert s.Ok?;
    assert Writes(d, s.value, []) == Assigned(s.value, Pass);
    assert Writes(d, a.values, [ws[k]]) == Assigned(s.value, Pass);
    assert forall j :: 0 <= j < |q| ==> q[j] == ws[k + 1 + j];
    WritesUntouched(d, s.value, q, n);
  }

  /** A new search gives every declared attribute the caller supplies
      under no key its default value, stored through its writer; so an
      attribute without a default starts ignored. */
  lemma DefaultApplied(d: Decls, vs: Attrs, given: seq<(Value, Value)>, n: Name)
    requires WellFormed(d) && n in d.attributes
    requires forall k :: 0 <= k < |given| ==> ToS(given[k].0) != n
    requires AssignAll(d, vs, InitialHash(d, Some(given))).outcome.Pass?
    ensures Write(d.writers[n], d.defaults[n]).Ok?
    ensures Get(AssignAll(d, vs, InitialHash(d, Some(given))).values, n) == Write(d.writers[n], d.defaults[n]).value
    ensures d.defaults[n] == Ignored ==> Get(AssignAll(d, vs, InitialHash(d, Some(given))).values, n) == Ignored
  {
    var r := InitialHash(d, Some(given));
    var ws := Named(r);
    var k := DefaultEntry(d, given, r, n);
    assert ws[k] == (n, d.defaults[n]);
    assert forall j :: 0 <= j < |ws| && j != k ==> ws[j].0 != ws[k].0;
    WritesOnce(d, vs, ws, k);
  }

  /** The default of an attribute the caller did not give is the one entry
      of the initial Hash under its name. */
  lemma DefaultEntry(d: Decls, given: seq<(Value, Value)>, r: seq<(Value, Value)>, n: Name) returns (k: nat)
    requires WellFormed(d) && n in d.attributes
    requires forall i :: 0 <= i < |given| ==> ToS(given[i].0) != n
    requires r == InitialHash(d, Some(given))
    ensures k < |r| && ToS(r[k].0) == n && r[k].1 == d.defaults[n]
    ensures forall j :: 0 <= j < |r| && j != k ==> ToS(r[j].0) != n
  {
    WithDefaultsAppends(d.attributes, d.defaults, given);
    WithDefaultsCovers(d.attributes, d.defaults, given);
    assert r[..|given|] == given;
    assert HasKey(r, Sym(n)) || HasKey(r, Str(n));
    k :| 0 <= k < |r| && (r[k].0 == Sym(n) || r[k].0 == Str(n));
    assert k >= |given|;
    assert r[k].0 == Sym(n) && r[k].1 == d.defaults[n];
    DefaultUnique(d, given, r, n, k);
  }

  lemma DefaultUnique(d: Decls, given: seq<(Value, Value)>, r: seq<(Value, Value)>, n: Name, k: nat)
    requires forall i :: 0 <= i < |given| ==> ToS(given[i].0) != n
    requires r == InitialHash(d, Some(given))
    requires |given| <= k < |r| && r[k].0 == Sym(n)
    ensures forall j :: 0 <= j < |r| && j != k ==> ToS(r[j].0) != n
  {
    assert r == WithDefaults(d.attributes, d.defaults, given);
    WithDefaultsAppends(d.attributes, d.defaults, given);
    WithDefaultsDistinct(d.attributes, d.defaults, given);
    assert r[..|given|] == given;
    forall j | 0 <= j < |r| && j != k
      ensures ToS(r[j].0) != n
    {
      if j < |given| {
        assert r[j] == given[j];
      } else {
        assert Appended(r[j], d.attributes, d.defaults, given);
        if j < k {
          assert r[j].0 != r[k].0;
        } else {
          assert r[k].0 != r[j].0;
        }
      }
    }
  }

  lemma ActiveSnoc(names: seq<Name>, vs: Attrs)
    requires |names| > 0
    ensures var n := names[|names| - 1];
      Active(names, vs) == Active(names[..|names| - 1], vs) + (if IsIgnored(Get(vs, n)) then [] else [n])
  {
  }

  /** The filter of find_options keeps declaration order. */
  lemma {:induction false} ActiveConcat(p: seq<Name>, q: seq<Name>, vs: Attrs)
    ensures Active(p + q, vs) == Active(p, vs) + Active(q, vs)
    decreases |q|
  {
    if |q| == 0 {
      assert p + q == p;
    } else {
      var q', x := q[..|q| - 1], q[|q| - 1];
      var pq := p + q;
      assert pq[..|pq| - 1] == p + q' && pq[|pq| - 1] == x;
      ActiveConcat(p, q', vs);
      ActiveSnoc(pq, vs);
      ActiveSnoc(q, vs);
    }
  }

  /** The builders of one search_accessor call share their options Hash,
      and the ActiveRecord bridge consumes :operator from it in place: a
      builder after the first is left as it is. This is how the Ruby code
      behaves as written, not a deviation of the model: with
      `search_accessor :a, :b, :operator => :full_text` only :a is
      rewritten as a full-text attribute, and :b is declared with the
      options :a left behind. Whether the authors meant the siblings to share
      the rewrite cannot be told from the code, so the model keeps the
      aliasing and records its consequence here. */
  lemma SharedOperatorConsumed(ar: AR.ArModel, d: Decls, shared: Options, name: Name, next: Name, block: Option<Block>)
    ensures var s := AccessorStep(Some(ActiveRecord(ar)), d, shared, name, block);
      s.outcome.Pass? ==> ("operator" !in s.shared
        && RewriteOf(ActiveRecord(ar), Builder(next, s.shared, block)) == Rewritten(s.shared, block, Pass))
  {
    var s := AccessorStep(Some(ActiveRecord(ar)), d, shared, name, block);
    if s.outcome.Pass? {
      assert Fetch(s.shared, "operator") == Plain(Nil);
      assert s.shared - {"operator"} == s.shared;
    }
  }
}
