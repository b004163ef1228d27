/** SearchApi::Search::Callbacks: the before_find_options callbacks a
    search class registers run, in order, on the search before its find
    options are computed. They may change its attributes; the first that
    answers false stops the chain, and the chain's answer never stops
    find_options. */
module Callbacks {
  import opened Values
  import opened SearchAttributes
  import opened Bridges
  import opened Search

  /** What running user code on a search leaves: the attribute values,
      whether it raised, and what it answered. */
  datatype Ran = Ran(values: Attrs, outcome: Outcome, result: Value)

  /** User code run on a search: its writes go through the writers, and a
      writer that raises ends it. */
  function Run(d: Decls, vs: Attrs, action: Action): (r: Ran)
    ensures r.outcome.Pass? ==> r.result == action(vs).result
  {
    var e := action(vs);
    var w := Writes(d, vs, e.writes);
    Ran(w.values, w.outcome, if w.outcome.Pass? then e.result else Nil)
  }

  const BadCallback: string := "Callbacks must be a symbol denoting the method to call, a string to be evaluated, a block to be invoked, or an object responding to the callback method."

  /** One callback, dispatched on its kind: a Symbol sends that message to
      the search (an instance method, else an attribute reader), a String
      or a proc runs, and any other object must respond to
      before_find_options. */
  function Dispatch(d: Decls, methods: map<Name, Action>, vs: Attrs, cb: Callback): (r: Ran)
    ensures cb == Object(None) ==> r.outcome.Fail? && r.outcome.error.kind == SearchApiError && r.values == vs
    ensures cb.MethodName? && cb.name !in methods && cb.name !in d.writers ==>
      r.outcome.Fail? && r.outcome.error.kind == NoMethodError && r.values == vs
    ensures cb.MethodName? && cb.name !in methods && cb.name in d.writers ==> r == Ran(vs, Pass, Get(vs, cb.name))
  {
    match cb
    case MethodName(n) =>
      if n in methods then Run(d, vs, methods[n])
      else if n in d.writers then Ran(vs, Pass, Get(vs, n))
      else Ran(vs, Fail(Error(NoMethodError, "undefined method `" + n + "'")), Nil)
    case Code(run) => Run(d, vs, run)
    case Call(run) => Run(d, vs, run)
    case Object(handler) =>
      if handler.Some? then Run(d, vs, handler.value)
      else Ran(vs, Fail(Error(SearchApiError, BadCallback)), Nil)
  }

  /** The loop of callback: the values it leaves, whether a callback
      raised, and whether one answered exactly false. */
  datatype Walked = Walked(values: Attrs, outcome: Outcome, stopped: bool)

  predicate Completed(w: Walked) {
    w.outcome.Pass? && !w.stopped
  }

  function Walk(d: Decls, methods: map<Name, Action>, vs: Attrs, cbs: seq<Callback>): (w: Walked)
    decreases |cbs|
    ensures w.stopped ==> w.outcome.Pass?
    ensures cbs == [] ==> w == Walked(vs, Pass, false)
  {
    if |cbs| == 0 then Walked(vs, Pass, false)
    else
      var r := Dispatch(d, methods, vs, cbs[0]);
      if r.outcome.Fail? then Walked(r.values, r.outcome, false)
      else if r.result == Bool(false) then Walked(r.values, Pass, true)
      else Walk(d, methods, r.values, cbs[1..])
  }

  /** callback(:before_find_options): false when a callback answered
      false, otherwise what the instance's before_find_options answers
      (nil unless the class defines it). */
  function Chain(d: Decls, methods: map<Name, Action>, hook: Option<Action>, vs: Attrs, cbs: seq<Callback>): (r: Ran)
    ensures var w := Walk(d, methods, vs, cbs);
      (w.outcome.Fail? ==> r.outcome == w.outcome && r.values == w.values)
      && (w.stopped ==> r == Ran(w.values, Pass, Bool(false)))
      && (Completed(w) && hook.None? ==> r == Ran(w.values, Pass, Nil))
      && (Completed(w) && hook.Some? ==> r == Run(d, w.values, hook.value))
  {
    var w := Walk(d, methods, vs, cbs);
    if w.outcome.Fail? then Ran(w.values, w.outcome, Nil)
    else if w.stopped then Ran(w.values, Pass, Bool(false))
    else if hook.Some? then Run(d, w.values, hook.value)
    else Ran(w.values, Pass, Nil)
  }

  /** find_options_with_callbacks: the callbacks, then find_options on
      the values they leave, whatever the chain answered. */
  function WithCallbacks(br: Bridge, d: Decls, methods: map<Name, Action>, hook: Option<Action>, cbs: seq<Callback>, vs: Attrs): (r: Result<Value>)
    ensures var c := Chain(d, methods, hook, vs, cbs);
      (c.outcome.Fail? ==> r == Err(c.outcome.error))
      && (c.outcome.Pass? ==> r == FindOptionsOf(br, d, c.values))
  {
    var c := Chain(d, methods, hook, vs, cbs);
    if c.outcome.Fail? then Err(c.outcome.error) else FindOptionsOf(br, d, c.values)
  }

  // ---------------------------------------------------------------------
  // The methods

  /** One callback run on the search object. */
  method DispatchOn(s: SearchInstance, cb: Callback) returns (result: Value, r: Outcome)
    modifies s
    ensures var c := Dispatch(s.cls.decls, s.cls.methods, old(s.values), cb);
      s.values == c.values && r == c.outcome && result == c.result
  {
    var action: Action;
    match cb {
      case MethodName(n) =>
        if n in s.cls.methods {
          action := s.cls.methods[n];
        } else if n in s.cls.decls.writers {
          return Get(s.values, n), Pass;
        } else {
          return Nil, Fail(Error(NoMethodError, "undefined method `" + n + "'"));
        }
      case Code(run) => action := run;
      case Call(run) => action := run;
      case Object(handler) =>
        if handler.None? {
          return Nil, Fail(Error(SearchApiError, BadCallback));
        }
        action := handler.value;
    }
    var e := action(s.values);
    r := s.ApplyWrites(e.writes);
    result := if r.Pass? then e.result else Nil;
  }

  /** callback(:before_find_options) on a search. */
  method Callback(s: SearchInstance) returns (result: Value, r: Outcome)
    modifies s
    ensures var c := Chain(s.cls.decls, s.cls.methods, s.cls.hook, old(s.values), s.cls.callbacks);
      s.values == c.values && r == c.outcome && result == c.result
  {
    var cbs := s.cls.callbacks;
    var i := 0;
    while i < |cbs|
      invariant 0 <= i <= |cbs|
      invariant Walk(s.cls.decls, s.cls.methods, old(s.values), cbs) == Walk(s.cls.decls, s.cls.methods, s.values, cbs[i..])
    {
      result, r := DispatchOn(s, cbs[i]);
      if r.Fail? {
        return Nil, r;
      }
      if result == Bool(false) {
        return result, Pass;
      }
      i := i + 1;
    }
    if s.cls.hook.Some? {
      var e := s.cls.hook.value(s.values);
      r := s.ApplyWrites(e.writes);
      result := if r.Pass? then e.result else Nil;
    } else {
      result, r := Nil, Pass;
    }
  }

  /** find_options_with_callbacks on a search, whose class has a model. */
  method FindOptionsWithCallbacks(s: SearchInstance) returns (r: Result<Value>)
    requires s.cls.Valid() && s.cls.model.Some?
    modifies s
    ensures var c := Chain(s.cls.decls, s.cls.methods, s.cls.hook, old(s.values), s.cls.callbacks);
      s.values == c.values
      && r == WithCallbacks(s.cls.model.value.bridge.value, s.cls.decls, s.cls.methods, s.cls.hook, s.cls.callbacks, old(s.values))
  {
    var _, outcome := Callback(s);
    if outcome.Fail? {
      return Err(outcome.error);
    }
    r := FindOptionsOf(s.cls.model.value.bridge.value, s.cls.decls, s.values);
  }

  /** The class method before_find_options(*callbacks, &block): the block,
      if any, after the listed callbacks, at the end of those registered. */
  method BeforeFindOptions(cls: SearchClass, cbs: seq<Callback>, block: Option<Action>)
    modifies cls
    ensures cls.callbacks == old(cls.callbacks) + cbs + (if block.Some? then [Call(block.value)] else [])
    ensures cls.model == old(cls.model) && cls.decls == old(cls.decls)
    ensures cls.methods == old(cls.methods) && cls.hook == old(cls.hook)
  {
    var added := if block.Some? then cbs + [Call(block.value)] else cbs;
    cls.callbacks := cls.callbacks + added;
  }

  // ---------------------------------------------------------------------
  // What the chain promises

  /** The callbacks run in order: a second list runs from where the first
      left off, and not at all once one raised or answered false. */
  lemma {:induction false} WalkConcat(d: Decls, methods: map<Name, Action>, vs: Attrs, p: seq<Callback>, q: seq<Callback>)
    ensures Walk(d, methods, vs, p + q) ==
      (var w := Walk(d, methods, vs, p); if Completed(w) then Walk(d, methods, w.values, q) else w)
    decreases |p|
  {
    if |p| == 0 {
      assert p + q == q;
    } else {
      assert (p + q)[0] == p[0];
      assert (p + q)[1..] == p[1..] + q;
      var r := Dispatch(d, methods, vs, p[0]);
      if r.outcome.Pass? && r.result != Bool(false) {
        WalkConcat(d, methods, r.values, p[1..], q);
      }
    }
  }

  /** The first callback answering exactly false ends the chain with
      false: the callbacks after it and the instance's hook do not run. */
  lemma StopsAtFalse(d: Decls, methods: map<Name, Action>, hook: Option<Action>, vs: Attrs,
                     p: seq<Callback>, cb: Callback, q: seq<Callback>)
    requires Completed(Walk(d, methods, vs, p))
    requires var c := Dispatch(d, methods, Walk(d, methods, vs, p).values, cb); c.outcome.Pass? && c.result == Bool(false)
    ensures Chain(d, methods, hook, vs, p + [cb] + q) ==
      Ran(Dispatch(d, methods, Walk(d, methods, vs, p).values, cb).values, Pass, Bool(false))
  {
    var w := Walk(d, methods, vs, p);
    WalkConcat(d, methods, vs, p, [cb] + q);
    assert p + [cb] + q == p + ([cb] + q);
    assert ([cb] + q)[0] == cb;
  }

  /** A callback of no known kind raises SearchApiError when the chain
      reaches it. */
  lemma BadCallbackRaises(d: Decls, methods: map<Name, Action>, hook: Option<Action>, vs: Attrs,
                          p: seq<Callback>, q: seq<Callback>)
    requires Completed(Walk(d, methods, vs, p))
    ensures var c := Chain(d, methods, hook, vs, p + [Object(None)] + q);
      c.outcome.Fail? && c.outcome.error.kind == SearchApiError && c.values == Walk(d, methods, vs, p).values
  {
    WalkConcat(d, methods, vs, p, [Object(None)] + q);
    assert p + [Object(None)] + q == p + ([Object(None)] + q);
    assert ([Object(None)] + q)[0] == Object(None);
  }

  /** What ignore!(x) for every declared attribute writes. */
  function IgnoreWrites(names: seq<Name>): (r: seq<(Name, Value)>)
    ensures |r| == |names| && forall k :: 0 <= k < |names| ==> r[k] == (names[k], Ignored)
  {
    seq(|names|, k requires 0 <= k < |names| => (names[k], Ignored))
  }

  /** self.class.search_attributes.each { |a| ignore!(a) } */
  function IgnoreAll(d: Decls): Action {
    (vs: Attrs) => Effect(IgnoreWrites(d.attributes), Nil)
  }

  /** Ignoring attributes succeeds, and an ignored attribute stays ignored. */
  lemma {:induction false} IgnoreWritesIgnore(d: Decls, vs: Attrs, names: seq<Name>)
    requires forall n :: n in names ==> n in d.writers
    ensures var a := Writes(d, vs, IgnoreWrites(names));
      a.outcome.Pass? && forall n :: n in names || IsIgnored(Get(vs, n)) ==> IsIgnored(Get(a.values, n))
    decreases |names|
  {
    if |names| > 0 {
      var ws := IgnoreWrites(names);
      assert ws[0] == (names[0], Ignored);
      assert ws[1..] == IgnoreWrites(names[1..]);
      var vs' := vs[names[0] := Ignored];
      assert SetValue(d, vs, names[0], Ignored) == Ok(vs');
      IgnoreWritesIgnore(d, vs', names[1..]);
    }
  }

  /** An instance before_find_options that ignores every attribute makes
      find_options that of a search with nothing to merge, whatever the
      instance's values, provided no callback raises or answers false. */
  lemma IgnoringHookMergesNothing(br: Bridge, d: Decls, methods: map<Name, Action>, cbs: seq<Callback>, vs: Attrs)
    requires WellFormed(d)
    requires Completed(Walk(d, methods, vs, cbs))
    ensures WithCallbacks(br, d, methods, Some(IgnoreAll(d)), cbs, vs) == MergeFindOptions(br, [])
  {
    var w := Walk(d, methods, vs, cbs);
    IgnoreWritesIgnore(d, w.values, d.attributes);
  }

  /** The same for a callback that ignores every attribute, registered
      alone, as a Symbol naming an instance method, a String or a block. */
  lemma IgnoringCallbackMergesNothing(br: Bridge, d: Decls, methods: map<Name, Action>, cb: Callback, vs: Attrs)
    requires WellFormed(d)
    requires (cb.MethodName? && cb.name in methods && methods[cb.name] == IgnoreAll(d))
      || ((cb.Code? || cb.Call?) && cb.run == IgnoreAll(d))
    ensures WithCallbacks(br, d, methods, None, [cb], vs) == MergeFindOptions(br, [])
  {
    IgnoreWritesIgnore(d, vs, d.attributes);
    assert Dispatch(d, methods, vs, cb) == Run(d, vs, IgnoreAll(d));
    assert Walk(d, methods, vs, [cb]) == Walk(d, methods, Run(d, vs, IgnoreAll(d)).values, []);
  }
}
