/** Search classes over bridges that override one hook each: a bridge
    that predefines one attribute, a bridge that rewrites every builder,
    and a bridge that merges find options by adding them up. */
module BridgeExamples {
  import opened Values
  import opened SearchAttributes
  import opened Bridges
  import opened Search

  /** The bridge predefining attribute a, whose find options are a.succ. */
  function AutomaticBridge(): Bridge {
    Custom(Some((o: Value) => [Builder("a", map[], Some((vs: Attrs) => Succ(Get(vs, "a"))))]), None, None)
  }

  /** String#succ on one-letter strings; the rest is left as it is. */
  function Succ(v: Value): Value {
    if v == Str("a") then Str("b") else v
  }

  /** With the automatic bridge, model(...) declares exactly attribute a. */
  lemma AutomaticBridgeDeclaresA(options: Value)
    ensures var br := AutomaticBridge();
      var s := AddBuilders(br, NoDecls(), AutomaticBuilders(br, options));
      s.outcome.Pass? && s.decls.attributes == ["a"] && s.decls.finders.Keys == {"a"}
      && FindOptionsFor(s.decls, map["a" := Str("a")], "a") == Ok(Str("b"))
  {
    var br := AutomaticBridge();
    var bs := AutomaticBuilders(br, options);
    assert bs == [Builder("a", map[], Some((vs: Attrs) => Succ(Get(vs, "a"))))];
    var s0 := AccessorStep(Some(br), NoDecls(), map[], "a", bs[0].block);
    assert RewriteOf(br, Builder("a", map[], bs[0].block)) == Rewritten(map[], bs[0].block, Pass);
    assert s0.outcome.Pass?;
    assert AddBuilders(br, s0.decls, bs[1..]) == Step(s0.decls, map[], Pass);
  }

  // ---------------------------------------------------------------------

  /** Ruby's x.to_i + 1 on integers. */
  function PlusOne(v: Value): Value {
    if v.Int? then Int(v.i + 1) else Nil
  }

  /** The bridge whose rewrite gives every builder the options
      { :store_as => proc { |x| x.to_i + 1 } } and a block answering the
      attribute plus one. */
  function RewriterBridge(): Bridge {
    Custom(None, Some((b: Builder) =>
      Rewritten(map["store_as" := Proc(PlusOne)], Some((vs: Attrs) => PlusOne(Get(vs, b.name))), Pass)), None)
  }

  /** search_accessor :a on the rewriter bridge: a = 1 stores 2, and
      find_options_for_a answers 3. */
  lemma RewriterBridgeCoerces()
    ensures var s := Accessors(Some(RewriterBridge()), NoDecls(), map[], ["a"], None);
      s.outcome.Pass?
      && SetValue(s.decls, map[], "a", Int(1)) == Ok(map["a" := Int(2)])
      && FindOptionsFor(s.decls, map["a" := Int(2)], "a") == Ok(Int(3))
  {
    var br := RewriterBridge();
    var rw := RewriteOf(br, Builder("a", map[], None));
    assert rw.options == map["store_as" := Proc(PlusOne)];
    assert InvalidKeys(rw.options) == {};
    var s := Accessors(Some(br), NoDecls(), map[], ["a"], None);
    assert s.decls.writers["a"] == Coerced(PlusOne);
  }

  // ---------------------------------------------------------------------

  /** The sum of a list of integers. */
  function Sum(list: seq<Value>): int {
    if |list| == 0 then 0
    else Sum(list[..|list| - 1]) + (if list[|list| - 1].Int? then list[|list| - 1].i else 0)
  }

  /** The bridge merging find options with options_array.inject(0, :+). */
  function MergerBridge(): Bridge {
    Custom(None, None, Some((list: seq<Value>) => Int(Sum(list))))
  }

  /** One name declared through a bridge that does not rewrite. */
  lemma DeclareOne(br: Bridge, d: Decls, name: Name, block: Block)
    requires br.Custom? && br.rewrite.None?
    ensures var s := Accessors(Some(br), d, map[], [name], Some(block));
      s.outcome.Pass? && s.decls.attributes == d.attributes + [name]
      && s.decls.finders == d.finders[name := Generated(block)]
  {
    assert [name][1..] == [];
    assert InvalidKeys(map[]) == {};
  }

  /** Declaring a, then b, with blocks answering their own values. */
  lemma MergerDeclares(vs: Attrs)
    requires vs == map["a" := Int(1), "b" := Int(2)]
    ensures var br := MergerBridge();
      var s1 := Accessors(Some(br), NoDecls(), map[], ["a"], Some((vs: Attrs) => Get(vs, "a")));
      var s2 := Accessors(Some(br), s1.decls, map[], ["b"], Some((vs: Attrs) => Get(vs, "b")));
      s2.outcome.Pass? && s2.decls.attributes == ["a", "b"]
      && FindOptionsFor(s2.decls, vs, "a") == Ok(Int(1)) && FindOptionsFor(s2.decls, vs, "b") == Ok(Int(2))
  {
    var br := MergerBridge();
    var s1 := Accessors(Some(br), NoDecls(), map[], ["a"], Some((vs: Attrs) => Get(vs, "a")));
    DeclareOne(br, NoDecls(), "a", (vs: Attrs) => Get(vs, "a"));
    var s2 := Accessors(Some(br), s1.decls, map[], ["b"], Some((vs: Attrs) => Get(vs, "b")));
    DeclareOne(br, s1.decls, "b", (vs: Attrs) => Get(vs, "b"));
    assert s2.decls.finders["a"] == Generated((vs: Attrs) => Get(vs, "a"));
  }

  /** Two attributes in use collect their two find options, in order. */
  lemma CollectTwo(d: Decls, vs: Attrs, x: Value, y: Value)
    requires d.attributes == ["a", "b"] && !IsIgnored(Get(vs, "a")) && !IsIgnored(Get(vs, "b"))
    requires FindOptionsFor(d, vs, "a") == Ok(x) && FindOptionsFor(d, vs, "b") == Ok(y)
    ensures CollectOptions(d, vs, Active(d.attributes, vs)) == Ok([x, y])
  {
    assert Active(["a"], vs) == ["a"];
    assert ["a", "b"][..1] == ["a"];
    var active := Active(d.attributes, vs);
    assert active == ["a", "b"];
    assert active[1..] == ["b"] && ["b"][1..] == [];
    assert CollectOptions(d, vs, []) == Ok([]);
    assert [y] + [] == [y];
    assert CollectOptions(d, vs, ["b"]) == Ok([y]);
    assert [x] + [y] == [x, y];
  }

  /** Attributes a and b whose find options are their own values: a
      search with a = 1 and b = 2 merges to 3. */
  lemma MergerBridgeAdds()
    ensures var br := MergerBridge();
      var s1 := Accessors(Some(br), NoDecls(), map[], ["a"], Some((vs: Attrs) => Get(vs, "a")));
      var s2 := Accessors(Some(br), s1.decls, map[], ["b"], Some((vs: Attrs) => Get(vs, "b")));
      s2.outcome.Pass? && FindOptionsOf(br, s2.decls, map["a" := Int(1), "b" := Int(2)]) == Ok(Int(3))
  {
    var br := MergerBridge();
    var s1 := Accessors(Some(br), NoDecls(), map[], ["a"], Some((vs: Attrs) => Get(vs, "a")));
    var s2 := Accessors(Some(br), s1.decls, map[], ["b"], Some((vs: Attrs) => Get(vs, "b")));
    var vs := map["a" := Int(1), "b" := Int(2)];
    MergerDeclares(vs);
    CollectTwo(s2.decls, vs, Int(1), Int(2));
    assert [Int(1), Int(2)][..1] == [Int(1)];
    assert Sum([Int(1), Int(2)]) == 3;
  }
}
