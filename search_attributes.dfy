/** The values the search layer passes around: builder options, the find
    option blocks of search attributes, attribute writers, and the
    before_find_options callbacks. */
module SearchAttributes {
  import opened Values
  import opened TextCriteria

  /** The instance variables of a search: one value per attribute written so far. */
  type Attrs = map<Name, Value>

  /** An attribute reader: an attribute never written reads as nil. */
  function Get(vs: Attrs, n: Name): Value {
    if n in vs then vs[n] else Nil
  }

  /** A find options block: it computes from the search it is given. */
  type Block = Attrs -> Value

  /** A value stored in a builder's options Hash: an ordinary value, a proc
      (a :store_as coercion) or regular expressions (an :exclude value). */
  datatype Opt =
    | Plain(v: Value)
    | Proc(f: Value -> Value)
    | Matchers(e: ExcludeOption)

  /** The option as an ordinary value; a proc or a regular expression is
      an object with no meaning beyond its name. */
  function OptValue(o: Opt): Value {
    match o
    case Plain(v) => v
    case Proc(_) => Sym("#<Proc>")
    case Matchers(_) => Sym("#<Regexp>")
  }

  predicate OptTruthy(o: Opt) {
    Truthy(OptValue(o))
  }

  /** A builder's options, keyed by the option names. */
  type Options = map<string, Opt>

  /** Hash#[] (and the value Hash#delete returns): nil when absent. */
  function Fetch(opts: Options, key: string): Opt {
    if key in opts then opts[key] else Plain(Nil)
  }

  /** The state of a SearchAttributeBuilder. */
  datatype Builder = Builder(name: Name, options: Options, block: Option<Block>)

  /** A Ruby options Hash: builders made by one search_accessor call hold
      the same one. */
  class OptionsHash {
    var entries: Options

    constructor (entries: Options)
      ensures this.entries == entries
    {
      this.entries := entries;
    }
  }

  /** SearchAttributeBuilder: a read-only name, an options Hash and an
      optional block, the last two replaceable by a bridge. */
  class SearchAttributeBuilder {
    const name: Name
    var options: OptionsHash
    var block: Option<Block>

    constructor (name: Name, options: OptionsHash, block: Option<Block>)
      ensures this.name == name && this.options == options && this.block == block
    {
      this.name := name;
      this.options := options;
      this.block := block;
    }

    function Snapshot(): Builder
      reads this, options
    {
      Builder(name, options.entries, block)
    }
  }

  /** What a bridge's rewrite leaves in a builder, and whether it raised
      (a rewrite that raises may already have consumed options). */
  datatype Rewritten = Rewritten(options: Options, block: Option<Block>, outcome: Outcome)

  // ---------------------------------------------------------------------
  // add_search_attribute

  /** VALID_SEARCH_ATTRIBUTE_OPTIONS */
  const ValidSearchAttributeOptions: set<string> := {"store_as", "default"}

  /** The option keys add_search_attribute refuses. */
  function InvalidKeys(opts: Options): (r: set<string>)
    ensures forall k :: k in r <==> k in opts && k != "store_as" && k != "default"
  {
    opts.Keys - ValidSearchAttributeOptions
  }

  /** options[:default] ||= ignored: an absent, nil or false default
      becomes the ignored sentinel, in the options Hash itself. */
  function FillDefault(opts: Options): (r: Options)
    ensures r.Keys == opts.Keys + {"default"}
    ensures forall k :: k in opts && k != "default" ==> r[k] == opts[k]
    ensures OptTruthy(r["default"])
    ensures OptTruthy(Fetch(opts, "default")) ==> r["default"] == opts["default"]
  {
    if OptTruthy(Fetch(opts, "default")) then opts else opts["default" := Plain(Ignored)]
  }

  /** The default value an attribute declared with these options gets. */
  function DefaultOf(opts: Options): (r: Value)
    ensures r == Ignored <==> !OptTruthy(Fetch(opts, "default")) || OptValue(opts["default"]) == Ignored
    ensures OptTruthy(Fetch(opts, "default")) ==> r == OptValue(opts["default"])
  {
    OptValue(FillDefault(opts)["default"])
  }

  /** The attribute writer add_search_attribute defines. */
  datatype Writer =
    | Direct                       // attr_writer
    | Coerced(f: Value -> Value)   // the :store_as proc
    | NotCallable                  // a :store_as value that is not a proc

  function WriterOf(opts: Options): (r: Writer)
    ensures r.Direct? <==> !OptTruthy(Fetch(opts, "store_as"))
    ensures r.Coerced? <==> Fetch(opts, "store_as").Proc?
  {
    var s := Fetch(opts, "store_as");
    if !OptTruthy(s) then Direct
    else if s.Proc? then Coerced(s.f)
    else NotCallable
  }

  /** The value a writer stores: the ignored sentinel always as it is,
      anything else through the :store_as coercion. */
  function Write(w: Writer, v: Value): (r: Result<Value>)
    ensures v == Ignored ==> r == Ok(Ignored)
    ensures v != Ignored && w.Coerced? ==> r == Ok(w.f(v))
    ensures w.Direct? ==> r == Ok(v)
    ensures r.Err? <==> v != Ignored && w.NotCallable?
  {
    if v == Ignored then Ok(v)
    else match w
      case Direct => Ok(v)
      case Coerced(f) => Ok(f(v))
      case NotCallable => Err(Error(NoMethodError, "undefined method `call'"))
  }

  /** x_ignored? and ignored?(x): the value is the sentinel. */
  predicate IsIgnored(v: Value) {
    v == Ignored
  }

  /** x?: Ruby truthiness of the value, so the sentinel is true. */
  predicate Interrogate(v: Value) {
    Truthy(v)
  }

  /** Only the sentinel is ignored; nil and false are values like others,
      and x? of an ignored attribute is true. */
  lemma SentinelDistinct()
    ensures IsIgnored(Ignored) && Interrogate(Ignored)
    ensures !IsIgnored(Nil) && !Interrogate(Nil)
    ensures !IsIgnored(Bool(false)) && !Interrogate(Bool(false))
    ensures forall v :: IsIgnored(v) ==> Interrogate(v)
  {
  }

  /** find_options_for_x: defined from a builder's block (which answers {}
      for an ignored attribute) or written by hand in the search class. */
  datatype Finder = Generated(block: Block) | UserDefined(body: Block)

  /** The search attributes of a search class: the declared names in
      declaration order (repeated if declared twice), their default values,
      and the writer and find_options_for_x method of each. */
  datatype Decls = Decls(
    attributes: seq<Name>,
    defaults: map<Name, Value>,
    writers: map<Name, Writer>,
    finders: map<Name, Finder>)

  function NoDecls(): Decls {
    Decls([], map[], map[], map[])
  }

  /** add_search_attribute(builder) on a builder holding these options: the
      checked declarations and the builder's options afterwards. */
  datatype Added = Added(decls: Decls, options: Options, outcome: Outcome)

  function AddSearchAttribute(d: Decls, b: Builder): (r: Added)
    ensures r.outcome.Fail? <==> InvalidKeys(b.options) != {}
    ensures r.outcome.Fail? ==> r.decls == d && r.options == b.options && r.outcome.error.kind == ArgumentError
    ensures r.outcome.Pass? ==>
      r.decls.attributes == d.attributes + [b.name]
      && r.decls.defaults == d.defaults[b.name := DefaultOf(b.options)]
      && r.decls.writers == d.writers[b.name := WriterOf(b.options)]
      && (b.block.Some? ==> r.decls.finders == d.finders[b.name := Generated(b.block.value)])
      && (b.block.None? ==> r.decls.finders == d.finders)
      && r.options == FillDefault(b.options)
  {
    if InvalidKeys(b.options) != {} then
      Added(d, b.options, Fail(Error(ArgumentError, "invalid options")))
    else
      var opts := FillDefault(b.options);
      var finders := if b.block.Some? then d.finders[b.name := Generated(b.block.value)] else d.finders;
      Added(Decls(d.attributes + [b.name], d.defaults[b.name := OptValue(opts["default"])],
                  d.writers[b.name := WriterOf(opts)], finders),
            opts, Pass)
  }

  // ---------------------------------------------------------------------
  // Callbacks

  /** What a piece of user code does to the search it runs on: the
      attribute writes it makes, in order, and the value it returns. */
  datatype Effect = Effect(writes: seq<(Name, Value)>, result: Value)

  type Action = Attrs -> Effect

  /** A before_find_options callback: a Symbol naming an instance method, a
      String evaluated in the search, a Proc or Method called with the
      search, or any other object, which must respond to
      before_find_options. */
  datatype Callback =
    | MethodName(name: Name)
    | Code(run: Action)
    | Call(run: Action)
    | Object(handler: Option<Action>)
}
