/** The bridge a search class asks about its model: the search attributes
    it predefines, the rewriting of builders, and the merging of find
    options. The default bridge predefines nothing, rewrites nothing and
    cannot merge; the ActiveRecord bridge and bridges written by users
    replace these hooks. */
module Bridges {
  import opened Values
  import opened SearchAttributes
  import AR = ActiveRecordBridge
  import ARM = ActiveRecordMerge

  /** Base is SearchApi::Bridge::Base itself; a Custom bridge overrides
      any of the three hooks (None keeps the hook of Base). A custom
      rewrite assigns the builder a new options Hash and block, as
      builder.options = ... does. */
  datatype Bridge =
    | Base
    | ActiveRecord(ar: AR.ArModel)
    | Custom(
        automatic: Option<Value -> seq<Builder>>,
        rewrite: Option<Builder -> Rewritten>,
        merge: Option<seq<Value> -> Value>)

  /** automatic_search_attribute_builders(options) */
  function AutomaticBuilders(br: Bridge, options: Value): (r: seq<Builder>)
    ensures br.Base? || (br.Custom? && br.automatic.None?) ==> r == []
  {
    match br
    case Base => []
    case ActiveRecord(ar) => AR.AllColumnBuilders(ar.columns, HashGet(options, Sym("type_cast")))
    case Custom(automatic, _, _) => if automatic.Some? then automatic.value(options) else []
  }

  /** rewrite_search_attribute_builder, as what it leaves in the builder. */
  function RewriteOf(br: Bridge, b: Builder): (r: Rewritten)
    ensures br.Base? || (br.Custom? && br.rewrite.None?) ==> r == Rewritten(b.options, b.block, Pass)
  {
    match br
    case Base => Rewritten(b.options, b.block, Pass)
    case ActiveRecord(ar) => AR.Rewrite(ar, b)
    case Custom(_, rewrite, _) => if rewrite.Some? then rewrite.value(b) else Rewritten(b.options, b.block, Pass)
  }

  /** Whether the bridge edits the builder's own options Hash (so that
      builders sharing that Hash see the edits) or gives it a new one. */
  predicate EditsInPlace(br: Bridge) {
    !(br.Custom? && br.rewrite.Some?)
  }

  /** merge_find_options(options_array) */
  function MergeFindOptions(br: Bridge, list: seq<Value>): (r: Result<Value>)
    ensures br.Base? || (br.Custom? && br.merge.None?) ==> r.Err? && r.error.kind == NotImplementedError
    ensures br.ActiveRecord? ==> (r.Ok? <==> ARM.Mergeable(list))
  {
    match br
    case Base => Err(Error(NotImplementedError, "NotImplementedError"))
    case ActiveRecord(ar) => ARM.MergeFails(ar, list); ARM.Merge(ar, list)
    case Custom(_, _, merge) =>
      if merge.Some? then Ok(merge.value(list)) else Err(Error(NotImplementedError, "NotImplementedError"))
  }

  /** The rewrite applied to a builder object. The ActiveRecord bridge
      edits the options Hash the builder holds, which other builders may
      share; a custom rewrite replaces the Hash. */
  method RewriteSearchAttributeBuilder(br: Bridge, b: SearchAttributeBuilder) returns (r: Outcome)
    modifies b, b.options
    ensures var rw := RewriteOf(br, old(b.Snapshot()));
      b.Snapshot() == Builder(b.name, rw.options, rw.block) && r == rw.outcome
    ensures EditsInPlace(br) ==> b.options == old(b.options)
    ensures !EditsInPlace(br) ==> fresh(b.options) && old(b.options).entries == old(b.options.entries)
  {
    var rw := RewriteOf(br, b.Snapshot());
    if EditsInPlace(br) {
      b.options.entries := rw.options;
    } else {
      b.options := new OptionsHash(rw.options);
    }
    b.block := rw.block;
    r := rw.outcome;
  }
}
