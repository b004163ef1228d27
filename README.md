# searchapi in Dafny

This project models the core of searchapi, a Ruby library that builds the
find options of an ActiveRecord query from independently declared *search
attributes*. A search class (a subclass of `SearchApi::Search::Base`) is
given a model. Each `search_accessor` declares an attribute with a reader,
a writer (optionally coercing through `:store_as`), a default and a
`find_options_for_<name>` block. A search instance holds one value per
attribute. An attribute whose value is the *ignored* sentinel takes no part
in the search. `find_options` collects the blocks of the attributes that are
not ignored, in declaration order, and hands the list to the model's
*bridge*, which merges it into one options Hash. The ActiveRecord bridge
does three things:
- it predefines attributes for every column (`eq`, plus `min_`/`max_` for
  comparable columns);
- it rewrites `:operator` options (`eq`, `neq`, `lt` … `ends_with`,
  `full_text`) into blocks;
- it merges find options key by key.

Two utility classes support this:
- `SqlFragment`, an SQL template with positional `?` parameters;
- `TextCriterion`, a Google-like parser of search strings (`+mandatory`,
  `-negative`, `key:meta`, optional words and quoted phrases) that compiles
  to an SQL fragment.

A `before_find_options` callback chain runs before `find_options`.

The modules, one per file:

| file | module | source |
|---|---|---|
| values.dfy | `Values` | Ruby values (`nil`, booleans, integers, strings, symbols, Arrays, Hashes in insertion order, the ignored sentinel), `to_s`, `blank?`, truthiness, `uniq`, `join` |
| sql_fragment.dfy | `SqlFragments` | lib/search_api/sql_fragment.rb |
| text_criterion.dfy | `TextCriteria` | lib/search_api/text_criterion.rb: scanner, exclusion, classification, `to_s`, `condition` |
| text_criterion_laws.dfy, text_round_trip.dfy, text_examples.dfy | `TextCriterionLaws`, `TextRoundTrip`, `TextExamples` | what the scanner reads back from `to_s`; the parse/print round trip; worked parses |
| text_condition.dfy | `TextConditions` | the meaning of `condition` under SQL's three-valued logic |
| search_attributes.dfy | `SearchAttributes` | `SearchAttributeBuilder`, `add_search_attribute`, writers, defaults, the ignored sentinel |
| search.dfy | `Search` | `SearchApi::Search::Base`: the class registry (`SearchClass`) and the instance (`SearchInstance`) |
| callbacks.dfy | `Callbacks` | lib/search_api/callbacks.rb |
| bridges.dfy, bridge_examples.dfy | `Bridges`, `BridgeExamples` | `Bridge::Base` and its three hooks; the bridges of the bridge tests |
| active_record_bridge.dfy | `ActiveRecordBridge` | automatic builders and operator rewriting of lib/active_record_bridge.rb |
| active_record_merge.dfy | `ActiveRecordMerge` | `validate_find_options` and `merge_find_options` of lib/active_record_bridge.rb |

Some choices of representation:
- **Mutation.** Objects whose state the Ruby code changes are Dafny classes:
  - `SqlFragment` (`and!`, `or!`, `<<`);
  - `TextCriterion`, filled by its constructor's loop;
  - `SearchAttributeBuilder` and its options Hash (`OptionsHash`);
  - `SearchClass` and `SearchInstance`.

  Each method is specified by a function of the old state.
- **Bridges.** A bridge is a datatype: `Base`, `ActiveRecord(model)` or
  `Custom` with any of the three hooks overridden.
- **The ignored sentinel.** It is a `Value` variant of its own.
- **Blocks.** Procs that find options are computed from are functions of
  the attribute values.
- **Callbacks.** A callback is an effect: a list of attribute writes, which go
  through the writers, plus a result.
- **Metaprogramming.** The methods Ruby defines on the fly
  (`define_method`, `attr_writer`, `find_options_for_x`) become maps in a
  registry (`Decls`).

## Model

| member | source | states |
|---|---|---|
| SqlFragments.FromValue | lib/search_api/sql_fragment.rb:27-43 | `SqlFragment.new(x)` accepts `nil`, a String, an Array or a Hash; any other value has no `empty?` and raises NoMethodError. The result is empty exactly for `nil`, `""`, `[]` and `{}`. A non-empty String becomes a template without parameters, and an Array `[t, p…]` with a String `t` becomes template `t` with parameters `p…` |
| SqlFragments.ToValue | lib/search_api/sql_fragment.rb:5 | a fragment is an Array that is empty exactly when the fragment is |
| SqlFragments.FragmentRoundTrip | lib/search_api/sql_fragment.rb:27-43 | building a fragment from the Array of any fragment gives that fragment back |
| SqlFragments.New | lib/search_api/sql_fragment.rb:27-31 | `new()` is empty; with several arguments, the first String is the template and the rest are its parameters |
| SqlFragments.And | lib/search_api/sql_fragment.rb:49-54 | the parameters are the left ones followed by the right ones; the result is empty only when both operands are |
| SqlFragments.Or | lib/search_api/sql_fragment.rb:57-62 | the same as `and`, for `or` |
| SqlFragments.Not | lib/search_api/sql_fragment.rb:76-79 | the parameters are unchanged; the result is empty exactly when the operand is |
| SqlFragments.IdentityLaws | lib/search_api/sql_fragment.rb:49-79 | the empty fragment is a left and right identity of `and` and `or`, and `not` leaves it empty |
| SqlFragments.CombinedShape | lib/search_api/sql_fragment.rb:53-78 | on two non-empty fragments the templates are `(t1) AND (t2)`, `(t1) OR (t2)` and `NOT(t)`, and the parameters are concatenated left to right |
| SqlFragments.CombinePlaceholders | lib/search_api/sql_fragment.rb:53 | combining two templates adds up their `?` counts |
| SqlFragments.BalancePreserved | lib/search_api/sql_fragment.rb:49-79 | if each operand has as many `?` as parameters, so do `and`, `or` and `not` |
| SqlFragments.DocumentedConstructors | lib/search_api/sql_fragment.rb:8-11 | the documented constructions: `()`, `('')`, `('a=1')` and `(['a=?', 1])` |
| SqlFragments.DocumentedCombinations | lib/search_api/sql_fragment.rb:12-15 | the documented combinations: `or` with the empty fragment, `or('b=2')`, and `and('c=3')` after `or(['b=?', 2])` |
| SqlFragments.SqlFragment.constructor | lib/search_api/sql_fragment.rb:27-43 | a new fragment holds the given contents, and its logical operator is `:and` |
| SqlFragments.SqlFragment.SetLogicalOperator | lib/search_api/sql_fragment.rb:45-47 | a falsy operator is replaced by `:and`, so the operator is always truthy |
| SqlFragments.SqlFragment.AndInPlace | lib/search_api/sql_fragment.rb:55 | `and!` replaces the contents with `and` of the old contents |
| SqlFragments.SqlFragment.OrInPlace | lib/search_api/sql_fragment.rb:63 | `or!` replaces the contents with `or` of the old contents |
| SqlFragments.SqlFragment.Push | lib/search_api/sql_fragment.rb:65-74 | `<<` succeeds exactly for `:and`, `:and!`, `:or` and `:or!`. The first two replace the contents with `and`, the last two with `or`. Any other operator raises RuntimeError and leaves the contents unchanged |
| TextCriteria.SkipSpaces | lib/search_api/text_criterion.rb:48 | the result is a suffix of the input that does not start with whitespace |
| TextCriteria.CollapseIsCollapsed | lib/search_api/text_criterion.rb:48 | after `gsub(/\s+/, ' ')` the only whitespace left is single spaces, and a leading space comes from leading whitespace |
| TextCriteria.CollapseOfCollapsed | lib/search_api/text_criterion.rb:48 | `gsub(/\s+/, ' ')` leaves a collapsed string unchanged |
| TextCriteria.LastBoundaryInRun | lib/search_api/text_criterion.rb:40 | the backtracking of `[^ ":]+\b` ends inside the input, or at the best end found so far |
| TextCriteria.WordFrom | lib/search_api/text_criterion.rb:40 | a word match ends after its start and inside the input |
| TextCriteria.MatchWord | lib/search_api/text_criterion.rb:40 | the first alternative of the splitter consumes at least one character |
| TextCriteria.CloseQuote | lib/search_api/text_criterion.rb:44 | the closing quote found is a `"` at or after the given position |
| TextCriteria.MatchPhrase | lib/search_api/text_criterion.rb:44 | the second alternative of the splitter consumes at least one character |
| TextCriteria.MatchAt | lib/search_api/text_criterion.rb:38-46 | a match of the splitter consumes at least one character and stays inside the input |
| TextCriteria.RemoveQuotes | lib/search_api/text_criterion.rb:49 | no `"` is left, and a string without quotes is unchanged |
| TextCriteria.Lower | lib/search_api/text_criterion.rb:129 | downcasing keeps the length |
| TextCriteria.LowerIdempotent | lib/search_api/text_criterion.rb:129 | downcasing twice is downcasing once |
| TextCriteria.NormalizeExclude | lib/search_api/text_criterion.rb:26 | no `:exclude` gives no filter; a single value is wrapped into a list; a list is kept |
| TextCriteria.ExcludedCases | lib/search_api/text_criterion.rb:127-130 | without `:exclude` nothing is excluded. Otherwise a keyword is excluded exactly when one of the entries matches it, and an empty list excludes nothing |
| TextCriteria.LiteralIgnoresCase | lib/search_api/text_criterion.rb:129 | a String entry matches case-insensitively on both sides, and matches any keyword containing it |
| TextCriteria.AddMeta | lib/search_api/text_criterion.rb:51-54 | `@meta_keywords[key] << value`. A new key goes last and an old key keeps its place. The key's values gain `value` at the end, and every other key's values are unchanged |
| TextCriteria.SignedClassification | lib/search_api/text_criterion.rb:56-60 | a `-` or `+` token is filed as a negative or mandatory keyword with its sign stripped, unless the filter excludes the stripped keyword |
| TextCriteria.MetaValueVerbatim | lib/search_api/text_criterion.rb:51-63 | with `:parse_meta?`, the token after `key:` becomes a value of `key` as it is, whatever the filter and its sign |
| TextCriteria.MetaOffKeepsColon | lib/search_api/text_criterion.rb:64-68 | without `:parse_meta?`, `key:` is an optional keyword with its colon |
| TextCriteria.ParseMetaOn | lib/search_api/text_criterion.rb:27 | `:parse_meta?` is on when absent or truthy |
| TextCriteria.Parse | lib/search_api/text_criterion.rb:21-76 | a blank string gives no keywords; any other string gives the keywords the token loop classified, or, when that loop kept none, the whole string as the one optional keyword |
| TextCriteria.AllDroppedFallback | lib/search_api/text_criterion.rb:66-75 | when the exclusion filter drops every unsigned token of a non-blank string, the criterion searches on the whole string |
| TextCriteria.TextCriterion.constructor | lib/search_api/text_criterion.rb:21-76 | the loop over the tokens leaves exactly the keywords of `Parse`, with the normalised exclusion and meta options |
| TextCriteria.TextCriterion.ClassifyTokens | lib/search_api/text_criterion.rb:48-71 | the `each` over the tokens, started from empty collections, leaves exactly the keywords of the classification of the whole token list |
| TextCriteria.TextCriterion.Absorb | lib/search_api/text_criterion.rb:51-70 | one turn of the loop changes the keywords and the pending meta key as one classification step does |
| TextCriteria.Prefixed | lib/search_api/text_criterion.rb:80-82 | each keyword gets its prefix and is quoted when it has a space |
| TextCriteria.TextCriterion.PositiveKeywords | lib/search_api/text_criterion.rb:95-97 | the mandatory keywords, then the optional ones |
| TextCriteria.TextCriterion.ToString | lib/search_api/text_criterion.rb:78-93 | `to_s` writes the keywords as `Render`, the function the round trip is proved about |
| TextCriteria.FieldsDisjunction | lib/search_api/text_criterion.rb:104-106 | the OR over the fields is empty exactly without fields, and has one parameter `%kw%` per field |
| TextCriteria.Expand | lib/search_api/text_criterion.rb:102-121 | the parameters of a group: each keyword's pattern once per field |
| TextCriteria.AllKeywords | lib/search_api/text_criterion.rb:102-114 | the AND over keywords is empty exactly without keywords or fields, and its parameters run keyword by keyword |
| TextCriteria.AnyKeyword | lib/search_api/text_criterion.rb:116-121 | the same for the OR over optional keywords |
| TextCriteria.ConditionOf | lib/search_api/text_criterion.rb:99-124 | the parameters are those of the mandatory, then negative, then optional keywords. The condition is empty exactly when there are no fields or no keywords |
| TextCriteria.TextCriterion.Condition | lib/search_api/text_criterion.rb:99-124 | extending a fragment with `<<` three times gives the fragment of `ConditionOf` |
| TextConditions.ConditionSql | lib/search_api/text_criterion.rb:99-124 | `condition` is the SQL of a condition tree: AND of the mandatory group, NOT of the negative group and the optional group |
| TextConditions.ConditionBalanced | lib/search_api/text_criterion.rb:99-124 | over field names without `?`, the condition has exactly as many `?` as parameters |
| TextConditions.OptionalOnly | lib/search_api/text_criterion.rb:116-121 | with optional keywords only, the condition is exactly the optional group |
| TextConditions.Selects | lib/search_api/text_criterion.rb:99-124 | given at least one field, a row is selected exactly when: it matches every mandatory keyword in some field; if there are negatives, it fails to match at least one of them (NOT of an AND); if there are optionals, it matches at least one of them |
| TextConditions.SelectsFolded | lib/search_api/text_criterion.rb:99-124 | the same meaning, stated with the group predicates the folds compute |
| TextConditions.NoFields | lib/search_api/text_criterion.rb:99-124 | without fields the condition is empty and selects every row |
| TextConditions.FieldsMeaning | lib/search_api/text_criterion.rb:104-112 | the OR over fields holds exactly when some field matches; the guarded form `field is not null AND …` is never unknown |
| TextConditions.AllMeaning | lib/search_api/text_criterion.rb:102-114 | the AND over keywords holds exactly when every keyword hits; guarded, it is never unknown |
| TextConditions.AnyMeaning | lib/search_api/text_criterion.rb:116-121 | the OR over keywords holds exactly when some keyword hits |
| TextConditions.EmptyMeansYes | lib/search_api/sql_fragment.rb:51-52 | an empty fragment drops out of a conjunction: it selects every row |
| TextRoundTrip.RoundTrip | lib/search_api/text_criterion.rb:21-93 | parsing what `to_s` writes gives the same keywords back, for keywords the scanner can read: words and collapsed quote-free phrases, optional keywords without a sign or a trailing colon, distinct meta keys each with a value |
| TextRoundTrip.RenderTokens | lib/search_api/text_criterion.rb:78-93 | `to_s` is blank exactly for no keywords, and otherwise the scanner reads it back as the tokens of its pieces |
| TextRoundTrip.ParsePieces | lib/search_api/text_criterion.rb:21-76 | a string that collapses to the pieces' texts parses to the keywords those pieces file |
| TextRoundTrip.TokensOfPieces | lib/search_api/text_criterion.rb:38-49 | the scanner yields each piece's tokens, in order |
| TextRoundTrip.ApplyAll | lib/search_api/text_criterion.rb:51-70 | filing the pieces of `to_s` one by one rebuilds the keywords |
| TextRoundTrip.ChunksArePieces | lib/search_api/text_criterion.rb:78-93 | the chunks of `to_s` are the texts of the pieces |
| TextRoundTrip.Words | lib/search_api/text_criterion.rb:80-82 | each keyword of a group becomes one piece with the group's prefix |
| TextRoundTrip.EntryPieces | lib/search_api/text_criterion.rb:83-90 | each value of a meta key becomes one `key:value` piece |
| TextRoundTrip.AddMetaNew | lib/search_api/text_criterion.rb:51-54 | a key not yet present is added last with its one value |
| TextRoundTrip.AddMetaLast | lib/search_api/text_criterion.rb:51-54 | adding a value to the last key appends it to that key's values |
| TextRoundTrip.RunConcat | lib/search_api/text_criterion.rb:48-71 | the classification loop over two token lists is the loop over the first, then the second |
| TextCriterionLaws.WordMatch | lib/search_api/text_criterion.rb:40 | a word without quotes, spaces or colons, starting at a word boundary and followed by a space, a colon or the end, is matched whole, taking a following colon with it |
| TextCriterionLaws.PhraseMatch | lib/search_api/text_criterion.rb:44 | an optionally signed quoted phrase without inner quotes is matched whole, up to its closing quote |
| TextCriterionLaws.QuotedToken | lib/search_api/text_criterion.rb:49-82 | removing the quotes of a keyword `to_s` quoted gives the keyword back |
| TextCriterionLaws.ScanPieces | lib/search_api/text_criterion.rb:38-49 | a string laid out as space-separated pieces scans into the tokens of those pieces, in order |
| TextExamples.ColonRender | lib/search_api/text_criterion.rb:82 | the optional keyword `a:b` is written as `a:b` |
| TextExamples.ColonParse | lib/search_api/text_criterion.rb:51-66 | `a:b` parses to the meta key `a` with value `b` |
| TextExamples.DocumentedParse | lib/search_api/text_criterion.rb:8-12 | the documented search string parses to meta `define: salut poulette`, mandatory `les amis`, negative `toto`, `allons bon` and optional `bonjour` |
| TextExamples.DefaultExclusionFallback | lib/active_record_bridge.rb:250 | under the default exclusion of `full_text`, `ab cd` parses to the one optional keyword `ab cd` |
| TextExamples.ColonBreaksRoundTrip | lib/search_api/text_criterion.rb:82 | an optional keyword `a:b` is written bare and read back as the meta key `a` with value `b` |
| SearchAttributes.InvalidKeys | lib/search_api/search.rb:266-268 | the invalid options are exactly those other than `:store_as` and `:default` |
| SearchAttributes.FillDefault | lib/search_api/search.rb:276 | `options[:default] \|\|= ignored` adds `:default`, keeps a truthy default and changes no other key |
| SearchAttributes.DefaultOf | lib/search_api/search.rb:276-277 | the default is the ignored sentinel exactly when `:default` is absent, falsy or the sentinel itself; otherwise it is the given value |
| SearchAttributes.WriterOf | lib/search_api/search.rb:285-291 | with a falsy `:store_as` the writer stores values as given; with a proc it coerces |
| SearchAttributes.Write | lib/search_api/search.rb:285-291 | the sentinel is always stored as it is. Other values are coerced by a `:store_as` proc or stored directly. A non-callable `:store_as` fails exactly on a value that is not the sentinel |
| SearchAttributes.SentinelDistinct | lib/search_api/search.rb:295-303 | `x_ignored?` holds for the sentinel and fails for `nil` and `false`. `x?` is Ruby truthiness, so it also holds for the sentinel and fails for `nil` and `false`: an ignored attribute always answers `x?` true |
| SearchAttributes.AddSearchAttribute | lib/search_api/search.rb:259-317 | invalid option keys raise ArgumentError and change nothing. Otherwise the name is appended to the attributes and the default and writer are recorded. A block defines `find_options_for_x`, and no block leaves the finders unchanged. The options gain `:default` |
| SearchAttributes.SearchAttributeBuilder.constructor | lib/search_api/search.rb:447-451 | a builder holds the name, the options Hash (shared, not copied) and the block |
| SearchAttributes.OptionsHash.constructor | lib/search_api/search.rb:163 | one options Hash shared by the builders of one call |
| Search.ModelChoice | lib/search_api/search.rb:76-102 | a second `model` raises RuntimeError. The call is accepted exactly for one model answering to `search_api_bridge`, optionally followed by an options Hash (default `{}`). Anything else raises ArgumentError |
| Search.SearchClass.constructor | lib/search_api/search.rb:189-191 | a new search class has no model, no attributes (`search_attributes` is `[]`), no callbacks, no user methods and no hook |
| Search.SearchInstance.constructor | lib/search_api/search.rb:347 | a new instance of a class holds no values yet |
| Search.SearchClass.Model | lib/search_api/search.rb:76-102 | without arguments, it answers the model and changes nothing. An error changes nothing. Otherwise the model is set and the bridge's automatic builders are declared |
| Search.AccessorStep | lib/search_api/search.rb:172-175 | a builder that fails to rewrite or declare leaves the declarations unchanged |
| Search.SearchClass.SearchAccessorBuilder | lib/search_api/search.rb:155-158 | `search_accessor(builder)` rewrites and declares that one builder |
| Search.SearchClass.SearchAccessor | lib/search_api/search.rb:151-178 | the builders of all names share one options Hash. Each is rewritten by the model's bridge (when there is a model) and declared in turn, stopping at the first error |
| Search.SearchClass.AddSearchAttribute | lib/search_api/search.rb:259-317 | the class's declarations and the builder's options become those of `add_search_attribute` |
| Search.SearchClass.DefineFindOptions | lib/search_api/search.rb:249-258 | a user-written `find_options_for_x` replaces any generated one |
| Search.SearchClass.DefineMethod | lib/search_api/callbacks.rb:39-40 | an instance method that Symbol callbacks can name |
| Search.SearchClass.DefineHook | lib/search_api/callbacks.rb:30-31 | a user-written instance `before_find_options` |
| Search.SetValue | lib/search_api/search.rb:285-291 | writing an undeclared name raises NoMethodError. Otherwise only that name changes, to what its writer stores. A direct writer or the sentinel stores the value itself |
| Search.SearchInstance.SetAttribute | lib/search_api/search.rb:285-291 | `x = v` sets the values to `SetValue`'s result, or leaves them unchanged and fails |
| Search.SearchInstance.ApplyWrites | lib/search_api/search.rb:371-373 | a list of writes applied one by one, stopping at the first failing one |
| Search.Named | lib/search_api/search.rb:371-372 | `send("#{key}=")` addresses each key by its `to_s` |
| Search.SearchInstance.SetAttributes | lib/search_api/search.rb:370-374 | `attributes=` writes every given pair in order through the writers |
| Search.WithDefault | lib/search_api/search.rb:352-356 | filling one default only appends to the Hash |
| Search.WithDefaults | lib/search_api/search.rb:351-357 | filling the defaults keeps the given pairs at the front |
| Search.WithDefaultsAppends | lib/search_api/search.rb:351-357 | each pair added is an attribute with its default |
| Search.WithDefaultsDistinct | lib/search_api/search.rb:351-357 | no attribute is filled twice |
| Search.WithDefaultsCovers | lib/search_api/search.rb:351-357 | afterwards every attribute is present under its Symbol or its String |
| Search.SearchInstance.Initialize | lib/search_api/search.rb:347-358 | without a model it raises RuntimeError and changes nothing; otherwise it assigns the given Hash completed with the defaults |
| Search.DefaultApplied | lib/search_api/search.rb:351-357 | an attribute that the caller does not supply holds its default as its writer stores it. A sentinel default leaves it ignored |
| Search.WritesConcat | lib/search_api/search.rb:371-373 | writing two lists is writing the first, then (if it succeeded) the second |
| Search.WritesUntouched | lib/search_api/search.rb:371-373 | a name no write addresses keeps its value |
| Search.WritesOnce | lib/search_api/search.rb:371-373 | a name written once holds what its writer stored |
| Search.Reader | lib/search_api/search.rb:281 | the reader exists exactly for declared attributes and answers the stored value (nil when unset) |
| Search.AttributesOf | lib/search_api/search.rb:363-367 | `attributes` maps each attribute, once, in declaration order, to its value |
| Search.SearchInstance.IgnoreBang | lib/search_api/search.rb:383-385 | `ignore!(x)` stores the sentinel uncoerced; an undeclared name raises NoMethodError and changes nothing |
| Search.Active | lib/search_api/search.rb:396-399 | the attributes not ignored, in declaration order, and none when all are ignored |
| Search.ActiveConcat | lib/search_api/search.rb:396-399 | filtering distributes over concatenation, so declaration order is kept |
| Search.FindOptionsFor | lib/search_api/search.rb:307-316 | a missing `find_options_for_x` raises NoMethodError; a generated one answers `{}` when `x` is ignored and the block's result otherwise |
| Search.CollectOptions | lib/search_api/search.rb:402 | one result per attribute, in order, failing exactly when one is missing, with the NoMethodError of the first missing finder |
| Search.FindOptionsOf | lib/search_api/search.rb:393-408 | `find_options` fails with the NoMethodError of the first attribute that is not ignored and has no finder; otherwise it is the bridge's merge of the finders' results for the attributes that are not ignored, in order, and of the empty list when every attribute is ignored |
| Search.SharedOperatorConsumed | lib/search_api/search.rb:163-166 | with the ActiveRecord bridge, the first builder consumes `:operator` from the Hash its siblings share, and the siblings are then not rewritten |
| Callbacks.Run | lib/search_api/callbacks.rb:38-44 | an action's result is the callback's result |
| Callbacks.Dispatch | lib/search_api/callbacks.rb:38-51 | an object without `before_find_options` raises SearchApiError. A Symbol naming no method raises NoMethodError, and one naming an attribute calls its reader. Neither error changes the values |
| Callbacks.DispatchOn | lib/search_api/callbacks.rb:38-51 | dispatching one callback on an instance changes its values as `Dispatch` says |
| Callbacks.Walk | lib/search_api/callbacks.rb:37-53 | stopping at `false` is a success, and no callbacks change nothing |
| Callbacks.Chain | lib/search_api/callbacks.rb:36-58 | an error stops the chain; a callback answering `false` makes `callback` answer `false`; otherwise the instance `before_find_options` runs (nil by default) |
| Callbacks.Callback | lib/search_api/callbacks.rb:36-58 | the instance's values and result are those of `Chain` |
| Callbacks.WithCallbacks | lib/search_api/callbacks.rb:25-28 | `find_options` runs on the values the chain left, whatever the chain answered; only an exception stops it |
| Callbacks.FindOptionsWithCallbacks | lib/search_api/callbacks.rb:25-28 | on an instance: the chain's values, then `WithCallbacks` |
| Callbacks.BeforeFindOptions | lib/search_api/callbacks.rb:17-20 | the callbacks are appended in order, the block last, and nothing else changes |
| Callbacks.WalkConcat | lib/search_api/callbacks.rb:37-53 | callbacks run in registration order: a list followed by another runs the first, then, if it completed, the second |
| Callbacks.StopsAtFalse | lib/search_api/callbacks.rb:52 | the first callback answering `false` stops the chain: later callbacks and the hook do not run |
| Callbacks.BadCallbackRaises | lib/search_api/callbacks.rb:46-49 | an unusable callback raises SearchApiError after the earlier callbacks have run |
| Callbacks.IgnoreWrites | lib/search_api/search.rb:383-385 | `ignore!` on each name |
| Callbacks.IgnoreWritesIgnore | lib/search_api/search.rb:383-385 | ignoring declared names succeeds and leaves them, and every already ignored attribute, ignored |
| Callbacks.IgnoringHookMergesNothing | lib/search_api/callbacks.rb:25-31 | an instance hook that ignores every attribute makes `find_options` the merge of nothing |
| Callbacks.IgnoringCallbackMergesNothing | lib/search_api/callbacks.rb:38-52 | so does one Symbol, String or Proc callback doing that |
| Bridges.AutomaticBuilders | lib/search_api/bridge.rb:47-49 | the base bridge, and any bridge not overriding the hook, predefines nothing |
| Bridges.RewriteOf | lib/search_api/bridge.rb:63-64 | the base rewrite leaves the builder untouched |
| Bridges.MergeFindOptions | lib/search_api/bridge.rb:70-72 | the base merge raises NotImplementedError; the ActiveRecord merge succeeds exactly on valid option Hashes whose sanitized values `SqlFragment.new` accepts |
| Bridges.RewriteSearchAttributeBuilder | lib/search_api/search.rb:338-340 | the builder's options and block become those of the bridge's rewrite. The ActiveRecord bridge edits the shared Hash in place; a custom one assigns a new Hash and leaves the old one as it was |
| BridgeExamples.AutomaticBridgeDeclaresA | test/bridge_test.rb:30-49 | a bridge predefining `a` (find options `a.succ`) declares exactly `a`, and `find_options_for_a` of `'a'` is `'b'` |
| BridgeExamples.RewriterBridgeCoerces | test/bridge_test.rb:9-28 | a bridge rewriting to `:store_as => x + 1` stores 2 for 1 and finds 3 |
| BridgeExamples.MergerBridgeAdds | test/bridge_test.rb:51-66 | a bridge summing the find options merges `a = 1` and `b = 2` into 3 |
| ActiveRecordBridge.ColumnBuilders | lib/active_record_bridge.rb:79-101 | every column gets an `eq` builder named after it; a comparable one also `min_` (`gte`) and `max_` (`lte`), all with the given `:type_cast` |
| ActiveRecordBridge.AutomaticSearchAttributeBuilders | lib/active_record_bridge.rb:73-104 | the loop emits the builders of every column, in column order |
| ActiveRecordBridge.ColumnBuildersInOrder | lib/active_record_bridge.rb:73-104 | the builders of column `k` sit together, after those of the columns before it |
| ActiveRecordBridge.AutomaticBuilderCount | lib/active_record_bridge.rb:73-104 | one builder per column plus two per comparable column |
| ActiveRecordBridge.EqualityBlock | lib/active_record_bridge.rb:172-175 | `eq` gives the model's `sanitize_sql_hash` condition on the column |
| ActiveRecordBridge.InequalityBlock | lib/active_record_bridge.rb:177-186 | `neq` of nil gives `col IS NOT NULL`; of a value, `col <> ? OR col IS NULL` with that value |
| ActiveRecordBridge.ComparisonBlock | lib/active_record_bridge.rb:188-210 | `lt`, `lte`, `gt`, `gte` give `col OP ?` with the value, and nothing for nil |
| ActiveRecordBridge.LikeBlock | lib/active_record_bridge.rb:212-228 | `contains`, `starts_with`, `ends_with` give `col LIKE ?` with `%v%`, `v%`, `%v`, and nothing when `to_s` is empty |
| ActiveRecordBridge.FullTextBlock | lib/active_record_bridge.rb:246-255 | `full_text` gives the text criterion's condition over all the columns, and nothing when `to_s` is empty |
| ActiveRecordBridge.OperatorNamed | lib/active_record_bridge.rb:11-14 | an operator is known exactly when it is in one of the two lists, and multi-column exactly for `full_text` |
| ActiveRecordBridge.DefaultExclusion | lib/active_record_bridge.rb:250 | `/^[^0-9].{0,2}$/` matches exactly the keywords of one to three characters not starting with a digit |
| ActiveRecordBridge.ExclusionOf | lib/active_record_bridge.rb:250 | a falsy `:exclude` gives the default pattern; a given matcher or String is used |
| ActiveRecordBridge.DefaultExclusionDrops | lib/active_record_bridge.rb:250 | by default, `full_text` drops exactly the keywords of one to three characters not starting with a digit |
| ActiveRecordBridge.RewriteSingleColumn | lib/active_record_bridge.rb:148-229 | `:column` is consumed. It must be present and not an Array, otherwise ArgumentError with the block unchanged. `:type_cast` is consumed and becomes a `:store_as` coercion. A Symbol operator sets its block, a String one sets none |
| ActiveRecordBridge.SqlColumns | lib/active_record_bridge.rb:241-243 | every column name becomes `table.quoted_name` |
| ActiveRecordBridge.RewriteMultiColumn | lib/active_record_bridge.rb:231-256 | `:columns` (or, when it is falsy, `:column`) is consumed and must name at least one column, otherwise ArgumentError. `full_text` consumes `:exclude` and sets its block |
| ActiveRecordBridge.Rewrite | lib/active_record_bridge.rb:143-260 | `:operator` is always consumed. Without one, nothing else changes. An unknown operator raises ArgumentError and leaves the block as it was. Every failure is an ArgumentError |
| ActiveRecordBridge.AutomaticRewrite | lib/active_record_bridge.rb:143-229 | an automatic builder rewrites without error into valid options, with its operator's block on its column, and with `:store_as` exactly when `:type_cast` was truthy |
| ActiveRecordBridge.ColumnBuilderRewrites | lib/active_record_bridge.rb:73-104 | each of a column's builders rewrites into the block of `eq`, `gte` or `lte` on that column |
| ActiveRecordBridge.AutomaticBuildersRewrite | lib/active_record_bridge.rb:73-104 | every automatic builder rewrites and declares without error |
| ActiveRecordBridge.SingleColumnBalanced | lib/active_record_bridge.rb:177-228 | with quoting that adds no `?`, every single-column block other than `eq` has as many `?` as parameters |
| ActiveRecordBridge.LikeBalanced | lib/active_record_bridge.rb:212-228 | the LIKE blocks have one `?` and one parameter |
| ActiveRecordBridge.FullTextBalanced | lib/active_record_bridge.rb:246-255 | the `full_text` block has as many `?` as parameters |
| ActiveRecordMerge.ValidateFindOptions | lib/active_record_bridge.rb:17-21 | a Hash passes exactly when all its keys are among the seven find keys (ArgumentError otherwise); a non-Hash raises NoMethodError |
| ActiveRecordMerge.CollectFindOptions | lib/active_record_bridge.rb:266-273 | the loop gathers, per key, the non-blank values of the non-nil Hashes, in order, or fails at the first invalid Hash |
| ActiveRecordMerge.ErrorPersists | lib/active_record_bridge.rb:266-273 | once a Hash is refused, the rest of the list does not matter |
| ActiveRecordMerge.Sanitized | lib/active_record_bridge.rb:284 | each fragment is sanitized, in order |
| ActiveRecordMerge.SanitizeEach | lib/search_api/sql_fragment.rb:20-36 | the sanitize calls pass exactly when `SqlFragment.new` accepts every value (nil, a String, an Array or a Hash); otherwise the error is that of a refused value |
| ActiveRecordMerge.Arrays | lib/active_record_bridge.rb:294 | each `:include` value as `Array(...)` |
| ActiveRecordMerge.WithDefaultGroup | lib/active_record_bridge.rb:311-316 | `:having` without `:group` sets the group to `table.pk`; no other key changes |
| ActiveRecordMerge.MergedGroup | lib/active_record_bridge.rb:318-333 | there is a `:group` exactly when some group value was given; one group is followed by the HAVING clause |
| ActiveRecordMerge.ToHash | lib/active_record_bridge.rb:364 | the merged options are a Hash, empty exactly when no key was merged |
| ActiveRecordMerge.MergeFindOptions | lib/active_record_bridge.rb:265-365 | the method computes `Merge`, the sanitize calls included |
| ActiveRecordMerge.CollectOk | lib/active_record_bridge.rb:266-273 | gathering succeeds exactly when every non-nil element is a valid Hash |
| ActiveRecordMerge.CollectError | lib/active_record_bridge.rb:266-273 | a failure is the error of the first refused element |
| ActiveRecordMerge.CollectValues | lib/active_record_bridge.rb:266-273 | a key's gathered values are its non-blank values across the list, in order; a key appears only with some value |
| ActiveRecordMerge.SanitizedGathered | lib/active_record_bridge.rb:281-359 | the values a valid list sanitizes are its values under `:conditions`, `:joins`, `:group`, `:having`, `:order` and `:select`, and the default group, which `SqlFragment.new` accepts |
| ActiveRecordMerge.MergeFails | lib/active_record_bridge.rb:265-359 | the merge fails exactly on a list with a refused element or a sanitized value `SqlFragment.new` refuses; the error is that of the first refused element, or else that of a refused value |
| ActiveRecordMerge.MergeableOk | lib/active_record_bridge.rb:265-359 | a mergeable list merges its gathered values, with the default group |
| ActiveRecordMerge.SanitizeRaises | lib/active_record_bridge.rb:281-359 | a valid list with a sanitized value that is not nil, a String, an Array or a Hash raises NoMethodError |
| ActiveRecordMerge.SymbolOrderRaises | lib/active_record_bridge.rb:338-343 | `[{:order => :name}]` raises NoMethodError when the Symbol is sanitized |
| ActiveRecordMerge.MergeConditions | lib/active_record_bridge.rb:281-287 | `:conditions` is present exactly when some condition was given, and is `(c1) AND (c2)…` over the sanitized, deduplicated conditions |
| ActiveRecordMerge.MergeIncludes | lib/active_record_bridge.rb:292-295 | `:include` is the set union, in first-seen order, of the `Array(...)` of each value |
| ActiveRecordMerge.MergeJoins | lib/active_record_bridge.rb:300-306 | `:joins` is the sanitized, deduplicated joins joined with a space |
| ActiveRecordMerge.MergeOrder | lib/active_record_bridge.rb:338-343 | `:order` is the sanitized orders joined with `, `, without deduplication |
| ActiveRecordMerge.MergeGroup | lib/active_record_bridge.rb:311-333 | `:group` is present exactly when a group or a having was given, and is the group clause with the default group when only having was given |
| ActiveRecordMerge.HavingWithoutGroup | lib/active_record_bridge.rb:311-333 | having without group gives `table.pk HAVING (h1) AND (h2)…` |
| ActiveRecordMerge.MergeSelect | lib/active_record_bridge.rb:348-359 | `:select` is the deduplicated selects joined with `, `; with joins and no select it is `DISTINCT table.*` |
| ActiveRecordMerge.CollectSkipsNil | lib/active_record_bridge.rb:266 | a nil element is dropped |
| ActiveRecordMerge.MergeSkipsNil | lib/active_record_bridge.rb:266 | so a nil element does not change the merge |
| ActiveRecordMerge.MergeNothing | lib/active_record_bridge.rb:265-365 | nothing, or only nil and `{}`, merges to `{}` |
| ActiveRecordMerge.OneHashValues | lib/active_record_bridge.rb:268-270 | one Hash contributes its value under its key unless the value is blank |
| ActiveRecordMerge.OneCondition | lib/active_record_bridge.rb:281-287 | one condition merges to `{:conditions => "(sanitized)"}`, or raises the error of `SqlFragment.new` when that refuses it |
| ActiveRecordMerge.ValuesAtConcat | lib/active_record_bridge.rb:266-273 | gathering distributes over concatenation |
| ActiveRecordMerge.MergeableTwice | lib/active_record_bridge.rb:266-359 | a mergeable list stays mergeable when repeated |
| ActiveRecordMerge.MergeTwice | lib/active_record_bridge.rb:281-359 | merging a list twice over changes no key except `:order`, which is not deduplicated and so repeats |
| Values.NatToString | lib/search_api/search.rb:372 | `to_s` of a number is never empty |
| Values.DedupElements | lib/active_record_bridge.rb:285 | `uniq` keeps exactly the elements it is given |
| Values.DedupDistinct | lib/active_record_bridge.rb:285 | `uniq` leaves no duplicates |
| Values.DedupOfDistinct | lib/active_record_bridge.rb:285 | `uniq` leaves a duplicate-free list unchanged |
| Values.DedupIdempotent | lib/active_record_bridge.rb:285 | `uniq` twice is `uniq` once |
| Values.DedupAbsorbs | lib/active_record_bridge.rb:285 | appending elements already present does not change `uniq` |
| Values.UnionAllIsDedupFlatten | lib/active_record_bridge.rb:294 | folding with `\|` is `uniq` of the concatenation |

## Left out

- lib/active_record_integration.rb is not part of this model: it patches `find`, `count`, `with_scope` and association classes of ActiveRecord.
- `SqlFragment#sanitize` and `SqlFragment.sanitize` call ActiveRecord's `sanitize_sql`. That call appears only as the `sanitize` parameter of the model (`ArModel`). The `SqlFragment.new` that `SqlFragment.sanitize` builds first is modelled: in `merge_find_options` it goes through SqlFragments.FromValue, so a Symbol, an Integer or `true` raises NoMethodError (ActiveRecordMerge.SanitizeEach).
- The database side is made of parameters of `ArModel`:
  - `quote_column_name`, `sanitize_sql_hash`, `table_name`, `primary_key`;
  - the columns, each with whether its class is Comparable;
  - the `:type_cast` coercion through a new record.
- Ruby regular expressions are not modelled as such:
  - the splitter is a hand-written scanner with ASCII `\w`;
  - a String exclusion is a case-insensitive substring test on ASCII letters;
  - a Regexp exclusion is a predicate parameter (`Pattern`).
- Strings are sequences of Unicode characters, while Ruby 1.8 strings are sequences of bytes. Two consequences follow:
  - ActiveRecordBridge.DefaultExclusion counts characters where `/^[^0-9].{0,2}$/` counts bytes: the model drops `été`, which is five bytes in UTF-8 and which Ruby 1.8 keeps;
  - the tests against Ruby's `\s` and `String#strip` are stated on characters, with `\s` as space, tab, newline, carriage return and form feed, and with strip also removing the vertical tab and NUL.
- Values.ToArray: a String becomes the one-element list holding it. Ruby 1.8's `Array(String)` goes through `String#to_a`, which splits the String into its lines and gives `[]` for the empty String. This matters in two places:
  - for `:columns` and `:column` (lib/active_record_bridge.rb:237): in Ruby a column name of `""` raises ArgumentError, and a name with a newline gives several columns;
  - for a String `:include` in `merge_find_options` (lib/active_record_bridge.rb:294).
- A Hash is a list of pairs in insertion order. Ruby 1.8 iterates a Hash in the order of its hash table, which is unspecified, so the following are choices of the model:
  - the order in which `attributes=` writes its pairs, and so which pair wins in `{:a => 1, 'a' => 2}` (Search.SearchInstance.SetAttributes);
  - the order of the given pairs that Search.WithDefaults keeps at the front;
  - the place of a new key in TextCriteria.AddMeta.
- Duplicate keys inside a Hash given as a value are not merged.
- The options of a search attribute are named by Symbols only: `SearchAttributes.Options` maps Symbol names. A String key such as `'default' => 1` cannot be written, so the ArgumentError that `options.keys - VALID_SEARCH_ATTRIBUTE_OPTIONS` gives for it (lib/search_api/search.rb:267) is not modelled.
- Metaprogramming (`define_method`, `attr_reader`, `class_eval`, inheritable attributes) becomes explicit maps in a registry. Inheritance of the registry by subclasses is not modelled.
- A String callback is evaluated with `eval`; it is an opaque action in the model.
- A Symbol callback may name a method the model defines or an attribute reader. Ruby's built-in methods are not modelled, and a user method takes precedence over a reader. This includes the library's own empty `before_find_options` (lib/search_api/callbacks.rb:30-31): in Callbacks.Dispatch, a Symbol callback `:before_find_options` that the class does not define raises NoMethodError, where Ruby calls that method.
- Exceptions raised inside blocks, procs, `store_as` coercions and callbacks are not modelled: these are total functions.
- `find_options_for_hash` (lib/search_api/search.rb:413-428) is not modelled. Nothing in the library calls it, and it calls `merge_find_options` without an argument.
- `SqlFragment.new` on a Hash, or on a list whose first element is not a String, is approximated through `to_s` of that element.
- SqlFragments.FromValue: a Symbol, an Integer or `true` raises NoMethodError, as it does under Ruby 1.8, where these have no `empty?`.
- `SearchApi::Search.new` with an argument that is not a Hash is not modelled; the given attributes are a list of pairs.
- `attributes=` with a key naming another method than an attribute writer is not modelled: such a key fails with NoMethodError.
- A custom bridge's rewrite assigns a new options Hash and block. An in-place edit of the shared Hash by user code is not modelled.
- Error messages are abbreviated; the model compares error kinds.
- Procs and regular expressions have no printable form. Where `to_s` is taken of one, the model uses a stand-in.
- ActiveRecordBridge.SingleColumnBalanced: `eq` is left out, because its condition comes from `sanitize_sql_hash`, a parameter.
- ActiveRecordBridge.ExclusionOf: a proc given as `:exclude` is read as a literal of its `to_s`.
- BridgeExamples.RewriterBridgeCoerces: `to_i` is modelled on integers only, so the example writes integers rather than the Strings `'1'` and `'2'` of the test.
- BridgeExamples.AutomaticBridgeDeclaresA: `String#succ` is modelled on `"a"` only.
- Concurrency, I/O and the database itself are outside the model.
