/** Google-like full-text criteria: a search string is split into tokens,
    each token is classified as a mandatory (+), negative (-), meta (key:)
    or optional keyword, and the keywords compile to an SQL fragment over a
    list of columns. */
module TextCriteria {
  import opened Values
  import opened SqlFragments

  // ---------------------------------------------------------------------
  // Whitespace collapsing: gsub(/\s+/, ' ')

  /** The input with its leading whitespace removed. */
  function SkipSpaces(s: string): (r: string)
    ensures |r| <= |s| && r == s[|s| - |r|..]
    ensures r == [] || !IsSpace(r[0])
    decreases |s|
  {
    if |s| > 0 && IsSpace(s[0]) then SkipSpaces(s[1..]) else s
  }

  /** Every run of whitespace becomes one space. */
  function Collapse(s: string): (r: string)
    decreases |s|
  {
    if |s| == 0 then []
    else if IsSpace(s[0]) then " " + Collapse(SkipSpaces(s[1..]))
    else [s[0]] + Collapse(s[1..])
  }

  /** A space is the only whitespace left, and never twice in a row. */
  predicate Collapsed(s: string) {
    (forall i :: 0 <= i < |s| ==> IsSpace(s[i]) ==> s[i] == ' ')
    && (forall i :: 0 <= i < |s| - 1 ==> !(s[i] == ' ' && s[i + 1] == ' '))
  }

  /** A character that is not whitespace keeps a collapsed string collapsed. */
  lemma ConsCollapsed(x: char, c: string)
    requires !IsSpace(x) && Collapsed(c)
    ensures Collapsed([x] + c)
  {
    var r := [x] + c;
    forall i | 1 <= i < |r|
      ensures r[i] == c[i - 1]
    {
    }
  }

  /** One space before a collapsed string that does not start with one. */
  lemma SpaceCollapsed(c: string)
    requires Collapsed(c) && (c == [] || c[0] != ' ')
    ensures Collapsed(" " + c)
  {
    var r := " " + c;
    forall i | 1 <= i < |r|
      ensures r[i] == c[i - 1]
    {
    }
  }

  lemma {:induction false} CollapseIsCollapsed(s: string)
    ensures Collapsed(Collapse(s))
    ensures |Collapse(s)| > 0 && Collapse(s)[0] == ' ' ==> |s| > 0 && IsSpace(s[0])
    decreases |s|
  {
    if |s| > 0 {
      if IsSpace(s[0]) {
        var t := SkipSpaces(s[1..]);
        CollapseIsCollapsed(t);
        var c := Collapse(t);
        assert Collapse(s) == " " + c;
        SpaceCollapsed(c);
      } else {
        var c := Collapse(s[1..]);
        CollapseIsCollapsed(s[1..]);
        assert Collapse(s) == [s[0]] + c;
        ConsCollapsed(s[0], c);
      }
    }
  }

  /** A string that is already collapsed is left as it is. */
  lemma {:induction false} CollapseOfCollapsed(s: string)
    requires Collapsed(s)
    ensures Collapse(s) == s
    decreases |s|
  {
    if |s| > 0 {
      assert Collapsed(s[1..]) by {
        forall i | 0 <= i < |s[1..]| - 1
          ensures !(s[1..][i] == ' ' && s[1..][i + 1] == ' ')
        {
          assert s[1..][i] == s[i + 1];
        }
      }
      CollapseOfCollapsed(s[1..]);
      if IsSpace(s[0]) {
        assert SkipSpaces(s[1..]) == s[1..] by {
          if |s| > 1 {
            assert !(s[0] == ' ' && s[1] == ' ');
          }
        }
      }
    }
  }

  // ---------------------------------------------------------------------
  // The token scanner: scan(/([-+]?\b[^ ":]+\b:?)|([-+]?"[^"]*")/)

  /** Characters matched by Ruby's \w (ASCII). */
  predicate IsWordChar(c: char) {
    ('a' <= c <= 'z') || ('A' <= c <= 'Z') || ('0' <= c <= '9') || c == '_'
  }

  predicate WordAt(s: string, q: int) {
    0 <= q < |s| && IsWordChar(s[q])
  }

  /** \b between positions p - 1 and p. */
  predicate Boundary(s: string, p: int) {
    WordAt(s, p - 1) != WordAt(s, p)
  }

  predicate IsSign(c: char) {
    c == '+' || c == '-'
  }

  /** The class [^ ":]. */
  predicate InRun(c: char) {
    c != ' ' && c != '"' && c != ':'
  }

  /** The greedy run [^ ":]+ backtracked to its last word boundary: q
      walks the candidate ends of the run, best is the last boundary met. */
  function LastBoundaryInRun(s: string, q: nat, best: Option<nat>): (r: Option<nat>)
    requires 0 < q <= |s|
    ensures r.Some? ==> q <= r.value <= |s| || r == best
    ensures best.Some? ==> r.Some?
    decreases |s| - q
  {
    var best' := if Boundary(s, q) then Some(q) else best;
    if q < |s| && InRun(s[q]) then LastBoundaryInRun(s, q + 1, best') else best'
  }

  /** \b[^ ":]+\b:? at position j: the end of the match, if any. */
  function WordFrom(s: string, j: nat): (r: Option<nat>)
    requires j <= |s|
    ensures r.Some? ==> j < r.value <= |s|
  {
    if !Boundary(s, j) || j == |s| || !InRun(s[j]) then None
    else
      match LastBoundaryInRun(s, j + 1, None)
      case None => None
      case Some(b) => Some(if b < |s| && s[b] == ':' then b + 1 else b)
  }

  /** The first alternative, trying the optional sign first. */
  function MatchWord(s: string, i: nat): (r: Option<nat>)
    requires i < |s|
    ensures r.Some? ==> i < r.value <= |s|
  {
    if IsSign(s[i]) && WordFrom(s, i + 1).Some? then WordFrom(s, i + 1) else WordFrom(s, i)
  }

  /** Index of the first '"' at or after q. */
  function CloseQuote(s: string, q: nat): (r: Option<nat>)
    requires q <= |s|
    ensures r.Some? ==> q <= r.value < |s| && s[r.value] == '"'
    decreases |s| - q
  {
    if q == |s| then None else if s[q] == '"' then Some(q) else CloseQuote(s, q + 1)
  }

  /** The second alternative: [-+]?"[^"]*". */
  function MatchPhrase(s: string, i: nat): (r: Option<nat>)
    requires i < |s|
    ensures r.Some? ==> i < r.value <= |s|
  {
    var j := if IsSign(s[i]) then i + 1 else i;
    if j < |s| && s[j] == '"' then
      match CloseQuote(s, j + 1)
      case Some(c) => Some(c + 1)
      case None => None
    else None
  }

  function MatchAt(s: string, i: nat): (r: Option<nat>)
    requires i < |s|
    ensures r.Some? ==> i < r.value <= |s|
  {
    var w := MatchWord(s, i);
    if w.Some? then w else MatchPhrase(s, i)
  }

  /** gsub(/"/, ''). */
  function RemoveQuotes(t: string): (r: string)
    ensures '"' !in r
    ensures '"' !in t ==> r == t
    decreases |t|
  {
    if |t| == 0 then []
    else (if t[0] == '"' then [] else [t[0]]) + RemoveQuotes(t[1..])
  }

  /** String#scan from position i: leftmost matches, left to right. */
  function ScanFrom(s: string, i: nat): (r: seq<string>)
    requires i <= |s|
    decreases |s| - i, 1
  {
    if i == |s| then [] else ScanAt(s, i)
  }

  /** One scan step at i: a match yields its text without quotes, and a
      position where nothing matches is skipped. */
  function ScanAt(s: string, i: nat): (r: seq<string>)
    requires i < |s|
    decreases |s| - i, 0
  {
    match MatchAt(s, i)
    case Some(e) => [RemoveQuotes(s[i..e])] + ScanFrom(s, e)
    case None => ScanFrom(s, i + 1)
  }

  /** The tokens of a search string. */
  function Tokens(s: string): seq<string> {
    ScanFrom(Collapse(s), 0)
  }

  // ---------------------------------------------------------------------
  // Exclusion (exclude_keyword?)

  function LowerChar(c: char): char {
    if 'A' <= c <= 'Z' then (c as int + 32) as char else c
  }

  function Lower(s: string): (r: string)
    ensures |r| == |s|
  {
    seq(|s|, k requires 0 <= k < |s| => LowerChar(s[k]))
  }

  /** =~ of an escaped, case-insensitive regexp: a substring test. */
  predicate ContainsIgnoringCase(s: string, t: string) {
    exists i :: 0 <= i <= |s| - |t| && OccursAt(s, t, i)
  }

  predicate OccursAt(s: string, t: string, i: int) {
    0 <= i <= |s| - |t| && Lower(s[i..i + |t|]) == Lower(t)
  }

  lemma LowerIdempotent(s: string)
    ensures Lower(Lower(s)) == Lower(s)
  {
  }

  /** An exclusion: a string (matched case-insensitively anywhere) or a
      regular expression, kept abstract as the predicate it decides. */
  datatype Matcher = Literal(text: string) | Pattern(hits: string -> bool)

  predicate Hits(m: Matcher, kw: string) {
    match m
    case Literal(t) => ContainsIgnoringCase(kw, t)
    case Pattern(p) => p(kw)
  }

  /** The :exclude option as given: absent, one value, or a list. */
  datatype ExcludeOption = NoExclude | One(m: Matcher) | Many(ms: seq<Matcher>)

  /** A single exclusion value is wrapped into a list. */
  function NormalizeExclude(e: ExcludeOption): (r: Option<seq<Matcher>>)
    ensures e.NoExclude? <==> r.None?
    ensures e.One? ==> r == Some([e.m])
    ensures e.Many? ==> r == Some(e.ms)
  {
    match e
    case NoExclude => None
    case One(m) => Some([m])
    case Many(ms) => Some(ms)
  }

  /** exclude_keyword?: false without exclusions, else whether any hits. */
  predicate Excluded(ex: Option<seq<Matcher>>, kw: string) {
    ex.Some? && exists i :: 0 <= i < |ex.value| && Hits(ex.value[i], kw)
  }

  /** Without an :exclude option nothing is excluded; a single exclusion
      behaves as the one-element list; an empty list excludes nothing. */
  lemma ExcludedCases(m: Matcher, ms: seq<Matcher>, kw: string)
    ensures !Excluded(NormalizeExclude(NoExclude), kw)
    ensures Excluded(NormalizeExclude(One(m)), kw) <==> Hits(m, kw)
    ensures Excluded(NormalizeExclude(Many(ms)), kw) <==> exists n :: n in ms && Hits(n, kw)
    ensures !Excluded(Some([]), kw)
  {
    assert [m][0] == m;
    assert (exists n :: n in ms && Hits(n, kw)) ==> Excluded(NormalizeExclude(Many(ms)), kw) by {
      if n :| n in ms && Hits(n, kw) {
        var i :| 0 <= i < |ms| && ms[i] == n;
      }
    }
  }

  lemma LowerSlice(s: string, i: nat, j: nat)
    requires i <= j <= |s|
    ensures Lower(s)[i..j] == Lower(s[i..j])
  {
    forall k | 0 <= k < j - i
      ensures Lower(s)[i..j][k] == Lower(s[i..j])[k]
    {
      assert Lower(s)[i..j][k] == Lower(s)[i + k];
    }
  }

  /** A literal exclusion ignores case on both sides and hits every keyword
      that contains it. */
  lemma LiteralIgnoresCase(t: string, kw: string, a: string, b: string)
    ensures Hits(Literal(Lower(t)), kw) <==> Hits(Literal(t), kw)
    ensures Hits(Literal(t), Lower(kw)) <==> Hits(Literal(t), kw)
    ensures Hits(Literal(t), a + t + b)
  {
    LowerIdempotent(t);
    forall i ensures OccursAt(kw, Lower(t), i) <==> OccursAt(kw, t, i) {
    }
    forall i ensures OccursAt(Lower(kw), t, i) <==> OccursAt(kw, t, i) {
      if 0 <= i <= |kw| - |t| {
        LowerSlice(kw, i, i + |t|);
        LowerIdempotent(kw[i..i + |t|]);
      }
    }
    assert (a + t + b)[|a|..|a| + |t|] == t;
    assert OccursAt(a + t + b, t, |a|);
  }

  // ---------------------------------------------------------------------
  // Classification (TextCriterion#initialize)

  /** One key of meta_keywords and its values, in insertion order. */
  datatype MetaEntry = MetaEntry(key: string, values: seq<string>)

  datatype Keywords = Keywords(
    meta: seq<MetaEntry>,
    mandatory: seq<string>,
    negative: seq<string>,
    optional: seq<string>)

  function NoKeywords(): Keywords {
    Keywords([], [], [], [])
  }

  predicate IsEmpty(kw: Keywords) {
    kw.meta == [] && kw.mandatory == [] && kw.negative == [] && kw.optional == []
  }

  function Keys(meta: seq<MetaEntry>): seq<string> {
    seq(|meta|, k requires 0 <= k < |meta| => meta[k].key)
  }

  /** The values recorded under key (nil, i.e. none, for an absent key). */
  function Lookup(meta: seq<MetaEntry>, key: string): seq<string>
    decreases |meta|
  {
    if |meta| == 0 then []
    else if meta[0].key == key then meta[0].values
    else Lookup(meta[1..], key)
  }

  /** The keys of an entry list read from the front. */
  lemma KeysCons(e: MetaEntry, rest: seq<MetaEntry>)
    ensures Keys([e] + rest) == [e.key] + Keys(rest)
  {
    var r := [e] + rest;
    assert forall k :: 1 <= k < |r| ==> r[k] == rest[k - 1];
  }

  /** (meta_keywords[key] ||= []) << value */
  function AddMeta(meta: seq<MetaEntry>, key: string, value: string): (r: seq<MetaEntry>)
    ensures Keys(r) == if key in Keys(meta) then Keys(meta) else Keys(meta) + [key]
    ensures Lookup(r, key) == Lookup(meta, key) + [value]
    ensures forall k :: k != key ==> Lookup(r, k) == Lookup(meta, k)
    decreases |meta|
  {
    if |meta| == 0 then [MetaEntry(key, [value])]
    else
      var m0, tail := meta[0], meta[1..];
      assert meta == [m0] + tail;
      KeysCons(m0, tail);
      if m0.key == key then
        var e := MetaEntry(key, m0.values + [value]);
        KeysCons(e, tail);
        [e] + tail
      else
        var rest := AddMeta(tail, key, value);
        KeysCons(m0, rest);
        assert ([m0] + rest)[1..] == rest;
        [m0] + rest
  }

  /** The parser state between two tokens: the keywords so far and the
      meta key waiting for its value (currentMeta). */
  datatype ParseState = ParseState(kw: Keywords, pending: Option<string>)

  predicate StartsWith(t: string, c: char) {
    |t| > 0 && t[0] == c
  }

  predicate EndsWith(t: string, c: char) {
    |t| > 0 && t[|t| - 1] == c
  }

  /** One turn of the classification loop. */
  function Step(st: ParseState, t: string, ex: Option<seq<Matcher>>, parseMeta: bool): ParseState {
    var kw := st.kw;
    if st.pending.Some? then
      ParseState(kw.(meta := AddMeta(kw.meta, st.pending.value, t)), None)
    else if StartsWith(t, '-') then
      if Excluded(ex, t[1..]) then st else ParseState(kw.(negative := kw.negative + [t[1..]]), None)
    else if StartsWith(t, '+') then
      if Excluded(ex, t[1..]) then st else ParseState(kw.(mandatory := kw.mandatory + [t[1..]]), None)
    else if EndsWith(t, ':') && parseMeta then
      ParseState(kw, Some(t[..|t| - 1]))
    else if Excluded(ex, t) then st
    else ParseState(kw.(optional := kw.optional + [t]), None)
  }

  /** The classification loop over a token list. */
  function Classify(tokens: seq<string>, ex: Option<seq<Matcher>>, parseMeta: bool): ParseState
    decreases |tokens|
  {
    if |tokens| == 0 then ParseState(NoKeywords(), None)
    else Step(Classify(tokens[..|tokens| - 1], ex, parseMeta), tokens[|tokens| - 1], ex, parseMeta)
  }

  /** One more token of the list is one more step of the loop. */
  lemma ClassifyPrefix(tokens: seq<string>, i: nat, ex: Option<seq<Matcher>>, parseMeta: bool)
    requires i < |tokens|
    ensures Classify(tokens[..i + 1], ex, parseMeta) == Step(Classify(tokens[..i], ex, parseMeta), tokens[i], ex, parseMeta)
  {
    assert tokens[..i + 1][..i] == tokens[..i];
  }

  /** A signed token lands in its group without its sign, unless the
      exclusion filter matches it once the sign is stripped. */
  lemma SignedClassification(t: string, ex: Option<seq<Matcher>>, pm: bool)
    requires |t| > 1 && (t[0] == '-' || t[0] == '+')
    ensures var kw := Classify([t], ex, pm).kw;
      (Excluded(ex, t[1..]) ==> kw == NoKeywords())
      && (!Excluded(ex, t[1..]) && t[0] == '-' ==> kw == NoKeywords().(negative := [t[1..]]))
      && (!Excluded(ex, t[1..]) && t[0] == '+' ==> kw == NoKeywords().(mandatory := [t[1..]]))
  {
    assert [t][..0] == [];
  }

  /** With :parse_meta? on, the token after "key:" is the value of key as
      it stands: neither excluded nor read for a sign. */
  lemma MetaValueVerbatim(k: string, v: string, ex: Option<seq<Matcher>>)
    requires k == [] || (k[0] != '-' && k[0] != '+')
    ensures Classify([k + ":", v], ex, true) == ParseState(NoKeywords().(meta := [MetaEntry(k, [v])]), None)
  {
    var toks := [k + ":", v];
    assert toks[..1] == [k + ":"];
    MetaKeyPending(k, ex);
    assert AddMeta([], k, v) == [MetaEntry(k, [v])];
  }

  /** "key:" alone leaves key waiting for its value. */
  lemma MetaKeyPending(k: string, ex: Option<seq<Matcher>>)
    requires k == [] || (k[0] != '-' && k[0] != '+')
    ensures Classify([k + ":"], ex, true) == ParseState(NoKeywords(), Some(k))
  {
    assert [k + ":"][..0] == [];
    assert (k + ":")[..|k + ":"| - 1] == k;
    assert (k + ":")[0] == if k == [] then ':' else k[0];
  }

  /** With :parse_meta? off, "key:" is an ordinary optional keyword, colon
      included. */
  lemma MetaOffKeepsColon(k: string, v: string)
    requires |k| > 0 && k[0] != '-' && k[0] != '+' && |v| > 0 && v[0] != '-' && v[0] != '+'
    ensures Classify([k + ":", v], None, false).kw == NoKeywords().(optional := [k + ":", v])
  {
    var toks := [k + ":", v];
    assert toks[..1] == [k + ":"] && toks[..1][..0] == [];
    assert (k + ":")[0] == k[0];
    assert !Excluded(None, k + ":") && !Excluded(None, v);
    var st := Step(ParseState(NoKeywords(), None), k + ":", None, false);
    assert st == ParseState(NoKeywords().(optional := [k + ":"]), None);
    assert Classify(toks[..1], None, false) == st;
    assert NoKeywords().(optional := [k + ":"] + [v]) == NoKeywords().(optional := [k + ":", v]);
  }

  /** The options TextCriterion.new accepts: :exclude and :parse_meta?. */
  datatype TextOptions = TextOptions(exclude: ExcludeOption, parseMeta: Value)

  /** :parse_meta? defaults to true when absent (nil). */
  function ParseMetaOn(v: Value): (r: bool)
    ensures r <==> v.Nil? || Truthy(v)
  {
    v != Bool(false)
  }

  /** The four keyword collections TextCriterion.new(s, options) holds. */
  function Parse(s: string, opts: TextOptions): (r: Keywords)
    ensures IsBlankString(s) ==> r == NoKeywords()
    ensures !IsBlankString(s) ==> !IsEmpty(r)
    ensures !IsBlankString(s) && IsEmpty(Classify(Tokens(s), NormalizeExclude(opts.exclude), ParseMetaOn(opts.parseMeta)).kw) ==>
      r == NoKeywords().(optional := [s])
    ensures !IsBlankString(s) && !IsEmpty(Classify(Tokens(s), NormalizeExclude(opts.exclude), ParseMetaOn(opts.parseMeta)).kw) ==>
      r == Classify(Tokens(s), NormalizeExclude(opts.exclude), ParseMetaOn(opts.parseMeta)).kw
  {
    if IsBlankString(s) then NoKeywords()
    else
      var kw := Classify(Tokens(s), NormalizeExclude(opts.exclude), ParseMetaOn(opts.parseMeta)).kw;
      if IsEmpty(kw) then kw.(optional := [s]) else kw
  }
  /** Parse, on a non-blank string, in terms of its tokens and options. */
  lemma ParseOfTokens(s: string, opts: TextOptions, tokens: seq<string>, ex: Option<seq<Matcher>>, pm: bool)
    requires !IsBlankString(s) && tokens == Tokens(s)
    requires ex == NormalizeExclude(opts.exclude) && pm == ParseMetaOn(opts.parseMeta)
    ensures var kw := Classify(tokens, ex, pm).kw;
      Parse(s, opts) == if IsEmpty(kw) then kw.(optional := [s]) else kw
  {
  }

  /** A token with no sign and no trailing colon that the exclusion filter
      matches is dropped without a trace. */
  predicate Dropped(t: string, ex: Option<seq<Matcher>>) {
    !StartsWith(t, '-') && !StartsWith(t, '+') && !EndsWith(t, ':') && Excluded(ex, t)
  }

  lemma {:induction false} ClassifyDropped(tokens: seq<string>, ex: Option<seq<Matcher>>, parseMeta: bool)
    requires forall k :: 0 <= k < |tokens| ==> Dropped(tokens[k], ex)
    ensures Classify(tokens, ex, parseMeta) == ParseState(NoKeywords(), None)
    decreases |tokens|
  {
    if |tokens| > 0 {
      var init := tokens[..|tokens| - 1];
      assert forall k :: 0 <= k < |init| ==> init[k] == tokens[k];
      ClassifyDropped(init, ex, parseMeta);
      assert Dropped(tokens[|tokens| - 1], ex);
    }
  }

  /** When the filter drops every token of a non-blank search string, the
      criterion searches on the whole string as one optional keyword. */
  lemma AllDroppedFallback(s: string, opts: TextOptions)
    requires !IsBlankString(s)
    requires forall k :: 0 <= k < |Tokens(s)| ==> Dropped(Tokens(s)[k], NormalizeExclude(opts.exclude))
    ensures Parse(s, opts) == NoKeywords().(optional := [s])
  {
    ClassifyDropped(Tokens(s), NormalizeExclude(opts.exclude), ParseMetaOn(opts.parseMeta));
  }


  // ---------------------------------------------------------------------
  // to_s and positive_keywords

  /** A keyword with a space is written between double quotes. */
  function Quote(x: string): string {
    if ' ' in x then "\"" + x + "\"" else x
  }

  function Prefixed(prefix: string, xs: seq<string>): (r: seq<string>)
    ensures |r| == |xs|
    ensures forall k :: 0 <= k < |xs| ==> r[k] == prefix + Quote(xs[k])
  {
    seq(|xs|, k requires 0 <= k < |xs| => prefix + Quote(xs[k]))
  }

  /** key:value chunks in the order of the meta keys and their values. */
  function MetaChunks(meta: seq<MetaEntry>): seq<string>
    decreases |meta|
  {
    if |meta| == 0 then []
    else Prefixed(meta[0].key + ":", meta[0].values) + MetaChunks(meta[1..])
  }

  function Chunks(kw: Keywords): seq<string> {
    Prefixed("+", kw.mandatory) + Prefixed("-", kw.negative) + Prefixed("", kw.optional) + MetaChunks(kw.meta)
  }

  /** to_s: the chunks joined by single spaces. */
  function Render(kw: Keywords): string {
    Join(Chunks(kw), " ")
  }

  // ---------------------------------------------------------------------
  // condition(inFields)

  function LikePattern(kw: string): string {
    "%" + kw + "%"
  }

  /** The clause for one field: plain LIKE, or guarded against NULL. */
  function Clause(field: string, guarded: bool): string {
    if guarded then field + " is not null AND " + field + " like ?" else field + " like ?"
  }

  /** inFields.inject(SqlFragment.new) { |cf, field| cf.or([clause, "%kw%"]) } */
  function FieldsDisjunction(fields: seq<string>, kw: string, guarded: bool): (r: Fragment)
    ensures r.Empty? <==> |fields| == 0
    ensures Params(r) == seq(|fields|, _ => Str(LikePattern(kw)))
    decreases |fields|
  {
    if |fields| == 0 then Empty
    else
      var n := |fields| - 1;
      var r := Or(FieldsDisjunction(fields[..n], kw, guarded), Frag(Clause(fields[n], guarded), [Str(LikePattern(kw))]));
      assert Params(r) == seq(n, _ => Str(LikePattern(kw))) + [Str(LikePattern(kw))];
      r
  }

  /** The parameters one keyword contributes per field, keyword by keyword. */
  function Expand(kws: seq<string>, n: nat): (r: seq<Value>)
    ensures |r| == |kws| * n
    decreases |kws|
  {
    if |kws| == 0 then [] else Expand(kws[..|kws| - 1], n) + seq(n, _ => Str(LikePattern(kws[|kws| - 1])))
  }

  /** Keywords folded with `and`, each one over all fields. */
  function AllKeywords(kws: seq<string>, fields: seq<string>, guarded: bool): (r: Fragment)
    ensures r.Empty? <==> |kws| == 0 || |fields| == 0
    ensures Params(r) == Expand(kws, |fields|)
    decreases |kws|
  {
    if |kws| == 0 then Empty
    else And(AllKeywords(kws[..|kws| - 1], fields, guarded), FieldsDisjunction(fields, kws[|kws| - 1], guarded))
  }

  /** Keywords folded with `or`, each one over all fields. */
  function AnyKeyword(kws: seq<string>, fields: seq<string>): (r: Fragment)
    ensures r.Empty? <==> |kws| == 0 || |fields| == 0
    ensures Params(r) == Expand(kws, |fields|)
    decreases |kws|
  {
    if |kws| == 0 then Empty
    else Or(AnyKeyword(kws[..|kws| - 1], fields), FieldsDisjunction(fields, kws[|kws| - 1], false))
  }

  /** The three groups a fresh fragment accumulates with `<<` (i.e. `and`). */
  function ConditionOf(kw: Keywords, fields: seq<string>): (r: Fragment)
    ensures Params(r) == Expand(kw.mandatory, |fields|) + Expand(kw.negative, |fields|) + Expand(kw.optional, |fields|)
    ensures r.Empty? <==> |fields| == 0 || (kw.mandatory == [] && kw.negative == [] && kw.optional == [])
  {
    And(And(And(Empty, AllKeywords(kw.mandatory, fields, false)),
            Not(AllKeywords(kw.negative, fields, true))),
        AnyKeyword(kw.optional, fields))
  }

  // ---------------------------------------------------------------------
  // The object

  /** A parsed full-text criterion. The keyword collections are public
      accessors; the options are fixed at construction. */
  class TextCriterion {
    var meta: seq<MetaEntry>
    var mandatory: seq<string>
    var negative: seq<string>
    var optional: seq<string>
    const exclude: Option<seq<Matcher>>
    const parseMeta: bool

    function Contents(): Keywords
      reads this
    {
      Keywords(meta, mandatory, negative, optional)
    }

    /** exclude_keyword? */
    predicate ExcludeKeyword(kw: string)
      reads this
    {
      Excluded(exclude, kw)
    }

    /** TextCriterion.new(s, options): the classification loop over the
        tokens, then the whole-string fallback. */
    constructor (s: string, opts: TextOptions)
      ensures Contents() == Parse(s, opts)
      ensures exclude == NormalizeExclude(opts.exclude) && parseMeta == ParseMetaOn(opts.parseMeta)
    {
      exclude := NormalizeExclude(opts.exclude);
      parseMeta := ParseMetaOn(opts.parseMeta);
      meta := [];
      mandatory := [];
      negative := [];
      optional := [];
      new;
      if !IsBlankString(s) {
        var tokens := Tokens(s);
        ClassifyTokens(tokens);
        ghost var kw := Classify(tokens, exclude, parseMeta).kw;
        ParseOfTokens(s, opts, tokens, exclude, parseMeta);
        if meta == [] && mandatory == [] && negative == [] && optional == [] {
          optional := optional + [s];
        }
      }
    }

    /** The classification loop over the tokens, from no keywords; a meta
        key still waiting for its value at the end is dropped. */
    method ClassifyTokens(tokens: seq<string>)
      requires Contents() == NoKeywords()
      modifies this
      ensures ParseState(Contents(), None) == Classify(tokens, exclude, parseMeta).(pending := None)
    {
      var currentMeta: Option<string> := None;
      var i := 0;
      while i < |tokens|
        invariant 0 <= i <= |tokens|
        invariant ParseState(Contents(), currentMeta) == Classify(tokens[..i], exclude, parseMeta)
      {
        ClassifyPrefix(tokens, i, exclude, parseMeta);
        currentMeta := Absorb(tokens[i], currentMeta);
        i := i + 1;
      }
      assert tokens[..|tokens|] == tokens;
    }

    /** The body of the classification loop for one token. */
    method Absorb(keyword: string, currentMeta: Option<string>) returns (next: Option<string>)
      modifies this
      ensures ParseState(Contents(), next) == Step(ParseState(old(Contents()), currentMeta), keyword, exclude, parseMeta)
    {
      next := currentMeta;
      if currentMeta.Some? {
        meta := AddMeta(meta, currentMeta.value, keyword);
        next := None;
      } else if StartsWith(keyword, '-') {
        if !ExcludeKeyword(keyword[1..]) {
          negative := negative + [keyword[1..]];
        }
      } else if StartsWith(keyword, '+') {
        if !ExcludeKeyword(keyword[1..]) {
          mandatory := mandatory + [keyword[1..]];
        }
      } else if EndsWith(keyword, ':') && parseMeta {
        next := Some(keyword[..|keyword| - 1]);
      } else if !ExcludeKeyword(keyword) {
        optional := optional + [keyword];
      }
    }

    /** positive_keywords: mandatory keywords, then optional ones. */
    function PositiveKeywords(): (r: seq<string>)
      reads this
      ensures |r| == |mandatory| + |optional|
      ensures r[..|mandatory|] == mandatory && r[|mandatory|..] == optional
    {
      mandatory + optional
    }

    /** to_s */
    function ToString(): (r: string)
      reads this
      ensures r == Render(Contents())
    {
      Join(Chunks(Contents()), " ")
    }

    /** condition(inFields): one fragment, extended in place with `<<` by
        the mandatory, the negated negative and the optional group. */
    method Condition(fields: seq<string>) returns (r: Fragment)
      ensures r == ConditionOf(Contents(), fields)
    {
      var conditions := new SqlFragment(Empty);
      var o1 := conditions.Push(AllKeywords(mandatory, fields, false));
      var o2 := conditions.Push(Not(AllKeywords(negative, fields, true)));
      var o3 := conditions.Push(AnyKeyword(optional, fields));
      r := conditions.contents;
    }
  }
}
