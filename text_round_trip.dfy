/** to_s read back by the parser: the keywords of a criterion, written out
    by to_s and parsed again without exclusions, are the same keywords,
    provided each of them can be written out so that the scanner reads it
    back (the well-formedness below); and a keyword that breaks it. */
module TextRoundTrip {
  import opened Values
  import opened TextCriteria
  import opened TextCriterionLaws

  // ---------------------------------------------------------------------
  // The pieces to_s writes

  function Words(pre: string, xs: seq<string>): (r: seq<Piece>)
    ensures |r| == |xs|
    ensures forall k :: 0 <= k < |xs| ==> r[k] == Word(pre, xs[k])
  {
    seq(|xs|, k requires 0 <= k < |xs| => Word(pre, xs[k]))
  }

  function EntryPieces(e: MetaEntry): (r: seq<Piece>)
    ensures |r| == |e.values|
    ensures forall k :: 0 <= k < |e.values| ==> r[k] == MetaPair(e.key, e.values[k])
  {
    seq(|e.values|, k requires 0 <= k < |e.values| => MetaPair(e.key, e.values[k]))
  }

  function MetaPieces(meta: seq<MetaEntry>): seq<Piece>
    decreases |meta|
  {
    if |meta| == 0 then [] else EntryPieces(meta[0]) + MetaPieces(meta[1..])
  }

  /** to_s's order: mandatory, negative, optional, then meta. */
  function Pieces(kw: Keywords): seq<Piece> {
    Words("+", kw.mandatory) + Words("-", kw.negative) + Words("", kw.optional) + MetaPieces(kw.meta)
  }

  lemma TextsConcat(a: seq<Piece>, b: seq<Piece>)
    ensures Texts(a + b) == Texts(a) + Texts(b)
  {
    assert forall k :: 0 <= k < |a + b| ==> Texts(a + b)[k] == (Texts(a) + Texts(b))[k] by {
      forall k | 0 <= k < |a + b|
        ensures Texts(a + b)[k] == (Texts(a) + Texts(b))[k]
      {
        if k < |a| {
          assert (a + b)[k] == a[k];
        } else {
          assert (a + b)[k] == b[k - |a|];
        }
      }
    }
  }

  lemma {:induction false} TextsOfMeta(meta: seq<MetaEntry>)
    ensures Texts(MetaPieces(meta)) == MetaChunks(meta)
    decreases |meta|
  {
    if |meta| > 0 {
      TextsOfMeta(meta[1..]);
      TextsConcat(EntryPieces(meta[0]), MetaPieces(meta[1..]));
      assert Texts(EntryPieces(meta[0])) == Prefixed(meta[0].key + ":", meta[0].values);
    }
  }

  /** The pieces are exactly what to_s joins. */
  lemma ChunksArePieces(kw: Keywords)
    ensures Texts(Pieces(kw)) == Chunks(kw)
  {
    var a := Words("+", kw.mandatory);
    var b := Words("-", kw.negative);
    var c := Words("", kw.optional);
    var d := MetaPieces(kw.meta);
    TextsConcat(a, b);
    TextsConcat(a + b, c);
    TextsConcat(a + b + c, d);
    assert Texts(a) == Prefixed("+", kw.mandatory);
    assert Texts(b) == Prefixed("-", kw.negative);
    assert Texts(c) == Prefixed("", kw.optional);
    TextsOfMeta(kw.meta);
  }

  // ---------------------------------------------------------------------
  // Keywords that survive the round trip

  /** An optional keyword must not read as a signed or a meta token. */
  predicate OptionalOk(x: string) {
    Scannable(x) && !StartsWith(x, '-') && !StartsWith(x, '+') && !EndsWith(x, ':')
  }

  /** A meta key and its values, all written out as the scanner reads them. */
  predicate EntryOk(e: MetaEntry) {
    Bare(e.key) && |e.values| > 0 && forall k :: 0 <= k < |e.values| ==> Scannable(e.values[k])
  }

  predicate WellFormed(kw: Keywords) {
    (forall k :: 0 <= k < |kw.mandatory| ==> Scannable(kw.mandatory[k]))
    && (forall k :: 0 <= k < |kw.negative| ==> Scannable(kw.negative[k]))
    && (forall k :: 0 <= k < |kw.optional| ==> OptionalOk(kw.optional[k]))
    && Distinct(Keys(kw.meta))
    && (forall k :: 0 <= k < |kw.meta| ==> EntryOk(kw.meta[k]))
  }

  /** A piece that the classification loop files where it came from. */
  predicate Classifiable(p: Piece) {
    match p
    case Word(pre, x) => ((pre == "+" || pre == "-") && Scannable(x)) || (pre == "" && OptionalOk(x))
    case MetaPair(k, v) => Bare(k) && Scannable(v)
  }

  lemma PiecesClassifiable(kw: Keywords)
    requires WellFormed(kw)
    ensures forall k :: 0 <= k < |Pieces(kw)| ==> Classifiable(Pieces(kw)[k])
  {
    var a := Words("+", kw.mandatory);
    var b := Words("-", kw.negative);
    var c := Words("", kw.optional);
    MetaClassifiable(kw.meta);
    var d := MetaPieces(kw.meta);
    forall k | 0 <= k < |Pieces(kw)|
      ensures Classifiable(Pieces(kw)[k])
    {
      var ps := Pieces(kw);
      if k < |a| {
        assert ps[k] == a[k];
      } else if k < |a| + |b| {
        assert ps[k] == b[k - |a|];
      } else if k < |a| + |b| + |c| {
        assert ps[k] == c[k - |a| - |b|];
      } else {
        assert ps[k] == d[k - |a| - |b| - |c|];
      }
    }
  }

  lemma {:induction false} MetaClassifiable(meta: seq<MetaEntry>)
    requires forall k :: 0 <= k < |meta| ==> EntryOk(meta[k])
    ensures forall k :: 0 <= k < |MetaPieces(meta)| ==> Classifiable(MetaPieces(meta)[k])
    ensures |MetaPieces(meta)| >= |meta|
    decreases |meta|
  {
    if |meta| > 0 {
      MetaClassifiable(meta[1..]);
      var a := EntryPieces(meta[0]);
      var d := MetaPieces(meta[1..]);
      assert EntryOk(meta[0]);
      forall k | 0 <= k < |a + d|
        ensures Classifiable((a + d)[k])
      {
        if k < |a| {
          assert (a + d)[k] == a[k];
        } else {
          assert (a + d)[k] == d[k - |a|];
        }
      }
    }
  }

  // ---------------------------------------------------------------------
  // The written-out string is collapsed and not blank

  lemma CollapsedConcat(a: string, b: string)
    requires Collapsed(a) && Collapsed(b)
    requires |a| == 0 || |b| == 0 || a[|a| - 1] != ' ' || b[0] != ' '
    ensures Collapsed(a + b)
  {
    var s := a + b;
    forall i | 0 <= i < |s| - 1
      ensures !(s[i] == ' ' && s[i + 1] == ' ')
    {
      if i + 1 < |a| {
        assert s[i] == a[i] && s[i + 1] == a[i + 1];
      } else if i >= |a| {
        assert s[i] == b[i - |a|] && s[i + 1] == b[i + 1 - |a|];
      }
    }
    forall i | 0 <= i < |s|
      ensures IsSpace(s[i]) ==> s[i] == ' '
    {
      if i < |a| {
        assert s[i] == a[i];
      } else {
        assert s[i] == b[i - |a|];
      }
    }
  }

  /** A written-out piece: collapsed, and neither starting nor ending with
      whitespace. */
  predicate Solid(t: string) {
    |t| > 0 && !IsStripped(t[0]) && t[|t| - 1] != ' ' && Collapsed(t)
  }

  lemma BareSolid(x: string)
    requires Bare(x)
    ensures Solid(x) && forall k :: 0 <= k < |x| ==> !IsSpace(x[k])
  {
    forall k | 0 <= k < |x|
      ensures !IsSpace(x[k])
    {
      assert InRun(x[k]) && !IsSpace(x[k]);
    }
  }

  lemma QuoteSolid(x: string)
    requires Scannable(x)
    ensures Solid(Quote(x))
  {
    if ' ' in x {
      CollapsedConcat("\"", x);
      CollapsedConcat("\"" + x, "\"");
    } else {
      BareSolid(x);
    }
  }

  lemma TextSolid(p: Piece)
    requires PieceOk(p)
    ensures Solid(Text(p))
  {
    match p
    case Word(pre, w) =>
      QuoteSolid(w);
      if pre != "" {
        CollapsedConcat(pre, Quote(w));
      } else {
        assert Text(p) == Quote(w);
      }
    case MetaPair(k, v) =>
      BareSolid(k);
      QuoteSolid(v);
      CollapsedConcat(k, ":");
      CollapsedConcat(k + ":", Quote(v));
  }

  lemma {:induction false} JoinSolid(ts: seq<string>)
    requires forall k :: 0 <= k < |ts| ==> Solid(ts[k])
    ensures Collapsed(Join(ts, " "))
    ensures |ts| > 0 ==> Solid(Join(ts, " ")) && |ts[0]| > 0 && Join(ts, " ")[0] == ts[0][0]
    decreases |ts|
  {
    if |ts| > 1 {
      var init := ts[..|ts| - 1];
      var last := ts[|ts| - 1];
      JoinSolid(init);
      var j := Join(init, " ");
      assert Join(ts, " ") == j + " " + last;
      CollapsedConcat(j, " ");
      CollapsedConcat(j + " ", last);
      assert (j + " " + last)[0] == j[0];
    }
  }

  lemma RenderShape(ps: seq<Piece>)
    requires forall k :: 0 <= k < |ps| ==> PieceOk(ps[k])
    ensures Collapsed(Join(Texts(ps), " "))
    ensures |ps| > 0 ==> !IsBlankString(Join(Texts(ps), " "))
  {
    forall k | 0 <= k < |ps|
      ensures Solid(Texts(ps)[k])
    {
      TextSolid(ps[k]);
    }
    JoinSolid(Texts(ps));
  }

  // ---------------------------------------------------------------------
  // The classification loop read from the front

  /** Classify as a left fold from a given state. */
  function Run(st: ParseState, toks: seq<string>, ex: Option<seq<Matcher>>, parseMeta: bool): ParseState
    decreases |toks|
  {
    if |toks| == 0 then st else Run(Step(st, toks[0], ex, parseMeta), toks[1..], ex, parseMeta)
  }

  lemma {:induction false} RunSnoc(st: ParseState, a: seq<string>, t: string, ex: Option<seq<Matcher>>, pm: bool)
    ensures Run(st, a + [t], ex, pm) == Step(Run(st, a, ex, pm), t, ex, pm)
    decreases |a|
  {
    if |a| == 0 {
      assert a + [t] == [t];
    } else {
      assert (a + [t])[1..] == a[1..] + [t];
      RunSnoc(Step(st, a[0], ex, pm), a[1..], t, ex, pm);
    }
  }

  lemma {:induction false} ClassifyIsRun(toks: seq<string>, ex: Option<seq<Matcher>>, pm: bool)
    ensures Classify(toks, ex, pm) == Run(ParseState(NoKeywords(), None), toks, ex, pm)
    decreases |toks|
  {
    if |toks| > 0 {
      var init := toks[..|toks| - 1];
      ClassifyIsRun(init, ex, pm);
      RunSnoc(ParseState(NoKeywords(), None), init, toks[|toks| - 1], ex, pm);
      assert init + [toks[|toks| - 1]] == toks;
    }
  }

  lemma {:induction false} RunConcat(st: ParseState, a: seq<string>, b: seq<string>, ex: Option<seq<Matcher>>, pm: bool)
    ensures Run(st, a + b, ex, pm) == Run(Run(st, a, ex, pm), b, ex, pm)
    decreases |a|
  {
    if |a| == 0 {
      assert a + b == b;
    } else {
      assert (a + b)[0] == a[0];
      assert (a + b)[1..] == a[1..] + b;
      RunConcat(Step(st, a[0], ex, pm), a[1..], b, ex, pm);
    }
  }

  /** Where the loop files one piece's tokens. */
  function PieceEffect(kw: Keywords, p: Piece): Keywords {
    match p
    case Word(pre, x) =>
      if pre == "+" then kw.(mandatory := kw.mandatory + [x])
      else if pre == "-" then kw.(negative := kw.negative + [x])
      else kw.(optional := kw.optional + [x])
    case MetaPair(k, v) => kw.(meta := AddMeta(kw.meta, k, v))
  }

  function ApplyPieces(kw: Keywords, ps: seq<Piece>): Keywords
    decreases |ps|
  {
    if |ps| == 0 then kw else ApplyPieces(PieceEffect(kw, ps[0]), ps[1..])
  }

  lemma PieceStep(kw: Keywords, p: Piece)
    requires Classifiable(p)
    ensures Run(ParseState(kw, None), PieceTokens(p), None, true) == ParseState(PieceEffect(kw, p), None)
  {
    var st := ParseState(kw, None);
    match p
    case Word(pre, x) =>
      var t := pre + x;
      assert Run(st, [t], None, true) == Step(st, t, None, true);
      if pre == "" {
        assert t == x;
      } else {
        assert t[0] == pre[0] && t[1..] == x;
      }
    case MetaPair(k, v) =>
      var t := k + ":";
      assert IsWordChar(k[0]) && t[0] == k[0];
      assert EndsWith(t, ':') && t[..|t| - 1] == k;
      var st1 := Step(st, t, None, true);
      assert st1 == ParseState(kw, Some(k));
      assert [t, v][1..] == [v];
      assert Run(st, [t, v], None, true) == Run(st1, [v], None, true);
  }

  lemma {:induction false} RunPieces(kw: Keywords, ps: seq<Piece>)
    requires forall k :: 0 <= k < |ps| ==> Classifiable(ps[k])
    ensures Run(ParseState(kw, None), AllTokens(ps), None, true) == ParseState(ApplyPieces(kw, ps), None)
    decreases |ps|
  {
    if |ps| > 0 {
      RunConcat(ParseState(kw, None), PieceTokens(ps[0]), AllTokens(ps[1..]), None, true);
      PieceStep(kw, ps[0]);
      RunPieces(PieceEffect(kw, ps[0]), ps[1..]);
    }
  }

  lemma {:induction false} ApplyConcat(kw: Keywords, a: seq<Piece>, b: seq<Piece>)
    ensures ApplyPieces(kw, a + b) == ApplyPieces(ApplyPieces(kw, a), b)
    decreases |a|
  {
    if |a| == 0 {
      assert a + b == b;
    } else {
      assert (a + b)[0] == a[0];
      assert (a + b)[1..] == a[1..] + b;
      ApplyConcat(PieceEffect(kw, a[0]), a[1..], b);
    }
  }

  /** Words with one prefix go to one group, in order. */
  function AddWords(kw: Keywords, pre: string, xs: seq<string>): Keywords {
    if pre == "+" then kw.(mandatory := kw.mandatory + xs)
    else if pre == "-" then kw.(negative := kw.negative + xs)
    else kw.(optional := kw.optional + xs)
  }

  lemma AddWordsConcat(kw: Keywords, pre: string, x: string, xs: seq<string>)
    ensures AddWords(AddWords(kw, pre, [x]), pre, xs) == AddWords(kw, pre, [x] + xs)
  {
    assert kw.mandatory + [x] + xs == kw.mandatory + ([x] + xs);
    assert kw.negative + [x] + xs == kw.negative + ([x] + xs);
    assert kw.optional + [x] + xs == kw.optional + ([x] + xs);
  }

  lemma {:induction false} ApplyWords(kw: Keywords, pre: string, xs: seq<string>)
    ensures ApplyPieces(kw, Words(pre, xs)) == AddWords(kw, pre, xs)
    decreases |xs|
  {
    if |xs| == 0 {
      assert kw.mandatory + xs == kw.mandatory;
      assert kw.negative + xs == kw.negative;
      assert kw.optional + xs == kw.optional;
    } else {
      var ws := Words(pre, xs);
      assert ws[1..] == Words(pre, xs[1..]);
      var kw1 := PieceEffect(kw, ws[0]);
      assert kw1 == AddWords(kw, pre, [xs[0]]);
      ApplyWords(kw1, pre, xs[1..]);
      AddWordsConcat(kw, pre, xs[0], xs[1..]);
      assert [xs[0]] + xs[1..] == xs;
    }
  }

  // ---------------------------------------------------------------------
  // Rebuilding the meta keywords

  lemma KeysConcat(a: seq<MetaEntry>, b: seq<MetaEntry>)
    ensures Keys(a + b) == Keys(a) + Keys(b)
  {
  }

  lemma KeysHead(m: seq<MetaEntry>)
    requires |m| > 0
    ensures Keys(m) == [m[0].key] + Keys(m[1..])
  {
  }

  /** A new key is appended at the end with its one value. */
  lemma {:induction false} AddMetaNew(m: seq<MetaEntry>, k: string, v: string)
    requires k !in Keys(m)
    ensures AddMeta(m, k, v) == m + [MetaEntry(k, [v])]
    decreases |m|
  {
    if |m| > 0 {
      KeysHead(m);
      AddMetaNew(m[1..], k, v);
      assert AddMeta(m, k, v) == [m[0]] + (m[1..] + [MetaEntry(k, [v])]);
      assert m == [m[0]] + m[1..];
    }
  }

  /** An entry under another key is passed over. */
  lemma AddMetaSkip(m0: MetaEntry, tail: seq<MetaEntry>, k: string, v: string)
    requires m0.key != k
    ensures AddMeta([m0] + tail, k, v) == [m0] + AddMeta(tail, k, v)
  {
    assert ([m0] + tail)[0] == m0 && ([m0] + tail)[1..] == tail;
  }

  /** The last key receives a further value. */
  lemma {:induction false} AddMetaLast(m: seq<MetaEntry>, k: string, vs: seq<string>, v: string)
    requires k !in Keys(m)
    ensures AddMeta(m + [MetaEntry(k, vs)], k, v) == m + [MetaEntry(k, vs + [v])]
    decreases |m|
  {
    var e := MetaEntry(k, vs);
    if |m| == 0 {
      assert m + [e] == [e] && [e][1..] == [];
    } else {
      KeysHead(m);
      AddMetaLast(m[1..], k, vs, v);
      AddMetaLastCons(m, e, MetaEntry(k, vs + [v]), v);
    }
  }

  lemma AddMetaLastCons(m: seq<MetaEntry>, e: MetaEntry, e1: MetaEntry, v: string)
    requires |m| > 0 && m[0].key != e.key
    requires AddMeta(m[1..] + [e], e.key, v) == m[1..] + [e1]
    ensures AddMeta(m + [e], e.key, v) == m + [e1]
  {
    SnocCons(m, e);
    SnocCons(m, e1);
    AddMetaSkip(m[0], m[1..] + [e], e.key, v);
  }

  lemma SnocCons(m: seq<MetaEntry>, x: MetaEntry)
    requires |m| > 0
    ensures m + [x] == [m[0]] + (m[1..] + [x])
  {
  }

  /** After the first entry of meta, the keys are still all distinct. */
  lemma MetaKeysStep(prev: seq<MetaEntry>, meta: seq<MetaEntry>)
    requires |meta| > 0 && Distinct(Keys(prev) + Keys(meta))
    ensures meta[0].key !in Keys(prev)
    ensures Keys(prev + [meta[0]]) + Keys(meta[1..]) == Keys(prev) + Keys(meta)
  {
    var ks := Keys(prev) + Keys(meta);
    KeysHead(meta);
    assert ks[|Keys(prev)|] == meta[0].key;
    forall i | 0 <= i < |Keys(prev)|
      ensures Keys(prev)[i] != meta[0].key
    {
      assert ks[i] == Keys(prev)[i];
    }
    KeysConcat(prev, [meta[0]]);
  }

  lemma EntryPiecesCons(k: string, vs: seq<string>)
    requires |vs| > 0
    ensures EntryPieces(MetaEntry(k, vs)) == [MetaPair(k, vs[0])] + EntryPieces(MetaEntry(k, vs[1..]))
  {
  }

  /** One further value of the last key lands at the end of its list. */
  lemma ApplyValueStep(kw: Keywords, m: seq<MetaEntry>, k: string, acc: seq<string>, v: string,
                       rest: seq<Piece>, kw1: Keywords)
    requires kw.meta == m + [MetaEntry(k, acc)] && k !in Keys(m)
    requires kw1 == kw.(meta := m + [MetaEntry(k, acc + [v])])
    ensures ApplyPieces(kw, [MetaPair(k, v)] + rest) == ApplyPieces(kw1, rest)
  {
    var ps := [MetaPair(k, v)] + rest;
    AddMetaLast(m, k, acc, v);
    assert PieceEffect(kw, ps[0]) == kw1;
    assert ps[1..] == rest;
  }

  lemma {:induction false} ApplyEntryRest(kw: Keywords, m: seq<MetaEntry>, k: string, acc: seq<string>, vs: seq<string>)
    requires kw.meta == m + [MetaEntry(k, acc)] && k !in Keys(m)
    ensures ApplyPieces(kw, EntryPieces(MetaEntry(k, vs))) == kw.(meta := m + [MetaEntry(k, acc + vs)])
    decreases |vs|
  {
    if |vs| == 0 {
      assert acc + vs == acc;
    } else {
      var rest := EntryPieces(MetaEntry(k, vs[1..]));
      EntryPiecesCons(k, vs);
      var kw1 := kw.(meta := m + [MetaEntry(k, acc + [vs[0]])]);
      ApplyValueStep(kw, m, k, acc, vs[0], rest, kw1);
      ApplyEntryRest(kw1, m, k, acc + [vs[0]], vs[1..]);
      assert acc + [vs[0]] + vs[1..] == acc + vs;
    }
  }

  lemma ApplyEntry(kw: Keywords, e: MetaEntry)
    requires e.key !in Keys(kw.meta) && |e.values| > 0
    ensures ApplyPieces(kw, EntryPieces(e)) == kw.(meta := kw.meta + [e])
  {
    var ps := EntryPieces(e);
    AddMetaNew(kw.meta, e.key, e.values[0]);
    var kw1 := PieceEffect(kw, ps[0]);
    assert ps[1..] == EntryPieces(MetaEntry(e.key, e.values[1..]));
    ApplyEntryRest(kw1, kw.meta, e.key, [e.values[0]], e.values[1..]);
    assert [e.values[0]] + e.values[1..] == e.values;
  }

  /** Filing the first meta entry leaves the rest to file into kw1. */
  lemma ApplyMetaHead(kw: Keywords, meta: seq<MetaEntry>, kw1: Keywords, rest: seq<MetaEntry>)
    requires |meta| > 0 && Distinct(Keys(kw.meta) + Keys(meta))
    requires forall k :: 0 <= k < |meta| ==> |meta[k].values| > 0
    requires kw1 == kw.(meta := kw.meta + [meta[0]]) && rest == meta[1..]
    ensures ApplyPieces(kw, MetaPieces(meta)) == ApplyPieces(kw1, MetaPieces(rest))
  {
    assert meta[0].key !in Keys(kw.meta) by {
      MetaKeysStep(kw.meta, meta);
    }
    assert meta == [meta[0]] + rest;
    assert |meta[0].values| > 0;
    FirstEntry(kw, meta[0], rest, kw1);
  }

  /** The keys of kw1 and of the rest are still all distinct. */
  lemma MetaRestDistinct(kw: Keywords, meta: seq<MetaEntry>, kw1: Keywords, rest: seq<MetaEntry>)
    requires |meta| > 0 && Distinct(Keys(kw.meta) + Keys(meta))
    requires kw1 == kw.(meta := kw.meta + [meta[0]]) && rest == meta[1..]
    ensures Distinct(Keys(kw1.meta) + Keys(rest))
  {
    MetaKeysStep(kw.meta, meta);
  }

  /** The rest still has values everywhere, and filing it completes meta. */
  lemma MetaRestValues(kw: Keywords, meta: seq<MetaEntry>, kw1: Keywords, rest: seq<MetaEntry>)
    requires |meta| > 0
    requires forall k :: 0 <= k < |meta| ==> |meta[k].values| > 0
    requires kw1 == kw.(meta := kw.meta + [meta[0]]) && rest == meta[1..]
    ensures forall k :: 0 <= k < |rest| ==> |rest[k].values| > 0
    ensures kw1.(meta := kw1.meta + rest) == kw.(meta := kw.meta + meta)
  {
    forall k | 0 <= k < |rest| ensures |rest[k].values| > 0 {
      assert rest[k] == meta[k + 1];
    }
    assert kw.meta + [meta[0]] + rest == kw.meta + meta;
  }

  lemma FirstEntry(kw: Keywords, e: MetaEntry, rest: seq<MetaEntry>, kw1: Keywords)
    requires e.key !in Keys(kw.meta) && |e.values| > 0
    requires kw1 == kw.(meta := kw.meta + [e])
    ensures ApplyPieces(kw, MetaPieces([e] + rest)) == ApplyPieces(kw1, MetaPieces(rest))
  {
    assert MetaPieces([e] + rest) == EntryPieces(e) + MetaPieces(rest);
    ApplyConcat(kw, EntryPieces(e), MetaPieces(rest));
    ApplyEntry(kw, e);
  }

  lemma {:induction false} ApplyMeta(kw: Keywords, meta: seq<MetaEntry>)
    requires Distinct(Keys(kw.meta) + Keys(meta))
    requires forall k :: 0 <= k < |meta| ==> |meta[k].values| > 0
    ensures ApplyPieces(kw, MetaPieces(meta)) == kw.(meta := kw.meta + meta)
    decreases |meta|
  {
    if |meta| == 0 {
      assert kw.meta + meta == kw.meta;
    } else {
      var kw1 := kw.(meta := kw.meta + [meta[0]]);
      var rest := meta[1..];
      ApplyMetaHead(kw, meta, kw1, rest);
      MetaRestDistinct(kw, meta, kw1, rest);
      MetaRestValues(kw, meta, kw1, rest);
      ApplyMeta(kw1, rest);
    }
  }

  /** Filing the pieces of a criterion, from nothing, yields that criterion. */
  lemma ApplyAll(kw: Keywords)
    requires WellFormed(kw)
    ensures ApplyPieces(NoKeywords(), Pieces(kw)) == kw
  {
    var a := Words("+", kw.mandatory);
    var b := Words("-", kw.negative);
    var c := Words("", kw.optional);
    var d := MetaPieces(kw.meta);
    ApplyConcat(NoKeywords(), a + b + c, d);
    ApplyConcat(NoKeywords(), a + b, c);
    ApplyConcat(NoKeywords(), a, b);
    ApplyWords(NoKeywords(), "+", kw.mandatory);
    var k1 := NoKeywords().(mandatory := kw.mandatory);
    assert [] + kw.mandatory == kw.mandatory;
    ApplyWords(k1, "-", kw.negative);
    var k2 := k1.(negative := kw.negative);
    assert [] + kw.negative == kw.negative;
    ApplyWords(k2, "", kw.optional);
    var k3 := k2.(optional := kw.optional);
    assert [] + kw.optional == kw.optional;
    assert Keys(k3.meta) + Keys(kw.meta) == Keys(kw.meta);
    ApplyMeta(k3, kw.meta);
    assert [] + kw.meta == kw.meta;
  }

  // ---------------------------------------------------------------------
  // The round trip

  lemma PiecesOk(kw: Keywords)
    requires WellFormed(kw)
    ensures forall k :: 0 <= k < |Pieces(kw)| ==> PieceOk(Pieces(kw)[k])
  {
    PiecesClassifiable(kw);
  }

  /** A criterion without keywords is the only one with no pieces. */
  lemma NoPieces(kw: Keywords)
    requires WellFormed(kw)
    ensures |Pieces(kw)| == 0 <==> IsEmpty(kw)
  {
    MetaClassifiable(kw.meta);
  }

  /** A search string that collapses to written-out pieces scans to their
      tokens. */
  lemma TokensOfPieces(s: string, ps: seq<Piece>)
    requires forall k :: 0 <= k < |ps| ==> PieceOk(ps[k])
    requires Collapse(s) == Join(Texts(ps), " ")
    ensures Tokens(s) == AllTokens(ps)
  {
    var j := Join(Texts(ps), " ");
    SpellsSuffix(j, 0);
    assert j[0..] == j;
    JoinedParts(j, 0, Texts(ps));
    PartsArePieces(j, 0, ps);
    AllOkOf(ps);
    ScanPieces(j, 0, ps);
  }

  /** A non-blank search string that collapses to classifiable pieces parses,
      without exclusions, to the keywords those pieces file, unless they file
      none. */
  lemma ParsePieces(s: string, ps: seq<Piece>)
    requires forall k :: 0 <= k < |ps| ==> Classifiable(ps[k])
    requires Collapse(s) == Join(Texts(ps), " ") && !IsBlankString(s)
    requires !IsEmpty(ApplyPieces(NoKeywords(), ps))
    ensures Parse(s, TextOptions(NoExclude, Nil)) == ApplyPieces(NoKeywords(), ps)
  {
    assert forall k :: 0 <= k < |ps| ==> PieceOk(ps[k]);
    TokensOfPieces(s, ps);
    ClassifyIsRun(AllTokens(ps), None, true);
    RunPieces(NoKeywords(), ps);
  }

  /** to_s is collapsed; it is blank only for a criterion without keywords,
      and otherwise its tokens are those of its pieces. */
  lemma RenderTokens(kw: Keywords)
    requires WellFormed(kw)
    ensures IsBlankString(Render(kw)) <==> IsEmpty(kw)
    ensures !IsEmpty(kw) ==> Tokens(Render(kw)) == AllTokens(Pieces(kw))
  {
    var ps := Pieces(kw);
    var r := Render(kw);
    ChunksArePieces(kw);
    PiecesOk(kw);
    NoPieces(kw);
    RenderShape(ps);
    if IsEmpty(kw) {
      assert r == "";
    } else {
      CollapseOfCollapsed(r);
      TokensOfPieces(r, ps);
    }
  }

  /** to_s, parsed again with meta parsing on and nothing excluded, gives back
      the same keywords, in the same order. */
  lemma RoundTrip(kw: Keywords)
    requires WellFormed(kw)
    ensures Parse(Render(kw), TextOptions(NoExclude, Nil)) == kw
  {
    RenderTokens(kw);
    if !IsEmpty(kw) {
      var toks := AllTokens(Pieces(kw));
      ClassifyIsRun(toks, None, true);
      PiecesClassifiable(kw);
      RunPieces(NoKeywords(), Pieces(kw));
      ApplyAll(kw);
    }
  }
}
