/** Properties of full-text criteria: how the scanner treats written-out
    keywords, the documented parse, the classification rules, to_s read back
    by the parser, and the shape of the SQL condition. */
module TextCriterionLaws {
  import opened Values
  import opened SqlFragments
  import opened TextCriteria

  // ---------------------------------------------------------------------
  // The scanner on words and phrases

  /** A keyword that to_s writes without quotes and the scanner reads back
      whole: word characters at both ends, nothing from [ ":] or \s inside. */
  predicate Bare(x: string) {
    |x| > 0 && IsWordChar(x[0]) && IsWordChar(x[|x| - 1])
    && forall k :: 0 <= k < |x| ==> InRun(x[k]) && !IsSpace(x[k])
  }

  /** A keyword to_s writes as a quoted phrase or as a bare word, in a form
      the parser reads back unchanged. */
  predicate Scannable(w: string) {
    if ' ' in w then '"' !in w && Collapsed(w) else Bare(w)
  }

  /** Inside a run that ends on a word boundary, the backtracking stops
      at the end of the run. */
  lemma {:induction false} RunEndsAt(s: string, q: nat, best: Option<nat>, e: nat)
    requires 0 < q <= e <= |s|
    requires forall p :: q <= p < e ==> InRun(s[p])
    requires e == |s| || !InRun(s[e])
    requires Boundary(s, e)
    ensures LastBoundaryInRun(s, q, best) == Some(e)
    decreases e - q
  {
    if q < e {
      RunEndsAt(s, q + 1, if Boundary(s, q) then Some(q) else best, e);
    }
  }

  lemma {:induction false} CloseQuoteExact(s: string, q: nat, c: nat)
    requires q <= c < |s| && s[c] == '"'
    requires forall p :: q <= p < c ==> s[p] != '"'
    ensures CloseQuote(s, q) == Some(c)
    decreases c - q
  {
    if q < c {
      CloseQuoteExact(s, q + 1, c);
    }
  }

  lemma {:induction false} RemoveQuotesConcat(a: string, b: string)
    ensures RemoveQuotes(a + b) == RemoveQuotes(a) + RemoveQuotes(b)
    decreases |a|
  {
    if |a| > 0 {
      var x := if a[0] == '"' then [] else [a[0]];
      assert (a + b)[0] == a[0];
      assert (a + b)[1..] == a[1..] + b;
      assert RemoveQuotes(a + b) == x + RemoveQuotes(a[1..] + b);
      assert RemoveQuotes(a) == x + RemoveQuotes(a[1..]);
      RemoveQuotesConcat(a[1..], b);
    } else {
      assert a + b == b;
    }
  }

  /** A bare word that starts after a non-word character is matched whole,
      together with a colon that follows it. */
  lemma WordMatch(s: string, i: nat, x: string)
    requires i + |x| <= |s| && s[i..i + |x|] == x && Bare(x)
    requires i == 0 || !IsWordChar(s[i - 1])
    requires i + |x| == |s| || s[i + |x|] == ' ' || s[i + |x|] == ':'
    ensures WordFrom(s, i) == Some(if i + |x| < |s| && s[i + |x|] == ':' then i + |x| + 1 else i + |x|)
    ensures MatchAt(s, i) == WordFrom(s, i)
  {
    var e := i + |x|;
    assert s[i] == x[0];
    assert s[e - 1] == x[|x| - 1];
    forall q | i <= q < e
      ensures InRun(s[q])
    {
      assert s[q] == x[q - i];
    }
    assert Boundary(s, e);
    assert Boundary(s, i);
    RunEndsAt(s, i + 1, None, e);
  }

  /** A sign followed by a bare word is matched as one token. */
  lemma SignedWordMatch(s: string, i: nat, x: string)
    requires i + 1 + |x| <= |s| && IsSign(s[i]) && s[i + 1..i + 1 + |x|] == x && Bare(x)
    requires i + 1 + |x| == |s| || s[i + 1 + |x|] == ' '
    ensures MatchAt(s, i) == Some(i + 1 + |x|)
  {
    WordMatch(s, i + 1, x);
  }

  /** An optionally signed quoted phrase after a non-word character is
      matched up to its closing quote. */
  lemma PhraseMatch(s: string, i: nat, p: string, y: string)
    requires p == "" || (|p| == 1 && IsSign(p[0]))
    requires i + |p| + |y| + 2 <= |s| && s[i..i + |p| + |y| + 2] == p + "\"" + y + "\""
    requires '"' !in y
    requires i == 0 || !IsWordChar(s[i - 1])
    ensures MatchAt(s, i) == Some(i + |p| + |y| + 2)
  {
    var t := p + "\"" + y + "\"";
    var j := i + |p|;
    assert s[j] == t[|p|] == '"';
    assert s[i] == t[0];
    assert !Boundary(s, i);
    if |p| == 1 {
      assert !Boundary(s, i + 1);
    }
    assert MatchWord(s, i) == None;
    forall q | j + 1 <= q < j + 1 + |y|
      ensures s[q] != '"'
    {
      assert s[q] == t[q - i] == y[q - j - 1];
    }
    assert s[j + 1 + |y|] == t[|t| - 1] == '"';
    CloseQuoteExact(s, j + 1, j + 1 + |y|);
  }

  /** Nothing starts at a space: the scanner steps over it. */
  lemma SpaceSkipped(s: string, i: nat)
    requires i < |s| && s[i] == ' '
    ensures ScanFrom(s, i) == ScanFrom(s, i + 1)
  {
    assert MatchAt(s, i) == None;
  }

  // ---------------------------------------------------------------------
  // Pieces of a rendered criterion

  /** What to_s writes for one keyword: a prefixed keyword, or key:value. */
  datatype Piece = Word(prefix: string, word: string) | MetaPair(key: string, value: string)

  function Text(p: Piece): string {
    match p
    case Word(pre, w) => pre + Quote(w)
    case MetaPair(k, v) => k + ":" + Quote(v)
  }

  /** The tokens the scanner yields for one piece. */
  function PieceTokens(p: Piece): seq<string> {
    match p
    case Word(pre, w) => [pre + w]
    case MetaPair(k, v) => [k + ":", v]
  }

  predicate PieceOk(p: Piece) {
    match p
    case Word(pre, w) => (pre == "" || pre == "+" || pre == "-") && Scannable(w)
    case MetaPair(k, v) => Bare(k) && Scannable(v)
  }

  function Texts(ps: seq<Piece>): (r: seq<string>)
    ensures |r| == |ps|
    ensures forall k {:trigger r[k]} :: 0 <= k < |ps| ==> r[k] == Text(ps[k])
  {
    seq(|ps|, k requires 0 <= k < |ps| => Text(ps[k]))
  }

  function AllTokens(ps: seq<Piece>): seq<string>
    decreases |ps|
  {
    if |ps| == 0 then [] else PieceTokens(ps[0]) + AllTokens(ps[1..])
  }

  lemma {:induction false} AllTokensConcat(a: seq<Piece>, b: seq<Piece>)
    ensures AllTokens(a + b) == AllTokens(a) + AllTokens(b)
    decreases |a|
  {
    if |a| > 0 {
      assert (a + b)[0] == a[0];
      assert (a + b)[1..] == a[1..] + b;
      assert AllTokens(a + b) == PieceTokens(a[0]) + AllTokens(a[1..] + b);
      AllTokensConcat(a[1..], b);
    } else {
      assert a + b == b;
    }
  }

  /** Join read from the front. */
  lemma {:induction false} JoinCons(c: string, cs: seq<string>, sep: string)
    requires |cs| > 0
    ensures Join([c] + cs, sep) == c + sep + Join(cs, sep)
    decreases |cs|
  {
    var n := |cs|;
    var all := [c] + cs;
    if n == 1 {
      assert all[..1] == [c];
    } else {
      var init := cs[..n - 1];
      assert all[..|all| - 1] == [c] + init;
      JoinCons(c, init, sep);
      assert Join(all, sep) == Join([c] + init, sep) + sep + cs[n - 1];
      assert Join(cs, sep) == Join(init, sep) + sep + cs[n - 1];
    }
  }

  lemma QuotedToken(w: string)
    requires Scannable(w)
    ensures RemoveQuotes(Quote(w)) == w
  {
    if ' ' in w {
      RemoveQuotesConcat("\"" + w, "\"");
      RemoveQuotesConcat("\"", w);
    } else {
      forall k | 0 <= k < |w|
        ensures w[k] != '"'
      {
        assert InRun(w[k]);
      }
    }
  }

  /** The token a written-out keyword scans to. */
  lemma WordToken(pre: string, w: string)
    requires PieceOk(Word(pre, w))
    ensures RemoveQuotes(Text(Word(pre, w))) == pre + w
  {
    RemoveQuotesConcat(pre, Quote(w));
    QuotedToken(w);
  }

  /** The match at i ends at e and, without its quotes, is the token tok. */
  predicate Yields(s: string, i: nat, e: nat, tok: string) {
    i < e <= |s| && MatchAt(s, i) == Some(e) && RemoveQuotes(s[i..e]) == tok
  }

  /** The scan from i yields tok, then goes on from e. */
  predicate Scans(s: string, i: nat, e: nat, tok: string) {
    i < e <= |s| && ScanFrom(s, i) == [tok] + ScanFrom(s, e)
  }

  /** One scanner step, for a match already established. */
  lemma ScanStep(s: string, i: nat, e: nat, tok: string)
    requires Yields(s, i, e, tok)
    ensures Scans(s, i, e, tok)
  {
  }

  /** A written-out phrase "..." (with its sign) is matched whole. */
  lemma PhraseEnd(s: string, i: nat, pre: string, w: string)
    requires PieceOk(Word(pre, w)) && ' ' in w
    requires i + |Text(Word(pre, w))| <= |s| && s[i..i + |Text(Word(pre, w))|] == Text(Word(pre, w))
    requires i == 0 || !IsWordChar(s[i - 1])
    ensures MatchAt(s, i) == Some(i + |Text(Word(pre, w))|)
  {
    assert Text(Word(pre, w)) == pre + "\"" + w + "\"";
    PhraseMatch(s, i, pre, w);
  }

  /** A written-out signed bare word is matched whole. */
  lemma SignedEnd(s: string, i: nat, pre: string, w: string)
    requires PieceOk(Word(pre, w)) && ' ' !in w && pre != ""
    requires i + |Text(Word(pre, w))| <= |s| && s[i..i + |Text(Word(pre, w))|] == Text(Word(pre, w))
    requires i + |Text(Word(pre, w))| == |s| || s[i + |Text(Word(pre, w))|] == ' '
    ensures MatchAt(s, i) == Some(i + |Text(Word(pre, w))|)
  {
    var t := Text(Word(pre, w));
    assert t == pre + w;
    assert s[i] == t[0];
    assert s[i + 1..i + 1 + |w|] == t[1..];
    SignedWordMatch(s, i, w);
  }

  /** Where a keyword written out ends its match. */
  lemma WordEnd(s: string, i: nat, pre: string, w: string)
    requires PieceOk(Word(pre, w))
    requires i + |Text(Word(pre, w))| <= |s| && s[i..i + |Text(Word(pre, w))|] == Text(Word(pre, w))
    requires i == 0 || !IsWordChar(s[i - 1])
    requires i + |Text(Word(pre, w))| == |s| || s[i + |Text(Word(pre, w))|] == ' '
    ensures MatchAt(s, i) == Some(i + |Text(Word(pre, w))|)
  {
    if ' ' in w {
      PhraseEnd(s, i, pre, w);
    } else if pre == "" {
      assert Text(Word(pre, w)) == w;
      WordMatch(s, i, w);
    } else {
      SignedEnd(s, i, pre, w);
    }
  }

  /** One keyword written out, followed by a space or the end. */
  lemma WordYields(s: string, i: nat, pre: string, w: string)
    requires PieceOk(Word(pre, w))
    requires i + |Text(Word(pre, w))| <= |s| && s[i..i + |Text(Word(pre, w))|] == Text(Word(pre, w))
    requires i == 0 || !IsWordChar(s[i - 1])
    requires i + |Text(Word(pre, w))| == |s| || s[i + |Text(Word(pre, w))|] == ' '
    ensures Yields(s, i, i + |Text(Word(pre, w))|, pre + w)
  {
    WordEnd(s, i, pre, w);
    WordToken(pre, w);
  }

  /** t occurs in s at position i. */
  predicate Spells(s: string, i: nat, t: string) {
    i + |t| <= |s| && forall k {:trigger t[k]} :: 0 <= k < |t| ==> s[i + k] == t[k]
  }

  lemma SpellsSlice(s: string, i: nat, t: string)
    ensures Spells(s, i, t) <==> i + |t| <= |s| && s[i..i + |t|] == t
  {
    if i + |t| <= |s| {
      if s[i..i + |t|] == t {
        forall k | 0 <= k < |t|
          ensures s[i + k] == t[k]
        {
          assert s[i..i + |t|][k] == s[i + k];
        }
      }
      if Spells(s, i, t) {
        assert forall k :: 0 <= k < |t| ==> s[i..i + |t|][k] == t[k];
      }
    }
  }

  lemma SpellsConcat(s: string, i: nat, a: string, b: string)
    ensures Spells(s, i, a + b) <==> Spells(s, i, a) && Spells(s, i + |a|, b)
  {
    if Spells(s, i, a + b) {
      forall k | 0 <= k < |a|
        ensures s[i + k] == a[k]
      {
        assert (a + b)[k] == a[k];
      }
      forall k | 0 <= k < |b|
        ensures s[i + |a| + k] == b[k]
      {
        assert (a + b)[|a| + k] == b[k];
      }
    }
    if Spells(s, i, a) && Spells(s, i + |a|, b) {
      forall k | 0 <= k < |a + b|
        ensures s[i + k] == (a + b)[k]
      {
        if k < |a| {
          assert a[k] == (a + b)[k];
        } else {
          assert b[k - |a|] == (a + b)[k];
        }
      }
    }
  }

  /** A one-character text is spelled where s holds that character. */
  lemma SpellsChar(s: string, i: nat, c: char)
    ensures Spells(s, i, [c]) <==> i < |s| && s[i] == c
  {
    assert [c][0] == c;
  }

  /** Every suffix of s is spelled where it starts. */
  lemma SpellsSuffix(s: string, i: nat)
    requires i <= |s|
    ensures Spells(s, i, s[i..])
  {
    assert forall k :: 0 <= k < |s[i..]| ==> s[i..][k] == s[i + k];
  }

  lemma KeyToken(k: string)
    requires Bare(k)
    ensures RemoveQuotes(k + ":") == k + ":"
  {
    forall q | 0 <= q < |k + ":"|
      ensures (k + ":")[q] != '"'
    {
      if q < |k| {
        assert InRun(k[q]);
      }
    }
  }

  /** A meta key is matched together with its colon. */
  lemma MetaKeyMatch(s: string, i: nat, k: string)
    requires Bare(k) && i + |k| < |s| && s[i..i + |k|] == k && s[i + |k|] == ':'
    requires i == 0 || !IsWordChar(s[i - 1])
    ensures MatchAt(s, i) == Some(i + |k| + 1)
  {
    WordMatch(s, i, k);
    assert WordFrom(s, i) == Some(i + |k| + 1);
  }

  /** A meta key and its colon make one token. */
  lemma KeyYields(s: string, i: nat, k: string)
    requires Bare(k) && Spells(s, i, k) && i + |k| < |s| && s[i + |k|] == ':'
    requires i == 0 || !IsWordChar(s[i - 1])
    ensures Scans(s, i, i + |k| + 1, k + ":")
  {
    SpellsSlice(s, i, k);
    MetaKeyMatch(s, i, k);
    assert s[i..i + |k| + 1] == k + ":";
    KeyToken(k);
    ScanStep(s, i, i + |k| + 1, k + ":");
  }

  /** A value after a meta key's colon, followed by a space or the end. */
  lemma ValueYields(s: string, m: nat, v: string)
    requires Scannable(v) && Spells(s, m, Quote(v))
    requires m > 0 && s[m - 1] == ':'
    requires m + |Quote(v)| == |s| || s[m + |Quote(v)|] == ' '
    ensures Scans(s, m, m + |Quote(v)|, v)
  {
    assert Text(Word("", v)) == Quote(v);
    assert "" + v == v;
    WordSpelled(s, m, "", v);
  }

  /** What the scanner makes of one piece ending at e. */
  predicate PieceScans(s: string, i: nat, p: Piece, e: nat) {
    match p
    case Word(pre, w) => Scans(s, i, e, pre + w)
    case MetaPair(k, v) => Scans(s, i, i + |k| + 1, k + ":") && Scans(s, i + |k| + 1, e, v)
  }

  /** A written-out key:value scans as the key with its colon, then the value. */
  lemma MetaYields(s: string, i: nat, k: string, v: string)
    requires PieceOk(MetaPair(k, v)) && Spells(s, i, Text(MetaPair(k, v)))
    requires i == 0 || !IsWordChar(s[i - 1])
    requires i + |Text(MetaPair(k, v))| == |s| || s[i + |Text(MetaPair(k, v))|] == ' '
    ensures PieceScans(s, i, MetaPair(k, v), i + |Text(MetaPair(k, v))|)
  {
    assert Text(MetaPair(k, v)) == (k + ":") + Quote(v);
    SpellsConcat(s, i, k + ":", Quote(v));
    SpellsConcat(s, i, k, ":");
    SpellsChar(s, i + |k|, ':');
    KeyYields(s, i, k);
    ValueYields(s, i + |k| + 1, v);
  }

  lemma WordSpelled(s: string, i: nat, pre: string, w: string)
    requires PieceOk(Word(pre, w)) && Spells(s, i, Text(Word(pre, w)))
    requires i == 0 || !IsWordChar(s[i - 1])
    requires i + |Text(Word(pre, w))| == |s| || s[i + |Text(Word(pre, w))|] == ' '
    ensures Scans(s, i, i + |Text(Word(pre, w))|, pre + w)
  {
    SpellsSlice(s, i, Text(Word(pre, w)));
    WordYields(s, i, pre, w);
    ScanStep(s, i, i + |Text(Word(pre, w))|, pre + w);
  }

  lemma PieceMatches(s: string, i: nat, p: Piece)
    requires PieceOk(p) && Spells(s, i, Text(p))
    requires i == 0 || !IsWordChar(s[i - 1])
    requires i + |Text(p)| == |s| || s[i + |Text(p)|] == ' '
    ensures PieceScans(s, i, p, i + |Text(p)|)
  {
    match p
    case Word(pre, w) => WordSpelled(s, i, pre, w);
    case MetaPair(k, v) => MetaYields(s, i, k, v);
  }

  lemma PieceScan(s: string, i: nat, p: Piece, e: nat)
    requires PieceScans(s, i, p, e)
    ensures e <= |s| && ScanFrom(s, i) == PieceTokens(p) + ScanFrom(s, e)
  {
    match p
    case Word(pre, w) =>
    case MetaPair(k, v) =>
      assert [k + ":"] + ([v] + ScanFrom(s, e)) == [k + ":", v] + ScanFrom(s, e);
  }

  /** A written-out piece from i to e, starting at a word boundary and
      followed by a space or the end, scans to its tokens. */
  lemma PieceAt(s: string, i: nat, p: Piece, e: nat)
    requires PieceOk(p) && e == i + |Text(p)| && Spells(s, i, Text(p))
    requires i == 0 || !IsWordChar(s[i - 1])
    requires e == |s| || s[e] == ' '
    ensures e <= |s| && ScanFrom(s, i) == PieceTokens(p) + ScanFrom(s, e)
  {
    PieceMatches(s, i, p);
    PieceScan(s, i, p, e);
  }

  /** Pieces written out from position i to the end of s, one space
      between two of them. */
  predicate PiecesAt(s: string, i: nat, ps: seq<Piece>)
    decreases |ps|
  {
    if |ps| == 0 then i == |s|
    else
      var e := i + |Text(ps[0])|;
      Spells(s, i, Text(ps[0]))
      && (if |ps| == 1 then e == |s| else e < |s| && s[e] == ' ' && PiecesAt(s, e + 1, ps[1..]))
  }

  /** Every piece is one to_s writes in a form the scanner reads back. */
  predicate AllOk(ps: seq<Piece>)
    decreases |ps|
  {
    |ps| == 0 || (PieceOk(ps[0]) && AllOk(ps[1..]))
  }

  lemma {:induction false} AllOkOf(ps: seq<Piece>)
    requires forall k :: 0 <= k < |ps| ==> PieceOk(ps[k])
    ensures AllOk(ps)
    decreases |ps|
  {
    if |ps| > 0 {
      assert forall k :: 0 <= k < |ps[1..]| ==> ps[1..][k] == ps[k + 1];
      AllOkOf(ps[1..]);
    }
  }

  /** Scanning pieces laid out one space apart yields their tokens in order. */
  lemma {:induction false} ScanPieces(s: string, i: nat, ps: seq<Piece>)
    requires i <= |s| && PiecesAt(s, i, ps) && AllOk(ps)
    requires i == 0 || !IsWordChar(s[i - 1])
    ensures ScanFrom(s, i) == AllTokens(ps)
    decreases |ps|
  {
    if |ps| > 0 {
      var e := i + |Text(ps[0])|;
      PieceAt(s, i, ps[0], e);
      if |ps| == 1 {
        assert AllTokens(ps) == PieceTokens(ps[0]) + AllTokens(ps[1..]);
      } else {
        SpaceSkipped(s, e);
        ScanPieces(s, e + 1, ps[1..]);
      }
    }
  }

  /** Texts written out from position i to the end of s, one space between
      two of them. */
  predicate PartsAt(s: string, i: nat, ts: seq<string>)
    decreases |ts|
  {
    if |ts| == 0 then i == |s|
    else
      var e := i + |ts[0]|;
      Spells(s, i, ts[0])
      && (if |ts| == 1 then e == |s| else e < |s| && s[e] == ' ' && PartsAt(s, e + 1, ts[1..]))
  }

  /** Texts joined by single spaces are laid out one space apart. */
  lemma {:induction false} JoinedParts(s: string, i: nat, ts: seq<string>)
    requires Spells(s, i, Join(ts, " ")) && i + |Join(ts, " ")| == |s|
    ensures PartsAt(s, i, ts)
    decreases |ts|
  {
    if |ts| > 1 {
      var t := ts[0];
      var rest := Join(ts[1..], " ");
      assert ts == [t] + ts[1..];
      JoinCons(t, ts[1..], " ");
      SpellsConcat(s, i, t + " ", rest);
      SpellsConcat(s, i, t, " ");
      SpellsChar(s, i + |t|, ' ');
      JoinedParts(s, i + |t| + 1, ts[1..]);
    }
  }

  lemma TextsTail(ps: seq<Piece>)
    requires |ps| > 0
    ensures Texts(ps)[0] == Text(ps[0]) && Texts(ps)[1..] == Texts(ps[1..])
  {
  }

  /** The texts of pieces laid out in order are the pieces laid out. */
  lemma {:induction false} PartsArePieces(s: string, i: nat, ps: seq<Piece>)
    requires PartsAt(s, i, Texts(ps))
    ensures PiecesAt(s, i, ps)
    decreases |ps|
  {
    if |ps| > 0 {
      TextsTail(ps);
      if |ps| > 1 {
        PartsArePieces(s, i + |Text(ps[0])| + 1, ps[1..]);
      }
    }
  }
}
