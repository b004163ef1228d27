/** Worked parses: the search string documented with the Ruby class, and a
    keyword that to_s writes in a form the parser reads differently. */
module TextExamples {
  import opened Values
  import opened TextCriteria
  import opened TextCriterionLaws
  import opened TextRoundTrip
  import AR = ActiveRecordBridge
  import SA = SearchAttributes

  lemma ColonRender(s: string)
    requires s == "a:b"
    ensures Render(Keywords([], [], [], [s])) == s
  {
    assert ' ' !in s;
    assert Quote(s) == s;
    assert Prefixed("", [s])[0] == "" + Quote(s) == s;
    assert Prefixed("", [s]) == [s];
    assert Prefixed("+", []) == [] && Prefixed("-", []) == [] && MetaChunks([]) == [];
    assert Chunks(Keywords([], [], [], [s])) == [s];
  }

  lemma ColonParse(s: string, p: Piece)
    requires s == "a:b" && p == MetaPair("a", "b")
    ensures Parse(s, TextOptions(NoExclude, Nil)) == Keywords([MetaEntry("a", ["b"])], [], [], [])
  {
    assert ' ' !in "b";
    assert Text(p) == s;
    assert Texts([p]) == [s];
    assert Join([s], " ") == s;
    assert Bare("a") && Bare("b");
    assert Classifiable(p) && PieceOk(p);
    RenderShape([p]);
    CollapseOfCollapsed(s);
    assert [p][1..] == [];
    assert ApplyPieces(NoKeywords(), [p]) == Keywords([MetaEntry("a", ["b"])], [], [], []);
    ParsePieces(s, [p]);
  }

  /** An optional keyword "a:b" is written out bare and read back as the
      meta keyword a with the value b: to_s does not quote colons, which is
      why the round trip asks optional keywords to be scannable words. */
  lemma ColonBreaksRoundTrip()
    ensures Render(Keywords([], [], [], ["a:b"])) == "a:b"
    ensures Parse("a:b", TextOptions(NoExclude, Nil)) == Keywords([MetaEntry("a", ["b"])], [], [], [])
  {
    ColonRender("a:b");
    ColonParse("a:b", MetaPair("a", "b"));
  }

  // ---------------------------------------------------------------------
  // The documented search string

  lemma CollapsedSlice(s: string, i: nat, k: nat)
    requires Collapsed(s) && i <= k <= |s|
    ensures Collapsed(s[i..k])
  {
    var t := s[i..k];
    forall p | 0 <= p < |t| ensures IsSpace(t[p]) ==> t[p] == ' ' {
      assert t[p] == s[i + p];
    }
    forall p | 0 <= p < |t| - 1 ensures !(t[p] == ' ' && t[p + 1] == ' ') {
      assert t[p] == s[i + p] && t[p + 1] == s[i + p + 1];
    }
  }

  /** A collapsed prefix that does not end in whitespace is kept as it is. */
  lemma {:induction false} CollapseAppend(a: string, t: string)
    requires Collapsed(a) && (|a| == 0 || !IsSpace(a[|a| - 1]))
    ensures Collapse(a + t) == a + Collapse(t)
    decreases |a|
  {
    if |a| == 0 {
      assert a + t == t;
    } else {
      CollapsedSlice(a, 1, |a|);
      CollapseAppend(a[1..], t);
      assert IsSpace(a[0]) ==> a[0] == ' ' && |a| > 1 && !IsSpace(a[1]);
      CollapseAppendStep(a, t);
    }
  }

  lemma CollapseAppendStep(a: string, t: string)
    requires |a| > 0 && (IsSpace(a[0]) ==> a[0] == ' ' && |a| > 1 && !IsSpace(a[1]))
    requires Collapse(a[1..] + t) == a[1..] + Collapse(t)
    ensures Collapse(a + t) == a + Collapse(t)
  {
    var rest := a[1..];
    var u := rest + Collapse(t);
    ConcatHead(a, t);
    CollapseUnfold(a + t);
    if IsSpace(a[0]) {
      SkipNothing(rest + t, a[1]);
    }
    ConsAssoc(a, rest, Collapse(t));
  }

  /** Putting the first character back in front. */
  lemma ConsAssoc(a: string, rest: string, u: string)
    requires |a| > 0 && rest == a[1..]
    ensures a + u == [a[0]] + (rest + u)
  {
    assert a == [a[0]] + rest;
  }

  /** The first character and the rest of a concatenation. */
  lemma ConcatHead(a: string, t: string)
    requires |a| > 0
    ensures (a + t)[0] == a[0] && (a + t)[1..] == a[1..] + t
  {
  }

  lemma CollapseUnfold(s: string)
    requires |s| > 0
    ensures Collapse(s) == if IsSpace(s[0]) then " " + Collapse(SkipSpaces(s[1..])) else [s[0]] + Collapse(s[1..])
  {
  }

  lemma SkipNothing(s: string, c: char)
    requires |s| > 0 && s[0] == c && !IsSpace(c)
    ensures SkipSpaces(s) == s
  {
  }

  /** Doubling the space between two halves of a collapsed string is
      undone by collapsing. */
  lemma CollapseExtraSpace(a: string, b: string)
    requires Collapsed(a + " " + b) && |a| > 0
    ensures Collapse(a + "  " + b) == a + " " + b
  {
    HalvesCollapsed(a, b);
    assert a + "  " + b == a + ("  " + b);
    CollapseAppend(a, "  " + b);
    LeadingSpaces(b);
  }

  lemma HalvesCollapsed(a: string, b: string)
    requires Collapsed(a + " " + b) && |a| > 0
    ensures Collapsed(a) && Collapsed(b) && !IsSpace(a[|a| - 1])
    ensures b == [] || !IsSpace(b[0])
  {
    var j := a + " " + b;
    CollapsedSlice(j, 0, |a|);
    CollapsedSlice(j, |a| + 1, |j|);
    assert j[..|a|] == a && j[|a| + 1..] == b;
    assert j[|a| - 1] == a[|a| - 1] && j[|a|] == ' ';
    if |b| > 0 {
      assert j[|a| + 1] == b[0];
    }
  }

  /** Two spaces in front of a collapsed string collapse to one. */
  lemma LeadingSpaces(b: string)
    requires Collapsed(b) && (b == [] || !IsSpace(b[0]))
    ensures Collapse("  " + b) == " " + b
  {
    var t := "  " + b;
    assert t[1..] == " " + b;
    assert (" " + b)[1..] == b;
    assert SkipSpaces(b) == b;
    assert SkipSpaces(" " + b) == b;
    CollapseOfCollapsed(b);
    assert Collapse(t) == " " + Collapse(SkipSpaces(t[1..]));
  }

  /** Join of two non-empty lists is the join of each, with one separator. */
  lemma {:induction false} JoinConcat(x: seq<string>, y: seq<string>, sep: string)
    requires |x| > 0 && |y| > 0
    ensures Join(x + y, sep) == Join(x, sep) + sep + Join(y, sep)
    decreases |y|
  {
    var xy := x + y;
    assert xy[..|xy| - 1] == x + y[..|y| - 1];
    if |y| == 1 {
      assert xy[..|xy| - 1] == x;
    } else {
      JoinConcat(x, y[..|y| - 1], sep);
    }
  }

  /** The keywords of the documented search string before its double space,
      and after it. */
  function FrontPieces(): seq<Piece> {
    [Word("", "bonjour"), Word("+", "les"), Word("+", "amis"), Word("-", "toto")]
  }

  function BackPieces(): seq<Piece> {
    [Word("-", "allons bon"), MetaPair("define", "salut poulette")]
  }

  function DocumentedKeywords(): Keywords {
    Keywords([MetaEntry("define", ["salut poulette"])], ["les", "amis"], ["toto", "allons bon"], ["bonjour"])
  }

  lemma PlainText(pre: string, w: string)
    requires ' ' !in w
    ensures Text(Word(pre, w)) == pre + w
  {
  }

  lemma DocumentedWords()
    ensures ' ' !in "bonjour" && ' ' !in "les" && ' ' !in "amis" && ' ' !in "toto"
    ensures Bare("bonjour") && Bare("les") && Bare("amis") && Bare("toto") && Bare("define")
  {
  }

  lemma PhrasesSpaced()
    ensures ' ' in "allons bon" && ' ' in "salut poulette"
  {
    assert "allons bon"[6] == ' ' && "salut poulette"[5] == ' ';
  }

  lemma DocumentedPhrases()
    ensures Scannable("allons bon") && Scannable("salut poulette")
  {
    PhrasesSpaced();
    assert Collapsed("allons bon");
  }

  lemma FrontTexts(ps: seq<Piece>)
    requires ps == FrontPieces()
    ensures Texts(ps) == ["bonjour", "+les", "+amis", "-toto"]
  {
    DocumentedWords();
    PlainText("", "bonjour");
    PlainText("+", "les");
    PlainText("+", "amis");
    PlainText("-", "toto");
    assert "" + "bonjour" == "bonjour";
    var ts := Texts(ps);
    assert ts[0] == Text(ps[0]) && ps[0] == Word("", "bonjour");
    assert ts[1] == Text(ps[1]) && ps[1] == Word("+", "les");
    assert ts[2] == Text(ps[2]) && ps[2] == Word("+", "amis");
    assert ts[3] == Text(ps[3]) && ps[3] == Word("-", "toto");
    assert "+" + "les" == "+les" && "+" + "amis" == "+amis" && "-" + "toto" == "-toto";
    assert ts[0] == "bonjour" && ts[1] == "+les" && ts[2] == "+amis" && ts[3] == "-toto";
    assert |ts| == 4;
  }

  lemma FrontJoin(ts: seq<string>)
    requires ts == ["bonjour", "+les", "+amis", "-toto"]
    ensures Join(ts, " ") == "bonjour +les +amis -toto"
  {
    assert ts[..3] == ["bonjour", "+les", "+amis"];
    assert ts[..3][..2] == ["bonjour", "+les"];
    assert ts[..3][..2][..1] == ["bonjour"];
    assert Join(ts[..3][..2], " ") == "bonjour +les";
    assert Join(ts[..3], " ") == "bonjour +les +amis";
  }

  /** The written-out phrases, spelt out (kept apart from the functions so
      that the comparison of the two spellings stays small). */
  lemma PhraseSpellings()
    ensures "-" + ("\"" + "allons bon" + "\"") == "-\"allons bon\""
    ensures "define" + ":" + ("\"" + "salut poulette" + "\"") == "define:\"salut poulette\""
  {
  }

  lemma NegativePhraseText()
    ensures Text(Word("-", "allons bon")) == "-\"allons bon\""
  {
    PhrasesSpaced();
    PhraseSpellings();
    assert Quote("allons bon") == "\"" + "allons bon" + "\"";
  }

  lemma MetaPhraseText()
    ensures Text(MetaPair("define", "salut poulette")) == "define:\"salut poulette\""
  {
    PhrasesSpaced();
    PhraseSpellings();
    assert Quote("salut poulette") == "\"" + "salut poulette" + "\"";
  }

  lemma BackTexts(ps: seq<Piece>)
    requires ps == BackPieces()
    ensures Texts(ps) == ["-\"allons bon\"", "define:\"salut poulette\""]
  {
    NegativePhraseText();
    MetaPhraseText();
    var ts := Texts(ps);
    assert ts[0] == Text(ps[0]) && ps[0] == Word("-", "allons bon");
    assert ts[1] == Text(ps[1]) && ps[1] == MetaPair("define", "salut poulette");
    assert |ts| == 2;
  }

  lemma BackJoin(ts: seq<string>)
    requires ts == ["-\"allons bon\"", "define:\"salut poulette\""]
    ensures Join(ts, " ") == "-\"allons bon\" define:\"salut poulette\""
  {
    assert ts[..1] == ["-\"allons bon\""];
  }

  lemma DocumentedClassifiable(ps: seq<Piece>)
    requires ps == FrontPieces() + BackPieces()
    ensures forall k :: 0 <= k < |ps| ==> Classifiable(ps[k])
  {
    DocumentedWords();
    DocumentedPhrases();
    assert OptionalOk("bonjour");
  }

  lemma ApplyCons(kw: Keywords, p: Piece, rest: seq<Piece>)
    ensures ApplyPieces(kw, [p] + rest) == ApplyPieces(PieceEffect(kw, p), rest)
  {
    assert ([p] + rest)[1..] == rest;
  }

  lemma DocumentedApply(ps: seq<Piece>)
    requires ps == FrontPieces() + BackPieces()
    ensures ApplyPieces(NoKeywords(), ps) == DocumentedKeywords()
  {
    var r5 := [MetaPair("define", "salut poulette")];
    var r4 := [Word("-", "allons bon")] + r5;
    var r3 := [Word("-", "toto")] + r4;
    var r2 := [Word("+", "amis")] + r3;
    var r1 := [Word("+", "les")] + r2;
    assert ps == [Word("", "bonjour")] + r1;
    var k1 := Keywords([], [], [], ["bonjour"]);
    var k2 := Keywords([], ["les"], [], ["bonjour"]);
    var k3 := Keywords([], ["les", "amis"], [], ["bonjour"]);
    var k4 := Keywords([], ["les", "amis"], ["toto"], ["bonjour"]);
    var k5 := Keywords([], ["les", "amis"], ["toto", "allons bon"], ["bonjour"]);
    ApplyCons(NoKeywords(), Word("", "bonjour"), r1);
    ApplyCons(k1, Word("+", "les"), r2);
    ApplyCons(k2, Word("+", "amis"), r3);
    ApplyCons(k3, Word("-", "toto"), r4);
    ApplyCons(k4, Word("-", "allons bon"), r5);
    ApplyCons(k5, MetaPair("define", "salut poulette"), []);
    assert r5 == [MetaPair("define", "salut poulette")] + [];
    assert PieceEffect(NoKeywords(), Word("", "bonjour")) == k1;
    assert PieceEffect(k1, Word("+", "les")) == k2;
    assert PieceEffect(k2, Word("+", "amis")) == k3;
    assert PieceEffect(k3, Word("-", "toto")) == k4;
    assert PieceEffect(k4, Word("-", "allons bon")) == k5;
    assert PieceEffect(k5, MetaPair("define", "salut poulette")) == DocumentedKeywords();
  }

  lemma DocumentedJoin(ps: seq<Piece>)
    requires ps == FrontPieces() + BackPieces()
    ensures Join(Texts(ps), " ") == "bonjour +les +amis -toto" + " " + "-\"allons bon\" define:\"salut poulette\""
  {
    FrontTexts(FrontPieces());
    FrontJoin(Texts(FrontPieces()));
    BackTexts(BackPieces());
    BackJoin(Texts(BackPieces()));
    TextsConcat(FrontPieces(), BackPieces());
    JoinConcat(Texts(FrontPieces()), Texts(BackPieces()), " ");
  }

  /** The documented string collapses to the written-out pieces. */
  lemma DocumentedLayout(a: string, b: string, ps: seq<Piece>)
    requires a == "bonjour +les +amis -toto" && b == "-\"allons bon\" define:\"salut poulette\""
    requires ps == FrontPieces() + BackPieces()
    ensures Collapse(a + "  " + b) == Join(Texts(ps), " ") && !IsBlankString(a + "  " + b)
  {
    DocumentedJoin(ps);
    DocumentedClassifiable(ps);
    RenderShape(ps);
    CollapseExtraSpace(a, b);
    assert (a + "  " + b)[0] == 'b';
  }

  /** The example at the head of the Ruby class, written as its two halves
      around the double space: the double space is ignored, quoted phrases
      are kept whole and define: takes the phrase after it as its value. */
  lemma DocumentedParse()
    ensures Parse("bonjour +les +amis -toto" + "  " + "-\"allons bon\" define:\"salut poulette\"",
                  TextOptions(NoExclude, Nil))
         == DocumentedKeywords()
  {
    var a := "bonjour +les +amis -toto";
    var b := "-\"allons bon\" define:\"salut poulette\"";
    var ps := FrontPieces() + BackPieces();
    DocumentedLayout(a, b, ps);
    DocumentedClassifiable(ps);
    DocumentedApply(ps);
    ParsePieces(a + "  " + b, ps);
  }

  // ---------------------------------------------------------------------
  // The whole-string fallback

  lemma ShortWordsTexts(ps: seq<Piece>)
    requires ps == [Word("", "ab"), Word("", "cd")]
    ensures Texts(ps) == ["ab", "cd"] && PieceOk(ps[0]) && PieceOk(ps[1])
  {
    assert ' ' !in "ab" && ' ' !in "cd";
    assert Bare("ab") && Bare("cd");
    PlainText("", "ab");
    PlainText("", "cd");
    assert "" + "ab" == "ab" && "" + "cd" == "cd";
    var ts := Texts(ps);
    assert ts[0] == Text(ps[0]) && ts[1] == Text(ps[1]);
  }

  lemma ShortWordsAll(ps: seq<Piece>)
    requires ps == [Word("", "ab"), Word("", "cd")]
    ensures AllTokens(ps) == ["ab", "cd"]
  {
    assert "" + "ab" == "ab" && "" + "cd" == "cd";
    assert PieceTokens(ps[0]) == ["ab"] && PieceTokens(ps[1]) == ["cd"];
    var tail := ps[1..];
    assert tail[0] == ps[1] && tail[1..] == [];
    assert AllTokens(tail[1..]) == [];
    assert AllTokens(tail) == ["cd"] + [];
    assert AllTokens(ps) == ["ab"] + ["cd"];
  }

  /** "ab cd" scans as two words of two letters. */
  lemma ShortWordsTokens(s: string, ps: seq<Piece>)
    requires s == "ab cd" && ps == [Word("", "ab"), Word("", "cd")]
    ensures Tokens(s) == ["ab", "cd"] && !IsBlankString(s)
  {
    ShortWordsTexts(ps);
    assert Join(["ab", "cd"], " ") == s by {
      assert ["ab", "cd"][..1] == ["ab"];
    }
    RenderShape(ps);
    CollapseOfCollapsed(s);
    TokensOfPieces(s, ps);
    ShortWordsAll(ps);
  }

  /** Under the ActiveRecord bridge's default exclusion both words of
      "ab cd" are too short to search on, so the parse keeps the whole
      string as its one optional keyword. */
  lemma DefaultExclusionFallback(s: string, opts: TextOptions)
    requires s == "ab cd" && opts == TextOptions(AR.ExclusionOf(SA.Plain(Nil)), Nil)
    ensures Parse(s, opts) == NoKeywords().(optional := [s])
  {
    ShortWordsTokens(s, [Word("", "ab"), Word("", "cd")]);
    var ex := NormalizeExclude(opts.exclude);
    AR.DefaultExclusionDrops("ab");
    AR.DefaultExclusionDrops("cd");
    assert Dropped(Tokens(s)[0], ex) && Dropped(Tokens(s)[1], ex);
    AllDroppedFallback(s, opts);
  }
}
