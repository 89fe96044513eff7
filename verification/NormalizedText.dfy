/** NormalizeExtractedText: pkg/document/normalize.go. */
module NormalizedText {
  import opened Strings
  import opened Lines

  // ---------- line ends ----------

  predicate StartsCrLf(s: string) {
    |s| >= 2 && s[0] == '\r' && s[1] == '\n'
  }

  /** ReplaceAll "\r\n" by "\n". */
  function WithoutCrLf(s: string): string {
    if s == [] then []
    else if StartsCrLf(s) then "\n" + WithoutCrLf(s[2..])
    else [s[0]] + WithoutCrLf(s[1..])
  }

  /** ReplaceAll "\r" by "\n". */
  function WithoutCr(s: string): string {
    if s == [] then [] else [if s[0] == '\r' then '\n' else s[0]] + WithoutCr(s[1..])
  }

  function UnixText(s: string): string {
    WithoutCr(WithoutCrLf(s))
  }

  lemma {:induction false} CrLfConserves(s: string)
    ensures NonSpace(WithoutCrLf(s)) == NonSpace(s)
  {
    if StartsCrLf(s) {
      CrLfConserves(s[2..]);
      assert s[1..][1..] == s[2..];
      NonSpaceConcat("\n", WithoutCrLf(s[2..]));
      NonSpaceBlank("\n");
    } else if s != [] {
      CrLfConserves(s[1..]);
      NonSpaceConcat([s[0]], WithoutCrLf(s[1..]));
    }
  }

  lemma {:induction false} CrConserves(s: string)
    ensures NonSpace(WithoutCr(s)) == NonSpace(s) && '\r' !in WithoutCr(s)
  {
    if s != [] {
      CrConserves(s[1..]);
      NonSpaceConcat([WithoutCr(s)[0]], WithoutCr(s[1..]));
    }
  }

  lemma {:induction false} UnixFixed(s: string)
    requires '\r' !in s
    ensures WithoutCrLf(s) == s && WithoutCr(s) == s
  {
    if s != [] {
      assert s[0] in s && '\r' !in s[1..];
      UnixFixed(s[1..]);
      assert [s[0]] + s[1..] == s;
    }
  }

  predicate Parted(a: string, b: string) {
    a == [] || b == [] || a[|a| - 1] != '\r' || b[0] != '\n'
  }

  lemma {:induction false} CrLfConcat(a: string, b: string)
    requires Parted(a, b)
    ensures WithoutCrLf(a + b) == WithoutCrLf(a) + WithoutCrLf(b)
    decreases |a|
  {
    if a == [] {
      assert a + b == b;
    } else {
      var n := if StartsCrLf(a) then 2 else 1;
      TailsAppend(a, b, n);
      CrLfConcat(a[n..], b);
      if n == 2 {
        CrLfPair(a);
        CrLfPair(a + b);
        Assoc("\n", WithoutCrLf(a[2..]), WithoutCrLf(b));
      } else {
        CrLfStep(a);
        CrLfStep(a + b);
        Assoc([a[0]], WithoutCrLf(a[1..]), WithoutCrLf(b));
      }
    }
  }

  lemma TailsAppend(a: string, b: string, n: nat)
    requires Parted(a, b) && 0 < n <= |a|
    ensures (a + b)[n..] == a[n..] + b && (a + b)[0] == a[0] && Parted(a[n..], b)
    ensures StartsCrLf(a + b) <==> StartsCrLf(a)
  {
  }

  lemma CrLfStep(s: string)
    requires s != "" && !StartsCrLf(s)
    ensures WithoutCrLf(s) == [s[0]] + WithoutCrLf(s[1..])
  {
  }

  lemma CrLfPair(s: string)
    requires StartsCrLf(s)
    ensures WithoutCrLf(s) == "\n" + WithoutCrLf(s[2..])
  {
  }

  lemma {:induction false} CrConcat(a: string, b: string)
    ensures WithoutCr(a + b) == WithoutCr(a) + WithoutCr(b)
  {
    if a == [] {
      assert a + b == b;
    } else {
      CrConcat(a[1..], b);
      assert (a + b)[1..] == a[1..] + b;
    }
  }

  lemma UnixConcat(a: string, b: string)
    requires Parted(a, b)
    ensures UnixText(a + b) == UnixText(a) + UnixText(b)
  {
    CrLfConcat(a, b);
    CrConcat(WithoutCrLf(a), WithoutCrLf(b));
  }

  /** Either end of a line becomes a newline; a text without carriage returns stays as it is (UnixFixed). */
  lemma LineEnds(a: string, b: string)
    ensures UnixText(a + ("\r\n" + b)) == UnixText(a) + ("\n" + UnixText(b))
    ensures !("\n" <= b) ==> UnixText(a + ("\r" + b)) == UnixText(a) + ("\n" + UnixText(b))
  {
    UnixConcat(a, "\r\n" + b);
    UnixConcat("\r\n", b);
    assert WithoutCrLf("\r\n") == "\n" + WithoutCrLf("\r\n"[2..]) == "\n";
    assert WithoutCr("\n") == "\n" + WithoutCr("\n"[1..]) == "\n";
    UnixConcat(a, "\r" + b);
    if !("\n" <= b) {
      UnixConcat("\r", b);
      assert WithoutCrLf("\r") == "\r" + WithoutCrLf("\r"[1..]) == "\r";
      assert WithoutCr("\r") == "\n" + WithoutCr("\r"[1..]) == "\n";
    }
  }

  // ---------- paragraphs ----------

  function UnlessNone(para: seq<string>): seq<seq<string>> {
    if para == [] then [] else [para]
  }

  /** The paragraphs of the lines when cur is the paragraph still open, its lines trimmed. */
  function Paragraphs(lines: seq<string>, cur: seq<string>): seq<seq<string>>
    decreases |lines|
  {
    if lines == [] then UnlessNone(cur)
    else if TrimSpace(lines[0]) == "" then UnlessNone(cur) + Paragraphs(lines[1..], [])
    else Paragraphs(lines[1..], cur + [TrimSpace(lines[0])])
  }

  function JoinEach(paras: seq<seq<string>>): seq<string> {
    if paras == [] then [] else JoinEach(paras[..|paras| - 1]) + [Join(paras[|paras| - 1])]
  }

  /** Paragraphs with an empty line between them. */
  function Render(paras: seq<seq<string>>): string {
    JoinBlank(JoinEach(paras))
  }

  function Normalized(s: string): string {
    TrimSpace(Render(Paragraphs(Split(UnixText(s)), [])))
  }

  function TrimAll(lines: seq<string>): seq<string> {
    if lines == [] then [] else TrimAll(lines[..|lines| - 1]) + [TrimSpace(lines[|lines| - 1])]
  }

  predicate NoneBlank(lines: seq<string>) {
    forall l :: l in lines ==> TrimSpace(l) != ""
  }

  lemma TrimAllLast(lines: seq<string>, l: string)
    ensures TrimAll(lines + [l]) == TrimAll(lines) + [TrimSpace(l)]
  {
    assert (lines + [l])[..|lines|] == lines;
  }

  /** flushPara. */
  method FlushPara(paras: seq<seq<string>>, cur: seq<string>) returns (paras': seq<seq<string>>)
    requires NoneBlank(cur)
    ensures paras' == paras + UnlessNone(TrimAll(cur))
  {
    paras' := paras;
    if |cur| == 0 {
      assert paras + [] == paras;
      return;
    }
    var trimmed := [];
    for i := 0 to |cur|
      invariant trimmed == TrimAll(cur[..i])
    {
      assert cur[..i + 1] == cur[..i] + [cur[i]] && cur[i] in cur;
      TrimAllLast(cur[..i], cur[i]);
      var t := TrimSpace(cur[i]);
      if t != "" { trimmed := trimmed + [t]; }
    }
    assert cur[..|cur|] == cur;
    if |trimmed| > 0 { paras' := paras' + [trimmed]; }
  }

  method SplitIntoParagraphs(lines: seq<string>) returns (paras: seq<seq<string>>)
    ensures paras == Paragraphs(lines, [])
  {
    paras := [];
    var cur: seq<string> := [];
    assert lines[0..] == lines;
    for i := 0 to |lines|
      invariant NoneBlank(cur) && paras + Paragraphs(lines[i..], TrimAll(cur)) == Paragraphs(lines, [])
    {
      assert lines[i..][1..] == lines[i + 1..];
      if TrimSpace(lines[i]) == "" {
        Assoc(paras, UnlessNone(TrimAll(cur)), Paragraphs(lines[i + 1..], []));
        paras := FlushPara(paras, cur);
        cur := [];
      } else {
        TrimAllLast(cur, lines[i]);
        cur := cur + [lines[i]];
      }
    }
    paras := FlushPara(paras, cur);
  }

  lemma RenderLast(paras: seq<seq<string>>, p: seq<string>)
    ensures JoinEach(paras + [p]) == JoinEach(paras) + [Join(p)]
    ensures Render(paras + [p]) == if paras == [] then Join(p) else Render(paras) + "\n\n" + Join(p)
  {
    assert (paras + [p])[..|paras|] == paras;
    JoinBlankLast(JoinEach(paras), Join(p));
  }

  method NormalizeExtractedText(s: string) returns (r: string)
    ensures r == Normalized(s)
  {
    var paras := SplitIntoParagraphs(Split(UnixText(s)));
    var b := "";
    for i := 0 to |paras|
      invariant b == Render(paras[..i])
    {
      assert paras[..i + 1] == paras[..i] + [paras[i]];
      RenderLast(paras[..i], paras[i]);
      if i > 0 { b := b + "\n\n"; }
      b := b + Join(paras[i]);
    }
    assert paras[..|paras|] == paras;
    return TrimSpace(b);
  }

  // ---------- what normalising keeps ----------

  lemma {:induction false} JoinEachConcat(a: seq<seq<string>>, b: seq<seq<string>>)
    ensures JoinEach(a + b) == JoinEach(a) + JoinEach(b)
  {
    if b == [] {
      assert a + b == a;
    } else {
      JoinEachConcat(a, b[..|b| - 1]);
      assert (a + b)[..|a + b| - 1] == a + b[..|b| - 1];
      Assoc(JoinEach(a), JoinEach(b[..|b| - 1]), [Join(b[|b| - 1])]);
    }
  }

  function ParasShow(paras: seq<seq<string>>): string {
    NonSpace(Concat(JoinEach(paras)))
  }

  lemma ParasShowConcat(a: seq<seq<string>>, b: seq<seq<string>>)
    ensures ParasShow(a + b) == ParasShow(a) + ParasShow(b)
  {
    JoinEachConcat(a, b);
    ConcatAppend(JoinEach(a), JoinEach(b));
    NonSpaceConcat(Concat(JoinEach(a)), Concat(JoinEach(b)));
  }

  lemma OnePara(cur: seq<string>)
    ensures ParasShow(UnlessNone(cur)) == NonSpace(Concat(cur))
  {
    if cur != [] {
      JoinConserves(cur);
      assert [cur][..0] == [] && JoinEach([cur]) == [] + [Join(cur)];
      ConcatOne(Join(cur));
      assert [] + [Join(cur)] == [Join(cur)];
    }
  }

  lemma {:induction false} ParagraphsConserve(lines: seq<string>, cur: seq<string>)
    ensures ParasShow(Paragraphs(lines, cur)) == NonSpace(Concat(cur)) + NonSpace(Concat(lines))
    decreases |lines|
  {
    OnePara(cur);
    if lines != [] {
      var l, rest := lines[0], lines[1..];
      NonSpaceTrim(l, IsSpace);
      NonSpaceConcat(l, Concat(rest));
      if TrimSpace(l) == "" {
        ParagraphsConserve(rest, []);
        ParasShowConcat(UnlessNone(cur), Paragraphs(rest, []));
      } else {
        var t := TrimSpace(l);
        ParagraphsConserve(rest, cur + [t]);
        ConcatAppend(cur, [t]);
        ConcatOne(t);
        NonSpaceConcat(Concat(cur), t);
        Assoc(NonSpace(Concat(cur)), NonSpace(t), NonSpace(Concat(rest)));
      }
    }
  }

  /** Every visible rune is kept, in order. */
  lemma NormalizedConserves(s: string)
    ensures NonSpace(Normalized(s)) == NonSpace(s)
  {
    CrLfConserves(s);
    CrConserves(WithoutCrLf(s));
    var lines := Split(UnixText(s));
    SplitIsLines(UnixText(s));
    JoinConserves(lines);
    ParagraphsConserve(lines, []);
    JoinBlankConserves(JoinEach(Paragraphs(lines, [])));
    NonSpaceTrim(Render(Paragraphs(lines, [])), IsSpace);
  }

  // ---------- the shape of normalised text ----------

  /** A trimmed line with something visible in it. */
  predicate IsProper(l: string) {
    l != "" && Tight(l, IsSpace) && OneLine(l) && '\r' !in l
  }

  predicate AreProper(ls: seq<string>) {
    forall l :: l in ls ==> IsProper(l)
  }

  predicate AreParagraphs(paras: seq<seq<string>>) {
    forall p :: p in paras ==> p != [] && AreProper(p)
  }

  predicate Returnless(ls: seq<string>) {
    forall l :: l in ls ==> OneLine(l) && '\r' !in l
  }

  lemma TrimmedIsProper(l: string)
    requires OneLine(l) && '\r' !in l && TrimSpace(l) != ""
    ensures IsProper(TrimSpace(l))
  {
    var a, b := TrimParts(l, IsSpace);
    assert forall c :: c in TrimSpace(l) ==> c in l;
  }

  lemma {:induction false} ParagraphsShape(lines: seq<string>, cur: seq<string>)
    requires Returnless(lines) && AreProper(cur)
    ensures AreParagraphs(Paragraphs(lines, cur))
    decreases |lines|
  {
    if lines != [] {
      assert lines[0] in lines && forall l :: l in lines[1..] ==> l in lines;
      if TrimSpace(lines[0]) == "" {
        ParagraphsShape(lines[1..], []);
      } else {
        TrimmedIsProper(lines[0]);
        ParagraphsShape(lines[1..], cur + [TrimSpace(lines[0])]);
      }
    }
  }

  lemma {:induction false} JoinEachTight(paras: seq<seq<string>>)
    requires AreParagraphs(paras)
    ensures forall t :: t in JoinEach(paras) ==> t != "" && Tight(t, IsSpace)
  {
    if paras != [] {
      var front, p := paras[..|paras| - 1], paras[|paras| - 1];
      assert p in paras && forall q :: q in front ==> q in paras;
      JoinEachTight(front);
      JoinTight(p);
    }
  }

  lemma RenderTight(paras: seq<seq<string>>)
    requires AreParagraphs(paras)
    ensures Tight(Render(paras), IsSpace) && (Render(paras) == "" <==> paras == [])
  {
    JoinEachTight(paras);
    if paras != [] {
      assert JoinEach(paras) != [];
      JoinBlankTight(JoinEach(paras));
    }
  }

  lemma SplitReturnless(s: string)
    requires '\r' !in s
    ensures Returnless(Split(s))
  {
    SplitIsLines(s);
    JoinHasRunes(Split(s));
  }

  lemma {:induction false} JoinHasRunes(ls: seq<string>)
    ensures forall l, c :: l in ls && c in l ==> c in Join(ls)
  {
    if |ls| > 1 {
      JoinHasRunes(ls[1..]);
      assert forall l :: l in ls ==> l == ls[0] || l in ls[1..];
    }
  }

  /** Normalised text is proper lines in paragraphs: no white space is left at any line's ends, nor two empty lines. */
  lemma NormalizedShape(s: string) returns (paras: seq<seq<string>>)
    ensures paras == Paragraphs(Split(UnixText(s)), []) && (paras == [] <==> Normalized(s) == "")
    ensures AreParagraphs(paras) && Normalized(s) == Render(paras) && Tight(Normalized(s), IsSpace)
  {
    CrConserves(WithoutCrLf(s));
    SplitReturnless(UnixText(s));
    paras := Paragraphs(Split(UnixText(s)), []);
    ParagraphsShape(Split(UnixText(s)), []);
    RenderTight(paras);
    TrimTight(Render(paras), IsSpace);
  }

  // ---------- where paragraphs end ----------

  lemma {:induction false} ParagraphsBreak(a: seq<string>, cur: seq<string>, blank: string, b: seq<string>)
    requires All(blank, IsSpace)
    ensures Paragraphs(a + ([blank] + b), cur) == Paragraphs(a, cur) + Paragraphs(b, [])
    decreases |a|
  {
    var all := a + ([blank] + b);
    if a == [] {
      BlankIff(blank);
      assert all[1..] == b && all[0] == blank;
    } else {
      assert all[1..] == a[1..] + ([blank] + b) && all[0] == a[0];
      if TrimSpace(a[0]) == "" {
        ParagraphsBreak(a[1..], [], blank, b);
        Assoc(UnlessNone(cur), Paragraphs(a[1..], []), Paragraphs(b, []));
      } else {
        ParagraphsBreak(a[1..], cur + [TrimSpace(a[0])], blank, b);
      }
    }
  }

  lemma {:induction false} ParagraphsOfVisible(ls: seq<string>, cur: seq<string>)
    requires NoneBlank(ls)
    ensures Paragraphs(ls, cur) == UnlessNone(cur + Trimmed(ls))
    decreases |ls|
  {
    if ls == [] {
      assert cur + Trimmed(ls) == cur;
    } else {
      assert ls[0] in ls && forall l :: l in ls[1..] ==> l in ls;
      ParagraphsOfVisible(ls[1..], cur + [TrimSpace(ls[0])]);
      assert cur + [TrimSpace(ls[0])] + Trimmed(ls[1..]) == cur + Trimmed(ls);
    }
  }

  function Trimmed(ls: seq<string>): seq<string> {
    seq(|ls|, i requires 0 <= i < |ls| => TrimSpace(ls[i]))
  }

  lemma {:induction false} RenderConcat(a: seq<seq<string>>, b: seq<seq<string>>)
    requires a != [] && b != []
    ensures Render(a + b) == Render(a) + ("\n\n" + Render(b))
  {
    var front, p := b[..|b| - 1], b[|b| - 1];
    assert b == front + [p] && a + b == (a + front) + [p];
    if front == [] {
      assert b == [p];
      RenderOneMore(a, p);
    } else {
      RenderConcat(a, front);
      RenderLast(a + front, p);
      RenderLast(front, p);
      ThreeParts(Render(a), "\n\n", Render(front), Join(p));
    }
  }

  lemma RenderOneMore(a: seq<seq<string>>, p: seq<string>)
    requires a != []
    ensures Render(a + [p]) == Render(a) + ("\n\n" + Render([p]))
  {
    RenderLast(a, p);
    RenderLast([], p);
    assert [] + [p] == [p];
    Assoc(Render(a), "\n\n", Join(p));
  }

  lemma ThreeParts(a: string, sep: string, b: string, c: string)
    ensures a + (sep + b) + sep + c == a + (sep + (b + sep + c))
  {
  }

  lemma SplitAtBlank(a: string, blank: string, b: string)
    requires OneLine(blank)
    ensures Split(a + "\n" + (blank + "\n" + b)) == Split(a) + ([blank] + Split(b))
  {
    SplitConcat(a, blank + "\n" + b);
    SplitConcat(blank, b);
    SplitOne(blank);
  }

  lemma PartsReturnless(a: string, sep: string, b: string)
    requires '\r' !in a + "\n" + (sep + "\n" + b)
    ensures UnixText(a) == a && UnixText(b) == b
  {
    var s := a + "\n" + (sep + "\n" + b);
    assert forall c :: c in a || c in b ==> c in s;
    UnixFixed(a);
    UnixFixed(b);
  }

  /** Texts on both sides of a blank line are normalised apart, and an empty line is put between what is left. */
  lemma NormalizedBreaks(s: string, a: string, blank: string, b: string)
    requires UnixText(s) == a + "\n" + (blank + "\n" + b) && All(blank, IsSpace) && OneLine(blank)
    ensures Normalized(s) == if Normalized(a) == "" then Normalized(b) else if Normalized(b) == "" then Normalized(a)
                             else Normalized(a) + ("\n\n" + Normalized(b))
  {
    CrConserves(WithoutCrLf(s));
    PartsReturnless(a, blank, b);
    SplitAtBlank(a, blank, b);
    var all := NormalizedShape(s);
    var p := NormalizedShape(a);
    var q := NormalizedShape(b);
    ParagraphsBreak(Split(a), [], blank, Split(b));
    RendersApart(p, q);
  }

  lemma RendersApart(p: seq<seq<string>>, q: seq<seq<string>>)
    ensures Render(p + q) == if p == [] then Render(q) else if q == [] then Render(p)
                             else Render(p) + ("\n\n" + Render(q))
  {
    if p == [] {
      assert p + q == q;
    } else if q == [] {
      assert p + q == p;
    } else {
      RenderConcat(p, q);
    }
  }

  /** A text without blank lines is one paragraph of its lines, each trimmed. */
  lemma NormalizedLines(s: string)
    requires forall l :: l in Split(UnixText(s)) ==> !All(l, IsSpace)
    ensures Normalized(s) == Join(Trimmed(Split(UnixText(s))))
  {
    var ls := Split(UnixText(s));
    forall l | l in ls ensures TrimSpace(l) != "" { BlankIff(l); }
    ParagraphsOfVisible(ls, []);
    var paras := NormalizedShape(s);
    assert [] + Trimmed(ls) == Trimmed(ls);
    RenderLast([], Trimmed(ls));
  }

  // ---------- normalising twice ----------

  lemma ParagraphsOfProper(ls: seq<string>)
    requires AreProper(ls)
    ensures Paragraphs(ls, []) == UnlessNone(ls)
  {
    forall i | 0 <= i < |ls| ensures TrimSpace(ls[i]) == ls[i] != "" {
      assert ls[i] in ls;
      TrimTight(ls[i], IsSpace);
    }
    assert [] + Trimmed(ls) == ls;
    ParagraphsOfVisible(ls, []);
  }

  /** The paragraphs of rendered paragraphs are these paragraphs. */
  lemma {:induction false} ParagraphsOfRender(paras: seq<seq<string>>)
    requires AreParagraphs(paras)
    ensures Paragraphs(Split(Render(paras)), []) == paras
  {
    if paras == [] {
      BlankIff("");
      assert Split("") == [""] && [""][1..] == [];
    } else {
      var front, p := paras[..|paras| - 1], paras[|paras| - 1];
      assert paras == front + [p] && p in paras && forall q :: q in front ==> q in paras;
      RenderLast(front, p);
      SplitJoin(p);
      ParagraphsOfProper(p);
      if front != [] {
        ParagraphsOfRender(front);
        BreakLines(Render(front), Join(p));
        ParagraphsBreak(Split(Render(front)), [], "", p);
      }
    }
  }

  lemma BreakLines(a: string, b: string)
    ensures Split(a + "\n\n" + b) == Split(a) + ([""] + Split(b))
  {
    assert a + "\n\n" + b == a + "\n" + ("" + "\n" + b);
    SplitConcat(a, "" + "\n" + b);
    SplitConcat("", b);
  }

  lemma {:induction false} RenderReturnless(paras: seq<seq<string>>)
    requires AreParagraphs(paras)
    ensures '\r' !in Render(paras)
  {
    if paras != [] {
      var front, p := paras[..|paras| - 1], paras[|paras| - 1];
      assert paras == front + [p] && p in paras && forall q :: q in front ==> q in paras;
      RenderLast(front, p);
      RenderReturnless(front);
      JoinReturnless(p);
    }
  }

  lemma {:induction false} JoinReturnless(ls: seq<string>)
    requires AreProper(ls)
    ensures '\r' !in Join(ls)
  {
    assert forall l :: l in ls ==> '\r' !in l;
    if |ls| == 1 {
      assert ls[0] in ls;
    } else if ls != [] {
      assert ls[0] in ls && forall l :: l in ls[1..] ==> l in ls;
      JoinReturnless(ls[1..]);
    }
  }

  /** Normalised text is left as it is. */
  lemma NormalizedTwice(s: string)
    ensures Normalized(Normalized(s)) == Normalized(s)
  {
    var paras := NormalizedShape(s);
    RenderReturnless(paras);
    UnixFixed(Render(paras));
    ParagraphsOfRender(paras);
    RenderTight(paras);
    TrimTight(Render(paras), IsSpace);
  }
}
