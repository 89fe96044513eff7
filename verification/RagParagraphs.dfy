/** Paragraphs, their rune spans and the pages these lie on: pkg/rag/splitter.go. */
module RagParagraphs {
  import opened Strings
  import opened RagSplitter

  /** An empty line begins at rune i. */
  predicate BreakAt(s: string, i: int) {
    0 <= i && i + 1 < |s| && s[i] == '\n' && s[i + 1] == '\n'
  }

  /** No empty line begins at a rune from a up to b. */
  predicate NoBreak(s: string, a: int, b: int) {
    forall i :: a <= i < b ==> !BreakAt(s, i)
  }

  /** strings.Index(s[off:], "\n\n"), as an offset in s; the length of s if there is none. */
  function NextBreak(s: string, off: nat): (n: nat)
    requires off <= |s|
    ensures off <= n <= |s| && (n < |s| ==> BreakAt(s, n))
    decreases |s| - off
  {
    if off == |s| || BreakAt(s, off) then off else NextBreak(s, off + 1)
  }

  lemma {:induction false} NoBreakBefore(s: string, off: nat)
    requires off <= |s|
    ensures NoBreak(s, off, NextBreak(s, off))
    decreases |s| - off
  {
    if !(off == |s| || BreakAt(s, off)) { NoBreakBefore(s, off + 1); }
  }

  // ---------- stretches ----------

  /** What stands between two empty lines. */
  datatype Stretch = Stretch(lo: nat, hi: nat)

  /** strings.Split(s[off:], "\n\n"), by where the parts begin and end. */
  function Stretches(s: string, off: nat): seq<Stretch>
    requires off <= |s|
    decreases |s| - off
  {
    var end := NextBreak(s, off);
    [Stretch(off, end)] + if end < |s| then Stretches(s, end + 2) else []
  }

  predicate IsStretch(s: string, t: Stretch) {
    t.lo <= t.hi <= |s| && NoBreak(s, t.lo, t.hi)
  }

  /** From rune off to the end, one stretch after the other with an empty line between, and none within. */
  predicate AreStretches(s: string, off: nat, ts: seq<Stretch>) {
    && ts != [] && ts[0].lo == off && ts[|ts| - 1].hi == |s|
    && AllStretches(s, ts) && forall k :: 0 < k < |ts| ==> IsBehind(s, ts, k)
  }

  predicate AllStretches(s: string, ts: seq<Stretch>) {
    forall k :: 0 <= k < |ts| ==> IsStretch(s, ts[k])
  }

  /** An empty line stands between stretch k and the one before it. */
  predicate IsBehind(s: string, ts: seq<Stretch>, k: nat)
    requires 0 < k < |ts|
  {
    BreakAt(s, ts[k - 1].hi) && ts[k].lo == ts[k - 1].hi + 2
  }

  lemma {:induction false} StretchesAre(s: string, off: nat)
    requires off <= |s|
    ensures AreStretches(s, off, Stretches(s, off))
    decreases |s| - off
  {
    var end := NextBreak(s, off);
    NoBreakBefore(s, off);
    if end < |s| {
      StretchesAre(s, end + 2);
      var ts, rest := Stretches(s, off), Stretches(s, end + 2);
      assert ts == [Stretch(off, end)] + rest;
      forall k | 0 < k < |ts| ensures IsBehind(s, ts, k) {
        if k > 1 { assert IsBehind(s, rest, k - 1); }
      }
    }
  }

  // ---------- one stretch after the other ----------

  /** What f makes of the stretches. */
  function Collect<T>(ts: seq<Stretch>, f: (nat, nat) -> seq<T>): seq<T> {
    if ts == [] then [] else Collect(ts[..|ts| - 1], f) + f(ts[|ts| - 1].lo, ts[|ts| - 1].hi)
  }

  lemma CollectNext<T>(ts: seq<Stretch>, k: nat, f: (nat, nat) -> seq<T>)
    requires k < |ts|
    ensures Collect(ts[..k + 1], f) == Collect(ts[..k], f) + f(ts[k].lo, ts[k].hi)
  {
    assert ts[..k + 1][..k] == ts[..k];
  }

  /** strings.Index for an empty line: where the next one begins, or the end. */
  method IndexBreak(s: string, off: nat) returns (n: nat)
    requires off <= |s|
    ensures off <= n <= |s| && NoBreak(s, off, n) && (n < |s| ==> BreakAt(s, n))
  {
    n := off;
    while n < |s| && !BreakAt(s, n)
      invariant off <= n <= |s| && NoBreak(s, off, n)
    {
      n := n + 1;
    }
  }

  /** That is where the stretch that begins there ends, and behind it is the next one. */
  lemma BreakEnds(s: string, ts: seq<Stretch>, k: nat, end: nat)
    requires AreStretches(s, 0, ts) && k < |ts|
    requires ts[k].lo <= end <= |s| && NoBreak(s, ts[k].lo, end) && (end < |s| ==> BreakAt(s, end))
    ensures end == ts[k].hi && (end == |s| <==> k == |ts| - 1)
    ensures k < |ts| - 1 ==> ts[k + 1].lo == end + 2 <= |s|
  {
    assert IsStretch(s, ts[k]);
    if k < |ts| - 1 { assert IsBehind(s, ts, k + 1); }
    var hi := ts[k].hi;
    assert end < hi ==> BreakAt(s, end);
    assert hi < end ==> BreakAt(s, hi);
  }

  lemma {:induction false} SameStretch(s: string, a: seq<Stretch>, b: seq<Stretch>, k: nat)
    requires AreStretches(s, 0, a) && AreStretches(s, 0, b) && k < |a|
    ensures k < |b| && a[k] == b[k]
  {
    assert IsStretch(s, a[k]);
    assert k < |a| - 1 ==> IsBehind(s, a, k + 1);
    if k > 0 {
      SameStretch(s, a, b, k - 1);
      assert IsBehind(s, a, k) && IsStretch(s, a[k - 1]);
      BreakEnds(s, b, k - 1, a[k - 1].hi);
    }
    BreakEnds(s, b, k, a[k].hi);
  }

  /** There is only one way to divide a text at its empty lines. */
  lemma StretchesUnique(s: string, ts: seq<Stretch>)
    requires AreStretches(s, 0, ts)
    ensures ts == Stretches(s, 0)
  {
    StretchesAre(s, 0);
    var us := Stretches(s, 0);
    SameStretch(s, us, ts, |us| - 1);
    SameStretch(s, ts, us, |ts| - 1);
    forall k | 0 <= k < |ts| ensures ts[k] == us[k] {
      SameStretch(s, ts, us, k);
    }
  }

  /** If everything f makes has a property, all that is collected has. */
  lemma {:induction false} CollectAll<T>(s: string, ts: seq<Stretch>, f: (nat, nat) -> seq<T>, p: T -> bool)
    requires AllStretches(s, ts)
    requires forall lo: nat, hi: nat :: lo <= hi <= |s| && NoBreak(s, lo, hi) ==> Every(f(lo, hi), p)
    ensures Every(Collect(ts, f), p)
  {
    if ts != [] {
      assert IsStretch(s, ts[|ts| - 1]);
      CollectAll(s, ts[..|ts| - 1], f, p);
    }
  }

  predicate Every<T>(ts: seq<T>, p: T -> bool) {
    forall i :: 0 <= i < |ts| ==> p(ts[i])
  }

  /** Stretches from the beginning, one after the other, up to rune n. */
  predicate Begins(s: string, ts: seq<Stretch>, n: nat) {
    && AllStretches(s, ts) && (forall k :: 0 < k < |ts| ==> IsBehind(s, ts, k))
    && if ts == [] then n == 0 else ts[0].lo == 0 && ts[|ts| - 1].hi == n
  }

  lemma BeginsBefore(s: string, ts: seq<Stretch>, n: nat) returns (m: nat)
    requires Begins(s, ts, n) && ts != []
    ensures Begins(s, ts[..|ts| - 1], m) && m <= |s|
    ensures var t := ts[|ts| - 1]; t.lo <= t.hi == n <= |s| && NoBreak(s, t.lo, t.hi) && t.lo <= |s|
    ensures var t := ts[|ts| - 1]; t.lo == m == 0 || (BreakAt(s, m) && t.lo == m + 2)
  {
    var front, k := ts[..|ts| - 1], |ts| - 1;
    assert IsStretch(s, ts[k]);
    forall j | 0 < j < |front| ensures IsBehind(s, front, j) {
      assert IsBehind(s, ts, j);
    }
    if k == 0 {
      m := 0;
    } else {
      assert IsBehind(s, ts, k) && IsStretch(s, ts[k - 1]);
      m := ts[k - 1].hi;
    }
  }

  /** What shows from rune lo up to hi. */
  function VisibleAt(s: string, lo: nat, hi: nat): string
    decreases hi - lo
  {
    if lo < hi <= |s| then UnlessSpace(s[lo]) + VisibleAt(s, lo + 1, hi) else ""
  }

  lemma {:induction false} VisibleAtIs(s: string, lo: nat, hi: nat)
    requires lo <= hi <= |s|
    ensures VisibleAt(s, lo, hi) == NonSpace(s[lo..hi])
    decreases hi - lo
  {
    if lo < hi {
      VisibleAtIs(s, lo + 1, hi);
      assert s[lo..hi][1..] == s[lo + 1..hi];
    }
  }

  /** Nothing visible stands between two stretches. */
  lemma ShownUpTo(s: string, m: nat, lo: nat, hi: nat)
    requires m <= lo <= hi <= |s| && (lo == m == 0 || (BreakAt(s, m) && lo == m + 2))
    ensures VisibleAt(s, 0, hi) == VisibleAt(s, 0, m) + VisibleAt(s, lo, hi)
  {
    VisibleAtIs(s, 0, hi);
    VisibleAtIs(s, 0, m);
    VisibleAtIs(s, lo, hi);
    if lo == 0 {
      assert s[0..hi] == s[lo..hi] && s[0..0] == [];
    } else {
      assert s[0..hi] == s[0..m] + "\n\n" + s[lo..hi];
      JoinShows(s[0..m], "\n\n", s[lo..hi]);
    }
  }

  // ---------- plain paragraphs ----------

  function ParaAt(s: string, lo: nat, hi: nat): seq<string> {
    if lo <= hi <= |s| then UnlessEmpty(TrimSpace(s[lo..hi])) else []
  }

  function ParaOf(s: string): (nat, nat) -> seq<string> {
    (lo: nat, hi: nat) => ParaAt(s, lo, hi)
  }

  /** The stretches between empty lines, trimmed, without the blank ones; the text itself if all are. */
  function Paragraphs(s: string): seq<string> {
    var ps := Collect(Stretches(s, 0), ParaOf(s));
    if ps == [] then [s] else ps
  }

  method SplitParagraphs(s: string) returns (out: seq<string>)
    ensures out == Paragraphs(s)
  {
    StretchesAre(s, 0);
    out := TrimmedStretches(s, Stretches(s, 0));
    if |out| == 0 { return [s]; }
  }

  method TrimmedStretches(s: string, ghost ts: seq<Stretch>) returns (out: seq<string>)
    requires AreStretches(s, 0, ts)
    ensures out == Collect(ts, ParaOf(s))
  {
    out := [];
    var off, more := 0, true;
    ghost var k := 0;
    while more
      invariant k <= |ts| && out == Collect(ts[..k], ParaOf(s)) && (more <==> k < |ts|)
      invariant more ==> off == ts[k].lo <= |s|
      decreases |ts| - k
    {
      assert IsStretch(s, ts[k]);
      var end := IndexBreak(s, off);
      BreakEnds(s, ts, k, end);
      CollectNext(ts, k, ParaOf(s));
      var p := TrimSpace(s[off..end]);
      assert ParaOf(s)(off, end) == UnlessEmpty(p) && out + [] == out;
      if p != "" { out := out + [p]; }
      k := k + 1;
      more := end < |s|;
      off := end + 2;
    }
    assert ts[..|ts|] == ts;
  }

  lemma ParaShows(s: string, lo: nat, hi: nat)
    requires lo <= hi <= |s|
    ensures Visible(ParaAt(s, lo, hi)) == VisibleAt(s, lo, hi) && Every(ParaAt(s, lo, hi), p => !Blank(p))
  {
    VisibleAtIs(s, lo, hi);
    var para := s[lo..hi];
    TrimIsBlank(para);
    TrimIsBlank(TrimSpace(para));
    VisibleUnlessEmpty([], para);
    assert Visible([]) == [] && [] + UnlessEmpty(TrimSpace(para)) == UnlessEmpty(TrimSpace(para));
  }

  lemma {:induction false} ParasShow(s: string, ts: seq<Stretch>, n: nat)
    requires Begins(s, ts, n)
    ensures Visible(Collect(ts, ParaOf(s))) == VisibleAt(s, 0, n)
  {
    if ts == [] {
      assert Visible([]) == [];
    } else {
      var t := ts[|ts| - 1];
      var m := BeginsBefore(s, ts, n);
      ParasShow(s, ts[..|ts| - 1], m);
      ParaShows(s, t.lo, t.hi);
      VisibleConcat(Collect(ts[..|ts| - 1], ParaOf(s)), ParaAt(s, t.lo, t.hi));
      ShownUpTo(s, m, t.lo, t.hi);
    }
  }

  /** Nothing visible is lost, and no paragraph is blank unless the text is. */
  lemma ParagraphsShow(s: string)
    ensures Visible(Paragraphs(s)) == NonSpace(s)
    ensures !Blank(s) ==> Every(Paragraphs(s), p => !Blank(p))
  {
    forall lo: nat, hi: nat | lo <= hi <= |s| && NoBreak(s, lo, hi) ensures Every(ParaOf(s)(lo, hi), p => !Blank(p)) {
      ParaShows(s, lo, hi);
    }
    StretchesAre(s, 0);
    var ts := Stretches(s, 0);
    ParasShow(s, ts, |s|);
    CollectAll(s, ts, ParaOf(s), p => !Blank(p));
    VisibleAtIs(s, 0, |s|);
    assert s[0..|s|] == s;
    VisibleAppend([], s);
    assert [] + [s] == [s] && Visible([]) == [];
  }

  // ---------- spans ----------

  datatype Span = Span(text: string, lo: nat, hi: nat)

  /** A visible stretch of s without an empty line in it, beginning and ending in something else than blank runes. */
  predicate IsSpan(s: string, sp: Span) {
    && sp.lo < sp.hi <= |s| && sp.text == s[sp.lo..sp.hi] && !Blank(sp.text)
    && !IsBlankRune(s[sp.lo]) && !IsBlankRune(s[sp.hi - 1])
    && NoBreak(s, sp.lo, sp.hi - 1)
  }

  predicate AreSpans(s: string, spans: seq<Span>) {
    forall sp :: sp in spans ==> IsSpan(s, sp)
  }

  function Texts(spans: seq<Span>): seq<string> {
    seq(|spans|, i requires 0 <= i < |spans| => spans[i].text)
  }

  /** A visible paragraph between its blank ends. */
  lemma CutsetParts(para: string) returns (l: string, m: string, r: string)
    requires !Blank(para)
    ensures para == l + m + r && m != [] && Tight(m, IsBlankRune) && NonSpace(m) == NonSpace(para)
    ensures |l| == |para| - |TrimLeft(para, IsBlankRune)| && |r| == |para| - |TrimRight(para, IsBlankRune)|
    ensures (!IsSpace(para[0]) ==> l == []) && All(l, IsBlankRune) && All(r, IsBlankRune)
  {
    m := Trim(para, IsBlankRune);
    NonSpaceTrim(para, IsBlankRune);
    l, r := TrimParts(para, IsBlankRune);
    TrimOneEnd(l, m, r, IsBlankRune);
    assert l != [] ==> para[0] == l[0];
  }

  lemma MiddleOfSlice(s: string, a: nat, b: nat, l: string, m: string, r: string)
    requires a <= b <= |s| && s[a..b] == l + m + r
    ensures |l| + |m| + |r| == b - a && s[a + |l|..b - |r|] == m
  {
    assert |s[a..b]| == b - a;
    forall k | 0 <= k < |m| ensures s[a + |l| + k] == m[k] {
      assert s[a..b][|l| + k] == (l + m + r)[|l| + k];
    }
  }

  lemma SliceIsSpan(full: string, lo: nat, hi: nat, m: string)
    requires lo < hi <= |full| && m == full[lo..hi] && Tight(m, IsBlankRune) && !Blank(m)
    requires NoBreak(full, lo, hi)
    ensures IsSpan(full, Span(m, lo, hi))
  {
    assert full[lo] == m[0] && full[hi - 1] == m[|m| - 1];
  }

  lemma InnerSpan(full: string, b0: nat, b1: nat, sp: Span)
    requires b0 <= sp.lo < sp.hi <= b1 <= |full| && NoBreak(full, b0, b1)
    requires sp.text == full[sp.lo..sp.hi] && Tight(sp.text, IsBlankRune) && !Blank(sp.text)
    ensures IsSpan(full, sp)
  {
    SliceIsSpan(full, sp.lo, sp.hi, sp.text);
  }

  /** The span of what stands between the blank runes at the ends of a paragraph. */
  lemma CutsetSpan(full: string, b0: nat, b1: nat, para: string) returns (sp: Span)
    requires b0 <= b1 <= |full| && NoBreak(full, b0, b1) && para == full[b0..b1] && !Blank(para)
    ensures sp.lo == b0 + |para| - |TrimLeft(para, IsBlankRune)|
    ensures sp.hi == b1 - (|para| - |TrimRight(para, IsBlankRune)|)
    ensures IsSpan(full, sp) && NonSpace(sp.text) == NonSpace(para)
    ensures |para| > 0 && (!IsSpace(para[0]) ==> sp.lo == b0) && b0 <= sp.lo && sp.hi <= b1
    ensures forall i :: b0 <= i < sp.lo || sp.hi <= i < b1 ==> IsBlankRune(full[i])
  {
    var l, m, r := CutsetParts(para);
    MiddleOfSlice(full, b0, b1, l, m, r);
    sp := Span(m, b0 + |l|, b1 - |r|);
    InnerSpan(full, b0, b1, sp);
    EndsAreBlank(full, b0, b1, l, m, r);
  }

  lemma EndsAreBlank(s: string, a: nat, b: nat, l: string, m: string, r: string)
    requires a <= b <= |s| && s[a..b] == l + m + r && All(l, IsBlankRune) && All(r, IsBlankRune)
    ensures |l| + |m| + |r| == b - a
    ensures forall i :: a <= i < a + |l| || b - |r| <= i < b ==> IsBlankRune(s[i])
  {
    assert |s[a..b]| == b - a;
    forall i | a <= i < a + |l| || b - |r| <= i < b ensures IsBlankRune(s[i]) {
      assert s[i] == s[a..b][i - a] == (l + m + r)[i - a];
      if i < a + |l| { assert s[i] == l[i - a]; } else { assert s[i] == r[i - (b - |r|)]; }
    }
  }

  /** The first rune from lo on that is not blank, and what is behind the last one. */
  function LeftEnd(s: string, lo: nat, hi: nat): (n: nat)
    requires lo <= hi <= |s|
    ensures lo <= n <= hi
    decreases hi - lo
  {
    if lo == hi || !IsBlankRune(s[lo]) then lo else LeftEnd(s, lo + 1, hi)
  }

  function RightEnd(s: string, lo: nat, hi: nat): (n: nat)
    requires lo <= hi <= |s|
    ensures lo <= n <= hi
    decreases hi - lo
  {
    if lo == hi || !IsBlankRune(s[hi - 1]) then hi else RightEnd(s, lo, hi - 1)
  }

  lemma {:induction false} LeftEndIs(s: string, lo: nat, n: nat, hi: nat)
    requires lo <= n < hi <= |s| && !IsBlankRune(s[n]) && forall i :: lo <= i < n ==> IsBlankRune(s[i])
    ensures LeftEnd(s, lo, hi) == n
    decreases n - lo
  {
    if lo < n { LeftEndIs(s, lo + 1, n, hi); }
  }

  lemma {:induction false} RightEndIs(s: string, lo: nat, n: nat, hi: nat)
    requires lo < n <= hi <= |s| && !IsBlankRune(s[n - 1]) && forall i :: n <= i < hi ==> IsBlankRune(s[i])
    ensures RightEnd(s, lo, hi) == n
    decreases hi - n
  {
    if n < hi { RightEndIs(s, lo, n, hi - 1); }
  }

  predicate NothingVisible(s: string, lo: nat, hi: nat)
    requires lo <= hi <= |s|
  {
    forall i :: lo <= i < hi ==> IsSpace(s[i])
  }

  lemma NothingVisibleIff(s: string, lo: nat, hi: nat)
    requires lo <= hi <= |s|
    ensures NothingVisible(s, lo, hi) <==> Blank(s[lo..hi])
  {
    TrimIsBlank(s[lo..hi]);
    BlankIff(s[lo..hi]);
    assert forall i :: 0 <= i < hi - lo ==> s[lo..hi][i] == s[lo + i];
    if Blank(s[lo..hi]) {
      forall i | lo <= i < hi ensures IsSpace(s[i]) {
        assert s[i] == s[lo..hi][i - lo];
      }
    }
  }

  /** What stands between two offsets without the blank runes at its ends, if anything is visible there. */
  function SpanAt(s: string, lo: nat, hi: nat): seq<Span> {
    if lo <= hi <= |s| && !NothingVisible(s, lo, hi) then
      var l := LeftEnd(s, lo, hi);
      var r := RightEnd(s, l, hi);
      [Span(s[l..r], l, r)]
    else []
  }

  lemma SpanAtIs(full: string, b0: nat, b1: nat, sp: Span)
    requires b0 <= b1 <= |full| && !Blank(full[b0..b1]) && IsSpan(full, sp) && b0 <= sp.lo && sp.hi <= b1
    requires forall i :: b0 <= i < sp.lo || sp.hi <= i < b1 ==> IsBlankRune(full[i])
    ensures SpanAt(full, b0, b1) == [sp]
  {
    NothingVisibleIff(full, b0, b1);
    LeftEndIs(full, b0, sp.lo, b1);
    RightEndIs(full, sp.lo, sp.hi, b1);
  }

  /** The paragraph between two offsets without the blank runes at its ends. */
  method TrimmedSpan(full: string, b0: nat, b1: nat, para: string) returns (sp: Span)
    requires b0 <= b1 <= |full| && NoBreak(full, b0, b1) && para == full[b0..b1] && !Blank(para)
    ensures SpanAt(full, b0, b1) == [sp]
  {
    var left := |para| - |TrimLeft(para, IsBlankRune)|;
    var right := |para| - |TrimRight(para, IsBlankRune)|;
    ghost var s := CutsetSpan(full, b0, b1, para);
    SpanAtIs(full, b0, b1, s);
    sp := Span(full[b0 + left..b1 - right], b0 + left, b1 - right);
    assert sp == s;
  }

  function SpansOf(full: string): (nat, nat) -> seq<Span> {
    (lo: nat, hi: nat) => SpanAt(full, lo, hi)
  }

  /** One span for every stretch that is not blank. */
  function ParagraphSpans(text: string): seq<Span> {
    var s := TrimSpace(text);
    if s == "" then [] else Collect(Stretches(s, 0), SpansOf(s))
  }

  /** A paragraph adds its span, unless it is blank. */
  method AppendParaSpan(out: seq<Span>, full: string, b0: nat, b1: nat) returns (out': seq<Span>)
    requires b0 <= b1 <= |full| && NoBreak(full, b0, b1)
    ensures out' == out + SpanAt(full, b0, b1)
  {
    var para := full[b0..b1];
    TrimIsBlank(para);
    NothingVisibleIff(full, b0, b1);
    if TrimSpace(para) == "" { return out; }
    // What is visible lies between the trimmed ends, so the source's test for an empty span never fails.
    var sp := TrimmedSpan(full, b0, b1, para);
    return out + [sp];
  }

  method ParagraphRuneSpans(text: string) returns (spans: seq<Span>)
    ensures spans == ParagraphSpans(text)
  {
    var s := TrimSpace(text);
    if s == "" { return []; }
    StretchesAre(s, 0);
    spans := SpansOfStretches(s, Stretches(s, 0));
  }

  method SpansOfStretches(s: string, ghost ts: seq<Stretch>) returns (spans: seq<Span>)
    requires AreStretches(s, 0, ts)
    ensures spans == Collect(ts, SpansOf(s))
  {
    spans := [];
    var off := 0;
    ghost var k := 0;
    while true
      invariant k < |ts| && off == ts[k].lo <= |s| && spans == Collect(ts[..k], SpansOf(s))
      decreases |ts| - k
    {
      assert IsStretch(s, ts[k]);
      var end := IndexBreak(s, off);
      BreakEnds(s, ts, k, end);
      CollectNext(ts, k, SpansOf(s));
      spans := AppendParaSpan(spans, s, off, end);
      k := k + 1;
      if end == |s| { break; }
      off := end + 2;
    }
    assert ts[..|ts|] == ts;
  }

  // ---------- what the spans show ----------

  lemma SpanShows(full: string, b0: nat, b1: nat)
    requires b0 <= b1 <= |full| && NoBreak(full, b0, b1)
    ensures var spans := SpanAt(full, b0, b1);
            && Every(spans, sp => IsSpan(full, sp)) && Visible(Texts(spans)) == VisibleAt(full, b0, b1)
            && (b0 < b1 && !IsSpace(full[b0]) ==> spans != [] && spans[0].lo == b0)
  {
    var para := full[b0..b1];
    assert Visible(Texts([])) == [];
    VisibleAtIs(full, b0, b1);
    NothingVisibleIff(full, b0, b1);
    if !Blank(para) {
      var sp := CutsetSpan(full, b0, b1, para);
      SpanAtIs(full, b0, b1, sp);
      OneText(sp);
    }
    if b0 < b1 && !IsSpace(full[b0]) { FirstShows(para); }
  }

  lemma OneText(sp: Span)
    ensures Visible(Texts([sp])) == NonSpace(sp.text)
  {
    VisibleAppend([], sp.text);
    assert Texts([sp]) == [sp.text] && [] + [sp.text] == [sp.text] && Visible([]) == [];
  }

  lemma FirstShows(t: string)
    requires t != "" && !IsSpace(t[0])
    ensures !Blank(t)
  {
  }

  lemma TextsTogether(a: seq<Span>, b: seq<Span>)
    ensures Visible(Texts(a + b)) == Visible(Texts(a)) + Visible(Texts(b))
  {
    assert Texts(a + b) == Texts(a) + Texts(b);
    VisibleConcat(Texts(a), Texts(b));
  }

  /** The spans lie in the text and show all of it; the first begins it. */
  lemma ParagraphSpansShow(text: string)
    ensures AreSpans(TrimSpace(text), ParagraphSpans(text)) && Visible(Texts(ParagraphSpans(text))) == NonSpace(text)
    ensures !Blank(text) ==> ParagraphSpans(text) != [] && ParagraphSpans(text)[0].lo == 0
  {
    var s := TrimSpace(text);
    TrimIsBlank(text);
    assert Visible(Texts([])) == [];
    if s != "" {
      SpansShow(s);
      FirstIsVisible(text);
      FirstSpanFirst(s);
    }
  }

  lemma {:induction false} SpansShowUpTo(s: string, ts: seq<Stretch>, n: nat)
    requires Begins(s, ts, n)
    ensures Visible(Texts(Collect(ts, SpansOf(s)))) == VisibleAt(s, 0, n)
  {
    if ts == [] {
      assert Visible(Texts([])) == [];
    } else {
      var t := ts[|ts| - 1];
      var m := BeginsBefore(s, ts, n);
      SpansShowUpTo(s, ts[..|ts| - 1], m);
      SpanShows(s, t.lo, t.hi);
      TextsTogether(Collect(ts[..|ts| - 1], SpansOf(s)), SpanAt(s, t.lo, t.hi));
      ShownUpTo(s, m, t.lo, t.hi);
    }
  }

  lemma SpansShow(s: string)
    ensures var spans := Collect(Stretches(s, 0), SpansOf(s));
            AreSpans(s, spans) && Visible(Texts(spans)) == NonSpace(s)
  {
    forall lo: nat, hi: nat | lo <= hi <= |s| && NoBreak(s, lo, hi)
      ensures Every(SpansOf(s)(lo, hi), sp => IsSpan(s, sp))
    {
      SpanShows(s, lo, hi);
    }
    StretchesAre(s, 0);
    SpansShowUpTo(s, Stretches(s, 0), |s|);
    CollectAll(s, Stretches(s, 0), SpansOf(s), sp => IsSpan(s, sp));
    VisibleAtIs(s, 0, |s|);
    assert s[0..|s|] == s;
  }

  lemma {:induction false} CollectFirst<T>(ts: seq<Stretch>, f: (nat, nat) -> seq<T>)
    requires ts != [] && f(ts[0].lo, ts[0].hi) != []
    ensures Collect(ts, f) != [] && Collect(ts, f)[0] == f(ts[0].lo, ts[0].hi)[0]
  {
    if |ts| > 1 { CollectFirst(ts[..|ts| - 1], f); }
  }

  lemma FirstEnds(s: string, ts: seq<Stretch>)
    requires AreStretches(s, 0, ts) && s != ""
    ensures ts[0].hi == 0 ==> BreakAt(s, 0)
  {
    if |ts| > 1 { assert IsBehind(s, ts, 1); }
  }

  lemma FirstSpanFirst(s: string)
    requires s != "" && !IsSpace(s[0])
    ensures var spans := Collect(Stretches(s, 0), SpansOf(s)); spans != [] && spans[0].lo == 0
  {
    StretchesAre(s, 0);
    var t := Stretches(s, 0)[0];
    assert IsStretch(s, t);
    FirstEnds(s, Stretches(s, 0));
    SpanShows(s, 0, t.hi);
    CollectFirst(Stretches(s, 0), SpansOf(s));
  }

  lemma FirstIsVisible(text: string)
    requires TrimSpace(text) != ""
    ensures !IsSpace(TrimSpace(text)[0])
  {
    var l, r := TrimParts(text, IsSpace);
  }

  // ---------- pages ----------

  /** sort.Search for the first page that ends after rune r. */
  method PageIndex1Based(bounds: seq<nat>, r: nat) returns (p: nat)
    requires forall i, j :: 0 <= i < j < |bounds| ==> bounds[i] <= bounds[j]
    ensures |bounds| < 2 ==> p == 1
    ensures |bounds| >= 2 ==> IsPageOf(bounds, r, p)
  {
    if |bounds| < 2 { return 1; }
    var n := |bounds| - 1;
    if r < bounds[0] { return 1; }
    if r >= bounds[n] { return n; }
    var i, j := 0, n;
    while i < j
      invariant 0 <= i <= j <= n
      invariant i > 0 ==> bounds[i] <= r
      invariant j < n ==> r < bounds[j + 1]
    {
      var h := (i + j) / 2;
      if !(r < bounds[h + 1]) { i := h + 1; } else { j := h; }
    }
    return i + 1;
  }

  /** Page p is the first whose end bound is above r; before the first page it is 1, past the last one the last. */
  predicate IsPageOf(bounds: seq<nat>, r: nat, p: nat)
    requires |bounds| >= 2
  {
    && 1 <= p < |bounds|
    && (p > 1 ==> bounds[p - 1] <= r)
    && (p < |bounds| - 1 ==> r < bounds[p])
  }

  /** p and q are the pages of the first and the last rune of a span. */
  predicate ArePagesOf(bounds: seq<nat>, lo: nat, hi: nat, p: int, q: int) {
    lo < hi && |bounds| >= 2 && p >= 1 && q >= 1 && IsPageOf(bounds, lo, p) && IsPageOf(bounds, hi - 1, q)
  }

  method PagesForSpan(bounds: seq<nat>, lo: nat, hi: nat) returns (p: nat, q: nat)
    requires forall i, j :: 0 <= i < j < |bounds| ==> bounds[i] <= bounds[j]
    ensures lo < hi && |bounds| >= 2 ==> ArePagesOf(bounds, lo, hi, p, q)
    ensures !(lo < hi && |bounds| >= 2) ==> p == q == 1
  {
    if hi <= lo || |bounds| < 2 { return 1, 1; }
    p := PageIndex1Based(bounds, lo);
    q := PageIndex1Based(bounds, hi - 1);
  }
}
