/** Page bounds of extracted PDF text (pkg/document/extract.go) and the pages chunks are attributed to. */
module PdfPages {
  import opened Strings
  import opened Lines
  import opened NormalizedText
  import opened RagSplitter
  import opened RagParagraphs
  import opened RagSplit

  /** The rune at which page i begins in the joined text. */
  function Start(pages: seq<string>, i: nat): nat
    requires i < |pages|
  {
    if i == 0 then 0 else |JoinBlank(pages[..i])| + 2
  }

  /** The bounds are where the pages begin, and the end of the last one. */
  predicate IsBounds(pages: seq<string>, bounds: seq<nat>) {
    && |bounds| == |pages| + 1
    && (forall i :: 0 <= i < |pages| ==> bounds[i] == Start(pages, i))
    && bounds[|pages|] == |JoinBlank(pages)|
  }

  lemma NextStart(pages: seq<string>, i: nat)
    requires i < |pages|
    ensures |JoinBlank(pages[..i + 1])| == Start(pages, i) + |pages[i]|
  {
    assert pages[..i + 1] == pages[..i] + [pages[i]];
    JoinBlankLast(pages[..i], pages[i]);
  }

  method PageBounds(pages: seq<string>) returns (bounds: seq<nat>)
    requires pages != []
    ensures IsBounds(pages, bounds)
  {
    var b := new nat[|pages| + 1];
    var acc := 0;
    assert pages[..|pages|] == pages;
    for i := 0 to |pages|
      invariant acc == if i < |pages| then Start(pages, i) else |JoinBlank(pages)|
      invariant forall k :: 0 <= k < i ==> b[k] == Start(pages, k)
    {
      b[i] := acc;
      NextStart(pages, i);
      acc := acc + |pages[i]|;
      if i < |pages| - 1 { acc := acc + 2; }
    }
    b[|pages|] := acc;
    return b[..];
  }

  /** The text of the pages and their bounds. */
  method ExtractPages(raw: seq<string>) returns (joined: string, bounds: seq<nat>)
    ensures raw == [] ==> joined == "" && bounds == [0, 0]
    ensures joined == JoinBlank(NormalizeEach(raw))
    ensures raw != [] ==> IsPaged(joined, NormalizeEach(raw), bounds)
    ensures Ascending(bounds) && NonSpace(joined) == NonSpace(Concat(raw))
  {
    NormalizeEachPages(raw);
    if |raw| == 0 { return "", [0, 0]; }
    var pages := NormalizePages(raw);
    joined := JoinBlank(pages);
    bounds := PageBounds(pages);
    JoinedIsPaged(pages, bounds);
    BoundsAscend(joined, pages, bounds);
  }

  method NormalizePages(raw: seq<string>) returns (pages: seq<string>)
    ensures pages == NormalizeEach(raw)
  {
    pages := [];
    for i := 0 to |raw|
      invariant pages == NormalizeEach(raw[..i])
    {
      assert raw[..i + 1][..i] == raw[..i];
      var p := NormalizeExtractedText(raw[i]);
      pages := pages + [p];
    }
    assert raw[..|raw|] == raw;
  }

  function NormalizeEach(raw: seq<string>): seq<string> {
    if raw == [] then [] else NormalizeEach(raw[..|raw| - 1]) + [Normalized(raw[|raw| - 1])]
  }

  predicate ArePages(pages: seq<string>) {
    forall p :: p in pages ==> Tight(p, IsSpace)
  }

  lemma {:induction false} NormalizeEachPages(raw: seq<string>)
    ensures |NormalizeEach(raw)| == |raw| && ArePages(NormalizeEach(raw))
    ensures NonSpace(JoinBlank(NormalizeEach(raw))) == NonSpace(Concat(raw))
  {
    if raw != [] {
      var front, r := raw[..|raw| - 1], raw[|raw| - 1];
      assert raw == front + [r];
      NormalizeEachPages(front);
      var _ := NormalizedShape(r);
      LastPageShows(NormalizeEach(front), front, r);
    }
  }

  lemma LastPageShows(pages: seq<string>, front: seq<string>, r: string)
    requires |pages| == |front| && NonSpace(JoinBlank(pages)) == NonSpace(Concat(front))
    ensures NonSpace(JoinBlank(pages + [Normalized(r)])) == NonSpace(Concat(front + [r]))
  {
    NormalizedConserves(r);
    ConcatAppend(front, [r]);
    ConcatOne(r);
    NonSpaceConcat(Concat(front), r);
    JoinBlankLast(pages, Normalized(r));
    if front != [] { JoinShows(JoinBlank(pages), "\n\n", Normalized(r)); }
  }

  // ---------- where a page lies ----------

  lemma StandsInLonger(t: string, u: string, at: nat, p: string)
    requires StandsAt(t, at, p)
    ensures StandsAt(t + u, at, p)
  {
    assert (t + u)[at..at + |p|] == t[at..at + |p|];
  }

  /** The joined text of the first pages begins the joined text of all of them. */
  lemma {:induction false} JoinedPrefix(pages: seq<string>, k: nat) returns (more: string)
    requires 0 < k <= |pages|
    ensures JoinBlank(pages) == JoinBlank(pages[..k]) + more
    ensures k < |pages| ==> more != [] && |more| >= 2 && more[0] == '\n' && more[1] == '\n'
    decreases |pages|
  {
    if k == |pages| {
      more := [];
      assert pages[..k] == pages;
    } else {
      var front, p := pages[..|pages| - 1], pages[|pages| - 1];
      assert pages == front + [p] && pages[..k] == front[..k];
      more := JoinedPrefix(front, k);
      JoinBlankLast(front, p);
      Assoc(JoinBlank(pages[..k]), more, "\n\n");
      Assoc(JoinBlank(pages[..k]), more + "\n\n", p);
      more := more + "\n\n" + p;
    }
  }

  /** Page i stands at its start in the joined text, and behind every page but the last is an empty line. */
  lemma LastPageStands(pages: seq<string>, i: nat)
    requires i < |pages| && |JoinBlank(pages[..i + 1])| == Start(pages, i) + |pages[i]|
    ensures StandsAt(JoinBlank(pages[..i + 1]), Start(pages, i), pages[i])
  {
    assert pages[..i + 1] == pages[..i] + [pages[i]];
    JoinBlankLast(pages[..i], pages[i]);
  }

  lemma JoinedPage(pages: seq<string>, i: nat)
    requires i < |pages|
    ensures StandsAt(JoinBlank(pages), Start(pages, i), pages[i])
    ensures i < |pages| - 1 ==> Start(pages, i + 1) == Start(pages, i) + |pages[i]| + 2 <= |JoinBlank(pages)|
    ensures i < |pages| - 1 ==> BreakAt(JoinBlank(pages), Start(pages, i) + |pages[i]|)
  {
    var e := Start(pages, i) + |pages[i]|;
    NextStart(pages, i);
    var upTo := JoinBlank(pages[..i + 1]);
    LastPageStands(pages, i);
    var more := JoinedPrefix(pages, i + 1);
    StandsInLonger(upTo, more, Start(pages, i), pages[i]);
    if i < |pages| - 1 { BreakBehind(upTo, more); }
  }

  lemma BreakBehind(t: string, more: string)
    requires |more| >= 2 && more[0] == '\n' && more[1] == '\n'
    ensures BreakAt(t + more, |t|)
  {
    assert (t + more)[|t|] == more[0] && (t + more)[|t| + 1] == more[1];
  }

  /** Page i stands in the text between its bounds, with an empty line behind it unless it is the last. */
  predicate PageStands(text: string, pages: seq<string>, bounds: seq<nat>, i: nat)
    requires i < |pages| && |bounds| == |pages| + 1
  {
    var e := bounds[i] + |pages[i]|;
    && StandsAt(text, bounds[i], pages[i])
    && if i == |pages| - 1 then e == bounds[i + 1] == |text| else e + 2 == bounds[i + 1] <= |text| && BreakAt(text, e)
  }

  /** The text is the pages, each where the bounds say. */
  predicate IsPaged(text: string, pages: seq<string>, bounds: seq<nat>) {
    && pages != [] && |bounds| == |pages| + 1 && bounds[0] == 0
    && forall i :: 0 <= i < |pages| ==> PageStands(text, pages, bounds, i)
  }

  lemma JoinedIsPaged(pages: seq<string>, bounds: seq<nat>)
    requires pages != [] && IsBounds(pages, bounds)
    ensures IsPaged(JoinBlank(pages), pages, bounds)
  {
    forall i | 0 <= i < |pages| ensures PageStands(JoinBlank(pages), pages, bounds, i) {
      JoinedPage(pages, i);
      if i == |pages| - 1 {
        NextStart(pages, i);
        assert pages[..i + 1] == pages;
      }
    }
  }

  lemma {:induction false} BoundsApart(text: string, pages: seq<string>, bounds: seq<nat>, i: nat, j: nat)
    requires IsPaged(text, pages, bounds) && i < j <= |pages|
    ensures bounds[i] + |pages[i]| <= bounds[j]
    decreases j
  {
    assert PageStands(text, pages, bounds, j - 1);
    if i < j - 1 { BoundsApart(text, pages, bounds, i, j - 1); }
  }

  lemma BoundsAscend(text: string, pages: seq<string>, bounds: seq<nat>)
    requires IsPaged(text, pages, bounds)
    ensures Ascending(bounds)
  {
    forall i, j | 0 <= i < j < |bounds| ensures bounds[i] <= bounds[j] {
      BoundsApart(text, pages, bounds, i, j);
    }
  }

  // ---------- attribution ----------

  /** A span of the trimmed text, whose first rune is rune d of the text, lies in page q. */
  predicate LiesIn(pages: seq<string>, bounds: seq<nat>, d: nat, sp: Span, q: int) {
    && 1 <= q <= |pages| && q <= |bounds|
    && bounds[q - 1] <= d + sp.lo && d + sp.hi <= bounds[q - 1] + |pages[q - 1]|
  }

  /** A span that begins before the end of an empty line ends before its beginning. */
  lemma SpanStopsAtBreak(text: string, s: string, sp: Span, e: nat)
    requires s <= text && IsSpan(s, sp) && BreakAt(text, e) && sp.lo < e + 2
    ensures sp.hi <= e
  {
    assert text[sp.lo] == s[sp.lo] && text[sp.hi - 1] == s[sp.hi - 1];
    assert sp.lo != e && sp.lo != e + 1 && sp.hi - 1 != e && sp.hi - 1 != e + 1;
    assert e + 1 < |s| ==> s[e] == text[e] && s[e + 1] == text[e + 1];
    assert e + 1 < |s| ==> BreakAt(s, e);
  }

  lemma SpanLiesIn(text: string, pages: seq<string>, bounds: seq<nat>, s: string, sp: Span, q: nat)
    requires IsPaged(text, pages, bounds) && s <= text && IsSpan(s, sp) && IsPageOf(bounds, sp.lo, q)
    ensures LiesIn(pages, bounds, 0, sp, q)
  {
    assert PageStands(text, pages, bounds, q - 1);
    if q < |pages| { SpanStopsAtBreak(text, s, sp, bounds[q - 1] + |pages[q - 1]|); }
  }

  lemma PageOfIsUnique(text: string, pages: seq<string>, bounds: seq<nat>, r: nat, p: nat, q: nat)
    requires IsPaged(text, pages, bounds) && IsPageOf(bounds, r, p)
    requires 1 <= q <= |pages| && bounds[q - 1] <= r < bounds[q - 1] + |pages[q - 1]|
    ensures p == q
  {
    BoundsApart(text, pages, bounds, q - 1, q);
    if q < p - 1 { BoundsApart(text, pages, bounds, q, p - 1); }
    if p < q - 1 { BoundsApart(text, pages, bounds, p, q - 1); }
  }

  /** The pages found for the ends of a span are both the page it lies in. */
  ghost predicate IsAttributed(pages: seq<string>, bounds: seq<nat>, d: nat, sp: Span) {
    forall p, q :: ArePagesOf(bounds, sp.lo, sp.hi, p, q) ==> p == q && LiesIn(pages, bounds, d, sp, p)
  }

  lemma SpanIsAttributed(text: string, pages: seq<string>, bounds: seq<nat>, s: string, sp: Span)
    requires IsPaged(text, pages, bounds) && s <= text && IsSpan(s, sp)
    ensures IsAttributed(pages, bounds, 0, sp)
  {
    forall p, q | ArePagesOf(bounds, sp.lo, sp.hi, p, q) ensures p == q && LiesIn(pages, bounds, 0, sp, p) {
      SpanLiesIn(text, pages, bounds, s, sp, p);
      PageOfIsUnique(text, pages, bounds, sp.hi - 1, q, p);
    }
  }

  lemma FirstSpanIsMisplaced(text: string, pages: seq<string>, bounds: seq<nat>, d: nat, s: string, sp: Span)
    requires IsPaged(text, pages, bounds) && pages[0] == "" && text != "" && IsSpan(s, sp) && sp.lo == 0
    ensures !IsAttributed(pages, bounds, d, sp)
  {
    assert PageStands(text, pages, bounds, 0);
    assert IsPageOf(bounds, 0, 1);
    var q := PageExists(bounds, sp.hi - 1);
    assert ArePagesOf(bounds, sp.lo, sp.hi, 1, q);
    assert !LiesIn(pages, bounds, d, sp, 1);
  }

  lemma PageExists(bounds: seq<nat>, r: nat) returns (q: nat)
    requires |bounds| >= 2
    ensures IsPageOf(bounds, r, q)
  {
    q := 1;
    while q < |bounds| - 1 && bounds[q] <= r
      invariant 1 <= q < |bounds| && (q > 1 ==> bounds[q - 1] <= r)
    {
      q := q + 1;
    }
  }

  /** Trimming cuts front off and leaves a text that begins with something visible. */
  predicate Trimmed(text: string, front: string, s: string, more: string) {
    text == front + s + more && All(front, IsSpace) && s != "" && !IsSpace(s[0])
  }

  lemma FirstPageFirst(text: string, pages: seq<string>, bounds: seq<nat>, front: string, s: string, more: string)
    requires ArePages(pages) && IsPaged(text, pages, bounds) && Trimmed(text, front, s, more)
    ensures front == "" <==> pages[0] != ""
  {
    assert PageStands(text, pages, bounds, 0);
    assert pages[0] in pages;
    assert text[0] == if front != "" then front[0] else s[0];
    assert pages[0] != "" ==> text[0] == text[0..|pages[0]|][0];
  }

  /**
   * Every span gets the page it lies in, for both its ends, exactly when the first page is not empty. Otherwise the
   * trimmed text has moved against the bounds, and the first span goes to the empty first page.
   */
  lemma AttributionIff(text: string, pages: seq<string>, bounds: seq<nat>, front: string, s: string, more: string,
                       spans: seq<Span>)
    requires ArePages(pages) && IsPaged(text, pages, bounds) && Trimmed(text, front, s, more)
    requires AreSpans(s, spans) && spans != [] && spans[0].lo == 0
    ensures (forall sp :: sp in spans ==> IsAttributed(pages, bounds, |front|, sp)) <==> pages[0] != ""
  {
    FirstPageFirst(text, pages, bounds, front, s, more);
    if pages[0] != "" {
      assert front + s == s;
      forall sp | sp in spans ensures IsAttributed(pages, bounds, |front|, sp) {
        SpanIsAttributed(text, pages, bounds, s, sp);
      }
    } else {
      FirstSpanIsMisplaced(text, pages, bounds, |front|, s, spans[0]);
    }
  }

  // ---------- from raw pages to chunks ----------

  /** The piece carries one page, twice, and shows a part of it. */
  ghost predicate IsPieceOfPage(pages: seq<string>, p: Piece) {
    1 <= p.lo == p.hi <= |pages| && PartOf(p.text, pages[p.lo - 1])
  }

  lemma SliceOfSlice(s: string, a: nat, b: nat, lo: nat, hi: nat)
    requires a <= lo <= hi <= b <= |s|
    ensures s[a..b][lo - a..hi - a] == s[lo..hi]
  {
    forall k | 0 <= k < hi - lo ensures s[a..b][lo - a..hi - a][k] == s[lo..hi][k] {
      assert s[a..b][lo - a + k] == s[lo + k];
    }
  }

  lemma PartOfSlice(t: string, u: string, page: string, lo: nat, hi: nat)
    requires PartOf(t, u) && lo <= hi <= |page| && u == page[lo..hi]
    ensures PartOf(t, page)
  {
    var a, b :| Between(a, t, b, u);
    var x, y := page[..lo], page[hi..];
    assert page == x + u + y;
    NonSpaceConcat(x + u, y);
    NonSpaceConcat(x, u);
    assert Between(NonSpace(x) + a, t, b + NonSpace(y), page) by {
      Regroup(NonSpace(x), a, NonSpace(t), b, NonSpace(y));
    }
  }

  lemma Regroup(x: string, a: string, t: string, b: string, y: string)
    ensures x + (a + t + b) + y == x + a + t + (b + y)
  {
    Assoc(x + a + t, b, y);
    Assoc(x, a, t);
    Assoc(x, a + t, b);
  }

  /** A stretch of the trimmed text that lies in a page is a stretch of that page. */
  lemma StretchOfPage(text: string, s: string, at: nat, page: string, lo: nat, hi: nat)
    requires s <= text && StandsAt(text, at, page) && at <= lo <= hi <= at + |page| && hi <= |s|
    ensures s[lo..hi] == page[lo - at..hi - at]
  {
    SliceOfSlice(text, at, at + |page|, lo, hi);
    assert text[lo..hi] == s[lo..hi];
  }

  lemma ShowsPartOf(text: string, s: string, at: nat, page: string, sp: Span, t: string)
    requires s <= text && StandsAt(text, at, page) && IsSpan(s, sp) && at <= sp.lo && sp.hi <= at + |page|
    requires PartOf(t, sp.text)
    ensures PartOf(t, page)
  {
    StretchOfPage(text, s, at, page, sp.lo, sp.hi);
    PartOfSlice(t, sp.text, page, sp.lo - at, sp.hi - at);
  }

  lemma PieceIsOfPage(text: string, pages: seq<string>, bounds: seq<nat>, s: string, p: Piece, sp: Span)
    requires IsPaged(text, pages, bounds) && s <= text && FromSpan(s, bounds, p, sp)
    ensures IsPieceOfPage(pages, p)
  {
    SpanIsAttributed(text, pages, bounds, s, sp);
    assert PageStands(text, pages, bounds, p.lo - 1);
    ShowsPartOf(text, s, bounds[p.lo - 1], pages[p.lo - 1], sp, p.text);
  }

  lemma PiecesOfPages(text: string, pages: seq<string>, bounds: seq<nat>, pieces: seq<Piece>, origin: seq<Span>)
    requires ArePages(pages) && IsPaged(text, pages, bounds) && pages[0] != ""
    requires FromSpans(TrimSpace(text), bounds, pieces, origin)
    ensures forall p :: p in pieces ==> IsPieceOfPage(pages, p)
  {
    var s := TrimSpace(text);
    var front, more := TrimParts(text, IsSpace);
    if pieces != [] {
      assert FromSpan(s, bounds, pieces[0], origin[0]);
      FirstPageFirst(text, pages, bounds, front, s, more);
      assert front + s == s;
      forall i | 0 <= i < |pieces| ensures IsPieceOfPage(pages, pieces[i]) {
        PieceIsOfPage(text, pages, bounds, s, pieces[i], origin[i]);
      }
    }
  }

  /** As AreChunks, of the text of the pages; with text on page one every piece shows a part of the page it carries. */
  ghost predicate AreChunksOfPages(raw: seq<string>, options: SplitOptions, bounds: seq<nat>, blocks: seq<Block>,
                                   own: seq<Piece>, out: seq<Piece>)
  {
    var pages := NormalizeEach(raw);
    && AreChunks(Concat(raw), options, blocks, own, out)
    && (raw != [] ==> IsPaged(JoinBlank(pages), pages, bounds) && AreBlocks(Pdf, JoinBlank(pages), bounds, blocks))
    && (raw != [] && pages[0] != "" ==>
          forall p :: p in BlockPieces(blocks, NormalizedOptions(options).size) ==> IsPieceOfPage(pages, p))
  }

  /** A PDF from its raw pages to chunks. */
  method ChunkPdf(raw: seq<string>, options: SplitOptions) returns (out: seq<Piece>)
    ensures exists bounds, blocks, own :: AreChunksOfPages(raw, options, bounds, blocks, own, out)
  {
    NormalizeEachPages(raw);
    var joined, bounds := ExtractPages(raw);
    out := SplitText(Pdf, joined, options, bounds);
    ghost var blocks, own :| AreBlocks(Pdf, joined, bounds, blocks) && AreChunks(joined, options, blocks, own, out);
    if raw != [] {
      FirstOfEach(raw);
      if NormalizeEach(raw)[0] != "" {
        BlocksOfPages(joined, NormalizeEach(raw), bounds, blocks, NormalizedOptions(options).size);
      }
    }
    assert AreChunksOfPages(raw, options, bounds, blocks, own, out);
  }

  lemma BlocksOfPages(text: string, pages: seq<string>, bounds: seq<nat>, blocks: seq<Block>, size: int)
    requires size >= 1 && ArePages(pages) && IsPaged(text, pages, bounds) && pages[0] != ""
    requires AreBlocks(Pdf, text, bounds, blocks)
    ensures forall p :: p in BlockPieces(blocks, size) ==> IsPieceOfPage(pages, p)
  {
    var s := TrimSpace(text);
    if s != "" {
      TrimTight(s, IsSpace);
      var l, r := TrimParts(text, IsSpace);
      ParagraphSpansShow(s);
      var origin := BlocksFromSpans(s, ParagraphSpans(s), blocks, bounds, size);
      PiecesOfPages(text, pages, bounds, BlockPieces(blocks, size), origin);
    }
  }

  lemma {:induction false} FirstOfEach(raw: seq<string>)
    requires raw != []
    ensures NormalizeEach(raw) != [] && NormalizeEach(raw)[0] == Normalized(raw[0])
  {
    if |raw| > 1 { FirstOfEach(raw[..|raw| - 1]); }
  }
}
