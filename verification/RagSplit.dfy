/** SplitTextWithPDFPageBounds of pkg/rag/splitter.go for plain and PDF text. */
module RagSplit {
  import opened Strings
  import opened RagSplitter
  import RagOversized
  import opened RagParagraphs
  import opened RagChunks
  import opened RagOverlap

  /** PDF text comes with page bounds; Plain is every format without headings. */
  datatype Format = Plain | Pdf

  predicate Ascending(bounds: seq<nat>) {
    forall i, j :: 0 <= i < j < |bounds| ==> bounds[i] <= bounds[j]
  }

  /** What t shows stands together, between a and b, in what u shows. */
  predicate Between(a: string, t: string, b: string, u: string) {
    NonSpace(u) == a + NonSpace(t) + b
  }

  ghost predicate PartOf(t: string, u: string) {
    exists a, b :: Between(a, t, b, u)
  }

  /** The piece shows a part of the span and carries the pages of its ends. */
  ghost predicate FromSpan(s: string, bounds: seq<nat>, p: Piece, sp: Span) {
    IsSpan(s, sp) && PartOf(p.text, sp.text) && ArePagesOf(bounds, sp.lo, sp.hi, p.lo, p.hi)
  }

  ghost predicate FromSpans(s: string, bounds: seq<nat>, pieces: seq<Piece>, origin: seq<Span>) {
    && |origin| == |pieces|
    && forall i :: 0 <= i < |pieces| ==> FromSpan(s, bounds, pieces[i], origin[i])
  }

  lemma PartsArePartOf(parts: seq<string>, k: nat, u: string)
    requires k < |parts| && Visible(parts) == NonSpace(u)
    ensures PartOf(parts[k], u)
  {
    assert parts == parts[..k] + [parts[k]] + parts[k + 1..];
    VisibleConcat(parts[..k] + [parts[k]], parts[k + 1..]);
    VisibleAppend(parts[..k], parts[k]);
    assert Between(Visible(parts[..k]), parts[k], Visible(parts[k + 1..]), u);
  }

  // ---------- pieces ----------

  /** A paragraph, and the pages it lies on. */
  datatype Block = Block(text: string, lo: int, hi: int)

  function PiecesOf(parts: seq<string>, lo: int, hi: int): seq<Piece> {
    if parts == [] then []
    else PiecesOf(parts[..|parts| - 1], lo, hi) + [Piece(parts[|parts| - 1], [], lo, hi)]
  }

  /** The parts of all blocks, with the pages of these. */
  function BlockPieces(blocks: seq<Block>, size: int): seq<Piece>
    requires size >= 1
  {
    if blocks == [] then []
    else
      var b := blocks[|blocks| - 1];
      BlockPieces(blocks[..|blocks| - 1], size) + PiecesOf(RagOversized.OversizedParts(b.text, size), b.lo, b.hi)
  }

  lemma PiecesNext(parts: seq<string>, k: nat, lo: int, hi: int)
    requires k < |parts|
    ensures PiecesOf(parts[..k + 1], lo, hi) == PiecesOf(parts[..k], lo, hi) + [Piece(parts[k], [], lo, hi)]
  {
    assert parts[..k + 1][..k] == parts[..k];
  }

  lemma BlocksNext(blocks: seq<Block>, b: Block, size: int)
    requires size >= 1
    ensures BlockPieces(blocks + [b], size)
            == BlockPieces(blocks, size) + PiecesOf(RagOversized.OversizedParts(b.text, size), b.lo, b.hi)
  {
    assert (blocks + [b])[..|blocks|] == blocks;
  }

  method AddParts(pieces: seq<Piece>, text: string, lo: int, hi: int, size: int, ghost blocks: seq<Block>)
    returns (out: seq<Piece>)
    requires size >= 1 && !Blank(text) && pieces == BlockPieces(blocks, size)
    ensures out == BlockPieces(blocks + [Block(text, lo, hi)], size)
  {
    BlocksNext(blocks, Block(text, lo, hi), size);
    var parts := RagOversized.SplitOversizedParagraph(text, size);
    out := pieces;
    assert parts[..0] == [] && pieces + [] == pieces;
    for k := 0 to |parts|
      invariant out == pieces + PiecesOf(parts[..k], lo, hi)
    {
      PiecesNext(parts, k, lo, hi);
      Assoc(pieces, PiecesOf(parts[..k], lo, hi), [Piece(parts[k], [], lo, hi)]);
      out := out + [Piece(parts[k], [], lo, hi)];
    }
    assert parts[..|parts|] == parts;
  }

  function PlainBlocks(paragraphs: seq<string>): seq<Block> {
    if paragraphs == [] then []
    else PlainBlocks(paragraphs[..|paragraphs| - 1]) + [Block(paragraphs[|paragraphs| - 1], 0, 0)]
  }

  method PlainPieces(s: string, size: int) returns (pieces: seq<Piece>)
    requires size >= 1 && !Blank(s)
    ensures pieces == BlockPieces(PlainBlocks(Paragraphs(s)), size)
  {
    var ps := SplitParagraphs(s);
    ParagraphsShow(s);
    pieces := ParagraphPieces(ps, size);
  }

  method ParagraphPieces(ps: seq<string>, size: int) returns (pieces: seq<Piece>)
    requires size >= 1 && Every(ps, p => !Blank(p))
    ensures pieces == BlockPieces(PlainBlocks(ps), size)
  {
    pieces := [];
    for k := 0 to |ps|
      invariant pieces == BlockPieces(PlainBlocks(ps[..k]), size)
    {
      assert ps[..k + 1][..k] == ps[..k];
      pieces := AddParts(pieces, ps[k], 0, 0, size, PlainBlocks(ps[..k]));
    }
    assert ps[..|ps|] == ps;
  }

  /** The block is the span with the pages its ends lie on. */
  predicate IsBlockOf(sp: Span, b: Block, bounds: seq<nat>) {
    b.text == sp.text && ArePagesOf(bounds, sp.lo, sp.hi, b.lo, b.hi)
  }

  ghost predicate AreBlocksOf(spans: seq<Span>, blocks: seq<Block>, bounds: seq<nat>) {
    |blocks| == |spans| && forall k :: 0 <= k < |blocks| ==> IsBlockOf(spans[k], blocks[k], bounds)
  }

  method PdfPieces(s: string, bounds: seq<nat>, size: int) returns (pieces: seq<Piece>, ghost blocks: seq<Block>)
    requires size >= 1 && |bounds| >= 2 && Ascending(bounds)
    ensures AreBlocksOf(ParagraphSpans(s), blocks, bounds) && pieces == BlockPieces(blocks, size)
  {
    var spans := ParagraphRuneSpans(s);
    ParagraphSpansShow(s);
    pieces, blocks := SpanPieces(TrimSpace(s), spans, bounds, size);
  }

  lemma NextBlockOf(spans: seq<Span>, k: nat, blocks: seq<Block>, b: Block, bounds: seq<nat>)
    requires k < |spans| && AreBlocksOf(spans[..k], blocks, bounds) && IsBlockOf(spans[k], b, bounds)
    ensures AreBlocksOf(spans[..k + 1], blocks + [b], bounds)
  {
    forall i | 0 <= i <= k ensures IsBlockOf(spans[..k + 1][i], (blocks + [b])[i], bounds) {
      if i < k { assert IsBlockOf(spans[..k][i], blocks[i], bounds); }
    }
  }

  method SpanPieces(ghost s: string, spans: seq<Span>, bounds: seq<nat>, size: int)
    returns (pieces: seq<Piece>, ghost blocks: seq<Block>)
    requires size >= 1 && |bounds| >= 2 && Ascending(bounds) && AreSpans(s, spans)
    ensures AreBlocksOf(spans, blocks, bounds) && pieces == BlockPieces(blocks, size)
  {
    pieces, blocks := [], [];
    for k := 0 to |spans|
      invariant AreBlocksOf(spans[..k], blocks, bounds) && pieces == BlockPieces(blocks, size)
    {
      var sp := spans[k];
      assert sp in spans && IsSpan(s, sp);
      var lo, hi := PagesForSpan(bounds, sp.lo, sp.hi);
      pieces := AddParts(pieces, sp.text, lo, hi, size, blocks);
      NextBlockOf(spans, k, blocks, Block(sp.text, lo, hi), bounds);
      blocks := blocks + [Block(sp.text, lo, hi)];
    }
    assert spans[..|spans|] == spans;
  }

  // ---------- what the pieces show ----------

  function BlockTexts(blocks: seq<Block>): seq<string> {
    if blocks == [] then [] else BlockTexts(blocks[..|blocks| - 1]) + [blocks[|blocks| - 1].text]
  }

  lemma {:induction false} PiecesOfShow(parts: seq<string>, lo: int, hi: int, size: int)
    requires PartsFit(parts, size)
    ensures TextsOf(PiecesOf(parts, lo, hi)) == parts && PiecesFit(PiecesOf(parts, lo, hi), size)
  {
    if parts != [] {
      var front, p := parts[..|parts| - 1], parts[|parts| - 1];
      assert p in parts && forall q :: q in front ==> q in parts;
      PiecesOfShow(front, lo, hi, size);
      TextsAppend(PiecesOf(front, lo, hi), [Piece(p, [], lo, hi)]);
      assert TextsOf([Piece(p, [], lo, hi)]) == [p] && parts == front + [p];
    }
  }

  predicate BlocksVisible(blocks: seq<Block>) {
    forall k :: 0 <= k < |blocks| ==> !Blank(blocks[k].text)
  }

  lemma {:induction false} BlockPiecesShow(blocks: seq<Block>, size: int)
    requires size >= 1 && BlocksVisible(blocks)
    ensures PiecesFit(BlockPieces(blocks, size), size)
    ensures Visible(TextsOf(BlockPieces(blocks, size))) == Visible(BlockTexts(blocks))
  {
    if blocks != [] {
      var front, b := blocks[..|blocks| - 1], blocks[|blocks| - 1];
      BlockPiecesShow(front, size);
      OneBlockShows(BlockPieces(front, size), BlockTexts(front), b, size);
    }
  }

  lemma OneBlockShows(pieces: seq<Piece>, texts: seq<string>, b: Block, size: int)
    requires size >= 1 && !Blank(b.text) && PiecesFit(pieces, size) && Visible(TextsOf(pieces)) == Visible(texts)
    ensures var out := pieces + PiecesOf(RagOversized.OversizedParts(b.text, size), b.lo, b.hi);
            PiecesFit(out, size) && Visible(TextsOf(out)) == Visible(texts + [b.text])
  {
    var parts := RagOversized.OversizedParts(b.text, size);
    RagOversized.OversizedIsSplit(b.text, size);
    PiecesOfShow(parts, b.lo, b.hi, size);
    TextsAppend(pieces, PiecesOf(parts, b.lo, b.hi));
    VisibleConcat(TextsOf(pieces), parts);
    VisibleAppend(texts, b.text);
  }

  lemma {:induction false} PlainBlocksAre(ps: seq<string>)
    requires Every(ps, p => !Blank(p))
    ensures BlocksVisible(PlainBlocks(ps)) && BlockTexts(PlainBlocks(ps)) == ps && |PlainBlocks(ps)| == |ps|
  {
    if ps != [] {
      PlainBlocksAre(ps[..|ps| - 1]);
      assert ps == ps[..|ps| - 1] + [ps[|ps| - 1]];
    }
  }

  lemma {:induction false} SpanBlocksAre(s: string, spans: seq<Span>, blocks: seq<Block>, bounds: seq<nat>)
    requires AreBlocksOf(spans, blocks, bounds) && AreSpans(s, spans)
    ensures BlocksVisible(blocks) && BlockTexts(blocks) == Texts(spans)
  {
    if blocks != [] {
      var k := |blocks| - 1;
      SpanBlocksAre(s, spans[..k], blocks[..k], bounds);
      assert IsBlockOf(spans[k], blocks[k], bounds) && spans[k] in spans;
      assert Texts(spans) == Texts(spans[..k]) + [spans[k].text];
      forall i | 0 <= i <= k ensures !Blank(blocks[i].text) {
        assert i < k ==> blocks[i] == blocks[..k][i];
      }
    }
  }

  // ---------- where the pieces come from ----------

  lemma {:induction false} PiecesOfAre(parts: seq<string>, lo: int, hi: int)
    ensures |PiecesOf(parts, lo, hi)| == |parts|
    ensures forall i :: 0 <= i < |parts| ==> PiecesOf(parts, lo, hi)[i] == Piece(parts[i], [], lo, hi)
  {
    if parts != [] { PiecesOfAre(parts[..|parts| - 1], lo, hi); }
  }

  lemma FrontBlocks(s: string, spans: seq<Span>, blocks: seq<Block>, bounds: seq<nat>)
    requires AreBlocksOf(spans, blocks, bounds) && AreSpans(s, spans) && blocks != []
    ensures var k := |blocks| - 1;
            && AreBlocksOf(spans[..k], blocks[..k], bounds) && AreSpans(s, spans[..k])
            && IsBlockOf(spans[k], blocks[k], bounds) && IsSpan(s, spans[k])
  {
    assert spans[|blocks| - 1] in spans;
  }

  lemma {:induction false} BlocksFromSpans(s: string, spans: seq<Span>, blocks: seq<Block>, bounds: seq<nat>, size: int)
    returns (origin: seq<Span>)
    requires size >= 1 && AreBlocksOf(spans, blocks, bounds) && AreSpans(s, spans)
    ensures FromSpans(s, bounds, BlockPieces(blocks, size), origin)
  {
    if blocks == [] {
      origin := [];
    } else {
      var k := |blocks| - 1;
      FrontBlocks(s, spans, blocks, bounds);
      var more := BlocksFromSpans(s, spans[..k], blocks[..k], bounds, size);
      origin := OneMoreBlock(s, bounds, blocks, more, spans[k], size);
    }
  }

  lemma OneMoreBlock(s: string, bounds: seq<nat>, blocks: seq<Block>, origin: seq<Span>, sp: Span, size: int)
    returns (origin': seq<Span>)
    requires size >= 1 && blocks != [] && FromSpans(s, bounds, BlockPieces(blocks[..|blocks| - 1], size), origin)
    requires IsSpan(s, sp) && IsBlockOf(sp, blocks[|blocks| - 1], bounds)
    ensures FromSpans(s, bounds, BlockPieces(blocks, size), origin')
  {
    var front, b := blocks[..|blocks| - 1], blocks[|blocks| - 1];
    var parts := RagOversized.OversizedParts(b.text, size);
    RagOversized.OversizedIsSplit(b.text, size);
    origin' := MoreFromSpan(s, bounds, BlockPieces(front, size), origin, sp, b, parts);
  }

  lemma MoreFromSpan(s: string, bounds: seq<nat>, pieces: seq<Piece>, origin: seq<Span>, sp: Span, b: Block,
                     parts: seq<string>)
    returns (origin': seq<Span>)
    requires FromSpans(s, bounds, pieces, origin) && IsSpan(s, sp) && IsBlockOf(sp, b, bounds)
    requires Visible(parts) == NonSpace(sp.text)
    ensures FromSpans(s, bounds, pieces + PiecesOf(parts, b.lo, b.hi), origin')
  {
    var out := pieces + PiecesOf(parts, b.lo, b.hi);
    PiecesOfAre(parts, b.lo, b.hi);
    origin' := origin + seq(|parts|, _ => sp);
    forall i | 0 <= i < |out| ensures FromSpan(s, bounds, out[i], origin'[i]) {
      if i < |pieces| {
        assert FromSpan(s, bounds, pieces[i], origin[i]);
      } else {
        PartsArePartOf(parts, i - |pieces|, sp.text);
      }
    }
  }

  // ---------- chunks ----------

  /** out is own with overlaps. */
  ghost predicate Overlaps(own: seq<Piece>, out: seq<Piece>, size: int, overlap: int) {
    && |out| == |own|
    && forall i :: 0 <= i < |out| ==> OverlapsAt(own, out[i], i, size, overlap)
  }

  ghost predicate OverlapsAt(own: seq<Piece>, chunk: Piece, i: nat, size: int, overlap: int)
    requires i < |own|
  {
    if i == 0 || overlap <= 0 then chunk == own[i]
    else chunk == own[i].(text := chunk.text) && IsOverlapped(chunk.text, own[i - 1].text, own[i].text, size, overlap)
  }

  /** The paragraphs of the text: for PDF text its spans with their pages. */
  ghost predicate AreBlocks(format: Format, text: string, bounds: seq<nat>, blocks: seq<Block>) {
    var s := TrimSpace(text);
    if s == "" then blocks == []
    else if |bounds| >= 2 && format == Pdf then AreBlocksOf(ParagraphSpans(s), blocks, bounds)
    else blocks == PlainBlocks(Paragraphs(s))
  }

  /**
   * Before overlap, the chunks own hold every visible rune of the text in order, fit the size, and are the grouping of
   * the parts of the blocks; out puts the overlaps in front.
   */
  ghost predicate AreChunks(text: string, options: SplitOptions, blocks: seq<Block>, own: seq<Piece>, out: seq<Piece>) {
    var o := NormalizedOptions(options);
    var pieces := BlockPieces(blocks, o.size);
    && PiecesFit(pieces, o.size) && own == GlueAll(Groups(pieces, o.size))
    && PiecesFit(own, o.size) && Visible(TextsOf(own)) == NonSpace(text)
    && Overlaps(own, out, o.size, o.overlap)
  }

  method SplitText(format: Format, text: string, options: SplitOptions, bounds: seq<nat>) returns (out: seq<Piece>)
    requires Ascending(bounds)
    ensures exists blocks, own :: AreBlocks(format, text, bounds, blocks) && AreChunks(text, options, blocks, own, out)
  {
    var o := NormalizedOptions(options);
    var s := TrimSpace(text);
    TrimIsBlank(text);
    TrimIsBlank(s);
    out := [];
    if s == "" {
      NothingToSplit(text, options);
      assert AreBlocks(format, text, bounds, []);
      return;
    }
    var pieces: seq<Piece>;
    ghost var blocks := PlainBlocks(Paragraphs(s));
    if |bounds| >= 2 && format == Pdf {
      pieces, blocks := PdfPieces(s, bounds, o.size);
    } else {
      pieces := PlainPieces(s, o.size);
    }
    BlocksShow(format, text, bounds, blocks, o.size);
    var merged := MergePieces(pieces, o.size);
    GroupsAre(pieces, o.size);
    MergeConserves(Groups(pieces, o.size), o.size);
    out := ApplyOverlap(merged, o.size, o.overlap);
    OutOverlaps(merged, out, o.size, o.overlap);
    assert AreBlocks(format, text, bounds, blocks) && AreChunks(text, options, blocks, merged, out);
  }

  lemma BlocksShow(format: Format, text: string, bounds: seq<nat>, blocks: seq<Block>, size: int)
    requires size >= 1 && TrimSpace(text) != "" && AreBlocks(format, text, bounds, blocks)
    ensures PiecesFit(BlockPieces(blocks, size), size)
    ensures Visible(TextsOf(BlockPieces(blocks, size))) == NonSpace(text)
  {
    var s := TrimSpace(text);
    TrimIsBlank(text);
    TrimIsBlank(s);
    if |bounds| >= 2 && format == Pdf {
      ParagraphSpansShow(s);
      SpanBlocksAre(TrimSpace(s), ParagraphSpans(s), blocks, bounds);
    } else {
      ParagraphsShow(s);
      PlainBlocksAre(Paragraphs(s));
    }
    BlockPiecesShow(blocks, size);
  }

  lemma NothingToSplit(text: string, options: SplitOptions)
    requires NonSpace(text) == []
    ensures AreChunks(text, options, [], [], [])
  {
    assert Visible(TextsOf([])) == [];
  }

  lemma OutOverlaps(own: seq<Piece>, out: seq<Piece>, size: int, overlap: int)
    requires PiecesFit(own, size) && forall p :: p in own ==> Tight(p.text, IsSpace)
    requires |out| == |own| && (overlap <= 0 ==> out == own)
    requires overlap > 0 ==> forall i :: 0 <= i < |out| ==> out[i] == Overlapped(own, i, size, overlap)
    ensures Overlaps(own, out, size, overlap)
  {
    forall i | 0 <= i < |out| ensures OverlapsAt(own, out[i], i, size, overlap) {
      if i > 0 && overlap > 0 {
        assert own[i] in own && own[i - 1] in own;
        assert own[i].text != [] && own[i - 1].text != [];
        OverlapKeepsText(own[i - 1].text, own[i].text, size, overlap);
      }
    }
  }
}
