/** Pieces merged into chunks, and the overlap between chunks: pkg/rag/splitter.go. */
module RagChunks {
  import opened Strings
  import Lines
  import opened RagSplitter

  // ---------- groups of pieces ----------

  function TextsOf(pieces: seq<Piece>): seq<string> {
    seq(|pieces|, i requires 0 <= i < |pieces| => pieces[i].text)
  }

  predicate PiecesFit(pieces: seq<Piece>, size: int) {
    forall p :: p in pieces ==> |p.text| <= size && !Blank(p.text)
  }

  type Group = g: seq<Piece> | g != [] witness [Piece("", [], 0, 0)]

  function JoinTexts(g: Group): string
  {
    if |g| == 1 then g[0].text else JoinTexts(g[..|g| - 1]) + "\n" + g[|g| - 1].text
  }

  /** unionPDFPageRange: 0 stands for no page. */
  function Union(a: (int, int), b: (int, int)): (int, int) {
    if b.0 <= 0 then a
    else if a.0 <= 0 then b
    else (if b.0 < a.0 then b.0 else a.0, if b.1 > a.1 then b.1 else a.1)
  }

  function PagesOf(g: Group): (int, int)
  {
    var p := g[|g| - 1];
    if |g| == 1 then (p.lo, p.hi) else Union(PagesOf(g[..|g| - 1]), (p.lo, p.hi))
  }

  /** The chunk a group of pieces becomes. */
  function Glue(g: Group): Piece
  {
    Piece(TrimSpace(JoinTexts(g)), g[0].path, PagesOf(g).0, PagesOf(g).1)
  }

  /** Pieces under one heading whose joined text fits. */
  predicate IsGroup(g: Group, size: int) {
    |JoinTexts(g)| <= size && forall p :: p in g ==> p.path == g[0].path
  }

  predicate Joins(g: Group, p: Piece, size: int) {
    g[0].path == p.path && |JoinTexts(g)| + 1 + |p.text| <= size
  }

  /** The piece that begins the next group would not have joined this one. */
  predicate Apart(g: Group, h: Group, size: int) {
    !Joins(g, h[0], size)
  }

  /** Groups that are as long as they can be, filled from the front. */
  ghost predicate IsGrouping(gs: seq<Group>, size: int) {
    && (forall i :: 0 <= i < |gs| ==> IsGroup(gs[i], size))
    && (forall i, j :: 0 <= i < j < |gs| && j == i + 1 ==> Apart(gs[i], gs[j], size))
  }

  function Flat(gs: seq<Group>): seq<Piece> {
    if gs == [] then [] else Flat(gs[..|gs| - 1]) + gs[|gs| - 1]
  }

  function GlueAll(gs: seq<Group>): seq<Piece> {
    if gs == [] then [] else GlueAll(gs[..|gs| - 1]) + [Glue(gs[|gs| - 1])]
  }

  /** A piece joins the last group if it can, or else begins another. */
  function AddTo(gs: seq<Group>, p: Piece, size: int): seq<Group> {
    var k := |gs| - 1;
    if gs != [] && Joins(gs[k], p, size) then gs[..k] + [gs[k] + [p]] else gs + [[p]]
  }

  function Groups(pieces: seq<Piece>, size: int): seq<Group> {
    if pieces == [] then [] else AddTo(Groups(pieces[..|pieces| - 1], size), pieces[|pieces| - 1], size)
  }

  lemma JoinLast(g: Group, p: Piece)
    ensures JoinTexts(g + [p]) == JoinTexts(g) + "\n" + p.text
    ensures PagesOf(g + [p]) == Union(PagesOf(g), (p.lo, p.hi))
  {
    assert (g + [p])[..|g|] == g;
  }

  lemma GroupsLast(gs: seq<Group>, g: Group)
    ensures Flat(gs + [g]) == Flat(gs) + g
    ensures GlueAll(gs + [g]) == GlueAll(gs) + [Glue(g)]
  {
    assert (gs + [g])[..|gs|] == gs;
  }

  // ---------- merging ----------

  /** The closed groups have been merged; the builder holds the open one. */
  ghost predicate Merging(gs: seq<Group>, g: Group, cur: Piece, merged: seq<Piece>, done: seq<Piece>, size: int) {
    && IsGrouping(gs + [g], size) && Flat(gs) + g == done
    && merged == GlueAll(gs)
    && cur == Piece(JoinTexts(g), g[0].path, PagesOf(g).0, PagesOf(g).1)
  }

  lemma GroupGrows(gs: seq<Group>, g: Group, p: Piece, size: int)
    requires IsGrouping(gs + [g], size) && Joins(g, p, size)
    ensures IsGrouping(gs + [g + [p]], size)
  {
    JoinLast(g, p);
    var a, b := gs + [g], gs + [g + [p]];
    assert IsGroup(a[|gs|], size);
    assert IsGroup(g + [p], size);
    forall i | 0 <= i < |b| ensures IsGroup(b[i], size) {
      assert i < |gs| ==> b[i] == a[i];
    }
    forall i, j | 0 <= i < j < |b| && j == i + 1 ensures Apart(b[i], b[j], size) {
      assert Apart(a[i], a[j], size);
    }
  }

  lemma GroupStarts(gs: seq<Group>, g: Group, p: Piece, size: int)
    requires IsGrouping(gs + [g], size) && !Joins(g, p, size) && |p.text| <= size
    ensures IsGrouping(gs + [g] + [[p]], size)
  {
    var a, b := gs + [g], gs + [g] + [[p]];
    forall i | 0 <= i < |b| ensures IsGroup(b[i], size) {
      assert i <= |gs| ==> b[i] == a[i];
    }
    forall i, j | 0 <= i < j < |b| && j == i + 1 ensures Apart(b[i], b[j], size) {
      assert i < |gs| ==> Apart(a[i], a[j], size);
    }
  }

  /** A group of pieces shows what the pieces show. */
  lemma {:induction false} GroupShows(g: Group)
    ensures NonSpace(JoinTexts(g)) == Visible(TextsOf(g))
  {
    var p := g[|g| - 1];
    var front := g[..|g| - 1];
    assert TextsOf(g) == TextsOf(front) + [p.text];
    VisibleAppend(TextsOf(front), p.text);
    if |g| == 1 {
      assert TextsOf(front) == [];
      assert Visible([]) == [];
    } else {
      GroupShows(front);
      JoinShows(JoinTexts(front), "\n", p.text);
    }
  }

  /** Joined texts are the pieces' texts as lines. */
  lemma {:induction false} TextsAreLines(g: Group)
    ensures JoinTexts(g) == Lines.Join(TextsOf(g))
  {
    var front, p := g[..|g| - 1], g[|g| - 1];
    assert TextsOf(g) == TextsOf(front) + [p.text];
    if |g| > 1 {
      TextsAreLines(front);
      LineAppended(TextsOf(front), p.text);
    }
  }

  lemma {:induction false} LineAppended(ls: seq<string>, l: string)
    requires ls != []
    ensures Lines.Join(ls + [l]) == Lines.Join(ls) + "\n" + l
  {
    assert (ls + [l])[1..] == ls[1..] + [l] && (ls + [l])[0] == ls[0];
    if |ls| == 1 {
      assert ls[1..] + [l] == [l];
    } else {
      LineAppended(ls[1..], l);
      assert ls[0] + "\n" + (Lines.Join(ls[1..]) + "\n" + l) == ls[0] + "\n" + Lines.Join(ls[1..]) + "\n" + l;
    }
  }

  lemma SomethingShows(g: Group)
    requires !Blank(g[0].text)
    ensures Visible(TextsOf(g)) != []
  {
    assert TextsOf(g) == [g[0].text] + TextsOf(g[1..]);
    VisibleConcat([g[0].text], TextsOf(g[1..]));
    VisibleAppend([], g[0].text);
    assert [] + [g[0].text] == [g[0].text];
  }

  lemma GlueFits(g: Group, size: int)
    requires IsGroup(g, size) && PiecesFit(g, size)
    ensures NonSpace(Glue(g).text) == Visible(TextsOf(g))
    ensures !Blank(Glue(g).text) && |Glue(g).text| <= size && Tight(Glue(g).text, IsSpace)
  {
    GroupShows(g);
    TrimIsBlank(JoinTexts(g));
    var _, _ := TrimParts(JoinTexts(g), IsSpace);
    SomethingShows(g);
  }

  method Flush(merged: seq<Piece>, cur: Piece) returns (merged': seq<Piece>)
    ensures merged' == if Blank(cur.text) then merged else merged + [cur.(text := TrimSpace(cur.text))]
  {
    var t := TrimSpace(cur.text);
    TrimIsBlank(cur.text);
    merged' := merged;
    if t != "" { merged' := merged' + [cur.(text := t)]; }
  }

  lemma NextOf(pieces: seq<Piece>, i: nat, size: int)
    requires i < |pieces| && PiecesFit(pieces, size)
    ensures pieces[..i + 1] == pieces[..i] + [pieces[i]] && pieces[i] in pieces && pieces[i].text != ""
  {
    TrimIsBlank(pieces[i].text);
  }

  /** The merge loop: cur is the builder with its heading path and page range. */
  method MergePieces(pieces: seq<Piece>, size: int) returns (merged: seq<Piece>)
    requires PiecesFit(pieces, size)
    ensures merged == GlueAll(Groups(pieces, size))
  {
    merged := [];
    ghost var gs: seq<Group> := [];
    var cur := Piece("", [], 0, 0);
    ghost var g: Group := [cur];
    for i := 0 to |pieces|
      invariant i == 0 ==> cur.text == "" && merged == [] && gs == []
      invariant i > 0 ==> Merging(gs, g, cur, merged, pieces[..i], size) && cur.text != ""
    {
      var p := pieces[i];
      NextOf(pieces, i, size);
      if |cur.text| == 0 {
        cur := p;
        g := [p];
        FirstGroup(p, size, pieces[..i + 1]);
      } else {
        NextPiece(gs, g, cur, merged, pieces[..i], p, size);
        if cur.path == p.path && |cur.text| + 1 + |p.text| <= size {
          var u := Union((cur.lo, cur.hi), (p.lo, p.hi));
          cur := Piece(cur.text + "\n" + p.text, cur.path, u.0, u.1);
          g := g + [p];
        } else {
          OpenShows(gs, g, cur, merged, pieces, i, size);
          merged := Flush(merged, cur);
          gs, g := gs + [g], [p];
          cur := p;
        }
      }
    }
    assert pieces[..|pieces|] == pieces;
    if |pieces| > 0 { LastGroup(gs, g, cur, merged, pieces, size); }
    merged := Flush(merged, cur);
  }

  lemma LastGroup(gs: seq<Group>, g: Group, cur: Piece, merged: seq<Piece>, pieces: seq<Piece>, size: int)
    requires PiecesFit(pieces, size) && pieces != [] && Merging(gs, g, cur, merged, pieces, size)
    ensures !Blank(cur.text) && merged + [cur.(text := TrimSpace(cur.text))] == GlueAll(Groups(pieces, size))
  {
    assert pieces[..|pieces|] == pieces;
    OpenShows(gs, g, cur, merged, pieces, |pieces|, size);
    GroupsLast(gs, g);
    GroupingUnique(gs + [g], size);
  }

  lemma AddedIsGrouping(gs: seq<Group>, p: Piece, size: int)
    requires IsGrouping(gs, size) && |p.text| <= size
    ensures IsGrouping(AddTo(gs, p, size), size) && Flat(AddTo(gs, p, size)) == Flat(gs) + [p]
  {
    if gs == [] {
      GroupsLast(gs, [p]);
      assert gs + [[p]] == [[p]] && IsGroup([p], size);
    } else {
      assert gs == gs[..|gs| - 1] + [gs[|gs| - 1]];
      AddedToLast(gs[..|gs| - 1], gs[|gs| - 1], p, size);
    }
  }

  lemma AddedToLast(front: seq<Group>, g: Group, p: Piece, size: int)
    requires IsGrouping(front + [g], size) && |p.text| <= size
    ensures var gs := AddTo(front + [g], p, size);
            IsGrouping(gs, size) && Flat(gs) == Flat(front + [g]) + [p]
  {
    if Joins(g, p, size) {
      GroupGrows(front, g, p, size);
      GroupsLast(front, g);
      GroupsLast(front, g + [p]);
      Assoc(Flat(front), g, [p]);
      assert (front + [g])[..|front|] == front;
    } else {
      GroupStarts(front, g, p, size);
      GroupsLast(front + [g], [p]);
    }
  }

  /** Groups is a grouping of the pieces. */
  lemma {:induction false} GroupsAre(pieces: seq<Piece>, size: int)
    requires PiecesFit(pieces, size)
    ensures IsGrouping(Groups(pieces, size), size) && Flat(Groups(pieces, size)) == pieces
  {
    if pieces != [] {
      var rest, p := pieces[..|pieces| - 1], pieces[|pieces| - 1];
      assert pieces == rest + [p] && p in pieces && forall q :: q in rest ==> q in pieces;
      GroupsAre(rest, size);
      AddedIsGrouping(Groups(rest, size), p, size);
    }
  }

  lemma FirstGroup(p: Piece, size: int, done: seq<Piece>)
    requires |p.text| <= size && done == [p]
    ensures Merging([], [p], p, [], done, size)
  {
    assert [] + [[p]] == [[p]];
  }

  lemma NextPiece(gs: seq<Group>, g: Group, cur: Piece, merged: seq<Piece>, done: seq<Piece>, p: Piece, size: int)
    requires Merging(gs, g, cur, merged, done, size) && |p.text| <= size
    ensures Joins(g, p, size) ==>
              var u := Union((cur.lo, cur.hi), (p.lo, p.hi));
              Merging(gs, g + [p], Piece(cur.text + "\n" + p.text, cur.path, u.0, u.1), merged, done + [p], size)
    ensures !Joins(g, p, size) ==> Merging(gs + [g], [p], p, merged + [Glue(g)], done + [p], size)
  {
    if Joins(g, p, size) {
      GroupGrows(gs, g, p, size);
      JoinLast(g, p);
      Assoc(Flat(gs), g, [p]);
    } else {
      GroupStarts(gs, g, p, size);
      GroupsLast(gs, g);
    }
  }

  /** The open group shows something, so flushing it gives its chunk. */
  lemma OpenShows(gs: seq<Group>, g: Group, cur: Piece, merged: seq<Piece>, pieces: seq<Piece>, i: nat, size: int)
    requires i <= |pieces| && PiecesFit(pieces, size) && Merging(gs, g, cur, merged, pieces[..i], size)
    ensures !Blank(cur.text) && cur.(text := TrimSpace(cur.text)) == Glue(g)
  {
    assert forall p :: p in g ==> p in pieces[..i];
    assert IsGroup((gs + [g])[|gs|], size);
    GlueFits(g, size);
    TrimIsBlank(JoinTexts(g));
  }

  lemma TextsAppend(a: seq<Piece>, b: seq<Piece>)
    ensures TextsOf(a + b) == TextsOf(a) + TextsOf(b)
  {
  }

  /** Merging shows what the pieces show, in chunks that fit. */
  lemma {:induction false} MergeConserves(gs: seq<Group>, size: int)
    requires IsGrouping(gs, size) && PiecesFit(Flat(gs), size)
    ensures Visible(TextsOf(GlueAll(gs))) == Visible(TextsOf(Flat(gs)))
    ensures PiecesFit(GlueAll(gs), size) && forall p :: p in GlueAll(gs) ==> Tight(p.text, IsSpace)
  {
    if gs != [] {
      var front, g := gs[..|gs| - 1], gs[|gs| - 1];
      assert forall p :: p in Flat(front) || p in g ==> p in Flat(gs);
      assert IsGroup(g, size);
      MergeConserves(front, size);
      GlueFits(g, size);
      TextsAppend(Flat(front), g);
      TextsAppend(GlueAll(front), [Glue(g)]);
      assert TextsOf([Glue(g)]) == [Glue(g).text];
      VisibleConcat(TextsOf(Flat(front)), TextsOf(g));
      VisibleAppend(TextsOf(GlueAll(front)), Glue(g).text);
    }
  }

  /** The page range of a chunk is the least first page and the greatest last page of its pieces. */
  predicate IsPageRange(g: Group, lo: int, hi: int) {
    && (forall p :: p in g ==> lo <= p.lo && p.hi <= hi)
    && (exists p :: p in g && p.lo == lo) && exists p :: p in g && p.hi == hi
  }

  lemma {:induction false} PagesAreRange(g: Group)
    requires forall p :: p in g ==> p.lo > 0
    ensures IsPageRange(g, PagesOf(g).0, PagesOf(g).1)
  {
    var front, p := g[..|g| - 1], g[|g| - 1];
    assert p in g;
    if |g| == 1 {
      assert g == [p];
    } else {
      assert g == front + [p];
      PagesAreRange(front);
      var a :| a in front && a.lo == PagesOf(front).0;
      var b :| b in front && b.hi == PagesOf(front).1;
      assert a in g && b in g;
    }
  }

  // ---------- the grouping is determined ----------

  lemma GroupPrefix(g: Group, p: Piece, size: int)
    requires IsGroup(g + [p], size)
    ensures IsGroup(g, size) && Joins(g, p, size)
  {
    JoinLast(g, p);
    assert (g + [p])[0] == g[0] && p in g + [p];
    forall q | q in g ensures q.path == g[0].path { assert q in g + [p]; }
  }

  lemma ShortenLast(front: seq<Group>, h: Group, p: Piece, size: int)
    requires IsGrouping(front + [h + [p]], size) && IsGroup(h, size)
    ensures IsGrouping(front + [h], size)
  {
    var a, b := front + [h + [p]], front + [h];
    forall i | 0 <= i < |b| ensures IsGroup(b[i], size) {
      assert i < |front| ==> IsGroup(a[i], size);
    }
    forall i, j | 0 <= i < j < |b| && j == i + 1 ensures Apart(b[i], b[j], size) {
      assert Apart(a[i], a[j], size);
    }
  }

  lemma DropGroup(front: seq<Group>, p: Piece, size: int)
    requires IsGrouping(front + [[p]], size)
    ensures IsGrouping(front, size) && Flat(front + [[p]]) == Flat(front) + [p]
    ensures front + [[p]] == AddTo(front, p, size)
  {
    var gs := front + [[p]];
    GroupsLast(front, [p]);
    forall i | 0 <= i < |front| ensures IsGroup(front[i], size) { assert IsGroup(gs[i], size); }
    forall i, j | 0 <= i < j < |front| && j == i + 1 ensures Apart(front[i], front[j], size) {
      assert Apart(gs[i], gs[j], size);
    }
    assert front != [] ==> Apart(gs[|front| - 1], gs[|front|], size);
  }

  lemma DropFromGroup(front: seq<Group>, h: Group, p: Piece, size: int)
    requires IsGrouping(front + [h + [p]], size)
    ensures IsGrouping(front + [h], size) && Flat(front + [h + [p]]) == Flat(front + [h]) + [p]
    ensures front + [h + [p]] == AddTo(front + [h], p, size)
  {
    assert IsGroup((front + [h + [p]])[|front|], size);
    GroupPrefix(h, p, size);
    ShortenLast(front, h, p, size);
    GroupsLast(front, h);
    GroupsLast(front, h + [p]);
    Assoc(Flat(front), h, [p]);
    assert (front + [h])[..|front|] == front;
  }

  /** A grouping without its last piece is a grouping of the other pieces. */
  lemma DropLast(gs: seq<Group>, size: int) returns (rest: seq<Group>, p: Piece)
    requires gs != [] && IsGrouping(gs, size)
    ensures IsGrouping(rest, size) && Flat(gs) == Flat(rest) + [p] && gs == AddTo(rest, p, size)
  {
    var front, g := gs[..|gs| - 1], gs[|gs| - 1];
    p := g[|g| - 1];
    var h := g[..|g| - 1];
    assert gs == front + [g] && g == h + [p];
    if h == [] {
      assert g == [p];
      DropGroup(front, p, size);
      rest := front;
    } else {
      DropFromGroup(front, h, p, size);
      rest := front + [h];
    }
  }

  /** Only this grouping fills every group as far as it goes. */
  lemma {:induction false} GroupingUnique(gs: seq<Group>, size: int)
    requires IsGrouping(gs, size)
    ensures gs == Groups(Flat(gs), size)
    decreases |Flat(gs)|
  {
    if gs != [] {
      var rest, p := DropLast(gs, size);
      GroupingUnique(rest, size);
      assert Flat(gs)[..|Flat(gs)| - 1] == Flat(rest) && Flat(gs)[|Flat(gs)| - 1] == p;
    }
  }
}
