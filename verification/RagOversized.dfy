/** Paragraphs that are too long, split at sentences: pkg/rag/splitter.go. */
module RagOversized {
  import opened Strings
  import opened RagSplitter

  // ---------- groups of sentences ----------

  type Words = g: seq<string> | g != [] witness [""]

  /** Sentences joined by one space. */
  function JoinSpaced(g: Words): string {
    if |g| == 1 then g[0] else JoinSpaced(g[..|g| - 1]) + [' '] + g[|g| - 1]
  }

  /** The group has room for one more sentence. */
  predicate TakesIn(g: Words, s: string, max: int) {
    |JoinSpaced(g)| + 1 + |s| <= max
  }

  function Flat(gs: seq<Words>): seq<string> {
    if gs == [] then [] else Flat(gs[..|gs| - 1]) + gs[|gs| - 1]
  }

  /** The group before group j has no room for the sentence that begins it. */
  predicate FullBefore(gs: seq<Words>, j: nat, max: int)
    requires 0 < j < |gs|
  {
    !TakesIn(gs[j - 1], gs[j][0], max)
  }

  predicate IsGroup(g: Words, max: int) {
    |g| == 1 || |JoinSpaced(g)| <= max
  }

  /** Consecutive sentences in groups that fit, each too full for the sentence that begins the next. */
  ghost predicate IsGrouping(gs: seq<Words>, max: int) {
    && (forall i :: 0 <= i < |gs| ==> IsGroup(gs[i], max))
    && forall j :: 0 < j < |gs| ==> FullBefore(gs, j, max)
  }

  function AddTo(gs: seq<Words>, s: string, max: int): seq<Words> {
    var k := |gs| - 1;
    if gs != [] && TakesIn(gs[k], s, max) then gs[..k] + [gs[k] + [s]] else gs + [[s]]
  }

  function Groups(sents: seq<string>, max: int): seq<Words> {
    if sents == [] then [] else AddTo(Groups(sents[..|sents| - 1], max), sents[|sents| - 1], max)
  }

  lemma FlatLast(gs: seq<Words>, g: Words)
    ensures Flat(gs + [g]) == Flat(gs) + g
  {
    assert (gs + [g])[..|gs|] == gs;
  }

  lemma JoinLast(g: Words, s: string)
    ensures JoinSpaced(g + [s]) == JoinSpaced(g) + [' '] + s
  {
    assert (g + [s])[..|g|] == g;
  }

  lemma AddedIsGrouping(gs: seq<Words>, s: string, max: int)
    requires IsGrouping(gs, max)
    ensures IsGrouping(AddTo(gs, s, max), max) && Flat(AddTo(gs, s, max)) == Flat(gs) + [s]
  {
    if gs == [] {
      FlatLast(gs, [s]);
    } else {
      var front, g := gs[..|gs| - 1], gs[|gs| - 1];
      assert gs == front + [g];
      FlatLast(front, g);
      if TakesIn(g, s, max) {
        GroupGrows(front, g, s, max);
      } else {
        GroupStarts(gs, s, max);
      }
    }
  }

  lemma GroupGrows(front: seq<Words>, g: Words, s: string, max: int)
    requires IsGrouping(front + [g], max) && TakesIn(g, s, max)
    ensures IsGrouping(front + [g + [s]], max) && Flat(front + [g + [s]]) == Flat(front) + g + [s]
  {
    var a, b := front + [g], front + [g + [s]];
    JoinLast(g, s);
    FlatLast(front, g + [s]);
    Assoc(Flat(front), g, [s]);
    forall i | 0 <= i < |b| ensures IsGroup(b[i], max) {
      assert IsGroup(a[i], max);
    }
    forall j | 0 < j < |b| ensures FullBefore(b, j, max) {
      assert FullBefore(a, j, max);
    }
  }

  lemma GroupStarts(gs: seq<Words>, s: string, max: int)
    requires IsGrouping(gs, max) && gs != [] && !TakesIn(gs[|gs| - 1], s, max)
    ensures IsGrouping(gs + [[s]], max) && Flat(gs + [[s]]) == Flat(gs) + [s]
  {
    var b := gs + [[s]];
    FlatLast(gs, [s]);
    forall i | 0 <= i < |b| ensures IsGroup(b[i], max) {
      assert i < |gs| ==> IsGroup(gs[i], max);
    }
    forall j | 0 < j < |b| ensures FullBefore(b, j, max) {
      if j < |gs| { assert FullBefore(gs, j, max); }
    }
  }

  /** The groups of the loop hold the sentences in order, fit, and are greedy. */
  lemma {:induction false} GroupsAre(sents: seq<string>, max: int)
    ensures IsGrouping(Groups(sents, max), max) && Flat(Groups(sents, max)) == sents
  {
    if sents != [] {
      GroupsAre(sents[..|sents| - 1], max);
      AddedIsGrouping(Groups(sents[..|sents| - 1], max), sents[|sents| - 1], max);
    }
  }

  /** Such a grouping is the one the loop makes. */
  lemma {:induction false} GroupingUnique(gs: seq<Words>, max: int)
    requires IsGrouping(gs, max)
    ensures gs == Groups(Flat(gs), max)
    decreases |Flat(gs)|
  {
    if gs != [] {
      var front, g := gs[..|gs| - 1], gs[|gs| - 1];
      assert gs == front + [g];
      if |g| == 1 {
        assert g == [g[0]];
        LastStarted(front, g[0], max);
      } else {
        LastGrew(front, g, max);
      }
    }
  }

  lemma FrontIsGrouping(front: seq<Words>, g: Words, max: int)
    requires IsGrouping(front + [g], max)
    ensures IsGrouping(front, max) && (front != [] ==> !TakesIn(front[|front| - 1], g[0], max)) && IsGroup(g, max)
  {
    var gs := front + [g];
    assert gs[|front|] == g;
    forall i | 0 <= i < |front| ensures IsGroup(front[i], max) {
      assert gs[i] == front[i];
    }
    forall j | 0 < j < |front| ensures FullBefore(front, j, max) {
      assert FullBefore(gs, j, max);
    }
    if front != [] { assert FullBefore(gs, |front|, max); }
  }

  lemma LastStarted(front: seq<Words>, s: string, max: int)
    requires IsGrouping(front + [[s]], max)
    ensures front + [[s]] == Groups(Flat(front + [[s]]), max)
    decreases |Flat(front + [[s]])|, 0
  {
    FrontIsGrouping(front, [s], max);
    FlatLast(front, [s]);
    GroupingUnique(front, max);
    assert Flat(front + [[s]])[..|Flat(front)|] == Flat(front);
  }

  lemma LastGrew(front: seq<Words>, g: Words, max: int)
    requires IsGrouping(front + [g], max) && |g| > 1
    ensures front + [g] == Groups(Flat(front + [g]), max)
    decreases |Flat(front + [g])|, 0
  {
    var less, s := g[..|g| - 1], g[|g| - 1];
    ShorterIsGrouping(front, g, max);
    FlatLast(front, g);
    FlatLast(front, less);
    GroupingUnique(front + [less], max);
    assert less + [s] == g;
    Assoc(Flat(front), less, [s]);
    assert Flat(front + [g])[..|Flat(front + [less])|] == Flat(front + [less]);
    assert (front + [less])[..|front|] == front;
  }

  lemma ShorterIsGrouping(front: seq<Words>, g: Words, max: int)
    requires IsGrouping(front + [g], max) && |g| > 1
    ensures IsGrouping(front + [g[..|g| - 1]], max) && TakesIn(g[..|g| - 1], g[|g| - 1], max)
  {
    var less := g[..|g| - 1];
    var a, b := front + [g], front + [less];
    assert a[|front|] == g;
    forall i | 0 <= i < |b| ensures IsGroup(b[i], max) {
      assert IsGroup(a[i], max);
    }
    forall j | 0 < j < |b| ensures FullBefore(b, j, max) {
      assert FullBefore(a, j, max);
    }
  }

  // ---------- the parts of a paragraph ----------

  /** A group as one part, or the pieces of a sentence that is too long for one. */
  function PartsOf(g: Words, max: int): seq<string>
    requires max >= 1
  {
    if |JoinSpaced(g)| <= max then [JoinSpaced(g)] else HardParts(g[0], max)
  }

  function AllParts(gs: seq<Words>, max: int): seq<string>
    requires max >= 1
  {
    if gs == [] then [] else AllParts(gs[..|gs| - 1], max) + PartsOf(gs[|gs| - 1], max)
  }

  /** A paragraph that fits; the greedy groups of its sentences; or, if it is one sentence, that cut up. */
  function OversizedParts(p: string, max: int): seq<string>
    requires max >= 1
  {
    if |p| <= max then [p]
    else if |Sentences(p)| <= 1 then HardParts(p, max)
    else AllParts(Groups(Sentences(p), max), max)
  }

  /** No white space at the ends of a sentence, nor nothing in it. */
  predicate IsSentence(s: string) {
    s != "" && Tight(s, IsSpace)
  }

  predicate AreSentences(g: seq<string>) {
    forall s :: s in g ==> IsSentence(s)
  }

  lemma {:induction false} JoinIsSentence(g: Words)
    requires AreSentences(g)
    ensures IsSentence(JoinSpaced(g))
  {
    assert g[|g| - 1] in g;
    if |g| > 1 {
      assert forall s :: s in g[..|g| - 1] ==> s in g;
      JoinIsSentence(g[..|g| - 1]);
    }
  }

  /** What the parts and the builder hold: the parts of all groups but the last, which is in the builder if it fits. */
  predicate Holds(out: seq<string>, b: string, gs: seq<Words>, max: int)
    requires max >= 1
  {
    if gs == [] then out == [] && b == ""
    else
      var k := |gs| - 1;
      if |JoinSpaced(gs[k])| <= max then out == AllParts(gs[..k], max) && b == JoinSpaced(gs[k])
      else out == AllParts(gs, max) && b == ""
  }

  /** What flushing leaves. */
  function Flushed(out: seq<string>, b: string): seq<string> {
    if b == "" then out else out + [b]
  }

  method FlushInto(out: seq<string>, b: string) returns (out': seq<string>)
    requires Tight(b, IsSpace)
    ensures out' == Flushed(out, b)
  {
    TrimTight(b, IsSpace);
    var t := TrimSpace(b);
    out' := out;
    if t != "" { out' := out' + [t]; }
  }

  /** Flushing leaves the parts of all groups. */
  lemma FlushedHolds(out: seq<string>, b: string, gs: seq<Words>, max: int)
    requires max >= 1 && Holds(out, b, gs, max) && forall i :: 0 <= i < |gs| ==> AreSentences(gs[i])
    ensures Tight(b, IsSpace) && Flushed(out, b) == AllParts(gs, max)
  {
    if gs != [] { JoinIsSentence(gs[|gs| - 1]); }
  }

  /** One sentence: joined to the builder if it fits, after a flush if it does not, cut up if it is too long. */
  method AddSentence(out: seq<string>, b: string, s: string, max: int, ghost gs: seq<Words>)
    returns (out': seq<string>, b': string)
    requires max >= 1 && Holds(out, b, gs, max) && IsSentence(s)
    requires forall i :: 0 <= i < |gs| ==> AreSentences(gs[i])
    ensures Holds(out', b', AddTo(gs, s, max), max)
  {
    out', b' := out, b;
    var n, sr := |b|, |s|;
    FlushedHolds(out, b, gs, max);
    if n > 0 && n + 1 + sr > max {
      out' := FlushInto(out', b');
      b', n := "", 0;
    }
    assert sr > max || n == 0 ==> Flushed(out', b') == AllParts(gs, max);
    AddHolds(out, b, gs, s, max);
    if sr > max {
      out' := FlushInto(out', b');
      var hard := HardSplitRunes(s, max);
      out' := out' + hard;
      b' := "";
      return;
    }
    if n > 0 { b' := b' + [' ']; }
    b' := b' + s;
  }

  /** What is held once the sentence is in. */
  lemma AddHolds(out: seq<string>, b: string, gs: seq<Words>, s: string, max: int)
    requires max >= 1 && Holds(out, b, gs, max) && IsSentence(s)
    requires forall i :: 0 <= i < |gs| ==> AreSentences(gs[i])
    ensures var more, all := AddTo(gs, s, max), AllParts(gs, max);
            if |s| > max then Holds(all + HardParts(s, max), "", more, max)
            else if b != "" && |b| + 1 + |s| <= max then Holds(out, b + [' '] + s, more, max)
            else Holds(all, s, more, max)
  {
    var more := AddTo(gs, s, max);
    if gs == [] {
      assert more == [[s]] && more[..0] == [];
    } else {
      var k := |gs| - 1;
      JoinIsSentence(gs[k]);
      if TakesIn(gs[k], s, max) {
        JoinLast(gs[k], s);
        assert more[..k] == gs[..k];
      } else {
        assert more[..k + 1] == gs;
      }
    }
  }

  lemma SentencesTight(p: string)
    ensures AreSentences(Sentences(p))
  {
    if Blank(p) {
      TrimIsBlank(p);
      assert TrimSpace(p) == "" && TrimSpace("") == "";
    } else {
      var s := TrimSpace(p);
      var cuts := SentencesAreBetween(p);
      forall t | t in Sentences(p) ensures IsSentence(t) {
        var k :| 0 <= k < |Sentences(p)| && Sentences(p)[k] == t;
        assert IsBetween(s, cuts, k, t);
        var l, r := TrimParts(s[cuts[k]..cuts[k + 1]], IsSpace);
      }
    }
  }

  lemma {:induction false} FlatHolds(gs: seq<Words>, i: nat, t: string)
    requires i < |gs| && t in gs[i]
    ensures t in Flat(gs)
  {
    if i < |gs| - 1 { FlatHolds(gs[..|gs| - 1], i, t); }
  }

  lemma GroupsTight(sents: seq<string>, max: int)
    requires AreSentences(sents)
    ensures forall i :: 0 <= i < |Groups(sents, max)| ==> AreSentences(Groups(sents, max)[i])
  {
    var gs := Groups(sents, max);
    GroupsAre(sents, max);
    forall i | 0 <= i < |gs| ensures AreSentences(gs[i]) {
      forall t | t in gs[i] ensures IsSentence(t) {
        FlatHolds(gs, i, t);
      }
    }
  }

  lemma NextGroups(sents: seq<string>, i: nat, max: int)
    requires i < |sents| && AreSentences(sents)
    ensures Groups(sents[..i + 1], max) == AddTo(Groups(sents[..i], max), sents[i], max) && IsSentence(sents[i])
    ensures forall k :: 0 <= k < |Groups(sents[..i], max)| ==> AreSentences(Groups(sents[..i], max)[k])
  {
    assert sents[..i + 1][..i] == sents[..i] && sents[i] in sents;
    GroupsTight(sents[..i], max);
  }

  lemma {:induction false} JoinShowsAll(g: Words)
    ensures NonSpace(JoinSpaced(g)) == Visible(g)
  {
    var front, t := g[..|g| - 1], g[|g| - 1];
    assert g == front + [t];
    VisibleAppend(front, t);
    if |g| > 1 {
      JoinShowsAll(front);
      JoinShows(JoinSpaced(front), [' '], t);
    } else {
      assert Visible([]) == [];
    }
  }

  lemma PartsOfShow(g: Words, max: int)
    requires max >= 1 && IsGroup(g, max) && AreSentences(g)
    ensures Visible(PartsOf(g, max)) == Visible(g) && PartsFit(PartsOf(g, max), max)
  {
    JoinShowsAll(g);
    JoinIsSentence(g);
    var t := JoinSpaced(g);
    VisibleAppend([], t);
    assert [] + [t] == [t] && Visible([]) == [];
    TrimTight(t, IsSpace);
    TrimIsBlank(t);
    if |t| > max { HardIsSplit(g[0], max); }
  }

  lemma {:induction false} AllPartsShow(gs: seq<Words>, max: int)
    requires max >= 1 && forall i :: 0 <= i < |gs| ==> IsGroup(gs[i], max) && AreSentences(gs[i])
    ensures Visible(AllParts(gs, max)) == Visible(Flat(gs)) && PartsFit(AllParts(gs, max), max)
  {
    if gs != [] {
      var front, g := gs[..|gs| - 1], gs[|gs| - 1];
      AllPartsShow(front, max);
      PartsOfShow(g, max);
      VisibleConcat(AllParts(front, max), PartsOf(g, max));
      VisibleConcat(Flat(front), g);
    }
  }

  /** The parts show exactly the paragraph, fit, and are not blank. */
  lemma OversizedIsSplit(p: string, max: int)
    requires max >= 1 && !Blank(p)
    ensures IsSplit(p, OversizedParts(p, max), max)
  {
    if |p| <= max {
      VisibleAppend([], p);
      assert [] + [p] == [p] && Visible([]) == [];
    } else if |Sentences(p)| <= 1 {
      HardIsSplit(p, max);
    } else {
      SentencesConserve(p);
      SentencesTight(p);
      GroupsTight(Sentences(p), max);
      GroupsAre(Sentences(p), max);
      AllPartsShow(Groups(Sentences(p), max), max);
    }
  }

  /** Several sentences become the parts of greedy groups, and only a sentence too long for one part is cut. */
  lemma OversizedAreGroups(p: string, max: int) returns (gs: seq<Words>)
    requires max >= 1 && |p| > max && |Sentences(p)| > 1
    ensures IsGrouping(gs, max) && Flat(gs) == Sentences(p) && OversizedParts(p, max) == AllParts(gs, max)
    ensures forall i :: 0 <= i < |gs| && |JoinSpaced(gs[i])| > max ==> gs[i] == [gs[i][0]] && |gs[i][0]| > max
  {
    gs := Groups(Sentences(p), max);
    GroupsAre(Sentences(p), max);
    forall i | 0 <= i < |gs| && |JoinSpaced(gs[i])| > max ensures gs[i] == [gs[i][0]] && |gs[i][0]| > max {
      assert IsGroup(gs[i], max);
    }
  }

  method SplitOversizedParagraph(p: string, max: int) returns (out: seq<string>)
    requires max >= 1 && !Blank(p)
    ensures out == OversizedParts(p, max) && IsSplit(p, out, max)
  {
    OversizedIsSplit(p, max);
    if |p| <= max { return [p]; }
    var sents := SplitSentences(p);
    if |sents| <= 1 {
      out := HardSplitRunes(p, max);
      return;
    }
    out := [];
    var b := "";
    SentencesTight(p);
    for i := 0 to |sents|
      invariant Holds(out, b, Groups(sents[..i], max), max)
    {
      NextGroups(sents, i, max);
      out, b := AddSentence(out, b, sents[i], max, Groups(sents[..i], max));
    }
    assert sents[..|sents|] == sents;
    GroupsTight(sents, max);
    FlushedHolds(out, b, Groups(sents, max), max);
    out := FlushInto(out, b);
    // Something visible went in, so the fallback for an empty result is never needed.
  }
}
