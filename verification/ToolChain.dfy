/** Grouping messages into tool chains: internal/chatui/tool_chain_partition.go. */
module ToolChain {
  import opened Strings
  import opened Domain

  /** A nil entry of the message slice is None. */
  type Messages = seq<Option<Message>>

  datatype Segment = Segment(lead: nat, toolStart: nat, toolEnd: nat)

  datatype Element = Single(index: nat) | Chain(segments: seq<Segment>, final: Option<nat>)

  predicate HasToolCalls(m: Option<Message>) {
    m.Some? && m.value.role == Assistant && TrimSpace(m.value.toolCallsJSON) != ""
  }

  predicate IsTool(m: Option<Message>) {
    m.Some? && m.value.role == Tool
  }

  predicate IsPlainAssistant(m: Option<Message>) {
    m.Some? && m.value.role == Assistant && !HasToolCalls(m)
  }

  // ---------- what a partition is ----------

  /** A tool-calling assistant with at least one tool message after it. */
  predicate StartsSegment(msgs: Messages, i: nat) {
    i + 1 < |msgs| && HasToolCalls(msgs[i]) && IsTool(msgs[i + 1])
  }

  /** The lead is followed by exactly the maximal run of tool messages. */
  predicate IsSegment(msgs: Messages, s: Segment) {
    && StartsSegment(msgs, s.lead)
    && s.toolStart == s.lead + 1 <= s.toolEnd < |msgs|
    && (forall i :: s.toolStart <= i <= s.toolEnd ==> IsTool(msgs[i]))
    && (s.toolEnd + 1 == |msgs| || !IsTool(msgs[s.toolEnd + 1]))
  }

  /** Segments back to back from index i on, the last ending before index j. */
  predicate AreSegments(msgs: Messages, segs: seq<Segment>, i: nat, j: nat) {
    if segs == [] then i == j
    else IsSegment(msgs, segs[0]) && segs[0].lead == i && AreSegments(msgs, segs[1..], segs[0].toolEnd + 1, j)
  }

  /** e covers the messages from i up to j: a chain as long as it can be, or one message that starts none. */
  predicate Covers(msgs: Messages, e: Element, i: nat, j: nat) {
    match e
    case Single(k) => k == i < |msgs| && j == i + 1 && !StartsSegment(msgs, i)
    case Chain(segs, final) =>
      var end := if final.Some? then final.value else j;
      && segs != [] && AreSegments(msgs, segs, i, end)
      && end <= |msgs| && !StartsSegment(msgs, end)
      && (final.Some? <==> end < |msgs| && IsPlainAssistant(msgs[end]))
      && (final.Some? ==> j == end + 1)
  }

  /** es covers the messages from i up to j, element by element. */
  ghost predicate IsPartition(msgs: Messages, es: seq<Element>, i: nat, j: nat)
    decreases |es|
  {
    if es == [] then i == j
    else exists m: nat :: Covers(msgs, es[0], i, m) && IsPartition(msgs, es[1..], m, j)
  }

  // ---------- the algorithm ----------

  lemma {:induction false} SegmentsAppend(msgs: Messages, segs: seq<Segment>, i: nat, j: nat, s: Segment)
    requires AreSegments(msgs, segs, i, j) && IsSegment(msgs, s) && s.lead == j
    ensures AreSegments(msgs, segs + [s], i, s.toolEnd + 1)
  {
    if segs == [] {
      assert (segs + [s])[1..] == [];
    } else {
      SegmentsAppend(msgs, segs[1..], segs[0].toolEnd + 1, j, s);
      assert (segs + [s])[1..] == segs[1..] + [s];
    }
  }

  lemma {:induction false} PartitionAppend(msgs: Messages, es: seq<Element>, i: nat, j: nat, e: Element, k: nat)
    requires IsPartition(msgs, es, i, j) && Covers(msgs, e, j, k)
    ensures IsPartition(msgs, es + [e], i, k)
    decreases |es|
  {
    if es == [] {
      assert (es + [e])[1..] == [] && IsPartition(msgs, [], k, k);
    } else {
      var m: nat :| Covers(msgs, es[0], i, m) && IsPartition(msgs, es[1..], m, j);
      PartitionAppend(msgs, es[1..], m, j, e, k);
      assert (es + [e])[1..] == es[1..] + [e];
    }
  }

  lemma RunIsSegment(msgs: Messages, lead: nat, end: nat)
    requires lead + 1 < end <= |msgs| && HasToolCalls(msgs[lead])
    requires forall i :: lead < i < end ==> IsTool(msgs[i])
    requires end == |msgs| || !IsTool(msgs[end])
    ensures IsSegment(msgs, Segment(lead, lead + 1, end - 1))
  {
  }

  /** A chain ends where no segment starts, with the plain answer there if there is one. */
  lemma ChainCovers(msgs: Messages, segs: seq<Segment>, i: nat, end: nat)
    requires segs != [] && AreSegments(msgs, segs, i, end) && end <= |msgs|
    ensures !StartsSegment(msgs, end) ==>
              if end < |msgs| && IsPlainAssistant(msgs[end])
              then Covers(msgs, Chain(segs, Some(end)), i, end + 1)
              else Covers(msgs, Chain(segs, None), i, end)
  {
  }

  method ConsumeToolChain(msgs: Messages, start: nat) returns (group: Option<Element>, next: nat)
    requires start < |msgs| && HasToolCalls(msgs[start])
    ensures if StartsSegment(msgs, start)
            then group.Some? && group.value.Chain? && Covers(msgs, group.value, start, next)
            else group == None && next == start + 1
    ensures start < next <= |msgs|
  {
    var n, cur := |msgs|, start;
    var segs := [];
    while true
      invariant start <= cur < n
      invariant AreSegments(msgs, segs, start, cur)
      invariant segs == [] <==> cur == start
      invariant HasToolCalls(msgs[cur])
      decreases n - cur
    {
      var te := cur + 1;
      while te < n && IsTool(msgs[te])
        invariant cur < te <= n
        invariant forall i :: cur < i < te ==> IsTool(msgs[i])
      {
        te := te + 1;
      }
      if te == cur + 1 {
        if |segs| == 0 { return None, cur + 1; }
        ChainCovers(msgs, segs, start, cur);
        return Some(Chain(segs, None)), cur;
      }
      RunIsSegment(msgs, cur, te);
      SegmentsAppend(msgs, segs, start, cur, Segment(cur, cur + 1, te - 1));
      segs := segs + [Segment(cur, cur + 1, te - 1)];
      ChainCovers(msgs, segs, start, te);
      if te >= n { return Some(Chain(segs, None)), n; }
      var nxt := msgs[te];
      if nxt.None? || nxt.value.role != Assistant { return Some(Chain(segs, None)), te; }
      if HasToolCalls(nxt) {
        cur := te;
        continue;
      }
      return Some(Chain(segs, Some(te))), te + 1;
    }
  }

  method PartitionMessagesForToolChainUI(msgs: Messages) returns (out: seq<Element>)
    ensures IsPartition(msgs, out, 0, |msgs|)
  {
    out := [];
    var i := 0;
    while i < |msgs|
      invariant 0 <= i <= |msgs| && IsPartition(msgs, out, 0, i)
    {
      var m := msgs[i];
      var e, next := Single(i), i + 1;
      if m.Some? && HasToolCalls(m) {
        var group, after := ConsumeToolChain(msgs, i);
        if group.Some? { e := group.value; }
        next := after;
      }
      PartitionAppend(msgs, out, 0, i, e, next);
      out := out + [e];
      i := next;
    }
  }

  // ---------- what every partition satisfies ----------

  function Range(i: nat, j: nat): seq<nat>
    decreases j - i
  {
    if i >= j then [] else [i] + Range(i + 1, j)
  }

  function SegmentIndexes(segs: seq<Segment>): seq<nat> {
    if segs == [] then []
    else [segs[0].lead] + Range(segs[0].toolStart, segs[0].toolEnd + 1) + SegmentIndexes(segs[1..])
  }

  function Indexes(e: Element): seq<nat> {
    match e
    case Single(i) => [i]
    case Chain(segs, final) => SegmentIndexes(segs) + match final case None => [] case Some(f) => [f]
  }

  function Flatten(es: seq<Element>): seq<nat> {
    if es == [] then [] else Indexes(es[0]) + Flatten(es[1..])
  }

  lemma {:induction false} RangeConcat(i: nat, m: nat, j: nat)
    requires i <= m <= j
    ensures Range(i, m) + Range(m, j) == Range(i, j)
    decreases m - i
  {
    if i < m { RangeConcat(i + 1, m, j); }
  }

  lemma {:induction false} SegmentIndexesAre(msgs: Messages, segs: seq<Segment>, i: nat, j: nat)
    requires AreSegments(msgs, segs, i, j)
    ensures i <= j && SegmentIndexes(segs) == Range(i, j) && (segs != [] ==> i < j)
  {
    if segs != [] {
      var e := segs[0].toolEnd + 1;
      SegmentIndexesAre(msgs, segs[1..], e, j);
      FirstSegmentIndexes(segs[0], i, j);
    }
  }

  lemma FirstSegmentIndexes(s: Segment, i: nat, j: nat)
    requires s.lead == i && s.toolStart == i + 1 <= s.toolEnd < j
    ensures [s.lead] + Range(s.toolStart, s.toolEnd + 1) + Range(s.toolEnd + 1, j) == Range(i, j)
  {
    RangeConcat(i, s.toolEnd + 1, j);
  }

  /** No message is lost, repeated or moved. */
  lemma {:induction false} PartitionFlattens(msgs: Messages, es: seq<Element>, i: nat, j: nat)
    requires IsPartition(msgs, es, i, j)
    ensures i <= j && Flatten(es) == Range(i, j) && (es == [] <==> i == j)
    decreases |es|
  {
    if es != [] {
      var m: nat :| Covers(msgs, es[0], i, m) && IsPartition(msgs, es[1..], m, j);
      PartitionFlattens(msgs, es[1..], m, j);
      ElementIndexesAre(msgs, es[0], i, m);
      RangeConcat(i, m, j);
    }
  }

  lemma ElementIndexesAre(msgs: Messages, e: Element, i: nat, j: nat)
    requires Covers(msgs, e, i, j)
    ensures i < j <= |msgs| && Indexes(e) == Range(i, j)
  {
    match e
    case Single(_) => assert Range(i, j) == [i] + Range(i + 1, j);
    case Chain(segs, final) =>
      var end := if final.Some? then final.value else j;
      SegmentIndexesAre(msgs, segs, i, end);
      RangeConcat(i, end, j);
      if final.Some? { assert Range(end, j) == [end] + Range(end + 1, j); }
  }

  lemma {:induction false} SegmentsUnique(msgs: Messages, s1: seq<Segment>, j1: nat, s2: seq<Segment>, j2: nat, i: nat)
    requires AreSegments(msgs, s1, i, j1) && !StartsSegment(msgs, j1)
    requires AreSegments(msgs, s2, i, j2) && !StartsSegment(msgs, j2)
    ensures s1 == s2 && j1 == j2
  {
    if s1 != [] && s2 != [] {
      SegmentsUnique(msgs, s1[1..], j1, s2[1..], j2, s1[0].toolEnd + 1);
    }
  }

  lemma CoversUnique(msgs: Messages, e1: Element, j1: nat, e2: Element, j2: nat, i: nat)
    requires Covers(msgs, e1, i, j1) && Covers(msgs, e2, i, j2)
    ensures e1 == e2 && j1 == j2
  {
    if e1.Chain? && e2.Chain? {
      var end1 := if e1.final.Some? then e1.final.value else j1;
      var end2 := if e2.final.Some? then e2.final.value else j2;
      SegmentsUnique(msgs, e1.segments, end1, e2.segments, end2, i);
    }
  }

  /** The messages determine their partition. */
  lemma {:induction false} PartitionUnique(msgs: Messages, es: seq<Element>, fs: seq<Element>, i: nat)
    requires IsPartition(msgs, es, i, |msgs|) && IsPartition(msgs, fs, i, |msgs|)
    ensures es == fs
    decreases |es|
  {
    PartitionFlattens(msgs, es, i, |msgs|);
    PartitionFlattens(msgs, fs, i, |msgs|);
    if es != [] {
      var m1: nat :| Covers(msgs, es[0], i, m1) && IsPartition(msgs, es[1..], m1, |msgs|);
      var m2: nat :| Covers(msgs, fs[0], i, m2) && IsPartition(msgs, fs[1..], m2, |msgs|);
      CoversUnique(msgs, es[0], m1, fs[0], m2, i);
      PartitionUnique(msgs, es[1..], fs[1..], m1);
    }
  }

  /** A message that belongs to no chain is an element of its own, and the rest is partitioned on its own. */
  lemma {:induction false} PartitionSplitsAt(msgs: Messages, es: seq<Element>, i: nat, p: nat) returns (k: nat)
    requires IsPartition(msgs, es, i, |msgs|) && i <= p < |msgs|
    requires msgs[p].Some? && msgs[p].value.role != Assistant && msgs[p].value.role != Tool
    ensures k < |es| && es[k] == Single(p)
    ensures IsPartition(msgs, es[..k], i, p) && IsPartition(msgs, es[k + 1..], p + 1, |msgs|)
    decreases |es|
  {
    var m: nat :| Covers(msgs, es[0], i, m) && IsPartition(msgs, es[1..], m, |msgs|);
    NotInChain(msgs, es[0], i, m, p);
    if es[0] == Single(p) {
      k := 0;
    } else {
      var k' := PartitionSplitsAt(msgs, es[1..], m, p);
      k := k' + 1;
      assert es[..k][0] == es[0] && es[..k][1..] == es[1..][..k'];
      assert es[k + 1..] == es[1..][k' + 1..];
    }
  }

  lemma {:induction false} NotInSegments(msgs: Messages, segs: seq<Segment>, i: nat, j: nat, p: nat)
    requires AreSegments(msgs, segs, i, j) && i <= p < |msgs|
    requires msgs[p].Some? && msgs[p].value.role != Assistant && msgs[p].value.role != Tool
    ensures j <= p
  {
    if segs != [] {
      NotInSegments(msgs, segs[1..], segs[0].toolEnd + 1, j, p);
    }
  }

  lemma NotInChain(msgs: Messages, e: Element, i: nat, j: nat, p: nat)
    requires Covers(msgs, e, i, j) && i <= p < |msgs|
    requires msgs[p].Some? && msgs[p].value.role != Assistant && msgs[p].value.role != Tool
    ensures e == Single(p) || j <= p
  {
    if e.Chain? {
      NotInSegments(msgs, e.segments, i, if e.final.Some? then e.final.value else j, p);
    }
  }

  /** So what a partition makes of the messages after p does not depend on those before. */
  lemma PartitionAfter(msgs: Messages, es: seq<Element>, p: nat, fs: seq<Element>)
    requires IsPartition(msgs, es, 0, |msgs|) && p < |msgs|
    requires msgs[p].Some? && msgs[p].value.role != Assistant && msgs[p].value.role != Tool
    requires IsPartition(msgs, fs, p + 1, |msgs|)
    ensures exists k: nat :: k < |es| && es[k] == Single(p) && es[k + 1..] == fs
  {
    var k := PartitionSplitsAt(msgs, es, 0, p);
    PartitionUnique(msgs, es[k + 1..], fs, p + 1);
  }
}
