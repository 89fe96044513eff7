/** Fitting the chat history into a token estimate: internal/usecase/llm_history_tokens.go. */
module HistoryTokens {
  import opened Strings
  import opened Domain

  // ---------- the estimate ----------

  predicate LikelyVisionImage(m: Message) {
    var mime := ToLower(TrimSpace(m.attachment.mime));
    m.attachment.length > 0 &&
    ("image/" <= mime || (mime == "" && (m.attachment.imageExt || TrimSpace(m.attachment.name) == "")))
  }

  function VisionImageTokens(byteLen: nat): nat {
    if byteLen == 0 then 0 else if byteLen / 16 < 256 then 256 else if byteLen / 16 > 8192 then 8192 else byteLen / 16
  }

  /** The runes counted besides the content. */
  function OtherRunes(m: Message): nat {
    |m.toolCallsJSON| + |m.toolName| + |m.toolCallID| +
    if m.attachment.length == 0 then |m.attachment.name|
    else if LikelyVisionImage(m) then
      if TrimSpace(m.attachment.mime) != "" then |m.attachment.mime| else |m.attachment.name|
    else m.attachment.length / 4 + |m.attachment.mime|
  }

  function ExtraTokens(m: Message): nat {
    if LikelyVisionImage(m) then VisionImageTokens(m.attachment.length) else 0
  }

  function Tokens(m: Message): nat {
    (|m.content| + OtherRunes(m)) / 4 + 6 + ExtraTokens(m)
  }

  function Sum(msgs: seq<Message>): nat {
    if msgs == [] then 0 else Tokens(msgs[0]) + Sum(msgs[1..])
  }

  lemma {:induction false} SumConcat(a: seq<Message>, b: seq<Message>)
    ensures Sum(a + b) == Sum(a) + Sum(b)
  {
    if a == [] {
      assert a + b == b;
    } else {
      var t := (a + b)[1..];
      assert t == a[1..] + b;
      assert Sum(a + b) == Tokens(a[0]) + Sum(t);
      SumConcat(a[1..], b);
    }
  }

  lemma {:induction false} SumUpdate(msgs: seq<Message>, i: nat, m: Message)
    requires i < |msgs|
    ensures Sum(msgs[i := m]) == Sum(msgs) - Tokens(msgs[i]) + Tokens(m)
  {
    if i > 0 {
      SumUpdate(msgs[1..], i - 1, m);
      assert msgs[i := m][1..] == msgs[1..][i - 1 := m];
    } else {
      assert msgs[i := m][1..] == msgs[1..];
    }
  }

  // ---------- dropping the oldest messages ----------

  /** A dropped image takes the plain reply to it along. */
  predicate Paired(a: Message, b: Message) {
    a.role == User && LikelyVisionImage(a) && b.role == Assistant && TrimSpace(b.toolCallsJSON) == ""
  }

  /** How many messages one round of the loop drops. */
  function GroupLen(middle: seq<Message>): nat
    requires middle != []
  {
    if |middle| > 1 && Paired(middle[0], middle[1]) then 2 else 1
  }

  /** The first d messages make whole groups. */
  predicate WholeGroups(middle: seq<Message>, d: nat) {
    d == 0 || (middle != [] && GroupLen(middle) <= d && WholeGroups(middle[GroupLen(middle)..], d - GroupLen(middle)))
  }

  /** Dropping d messages is necessary: every smaller number of whole groups leaves too much. */
  ghost predicate NeedsToDrop(middle: seq<Message>, fixed: nat, maxTokens: int, d: nat) {
    && d <= |middle| && WholeGroups(middle, d)
    && forall g :: 0 <= g < d && WholeGroups(middle, g) ==> fixed + Sum(middle[g..]) > maxTokens
  }

  /** Fewer messages, fewer tokens: it is enough that the last group was needed. */
  lemma {:induction false} NeedsOneMore(middle: seq<Message>, fixed: nat, maxTokens: int, d: nat)
    requires NeedsToDrop(middle, fixed, maxTokens, d) && d < |middle| && fixed + Sum(middle[d..]) > maxTokens
    ensures NeedsToDrop(middle, fixed, maxTokens, d + GroupLen(middle[d..]))
  {
    var e := GroupLen(middle[d..]);
    GroupsAppend(middle, d);
    forall g | 0 <= g < d + e && WholeGroups(middle, g) ensures fixed + Sum(middle[g..]) > maxTokens {
      if g > d { GroupsAligned(middle, d, g); }
    }
  }

  lemma {:induction false} GroupsAppend(middle: seq<Message>, d: nat)
    requires WholeGroups(middle, d) && d < |middle|
    ensures WholeGroups(middle, d + GroupLen(middle[d..]))
    decreases |middle|
  {
    if d == 0 {
      assert middle[0..] == middle;
    } else {
      var h := GroupLen(middle);
      GroupsAppend(middle[h..], d - h);
      assert middle[h..][d - h..] == middle[d..];
    }
  }

  lemma {:induction false} GroupsAligned(middle: seq<Message>, d: nat, g: nat)
    requires WholeGroups(middle, d) && WholeGroups(middle, g) && d < g && d < |middle|
    ensures d + GroupLen(middle[d..]) <= g
    decreases |middle|
  {
    if d == 0 {
      assert middle[0..] == middle;
    } else {
      var h := GroupLen(middle);
      GroupsAligned(middle[h..], d - h, g - h);
      assert middle[h..][d - h..] == middle[d..];
    }
  }

  lemma DropOne(middle: seq<Message>, d: nat)
    requires d < |middle|
    ensures middle[..d] + [middle[d]] == middle[..d + 1] && middle[d..][1..] == middle[d + 1..]
    ensures Sum(middle[d..]) == Tokens(middle[d]) + Sum(middle[d + 1..])
  {
  }

  // ---------- what that means for single messages ----------

  predicate IsImage(m: Message) {
    m.role == User && LikelyVisionImage(m)
  }

  predicate IsPlainReply(m: Message) {
    m.role == Assistant && All(m.toolCallsJSON, IsSpace)
  }

  /** The last drop was needed; it took one message, or an image and the plain reply to it. */
  predicate LastDropNeeded(middle: seq<Message>, fixed: nat, maxTokens: int, d: nat)
    requires d <= |middle|
  {
    || d == 0
    || fixed + Sum(middle[d - 1..]) > maxTokens
    || (d >= 2 && fixed + Sum(middle[d - 2..]) > maxTokens
        && IsImage(middle[d - 2]) && IsPlainReply(middle[d - 1]))
  }

  /** No plain reply is kept whose image is dropped. */
  predicate NoOrphan(middle: seq<Message>, d: nat) {
    0 < d < |middle| ==> !(IsImage(middle[d - 1]) && IsPlainReply(middle[d]))
  }

  /** The messages that must go are as many as these two say. */
  lemma DropsTell(middle: seq<Message>, fixed: nat, maxTokens: int, d: nat)
    requires NeedsToDrop(middle, fixed, maxTokens, d)
    ensures LastDropNeeded(middle, fixed, maxTokens, d) && NoOrphan(middle, d)
  {
    if d > 0 {
      var g := LastGroup(middle, d);
      GroupTells(middle, g);
      assert fixed + Sum(middle[g..]) > maxTokens;
    }
  }

  lemma {:induction false} LastGroup(middle: seq<Message>, d: nat) returns (g: nat)
    requires WholeGroups(middle, d) && 0 < d <= |middle|
    ensures g < d && WholeGroups(middle, g) && g + GroupLen(middle[g..]) == d
    decreases |middle|
  {
    var h := GroupLen(middle);
    assert middle[0..] == middle;
    if h == d {
      g := 0;
    } else {
      g := LastGroup(middle[h..], d - h);
      assert middle[h..][g..] == middle[h + g..];
      g := h + g;
    }
  }

  lemma GroupTells(middle: seq<Message>, g: nat)
    requires g < |middle|
    ensures var e := g + GroupLen(middle[g..]);
      e <= |middle| && NoOrphan(middle, e) &&
      (e == g + 1 || (e == g + 2 && IsImage(middle[g]) && IsPlainReply(middle[g + 1])))
  {
    var e := g + GroupLen(middle[g..]);
    if g + 1 < |middle| { PairedIff(middle[g], middle[g + 1]); }
    if e < |middle| { PairedIff(middle[e - 1], middle[e]); }
  }

  lemma PairedIff(a: Message, b: Message)
    ensures Paired(a, b) <==> IsImage(a) && IsPlainReply(b)
  {
    BlankIff(b.toolCallsJSON);
  }

  /** The dropping loop, on the messages between the system message and the tail; fixed is what those two cost. */
  method DropMiddle(middle: seq<Message>, fixed: nat, maxTokens: int)
    returns (kept: seq<Message>, dropped: seq<Message>)
    ensures |dropped| <= |middle| && dropped == middle[..|dropped|] && kept == middle[|dropped|..]
    ensures kept == [] || fixed + Sum(kept) <= maxTokens
    ensures NeedsToDrop(middle, fixed, maxTokens, |dropped|)
  {
    kept, dropped := middle, [];
    var total := fixed + Sum(middle);
    ghost var d: nat := 0;
    assert middle[0..] == middle;
    while |kept| > 0 && total > maxTokens
      invariant |dropped| == d <= |middle| && dropped == middle[..d] && kept == middle[d..]
      invariant total == fixed + Sum(middle[d..])
      invariant NeedsToDrop(middle, fixed, maxTokens, d)
      decreases |kept|
    {
      NeedsOneMore(middle, fixed, maxTokens, d);
      ghost var e := d + GroupLen(middle[d..]);
      DropOne(middle, d);
      var first := kept[0];
      dropped := dropped + [first];
      kept := kept[1..];
      total := total - Tokens(first);
      if |kept| > 0 && Paired(first, kept[0]) {
        DropOne(middle, d + 1);
        dropped := dropped + [kept[0]];
        total := total - Tokens(kept[0]);
        kept := kept[1..];
      }
      d := e;
    }
  }

  // ---------- shrinking one message after the other ----------

  /** Written in two parts, so that its first visible rune is at hand. */
  const NOTICE := "\n\n[" + "...фрагмент убран из‑за лимита контекста модели...]"

  predicate Blank(m: Message) {
    TrimSpace(m.content) == ""
  }

  function WithContent(m: Message, s: string): Message {
    m.(content := s)
  }

  /** Up to 96 runes are given up altogether, longer contents lose a quarter and gain the notice. */
  function ShrinkContent(s: string): string {
    if |s| <= 96 then ""
    else s[..if |s| * 3 / 4 > 64 then |s| * 3 / 4 else 64] + NOTICE
  }

  /** The last message before n with something left to shrink, or -1. */
  function LastNonBlank(msgs: seq<Message>, n: nat): int
    requires n <= |msgs|
  {
    if n == 0 then -1 else if !Blank(msgs[n - 1]) then n - 1 else LastNonBlank(msgs, n - 1)
  }

  /** The loop's exit: the budget is met, or nothing is left to shrink before the tail. */
  predicate Done(msgs: seq<Message>, tail: nat, maxTokens: int)
    requires tail <= |msgs|
  {
    Sum(msgs) <= maxTokens || LastNonBlank(msgs, tail) < 0
  }

  lemma {:induction false} LastNonBlankIs(msgs: seq<Message>, n: nat)
    requires n <= |msgs|
    ensures var i := LastNonBlank(msgs, n); -1 <= i < n && (i >= 0 ==> !Blank(msgs[i]))
    ensures forall j :: LastNonBlank(msgs, n) < j < n ==> Blank(msgs[j])
  {
    if n > 0 && Blank(msgs[n - 1]) { LastNonBlankIs(msgs, n - 1); }
  }

  lemma {:induction false} LastNonBlankUnique(msgs: seq<Message>, n: nat, i: nat)
    requires i < n <= |msgs| && !Blank(msgs[i]) && forall j :: i < j < n ==> Blank(msgs[j])
    ensures LastNonBlank(msgs, n) == i
  {
    if i < n - 1 { LastNonBlankUnique(msgs, n - 1, i); }
  }

  function ShrinkStep(msgs: seq<Message>, tail: nat): (r: seq<Message>)
    requires tail <= |msgs|
    ensures |r| == |msgs|
  {
    LastNonBlankIs(msgs, tail);
    var i := LastNonBlank(msgs, tail);
    if i < 0 then msgs else msgs[i := WithContent(msgs[i], ShrinkContent(msgs[i].content))]
  }

  /** The messages after k rounds of the loop's body. */
  function ShrinkRun(msgs: seq<Message>, tail: nat, k: nat): (r: seq<Message>)
    requires tail <= |msgs|
    ensures |r| == |msgs|
    decreases k
  {
    if k == 0 then msgs else ShrinkRun(ShrinkStep(msgs, tail), tail, k - 1)
  }

  /** The loop ends: after some number of rounds its exit is met. */
  ghost predicate Ends(msgs: seq<Message>, tail: nat, maxTokens: int)
    requires tail <= |msgs|
  {
    exists k: nat :: Done(ShrinkRun(msgs, tail, k), tail, maxTokens)
  }

  // ---------- when the shrinking loop ends ----------

  /** The new length of a content of n runes. */
  function ShrunkLength(n: nat): nat {
    if n <= 96 then 0 else n * 3 / 4 + 54
  }

  lemma ShrunkLengthIs(s: string)
    ensures |ShrinkContent(s)| == ShrunkLength(|s|)
    ensures |s| > 96 ==> TrimSpace(ShrinkContent(s)) != ""
  {
    if |s| > 96 {
      var t := ShrinkContent(s);
      assert NOTICE[2] == '[';
      assert t[|s| * 3 / 4 + 2] == NOTICE[2];
      BlankIff(t);
    }
  }

  /** Above 216 runes a content gets shorter, though never shorter than 216; at 97 to 216 it does not. */
  lemma ShrunkLengthBounds(n: nat)
    ensures n > 216 ==> 216 <= ShrunkLength(n) < n
    ensures 97 <= n <= 216 ==> n <= ShrunkLength(n) <= 216
    ensures ShrunkLength(n) == n <==> n == 0 || 213 <= n <= 216
  {
  }

  predicate Long(m: Message) {
    |m.content| > 96 && !Blank(m)
  }

  /** The last message before n that will never be emptied, or -1. */
  function LastLong(msgs: seq<Message>, n: nat): int
    requires n <= |msgs|
  {
    if n == 0 then -1 else if Long(msgs[n - 1]) then n - 1 else LastLong(msgs, n - 1)
  }

  lemma {:induction false} LastLongIs(msgs: seq<Message>, n: nat)
    requires n <= |msgs|
    ensures var i := LastLong(msgs, n); -1 <= i < n && (i >= 0 ==> Long(msgs[i]))
    ensures forall j :: LastLong(msgs, n) < j < n ==> !Long(msgs[j])
  {
    if n > 0 && !Long(msgs[n - 1]) { LastLongIs(msgs, n - 1); }
  }

  lemma {:induction false} LastLongUnique(msgs: seq<Message>, n: nat, i: int)
    requires -1 <= i < n <= |msgs| && (i >= 0 ==> Long(msgs[i])) && forall j :: i < j < n ==> !Long(msgs[j])
    ensures LastLong(msgs, n) == i
  {
    if i < n - 1 { LastLongUnique(msgs, n - 1, i); }
  }

  /** A message as small as the loop can make it. */
  function Smallest(m: Message): Message {
    if Blank(m) then m
    else if |m.content| <= 96 then WithContent(m, "")
    else if |m.content| <= 216 then m
    else WithContent(m, m.content[..216])
  }

  /** The messages with those from i up to the tail as small as can be. */
  function Floor(msgs: seq<Message>, i: int, tail: nat): seq<Message> {
    seq(|msgs|, k requires 0 <= k < |msgs| => if i <= k < tail then Smallest(msgs[k]) else msgs[k])
  }

  /** Everything after the last long message emptied and that message cut to 216 runes fits the budget,
      or there is no long message. */
  predicate CanShrink(msgs: seq<Message>, tail: nat, maxTokens: int)
    requires tail <= |msgs|
  {
    var i := LastLong(msgs, tail);
    i < 0 || Sum(Floor(msgs, i, tail)) <= maxTokens
  }

  lemma {:induction false} SumMonotone(a: seq<Message>, b: seq<Message>)
    requires |a| == |b| && forall i :: 0 <= i < |a| ==> Tokens(a[i]) <= Tokens(b[i])
    ensures Sum(a) <= Sum(b)
  {
    if a != [] {
      assert forall i :: 0 <= i < |a| - 1 ==> a[1..][i] == a[i + 1] && b[1..][i] == b[i + 1];
      SumMonotone(a[1..], b[1..]);
    }
  }

  lemma ShorterContent(m: Message, s: string)
    requires |s| <= |m.content|
    ensures Tokens(WithContent(m, s)) <= Tokens(m)
  {
    assert LikelyVisionImage(WithContent(m, s)) == LikelyVisionImage(m);
    assert OtherRunes(WithContent(m, s)) == OtherRunes(m);
  }

  lemma SameLength(m: Message, s: string, t: string)
    requires |s| == |t|
    ensures Tokens(WithContent(m, s)) == Tokens(WithContent(m, t))
  {
    ShorterContent(WithContent(m, t), s);
    ShorterContent(WithContent(m, s), t);
  }

  lemma FloorIsLess(msgs: seq<Message>, i: int, tail: nat)
    ensures Sum(Floor(msgs, i, tail)) <= Sum(msgs)
  {
    forall k | 0 <= k < |msgs| ensures Tokens(Floor(msgs, i, tail)[k]) <= Tokens(msgs[k]) {
      ShorterContent(msgs[k], Smallest(msgs[k]).content);
      assert WithContent(msgs[k], Smallest(msgs[k]).content) == Smallest(msgs[k]);
    }
    SumMonotone(Floor(msgs, i, tail), msgs);
  }

  /** The runes the loop may still take away. */
  function Runes(msgs: seq<Message>): nat {
    if msgs == [] then 0 else |msgs[0].content| + Runes(msgs[1..])
  }

  lemma {:induction false} RunesUpdate(msgs: seq<Message>, i: nat, m: Message)
    requires i < |msgs|
    ensures Runes(msgs[i := m]) == Runes(msgs) - |msgs[i].content| + |m.content|
  {
    if i > 0 {
      RunesUpdate(msgs[1..], i - 1, m);
      assert msgs[i := m][1..] == msgs[1..][i - 1 := m];
    } else {
      assert msgs[i := m][1..] == msgs[1..];
    }
  }

  /** Over budget with the message being shrunk at 97 to 216 runes: the loop makes no progress from here. */
  predicate Stuck(msgs: seq<Message>, tail: nat, maxTokens: int)
    requires tail <= |msgs|
  {
    LastNonBlankIs(msgs, tail);
    !Done(msgs, tail, maxTokens) && 97 <= |msgs[LastNonBlank(msgs, tail)].content| <= 216
  }

  /** Stuck at message i, with the loop's functions folded away. */
  predicate StuckAt(msgs: seq<Message>, tail: nat, maxTokens: int, i: nat)
    requires tail <= |msgs|
  {
    LastNonBlank(msgs, tail) == i && !Done(msgs, tail, maxTokens) && i < tail && 97 <= |msgs[i].content| <= 216
  }

  lemma StuckAtStays(msgs: seq<Message>, tail: nat, maxTokens: int, i: nat)
    requires tail <= |msgs| && StuckAt(msgs, tail, maxTokens, i)
    ensures StuckAt(ShrinkStep(msgs, tail), tail, maxTokens, i)
  {
    LastNonBlankIs(msgs, tail);
    var m, m' := msgs[i], WithContent(msgs[i], ShrinkContent(msgs[i].content));
    ShrunkLengthIs(m.content);
    ShrunkLengthBounds(|m.content|);
    ShorterContent(m', m.content);
    assert WithContent(m', m.content) == m;
    SumUpdate(msgs, i, m');
    LastNonBlankUnique(ShrinkStep(msgs, tail), tail, i);
  }

  lemma StuckStep(msgs: seq<Message>, tail: nat, maxTokens: int, i: nat) returns (next: seq<Message>)
    requires tail <= |msgs| && StuckAt(msgs, tail, maxTokens, i)
    ensures next == ShrinkStep(msgs, tail) && StuckAt(next, tail, maxTokens, i)
  {
    next := ShrinkStep(msgs, tail);
    StuckAtStays(msgs, tail, maxTokens, i);
  }

  lemma {:induction false} StuckRun(msgs: seq<Message>, tail: nat, maxTokens: int, i: nat, k: nat)
    requires tail <= |msgs| && StuckAt(msgs, tail, maxTokens, i)
    ensures StuckAt(ShrinkRun(msgs, tail, k), tail, maxTokens, i)
    decreases k
  {
    if k > 0 {
      var next := StuckStep(msgs, tail, maxTokens, i);
      StuckRun(next, tail, maxTokens, i, k - 1);
    }
  }

  lemma StuckForever(msgs: seq<Message>, tail: nat, maxTokens: int, k: nat)
    requires tail <= |msgs| && Stuck(msgs, tail, maxTokens)
    ensures !Done(ShrinkRun(msgs, tail, k), tail, maxTokens)
  {
    LastNonBlankIs(msgs, tail);
    StuckRun(msgs, tail, maxTokens, LastNonBlank(msgs, tail), k);
  }

  /** One round leaves the verdict as it is, and takes away runes unless the loop is stuck. */
  lemma StepKeepsVerdict(msgs: seq<Message>, tail: nat, maxTokens: int)
    requires tail <= |msgs| && !Done(msgs, tail, maxTokens) && !Stuck(msgs, tail, maxTokens)
    ensures CanShrink(ShrinkStep(msgs, tail), tail, maxTokens) == CanShrink(msgs, tail, maxTokens)
    ensures Runes(ShrinkStep(msgs, tail)) < Runes(msgs)
  {
    LastNonBlankIs(msgs, tail);
    var i := LastNonBlank(msgs, tail);
    var m, m' := msgs[i], WithContent(msgs[i], ShrinkContent(msgs[i].content));
    var next := ShrinkStep(msgs, tail);
    ShrunkLengthIs(m.content);
    ShrunkLengthBounds(|m.content|);
    RunesUpdate(msgs, i, m');
    LastLongIs(msgs, tail);
    BlankIff(m.content);
    if |m.content| <= 96 {
      EmptiedKeepsVerdict(msgs, next, i, tail, maxTokens);
    } else {
      CutKeepsVerdict(msgs, next, i, tail, maxTokens);
    }
  }

  lemma EmptiedKeepsVerdict(msgs: seq<Message>, next: seq<Message>, i: nat, tail: nat, maxTokens: int)
    requires i < tail <= |msgs| && !Blank(msgs[i]) && |msgs[i].content| <= 96
    requires forall j :: i < j < tail ==> Blank(msgs[j])
    requires next == msgs[i := WithContent(msgs[i], "")]
    ensures CanShrink(next, tail, maxTokens) == CanShrink(msgs, tail, maxTokens)
  {
    LastLongIs(msgs, tail);
    var l := LastLong(msgs, tail);
    LastLongUnique(next, tail, l);
    assert Smallest(next[i]) == Smallest(msgs[i]);
    assert Floor(next, l, tail) == Floor(msgs, l, tail);
  }

  lemma CutKeepsVerdict(msgs: seq<Message>, next: seq<Message>, i: nat, tail: nat, maxTokens: int)
    requires i < tail <= |msgs| && !Blank(msgs[i]) && |msgs[i].content| > 216
    requires forall j :: i < j < tail ==> Blank(msgs[j])
    requires next == msgs[i := WithContent(msgs[i], ShrinkContent(msgs[i].content))]
    ensures CanShrink(next, tail, maxTokens) == CanShrink(msgs, tail, maxTokens)
  {
    ShrunkLengthIs(msgs[i].content);
    ShrunkLengthBounds(|msgs[i].content|);
    LastLongUnique(msgs, tail, i);
    LastLongUnique(next, tail, i);
    CutKeepsFloor(msgs, next, i, tail);
  }

  /** A message that stays over 215 runes can be cut as far as before. */
  lemma CutKeepsFloor(msgs: seq<Message>, next: seq<Message>, i: nat, tail: nat)
    requires i < tail <= |msgs| && !Blank(msgs[i]) && |msgs[i].content| > 216
    requires next == msgs[i := WithContent(msgs[i], ShrinkContent(msgs[i].content))]
    ensures Sum(Floor(next, i, tail)) == Sum(Floor(msgs, i, tail))
  {
    ShrunkLengthIs(msgs[i].content);
    ShrunkLengthBounds(|msgs[i].content|);
    var f, g := Floor(msgs, i, tail), Floor(next, i, tail);
    assert g == f[i := g[i]];
    SumUpdate(f, i, g[i]);
    SameLength(msgs[i], f[i].content, g[i].content);
    assert WithContent(msgs[i], f[i].content) == f[i] && WithContent(msgs[i], g[i].content) == g[i];
  }

  /** The loop ends for exactly these histories. */
  lemma {:induction false} EndsExactlyWhen(msgs: seq<Message>, tail: nat, maxTokens: int)
    requires tail <= |msgs|
    ensures Ends(msgs, tail, maxTokens) <==> CanShrink(msgs, tail, maxTokens)
    decreases Runes(msgs)
  {
    LastNonBlankIs(msgs, tail);
    LastLongIs(msgs, tail);
    if Done(msgs, tail, maxTokens) {
      FloorIsLess(msgs, LastLong(msgs, tail), tail);
      assert Done(ShrinkRun(msgs, tail, 0), tail, maxTokens);
    } else if Stuck(msgs, tail, maxTokens) {
      StuckNeverEnds(msgs, tail, maxTokens);
    } else {
      StepKeepsVerdict(msgs, tail, maxTokens);
      EndsExactlyWhen(ShrinkStep(msgs, tail), tail, maxTokens);
      EndsOneLater(msgs, tail, maxTokens);
    }
  }

  lemma StuckNeverEnds(msgs: seq<Message>, tail: nat, maxTokens: int)
    requires tail <= |msgs| && Stuck(msgs, tail, maxTokens)
    ensures !Ends(msgs, tail, maxTokens) && !CanShrink(msgs, tail, maxTokens)
  {
    LastNonBlankIs(msgs, tail);
    var i := LastNonBlank(msgs, tail);
    LastLongUnique(msgs, tail, i);
    assert Floor(msgs, i, tail) == msgs;
    forall k: nat ensures !Done(ShrinkRun(msgs, tail, k), tail, maxTokens) {
      StuckForever(msgs, tail, maxTokens, k);
    }
  }

  /** A system message of 200 runes and a budget of 20 tokens: the loop never ends. */
  lemma EndlessShrink(system: Message, user: Message)
    requires system == NewMessage(System, seq(200, _ => 'a')) && user == NewMessage(User, "hi")
    ensures !Ends([system, user], 1, 20)
  {
    var msgs := [system, user];
    assert system.content[0] == 'a';
    BlankIff(system.content);
    LastLongUnique(msgs, 1, 0);
    assert Floor(msgs, 0, 1) == msgs && msgs[1..] == [user];
    EndsExactlyWhen(msgs, 1, 20);
  }

  lemma EndsOneLater(msgs: seq<Message>, tail: nat, maxTokens: int)
    requires tail <= |msgs| && !Done(msgs, tail, maxTokens)
    ensures Ends(msgs, tail, maxTokens) <==> Ends(ShrinkStep(msgs, tail), tail, maxTokens)
  {
    var next := ShrinkStep(msgs, tail);
    if Ends(msgs, tail, maxTokens) {
      var k: nat :| Done(ShrinkRun(msgs, tail, k), tail, maxTokens);
      assert k > 0;
      assert Done(ShrinkRun(next, tail, k - 1), tail, maxTokens);
    }
    if Ends(next, tail, maxTokens) {
      var k: nat :| Done(ShrinkRun(next, tail, k), tail, maxTokens);
      assert Done(ShrinkRun(msgs, tail, k + 1), tail, maxTokens);
    }
  }

  // ---------- what the loop leaves ----------

  /** One round keeps the first three quarters of a content above 96 runes, in front of the notice. */
  lemma ShrinkContentKeeps(s: string, k: nat)
    requires |s| > 96 && k < |s| * 3 / 4
    ensures k < |ShrinkContent(s)| && ShrinkContent(s)[k] == s[k] && HasSuffix(ShrinkContent(s), NOTICE)
  {
  }

  /** What any number of rounds makes of a content: it stays, or it had at most 96 runes and is gone, or it keeps a
      front of up to 162 runes and ends in the notice. */
  predicate IsShrunk(s: string, t: string) {
    || t == s
    || (|s| <= 96 && t == "")
    || (|s| > 96 && |t| >= (if |s| < 216 then |s| else 216) && KeepsFront(s, t) && HasSuffix(t, NOTICE))
  }

  predicate KeepsFront(s: string, t: string) {
    var n := if |s| > 216 then 162 else |s| * 3 / 4;
    n <= |t| && t[..n] == s[..n]
  }

  lemma ShrunkAgain(s: string, t: string)
    requires IsShrunk(s, t)
    ensures IsShrunk(s, ShrinkContent(t))
  {
    var u, n := ShrinkContent(t), if |s| > 216 then 162 else |s| * 3 / 4;
    ShrunkLengthIs(t);
    ShrunkLengthBounds(|t|);
    if |s| > 96 {
      forall k | 0 <= k < n ensures u[k] == s[k] {
        ShrinkContentKeeps(t, k);
        assert t[k] == t[..n][k] && s[k] == s[..n][k];
      }
      ShrinkContentKeeps(t, 0);
    }
  }

  /** What shrinking may do to one message: nothing but its content changes, and a long content stays long. */
  predicate ShrunkFrom(m: Message, m': Message) {
    && m' == WithContent(m, m'.content)
    && IsShrunk(m.content, m'.content)
    && (Long(m) ==> Long(m'))
    && (Blank(m) ==> m' == m)
  }

  ghost predicate AllShrunkFrom(msgs: seq<Message>, out: seq<Message>, tail: nat) {
    && |out| == |msgs|
    && (forall i :: 0 <= i < |msgs| ==> ShrunkFrom(msgs[i], out[i]))
    && (forall i :: tail <= i < |msgs| ==> out[i] == msgs[i])
    && forall i :: 0 <= i < tail <= |msgs| && out[i] != msgs[i] ==> AllBlank(out, i + 1, tail)
  }

  predicate AllBlank(msgs: seq<Message>, i: nat, tail: nat)
    requires tail <= |msgs|
  {
    forall j :: i <= j < tail ==> Blank(msgs[j])
  }

  lemma StepShrinks(msgs: seq<Message>, cur: seq<Message>, tail: nat)
    requires tail <= |msgs| && AllShrunkFrom(msgs, cur, tail)
    ensures AllShrunkFrom(msgs, ShrinkStep(cur, tail), tail)
  {
    LastNonBlankIs(cur, tail);
    var i, next := LastNonBlank(cur, tail), ShrinkStep(cur, tail);
    if i >= 0 {
      StepShrinksOne(msgs[i], cur[i]);
      forall k | 0 <= k < tail && next[k] != msgs[k] ensures AllBlank(next, k + 1, tail) {
        if k != i { assert AllBlank(cur, k + 1, tail); }
      }
    }
  }

  lemma StepShrinksOne(m: Message, cur: Message)
    requires ShrunkFrom(m, cur) && !Blank(cur)
    ensures ShrunkFrom(m, WithContent(cur, ShrinkContent(cur.content)))
  {
    ShrunkAgain(m.content, cur.content);
    ShrunkLengthIs(cur.content);
    ShrunkLengthBounds(|cur.content|);
  }

  lemma RoundGoesOn(msgs: seq<Message>, cur: seq<Message>, tail: nat, maxTokens: int)
    requires tail <= |msgs| && AllShrunkFrom(msgs, cur, tail)
    requires CanShrink(cur, tail, maxTokens) && !Done(cur, tail, maxTokens)
    ensures CanShrink(ShrinkStep(cur, tail), tail, maxTokens) && AllShrunkFrom(msgs, ShrinkStep(cur, tail), tail)
    ensures Runes(ShrinkStep(cur, tail)) < Runes(cur)
    ensures 0 <= LastNonBlank(cur, tail) < tail
  {
    NotStuck(cur, tail, maxTokens);
    StepKeepsVerdict(cur, tail, maxTokens);
    StepShrinks(msgs, cur, tail);
    LastNonBlankIs(cur, tail);
  }

  method FindShrinkable(msgs: seq<Message>, tail: nat) returns (idx: int)
    requires tail <= |msgs|
    ensures idx == LastNonBlank(msgs, tail)
  {
    idx := tail - 1;
    while idx >= 0 && Blank(msgs[idx])
      invariant -1 <= idx < tail && LastNonBlank(msgs, tail) == LastNonBlank(msgs, idx + 1)
    {
      idx := idx - 1;
    }
  }

  method ShrinkMessagesToApproxTokenBudget(msgs: seq<Message>, maxTokens: int, preserveTail: int)
    returns (out: seq<Message>)
    requires CanShrink(msgs, TailStart(msgs, preserveTail), maxTokens)
    ensures Done(out, TailStart(out, preserveTail), maxTokens)
    ensures AllShrunkFrom(msgs, out, TailStart(msgs, preserveTail))
    ensures Sum(msgs) <= maxTokens ==> out == msgs
  {
    if |msgs| == 0 { return msgs; }
    var preserve := if preserveTail < 0 then 0 else if preserveTail > |msgs| then |msgs| else preserveTail;
    out := msgs;
    var tail := |msgs| - preserve;
    while Sum(out) > maxTokens
      invariant |out| == |msgs| && CanShrink(out, tail, maxTokens)
      invariant AllShrunkFrom(msgs, out, tail)
      invariant Sum(msgs) <= maxTokens ==> out == msgs
      decreases Runes(out)
    {
      var idx := FindShrinkable(out, tail);
      if idx < 0 { break; }
      RoundGoesOn(msgs, out, tail, maxTokens);
      ghost var next := ShrinkStep(out, tail);
      out := out[idx := WithContent(out[idx], ShrinkContent(out[idx].content))];
      assert out == next;
    }
  }

  function TailStart(msgs: seq<Message>, preserveTail: int): (n: nat)
    ensures n <= |msgs|
  {
    if preserveTail < 0 then |msgs| else if preserveTail > |msgs| then 0 else |msgs| - preserveTail
  }

  lemma NotStuck(msgs: seq<Message>, tail: nat, maxTokens: int)
    requires tail <= |msgs| && CanShrink(msgs, tail, maxTokens)
    ensures !Stuck(msgs, tail, maxTokens)
  {
    LastNonBlankIs(msgs, tail);
    var i := LastNonBlank(msgs, tail);
    if i >= 0 && 97 <= |msgs[i].content| <= 216 {
      LastLongUnique(msgs, tail, i);
      assert Floor(msgs, i, tail) == msgs;
    }
  }

  // ---------- the whole trim ----------

  /** The history is the system message and the preserved tail, so that contents must shrink. */
  predicate MustShrink(msgs: seq<Message>, maxTokens: int, tailPreserve: int) {
    maxTokens > 0 && |msgs| > 1 && TailStart(msgs, tailPreserve) <= 1 && Sum(msgs) > maxTokens
  }

  /** The system message, what is left of the middle, and the tail. */
  ghost predicate IsTrimmed(msgs: seq<Message>, maxTokens: int, tail: nat, out: seq<Message>, dropped: seq<Message>)
    requires 1 < tail <= |msgs|
  {
    var system, middle, rest, d := msgs[0], msgs[1..tail], msgs[tail..], |dropped|;
    && d <= |middle| && dropped == middle[..d]
    && out == [system] + middle[d..] + rest
    && NeedsToDrop(middle, Tokens(system) + Sum(rest), maxTokens, d)
    && (Tokens(system) + Sum(rest) <= maxTokens ==> Sum(out) <= maxTokens)
  }

  lemma SumThree(a: Message, b: seq<Message>, c: seq<Message>)
    ensures Sum([a] + b + c) == Tokens(a) + Sum(b) + Sum(c)
  {
    assert [a] + b + c == [a] + (b + c);
    assert ([a] + (b + c))[1..] == b + c;
    SumConcat(b, c);
  }

  lemma SumOfParts(msgs: seq<Message>, tail: nat)
    requires 1 <= tail <= |msgs|
    ensures Sum(msgs) == Tokens(msgs[0]) + Sum(msgs[1..tail]) + Sum(msgs[tail..])
  {
    SumConcat(msgs[1..tail], msgs[tail..]);
    TwoParts(msgs, tail);
  }

  lemma TwoParts(msgs: seq<Message>, tail: nat)
    requires 1 <= tail <= |msgs|
    ensures msgs[1..] == msgs[1..tail] + msgs[tail..]
  {
  }

  method TrimLLMMessagesByApproxTokensWithDropped(msgs: seq<Message>, maxTokens: int, tailPreserve: int)
    returns (out: seq<Message>, trimmed: bool, dropped: seq<Message>)
    requires MustShrink(msgs, maxTokens, tailPreserve) ==> CanShrink(msgs, TailStart(msgs, tailPreserve), maxTokens)
    ensures trimmed <==> maxTokens > 0 && |msgs| > 1 && Sum(msgs) > maxTokens
    ensures !trimmed ==> out == msgs && dropped == []
    ensures trimmed && TailStart(msgs, tailPreserve) <= 1 ==>
      dropped == [] && AllShrunkFrom(msgs, out, TailStart(msgs, tailPreserve)) &&
      Done(out, TailStart(out, tailPreserve), maxTokens)
    ensures trimmed && TailStart(msgs, tailPreserve) > 1 ==>
      IsTrimmed(msgs, maxTokens, TailStart(msgs, tailPreserve), out, dropped)
  {
    if maxTokens <= 0 || |msgs| <= 1 { return msgs, false, []; }
    var preserve := if tailPreserve < 0 then 0 else tailPreserve;
    if |msgs| <= 1 + preserve {
      if Sum(msgs) <= maxTokens { return msgs, false, []; }
      out := ShrinkMessagesToApproxTokenBudget(msgs, maxTokens, preserve);
      return out, true, [];
    }
    var tailStart := |msgs| - preserve;
    out, trimmed, dropped := TrimMiddle(msgs, maxTokens, tailStart);
  }

  /** The system message and the tail stay. */
  method TrimMiddle(msgs: seq<Message>, maxTokens: int, tailStart: nat)
    returns (out: seq<Message>, trimmed: bool, dropped: seq<Message>)
    requires 1 < tailStart <= |msgs|
    ensures trimmed <==> Sum(msgs) > maxTokens
    ensures if trimmed then IsTrimmed(msgs, maxTokens, tailStart, out, dropped) else out == msgs && dropped == []
  {
    var system, tail, middle := msgs[0], msgs[tailStart..], msgs[1..tailStart];
    SumOfParts(msgs, tailStart);
    var total := Tokens(system) + Sum(middle) + Sum(tail);
    if total <= maxTokens { return msgs, false, []; }
    var kept;
    kept, dropped := DropMiddle(middle, Tokens(system) + Sum(tail), maxTokens);
    out, trimmed := [system] + kept + tail, true;
    DropIsTrim(msgs, maxTokens, tailStart, kept, dropped);
  }

  lemma DropIsTrim(msgs: seq<Message>, maxTokens: int, tail: nat, kept: seq<Message>, dropped: seq<Message>)
    requires 1 < tail <= |msgs|
    requires var middle, fixed := msgs[1..tail], Tokens(msgs[0]) + Sum(msgs[tail..]);
             |dropped| <= |middle| && dropped == middle[..|dropped|] && kept == middle[|dropped|..] &&
             (kept == [] || fixed + Sum(kept) <= maxTokens) && NeedsToDrop(middle, fixed, maxTokens, |dropped|)
    ensures IsTrimmed(msgs, maxTokens, tail, [msgs[0]] + kept + msgs[tail..], dropped)
  {
    SumThree(msgs[0], kept, msgs[tail..]);
  }
}
