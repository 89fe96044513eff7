/** What readings that come to the lock out of order do to the upload limiter: how far its bounds carry. */
module UploadLag {
  import opened Strings
  import opened UploadRate

  function After(m: Limiter, events: seq<Event>, prune: bool): Limiter
    decreases |events|
  {
    if events == [] then m else After(Step(m, events[0], prune).0, events[1..], prune)
  }

  /** The largest reading so far. */
  function Top(events: seq<Event>, top: int): int
    decreases |events|
  {
    if events == [] then top else Top(events[1..], Max(top, events[0].now))
  }

  // ---------- runs one after the other ----------

  lemma {:induction false} LagOn(a: seq<Event>, b: seq<Event>, top: int, d: nat)
    requires WithLag(a, top, d) && WithLag(b, Top(a, top), d)
    ensures WithLag(a + b, top, d) && Top(a + b, top) == Top(b, Top(a, top))
    decreases |a|
  {
    if a == [] {
      assert a + b == b;
    } else {
      LagOn(a[1..], b, Max(top, a[0].now), d);
      assert (a + b)[1..] == a[1..] + b;
    }
  }

  lemma {:induction false} DecisionsOn(m: Limiter, a: seq<Event>, b: seq<Event>, prune: bool)
    ensures After(m, a + b, prune) == After(After(m, a, prune), b, prune)
    ensures Decisions(m, a + b, prune) == Decisions(m, a, prune) + Decisions(After(m, a, prune), b, prune)
    ensures |Decisions(m, a, prune)| == |a|
    decreases |a|
  {
    if a == [] {
      assert a + b == b;
    } else {
      var (m', ok) := Step(m, a[0], prune);
      DecisionsOn(m', a[1..], b, prune);
      assert (a + b)[1..] == a[1..] + b && (a + b)[0] == a[0];
      Assoc([ok], Decisions(m', a[1..], prune), Decisions(After(m, a, prune), b, prune));
    }
  }

  lemma {:induction false} AcceptedOn(m: Limiter, a: seq<Event>, b: seq<Event>, u: int)
    ensures Accepted(m, a + b, u) == Accepted(m, a, u) + Accepted(After(m, a, true), b, u)
    decreases |a|
  {
    if a == [] {
      assert a + b == b;
    } else {
      assert (a + b)[1..] == a[1..] + b && (a + b)[0] == a[0];
      var m' := Step(m, a[0], true).0;
      AcceptedOn(m', a[1..], b, u);
      if Accepted(m, a, u) != Accepted(m', a[1..], u) {
        Assoc([Accepted(m, a, u)[0]], Accepted(m', a[1..], u), Accepted(After(m', a[1..], true), b, u));
      }
    }
  }

  lemma {:induction false} CountOn(a: seq<Upload>, b: seq<Upload>, p: Upload -> bool)
    ensures Count(a + b, p) == Count(a, p) + Count(b, p) && Total(a + b, p) == Total(a, p) + Total(b, p)
  {
    if a == [] {
      assert a + b == b;
    } else {
      CountOn(a[1..], b, p);
      assert (a + b)[1..] == a[1..] + b;
    }
  }

  /** A limiter and the largest reading it has seen. */
  datatype Spot = Spot(m: Limiter, top: int)

  /** The requests lead from x to y, and user 1 gets n uploads of so many bytes in all between lo and hi. */
  ghost predicate Leads(x: Spot, es: seq<Event>, y: Spot, d: nat, lo: int, hi: int, n: nat, bytes: nat) {
    && After(x.m, es, true) == y.m && Top(es, x.top) == y.top
    && WithLag(es, x.top, d) && AreCapped(es, MAX_BYTES_PER_MIN)
    && Count(Accepted(x.m, es, 1), During(lo, hi)) >= n && Total(Accepted(x.m, es, 1), During(lo, hi)) >= bytes
  }

  lemma LeadsOn(x: Spot, a: seq<Event>, y: Spot, b: seq<Event>, z: Spot, d: nat, lo: int, hi: int, n: nat, k: nat,
                bytes: nat, more: nat)
    requires Leads(x, a, y, d, lo, hi, n, bytes) && Leads(y, b, z, d, lo, hi, k, more)
    ensures Leads(x, a + b, z, d, lo, hi, n + k, bytes + more)
  {
    LagOn(a, b, x.top, d);
    DecisionsOn(x.m, a, b, true);
    AcceptedOn(x.m, a, b, 1);
    CountOn(Accepted(x.m, a, 1), Accepted(y.m, b, 1), During(lo, hi));
  }

  lemma OneRequest(x: Spot, e: Event, y: Spot, d: nat, lo: int, hi: int)
    requires y == Spot(Step(x.m, e, true).0, Max(x.top, e.now))
    requires x.top - d <= e.now && e.byteLen <= MAX_BYTES_PER_MIN
    ensures Leads(x, [e], y, d, lo, hi, 0, 0)
  {
    assert [e][1..] == [];
  }

  // ---------- many users ----------

  /** k other users come at time 0. */
  function Crowd(k: nat): seq<Event> {
    if k == 0 then [] else Crowd(k - 1) + [Event(k + 1, 0, 0)]
  }

  function CrowdMap(k: nat): Limiter {
    if k == 0 then map[] else CrowdMap(k - 1)[k + 1 := Window(0, 0, 1)]
  }

  lemma {:induction false} CrowdMapIs(k: nat)
    ensures |CrowdMap(k)| == k && forall u :: u in CrowdMap(k) <==> 2 <= u < k + 2
    ensures forall u :: u in CrowdMap(k) ==> CrowdMap(k)[u] == Window(0, 0, 1)
  {
    if k > 0 { CrowdMapIs(k - 1); }
  }

  lemma OneJoins(k: nat, prune: bool)
    requires 0 < k < PRUNE_ENTRIES
    ensures Step(CrowdMap(k - 1), Event(k + 1, 0, 0), prune) == (CrowdMap(k), true)
    ensures After(CrowdMap(k - 1), [Event(k + 1, 0, 0)], prune) == CrowdMap(k)
  {
    CrowdMapIs(k - 1);
    CrowdMapIs(k);
    assert [Event(k + 1, 0, 0)][1..] == [];
  }

  lemma {:induction false} CrowdComes(k: nat, d: nat, lo: int, hi: int, prune: bool)
    requires k < PRUNE_ENTRIES
    ensures After(map[], Crowd(k), prune) == CrowdMap(k)
    ensures Leads(Spot(map[], 0), Crowd(k), Spot(CrowdMap(k), 0), d, lo, hi, 0, 0)
  {
    if k > 0 {
      CrowdComes(k - 1, d, lo, hi, prune);
      var e, y := Event(k + 1, 0, 0), Spot(CrowdMap(k), 0);
      OneJoins(k, prune);
      OneJoins(k, true);
      DecisionsOn(map[], Crowd(k - 1), [e], prune);
      OneRequest(Spot(CrowdMap(k - 1), 0), e, y, d, lo, hi);
      LeadsOn(Spot(map[], 0), Crowd(k - 1), Spot(CrowdMap(k - 1), 0), [e], y, d, lo, hi, 0, 0, 0, 0);
    }
  }

  const CROWD: nat := PRUNE_ENTRIES - 1

  /** As many users as it takes to prune, all but user 1 with a window from time 0. */
  function Full(w: Window): Limiter {
    CrowdMap(CROWD)[1 := w]
  }

  lemma FullIs(w: Window)
    ensures |Full(w)| == PRUNE_ENTRIES && 2 in Full(w) && forall u :: u in Full(w) <==> 1 <= u <= PRUNE_ENTRIES
    ensures Full(w)[1] == w && forall u :: u in Full(w) && u != 1 ==> Full(w)[u] == Window(0, 0, 1)
  {
    CrowdMapIs(CROWD);
  }

  lemma NothingPruned(m: Limiter, now: int)
    requires forall u :: u in m ==> !Expired(m[u], now)
    ensures Prune(m, now) == m
  {
    var p := Prune(m, now);
    assert forall u :: u in p <==> u in m;
    assert p.Keys == m.Keys;
    assert forall u :: u in p ==> p[u] == m[u];
  }

  lemma OneKept(m: Limiter, u: int, now: int)
    requires u in m && !Expired(m[u], now) && forall v :: v in m && v != u ==> Expired(m[v], now)
    ensures Prune(m, now) == map[u := m[u]]
  {
    var p := Prune(m, now);
    assert forall v :: v in p <==> v == u;
    assert p.Keys == {u};
    assert p[u] == m[u];
  }

  /** A window that user 2 opens when they have run out prunes all the others. */
  lemma FullIsPruned(w: Window)
    requires w.start == 0
    ensures Step(Full(w), Event(2, 0, WINDOW), true) == (map[2 := Window(WINDOW, 0, 1)], true)
  {
    FullIs(w);
    var m := Full(w)[2 := Window(WINDOW, 0, 1)];
    assert |m| == PRUNE_ENTRIES;
    OneKept(m, 2, WINDOW);
  }

  // ---------- a run that meets three windows ----------

  function Copies(e: Event, k: nat): seq<Event> {
    if k == 0 then [] else Copies(e, k - 1) + [e]
  }

  function Charged(w: Window, k: nat, byteLen: nat): Window {
    Window(w.start, w.bytes + k * byteLen, w.n + k)
  }

  /** User 1 has a window, and nothing is pruned at this time. */
  predicate Quiet(m: Limiter, now: int) {
    1 in m && !Expired(m[1], now) && (|m| < PRUNE_ENTRIES || forall u :: u in m ==> !Expired(m[u], now))
  }

  /** One more upload of user 1 is charged to the open window. */
  lemma OneUpload(x: Spot, byteLen: nat, now: int, d: nat, lo: int, hi: int)
    requires Quiet(x.m, now) && x.m[1].n < MAX_UPLOADS_PER_MIN && x.m[1].bytes + byteLen <= MAX_BYTES_PER_MIN
    requires byteLen <= MAX_BYTES_PER_MIN && x.top - d <= now && lo <= now <= hi
    ensures Leads(x, [Event(1, byteLen, now)], Spot(x.m[1 := Charged(x.m[1], 1, byteLen)], Max(x.top, now)),
                  d, lo, hi, 1, byteLen)
  {
    var e, m' := Event(1, byteLen, now), x.m[1 := Charged(x.m[1], 1, byteLen)];
    assert |m'| == |x.m|;
    if |m'| >= PRUNE_ENTRIES { NothingPruned(m', now); }
    assert Step(x.m, e, true) == (m', true);
    assert [e][1..] == [] && Accepted(m', [], 1) == [];
    var r := Upload(now, byteLen, x.m[1].start);
    assert Accepted(x.m, [e], 1) == [r] && [r][1..] == [];
  }

  /** k of them. */
  lemma {:induction false} Burst(x: Spot, byteLen: nat, now: int, k: nat, d: nat, lo: int, hi: int) returns (y: Spot)
    requires Quiet(x.m, now) && x.m[1].n + k <= MAX_UPLOADS_PER_MIN
    requires byteLen <= MAX_BYTES_PER_MIN && x.m[1].bytes + k * byteLen <= MAX_BYTES_PER_MIN
    requires x.top - d <= now && lo <= now <= hi
    ensures y.m == x.m[1 := Charged(x.m[1], k, byteLen)] && (now <= x.top ==> y.top == x.top)
    ensures y.top <= Max(x.top, now)
    ensures Leads(x, Copies(Event(1, byteLen, now), k), y, d, lo, hi, k, k * byteLen)
  {
    var e := Event(1, byteLen, now);
    if k == 0 {
      y := x;
      assert x.m[1 := x.m[1]] == x.m && Charged(x.m[1], 0, byteLen) == x.m[1];
    } else {
      assert k * byteLen == (k - 1) * byteLen + byteLen;
      var z := Burst(x, byteLen, now, k - 1, d, lo, hi);
      assert |z.m| == |x.m| && z.m[1 := Charged(z.m[1], 1, byteLen)] == x.m[1 := Charged(x.m[1], k, byteLen)];
      OneUpload(z, byteLen, now, d, lo, hi);
      y := Spot(x.m[1 := Charged(x.m[1], k, byteLen)], Max(z.top, now));
      LeadsOn(x, Copies(e, k - 1), z, [e], y, d, lo, hi, k - 1, 1, (k - 1) * byteLen, byteLen);
    }
  }

  /** User 1 fills the end of a first window, which is then pruned. */
  lemma FirstWindow(d: nat, lo: int, hi: int, n: nat, byteLen: nat, bytes: nat) returns (es: seq<Event>)
    requires 0 < n < MAX_UPLOADS_PER_MIN && byteLen <= MAX_BYTES_PER_MIN && bytes == n * byteLen <= MAX_BYTES_PER_MIN
    requires lo <= WINDOW - 1 <= hi
    ensures Leads(Spot(map[], 0), es, Spot(map[2 := Window(WINDOW, 0, 1)], WINDOW), d, lo, hi, n, bytes)
  {
    var x0, x1, x2 := Spot(map[], 0), Spot(CrowdMap(CROWD), 0), Spot(Full(Window(0, 0, 1)), 0);
    CrowdComes(CROWD, d, lo, hi, true);
    CrowdMapIs(CROWD);
    FullIs(Window(0, 0, 1));
    NothingPruned(x2.m, 0);
    OneRequest(x1, Event(1, 0, 0), x2, d, lo, hi);
    LeadsOn(x0, Crowd(CROWD), x1, [Event(1, 0, 0)], x2, d, lo, hi, 0, 0, 0, 0);
    var x3 := Burst(x2, byteLen, WINDOW - 1, n, d, lo, hi);
    var b := Copies(Event(1, byteLen, WINDOW - 1), n);
    LeadsOn(x0, Crowd(CROWD) + [Event(1, 0, 0)], x2, b, x3, d, lo, hi, 0, n, 0, bytes);
    var x4 := Spot(map[2 := Window(WINDOW, 0, 1)], WINDOW);
    assert x3.m == Full(x3.m[1]);
    FullIsPruned(x3.m[1]);
    OneRequest(x3, Event(2, 0, WINDOW), x4, d, lo, hi);
    es := Crowd(CROWD) + [Event(1, 0, 0)] + b + [Event(2, 0, WINDOW)];
    LeadsOn(x0, Crowd(CROWD) + [Event(1, 0, 0)] + b, x3, [Event(2, 0, WINDOW)], x4, d, lo, hi, n, 0, bytes, 0);
  }

  /** With few users, a window is opened and then filled. */
  lemma NextWindow(x: Spot, open: int, now: int, d: nat, lo: int, hi: int, n: nat, byteLen: nat, bytes: nat)
    returns (es: seq<Event>, y: Spot)
    requires |x.m| + 1 < PRUNE_ENTRIES && (1 in x.m ==> Expired(x.m[1], open))
    requires 0 < n < MAX_UPLOADS_PER_MIN && byteLen <= MAX_BYTES_PER_MIN && bytes == n * byteLen <= MAX_BYTES_PER_MIN
    requires x.top - d <= open && Max(x.top, open) - d <= now < open + WINDOW && lo <= now <= hi
    ensures |y.m| <= |x.m| + 1 && 1 in y.m && y.m[1].start == open && y.top <= Max(Max(x.top, open), now)
    ensures now <= Max(x.top, open) ==> y.top == Max(x.top, open)
    ensures Leads(x, es, y, d, lo, hi, n, bytes)
  {
    var z := Spot(x.m[1 := Window(open, 0, 1)], Max(x.top, open));
    assert |z.m| <= |x.m| + 1;
    OneRequest(x, Event(1, 0, open), z, d, lo, hi);
    y := Burst(z, byteLen, now, n, d, lo, hi);
    es := [Event(1, 0, open)] + Copies(Event(1, byteLen, now), n);
    LeadsOn(x, [Event(1, 0, open)], z, Copies(Event(1, byteLen, now), n), y, d, lo, hi, 0, n, 0, bytes);
  }

  /** How late the uploads of the third window come: two minutes less twice the lag, or at once. */
  function Third(d: nat): int {
    Max(WINDOW - 1, 2 * WINDOW - 2 * d)
  }

  /** n uploads in each of three windows, between the end of the first and the earliest reading for the third. */
  lemma ThreeWindows(d: nat, n: nat, byteLen: nat, bytes: nat) returns (es: seq<Event>)
    requires 2 * d <= WINDOW + 2
    requires 0 < n < MAX_UPLOADS_PER_MIN && byteLen <= MAX_BYTES_PER_MIN && bytes == n * byteLen <= MAX_BYTES_PER_MIN
    ensures WithLag(es, 0, d) && AreCapped(es, MAX_BYTES_PER_MIN)
    ensures Count(Accepted(map[], es, 1), During(WINDOW - 1, Third(d))) >= 3 * n
    ensures Total(Accepted(map[], es, 1), During(WINDOW - 1, Third(d))) >= 3 * bytes
  {
    var x, y, lo, hi := Spot(map[], 0), Spot(map[2 := Window(WINDOW, 0, 1)], WINDOW), WINDOW - 1, Third(d);
    var a := FirstWindow(d, lo, hi, n, byteLen, bytes);
    var b, end := TwoMoreWindows(y, d, n, byteLen, bytes);
    LeadsOn(x, a, y, b, end, d, lo, hi, n, 2 * n, bytes, 2 * bytes);
    es := a + b;
  }

  lemma TwoMoreWindows(x: Spot, d: nat, n: nat, byteLen: nat, bytes: nat) returns (es: seq<Event>, end: Spot)
    requires 2 * d <= WINDOW + 2 && |x.m| == 1 && 1 !in x.m && x.top == WINDOW
    requires 0 < n < MAX_UPLOADS_PER_MIN && byteLen <= MAX_BYTES_PER_MIN && bytes == n * byteLen <= MAX_BYTES_PER_MIN
    ensures Leads(x, es, end, d, WINDOW - 1, Third(d), 2 * n, 2 * bytes)
  {
    var lo, hi := WINDOW - 1, Third(d);
    var a, y := NextWindow(x, WINDOW - d, Max(WINDOW - 1, WINDOW - d), d, lo, hi, n, byteLen, bytes);
    var b;
    b, end := NextWindow(y, 2 * WINDOW - d, hi, d, lo, hi, n, byteLen, bytes);
    LeadsOn(x, a, y, b, end, d, lo, hi, n, n, bytes, bytes);
    es := a + b;
  }

  // ---------- how far the bounds carry ----------

  /** The same run serves a longer lag and a longer span. */
  lemma {:induction false} LongerLag(events: seq<Event>, top: int, d: nat, d': nat)
    requires WithLag(events, top, d) && d <= d'
    ensures WithLag(events, top, d')
    decreases |events|
  {
    if events != [] { LongerLag(events[1..], Max(top, events[0].now), d, d'); }
  }

  lemma {:induction false} LongerSpan(log: seq<Upload>, lo: int, hi: int, hi': int)
    requires hi <= hi'
    ensures Count(log, During(lo, hi)) <= Count(log, During(lo, hi'))
    ensures Total(log, During(lo, hi)) <= Total(log, During(lo, hi'))
  {
    if log != [] { LongerSpan(log[1..], lo, hi, hi'); }
  }

  /** A span that no three windows meet. */
  predicate IsShort(d: nat, span: int) {
    span < 0 || span <= WINDOW - 2 * d
  }

  /** In every other span some run with this lag has n uploads from each of three windows. */
  lemma LongSpanMeetsThree(d: nat, span: int, n: nat, byteLen: nat, bytes: nat) returns (es: seq<Event>)
    requires !IsShort(d, span)
    requires 0 < n < MAX_UPLOADS_PER_MIN && byteLen <= MAX_BYTES_PER_MIN && bytes == n * byteLen <= MAX_BYTES_PER_MIN
    ensures IsCappedRun(es, 0, d, MAX_BYTES_PER_MIN)
    ensures Count(Accepted(map[], es, 1), During(WINDOW - 1, WINDOW - 1 + span)) >= 3 * n
    ensures Total(Accepted(map[], es, 1), During(WINDOW - 1, WINDOW - 1 + span)) >= 3 * bytes
  {
    var d' := if 2 * d <= WINDOW + 2 then d else WINDOW / 2 + 1;
    es := ThreeWindows(d', n, byteLen, bytes);
    LongerLag(es, 0, d', d);
    LongerSpan(Accepted(map[], es, 1), WINDOW - 1, Third(d'), WINDOW - 1 + span);
  }

  /** Shorter spans hold no more than longer ones. */
  lemma ShortSpan(events: seq<Event>, u: int, top: int, t: int, d: nat, span: int, cap: int)
    requires IsShort(d, span) && IsCappedRun(events, top, d, cap)
    ensures Count(Accepted(map[], events, u), During(t, t + span)) <= 2 * MAX_UPLOADS_PER_MIN
    ensures Total(Accepted(map[], events, u), During(t, t + span)) <= 2 * WindowBytes(cap)
  {
    var log := Accepted(map[], events, u);
    if span < 0 {
      CountNone(log, During(t, t + span));
    } else {
      SpanBound(events, u, top, t, d, cap);
      LongerSpan(log, t, t + span, t + WINDOW - 2 * d);
    }
  }

  /** With single uploads capped at the limit of a window, 96 MiB hold in every span of just these lengths: in every
      minute only if the readings do not go back. */
  lemma SpanBytesExact(d: nat, span: int)
    ensures EverySpanKeepsBytes(MAX_BYTES_PER_MIN, d, span) <==> IsShort(d, span)
  {
    if IsShort(d, span) {
      forall events, u, top, t | IsCappedRun(events, top, d, MAX_BYTES_PER_MIN)
        ensures KeepsBytes(events, u, t, span)
      {
        ShortSpan(events, u, top, t, d, span, MAX_BYTES_PER_MIN);
      }
    } else {
      var es := LongSpanMeetsThree(d, span, 1, MAX_BYTES_PER_MIN, MAX_BYTES_PER_MIN);
      assert IsCappedRun(es, 0, d, MAX_BYTES_PER_MIN) && !KeepsBytes(es, 1, WINDOW - 1, span);
    }
  }

  predicate KeepsUploads(events: seq<Event>, u: int, t: int, span: int) {
    Count(Accepted(map[], events, u), During(t, t + span)) <= 2 * MAX_UPLOADS_PER_MIN
  }

  /** With a lag of d, and uploads of any size, no span of this length holds more than 160 uploads of one user. */
  ghost predicate EverySpanKeepsUploads(d: nat, span: int) {
    forall events, u, top, t :: WithLag(events, top, d) ==> KeepsUploads(events, u, t, span)
  }

  /** 160 uploads hold in the same spans, whatever the size of the uploads. */
  lemma SpanUploadsExact(d: nat, span: int)
    ensures EverySpanKeepsUploads(d, span) <==> IsShort(d, span)
  {
    if IsShort(d, span) {
      forall events, u, top, t | WithLag(events, top, d) ensures KeepsUploads(events, u, t, span) {
        var cap := LargestUpload(events);
        ShortSpan(events, u, top, t, d, span, cap);
      }
    } else {
      var es := LongSpanMeetsThree(d, span, MAX_UPLOADS_PER_MIN - 1, 0, 0);
      assert WithLag(es, 0, d) && !KeepsUploads(es, 1, WINDOW - 1, span);
    }
  }

  // ---------- pruning ----------

  /** On this run pruning changes no decision. */
  predicate IsSameUnpruned(events: seq<Event>) {
    Decisions(map[], events, true) == Decisions(map[], events, false)
  }

  ghost predicate EveryRunIsSameUnpruned(d: nat) {
    forall events, top :: WithLag(events, top, d) ==> IsSameUnpruned(events)
  }

  lemma ThreeDecisions(m: Limiter, e1: Event, e2: Event, e3: Event, prune: bool)
    ensures var s1 := Step(m, e1, prune);
            var s2 := Step(s1.0, e2, prune);
            Decisions(m, [e1, e2, e3], prune) == [s1.1, s2.1, Step(s2.0, e3, prune).1]
  {
    var s1 := Step(m, e1, prune);
    var s2 := Step(s1.0, e2, prune);
    var s3 := Step(s2.0, e3, prune);
    assert [e1, e2, e3][1..] == [e2, e3] && [e2, e3][1..] == [e3] && [e3][1..] == [];
    assert Decisions(s2.0, [e3], prune) == [s3.1];
    assert Decisions(s1.0, [e2, e3], prune) == [s2.1, s3.1];
    assert Decisions(m, [e1, e2, e3], prune) == [s1.1] + Decisions(s1.0, [e2, e3], prune);
  }

  lemma ThreeReadings(e1: Event, e2: Event, e3: Event, d: nat)
    requires 0 <= e1.now <= e2.now && e3.now >= e2.now - d
    ensures WithLag([e1, e2, e3], 0, d)
  {
    assert [e1, e2, e3][1..] == [e2, e3] && [e2, e3][1..] == [e3] && [e3][1..] == [];
    assert WithLag([e3], e2.now, d) && WithLag([e2, e3], e1.now, d);
  }

  /** User 1 fills a window, which a later reading prunes: an earlier reading then opens a new one. */
  lemma PrunedTooEarly(d: nat) returns (es: seq<Event>)
    requires d > 0
    ensures WithLag(es, 0, d) && !IsSameUnpruned(es)
  {
    var e1, e2, e3 := Event(1, MAX_BYTES_PER_MIN, 0), Event(2, 0, WINDOW), Event(1, 1, WINDOW - 1);
    var more := [e1, e2, e3];
    es := Crowd(CROWD) + more;
    CrowdComes(CROWD, d, 0, 0, true);
    CrowdComes(CROWD, d, 0, 0, false);
    ThreeReadings(e1, e2, e3, d);
    LagOn(Crowd(CROWD), more, 0, d);
    DecisionsOn(map[], Crowd(CROWD), more, true);
    DecisionsOn(map[], Crowd(CROWD), more, false);
    LastIsRefused(e1, e2, e3);
    DifferLater(Decisions(map[], Crowd(CROWD), true), Decisions(map[], Crowd(CROWD), false),
                Decisions(CrowdMap(CROWD), more, true), Decisions(CrowdMap(CROWD), more, false));
  }

  lemma DifferLater(a: seq<bool>, b: seq<bool>, c: seq<bool>, d: seq<bool>)
    requires |a| == |b| && |c| == |d| == 3 && c[2] != d[2]
    ensures a + c != b + d
  {
    assert (a + c)[|a| + 2] == c[2] && (b + d)[|b| + 2] == d[2];
  }

  lemma LastIsRefused(e1: Event, e2: Event, e3: Event)
    requires e1 == Event(1, MAX_BYTES_PER_MIN, 0) && e2 == Event(2, 0, WINDOW) && e3 == Event(1, 1, WINDOW - 1)
    ensures var m, es := CrowdMap(CROWD), [e1, e2, e3];
            var pruned, kept := Decisions(m, es, true), Decisions(m, es, false);
            |pruned| == |kept| == 3 && pruned[2] && !kept[2]
  {
    var w := Window(0, MAX_BYTES_PER_MIN, 1);
    CrowdMapIs(CROWD);
    FullIs(w);
    NothingPruned(Full(w), 0);
    FullIsPruned(w);
    ThreeDecisions(CrowdMap(CROWD), e1, e2, e3, true);
    ThreeDecisions(CrowdMap(CROWD), e1, e2, e3, false);
    assert Step(CrowdMap(CROWD), e1, true) == Step(CrowdMap(CROWD), e1, false) == (Full(w), true);
    assert Step(Full(w), e2, false) == (Full(w)[2 := Window(WINDOW, 0, 1)], true);
  }

  /** Pruning changes no decision on any run exactly if the readings do not go back. */
  lemma PruningIsInvisibleIff(d: nat)
    ensures EveryRunIsSameUnpruned(d) <==> d == 0
  {
    if d == 0 {
      forall events, top | WithLag(events, top, d) ensures IsSameUnpruned(events) {
        PruningIsInvisible(map[], map[], events, top, true, false);
      }
    } else {
      var es := PrunedTooEarly(d);
      assert WithLag(es, 0, d) && !IsSameUnpruned(es);
    }
  }
}
