/** The upload limiter of internal/usecase/put_session_file_rate_limit.go. Times are in nanoseconds. */
module UploadRate {
  import opened Strings

  const WINDOW := 60_000_000_000
  const MAX_BYTES_PER_MIN := 48 * 1024 * 1024
  const MAX_UPLOADS_PER_MIN := 80
  const PRUNE_ENTRIES := 4096

  datatype Window = Window(start: int, bytes: int, n: int)

  type Limiter = map<int, Window>

  datatype Event = Event(user: int, byteLen: int, now: int)

  function Bytes(e: Event): nat {
    if e.byteLen < 0 then 0 else e.byteLen
  }

  predicate Expired(w: Window, now: int) {
    now - w.start >= WINDOW
  }

  function Prune(m: Limiter, now: int): Limiter {
    map u | u in m && !Expired(m[u], now) :: m[u]
  }

  /** The limiter after one upload request; the same limiter if the request is refused. */
  function Step(m: Limiter, e: Event, prune: bool): (Limiter, bool) {
    var opens := e.user !in m || Expired(m[e.user], e.now);
    if !opens && (m[e.user].n >= MAX_UPLOADS_PER_MIN || m[e.user].bytes + Bytes(e) > MAX_BYTES_PER_MIN) then (m, false)
    else
      var w := if opens then Window(e.now, Bytes(e), 1)
               else Window(m[e.user].start, m[e.user].bytes + Bytes(e), m[e.user].n + 1);
      var m' := m[e.user := w];
      (if prune && |m'| >= PRUNE_ENTRIES then Prune(m', e.now) else m', true)
  }

  class SessionPutRateLimiter {
    var perUser: Limiter

    constructor ()
      ensures perUser == map[]
    {
      perUser := map[];
    }

    method CheckPutSessionFileRate(userID: int, byteLen: int, now: int) returns (ok: bool)
      modifies this
      ensures (perUser, ok) == Step(old(perUser), Event(userID, byteLen, now), true)
    {
      var b := if byteLen < 0 then 0 else byteLen;
      if userID !in perUser || now - perUser[userID].start >= WINDOW {
        perUser := perUser[userID := Window(now, b, 1)];
        MaybePruneLocked(now);
        return true;
      }
      var w := perUser[userID];
      if w.n >= MAX_UPLOADS_PER_MIN { return false; }
      if w.bytes + b > MAX_BYTES_PER_MIN { return false; }
      perUser := perUser[userID := w.(bytes := w.bytes + b, n := w.n + 1)];
      MaybePruneLocked(now);
      return true;
    }

    method MaybePruneLocked(now: int)
      modifies this
      ensures perUser == if |old(perUser)| >= PRUNE_ENTRIES then Prune(old(perUser), now) else old(perUser)
    {
      if |perUser| < PRUNE_ENTRIES { return; }
      ghost var all := perUser;
      var rest := perUser.Keys;
      while exists u :: u in rest
        invariant rest <= perUser.Keys <= all.Keys
        invariant forall u :: u in perUser ==> perUser[u] == all[u] && (u in rest || !Expired(all[u], now))
        invariant forall u :: u in all && u !in perUser ==> Expired(all[u], now)
        decreases |rest|
      {
        var uid :| uid in rest;
        rest := rest - {uid};
        if now - perUser[uid].start >= WINDOW { perUser := perUser - {uid}; }
      }
      assert forall u :: u in perUser <==> u in all && !Expired(all[u], now);
      assert forall u :: u in perUser <==> u in Prune(all, now);
      assert perUser.Keys == Prune(all, now).Keys;
      assert forall u :: u in perUser ==> perUser[u] == Prune(all, now)[u];
      assert perUser == Prune(all, now);
    }
  }

  // ---------- runs ----------

  function Max(a: int, b: int): int {
    if a > b then a else b
  }

  /** No reading is more than d behind the largest so far, which is top at first: the clock is read before the lock is
      taken, so requests may come to the lock out of order. Without a lag the readings do not go back. */
  predicate WithLag(events: seq<Event>, top: int, d: nat) {
    events != [] ==> top - d <= events[0].now && WithLag(events[1..], Max(top, events[0].now), d)
  }

  function Decisions(m: Limiter, events: seq<Event>, prune: bool): seq<bool>
    decreases |events|
  {
    if events == [] then []
    else
      var (m', ok) := Step(m, events[0], prune);
      [ok] + Decisions(m', events[1..], prune)
  }

  /** The window that still counts for a user at a time. */
  function Live(m: Limiter, u: int, t: int): Option<Window> {
    if u in m && !Expired(m[u], t) then Some(m[u]) else None
  }

  /** Two limiters that no request from time t on can tell apart. */
  ghost predicate Alike(m1: Limiter, m2: Limiter, t: int) {
    forall u :: Live(m1, u, t) == Live(m2, u, t)
  }

  /** A request is decided by the user's own window alone, and leaves every other user's as it is. */
  lemma UsersApart(m: Limiter, e: Event, prune: bool, u: int, t: int)
    requires u != e.user && e.now <= t
    ensures Live(Step(m, e, prune).0, u, t) == Live(m, u, t)
    ensures Step(m, e, prune).1 == Step(map v | v in m && v == e.user :: m[v], e, prune).1
  {
  }

  lemma StepAlike(m1: Limiter, m2: Limiter, e: Event, t: int, prune1: bool, prune2: bool)
    requires Alike(m1, m2, t) && t <= e.now
    ensures Step(m1, e, prune1).1 == Step(m2, e, prune2).1
    ensures Alike(Step(m1, e, prune1).0, Step(m2, e, prune2).0, e.now)
  {
    forall u
      ensures Live(m1, u, e.now) == Live(m2, u, e.now)
      ensures Live(Step(m1, e, prune1).0, u, e.now) == Live(Step(m2, e, prune2).0, u, e.now)
    {
      assert Live(m1, u, t) == Live(m2, u, t);
      assert Live(m1, e.user, t) == Live(m2, e.user, t);
    }
    assert Live(m1, e.user, t) == Live(m2, e.user, t);
  }

  /** As long as the readings do not go back, pruning never changes a decision. */
  lemma {:induction false} PruningIsInvisible(m1: Limiter, m2: Limiter, events: seq<Event>, t: int, prune1: bool,
                                              prune2: bool)
    requires Alike(m1, m2, t) && WithLag(events, t, 0)
    ensures Decisions(m1, events, prune1) == Decisions(m2, events, prune2)
    decreases |events|
  {
    if events != [] {
      var e := events[0];
      StepAlike(m1, m2, e, t, prune1, prune2);
      PruningIsInvisible(Step(m1, e, prune1).0, Step(m2, e, prune2).0, events[1..], e.now, prune1, prune2);
    }
  }

  // ---------- what one user gets in a span of time ----------

  /** An accepted upload, and the start of the window it was charged to. */
  datatype Upload = Upload(now: int, bytes: nat, start: int)

  /** The accepted uploads of user u in a run. */
  function Accepted(m: Limiter, events: seq<Event>, u: int): seq<Upload>
    decreases |events|
  {
    if events == [] then []
    else
      var e := events[0];
      var (m', ok) := Step(m, e, true);
      var rest := Accepted(m', events[1..], u);
      if ok && e.user == u then
        [Upload(e.now, Bytes(e), match Live(m, u, e.now) case None => e.now case Some(w) => w.start)] + rest
      else rest
  }

  /** How many uploads satisfy p, and how many bytes they have. */
  function Count(log: seq<Upload>, p: Upload -> bool): nat {
    if log == [] then 0 else (if p(log[0]) then 1 else 0) + Count(log[1..], p)
  }

  function Total(log: seq<Upload>, p: Upload -> bool): nat {
    if log == [] then 0 else (if p(log[0]) then log[0].bytes else 0) + Total(log[1..], p)
  }

  function StartsAt(x: int): Upload -> bool {
    (r: Upload) => r.start == x
  }

  function During(lo: int, hi: int): Upload -> bool {
    (r: Upload) => lo <= r.now <= hi
  }

  lemma {:induction false} CountNone(log: seq<Upload>, p: Upload -> bool)
    requires forall r :: r in log ==> !p(r)
    ensures Count(log, p) == 0 && Total(log, p) == 0
  {
    if log != [] { CountNone(log[1..], p); }
  }

  /** The window a user was last charged to, expired or not. */
  function WindowOf(m: Limiter, u: int): Option<Window> {
    if u in m then Some(m[u]) else None
  }

  /** What a limiter has already charged to the window starting at x. */
  function ChargedN(w: Option<Window>, x: int): int {
    if w.Some? && w.value.start == x then w.value.n else 0
  }

  function ChargedBytes(w: Option<Window>, x: int): int {
    if w.Some? && w.value.start == x then w.value.bytes else 0
  }

  /** The bytes a window may hold if no single upload exceeds cap: the upload that opens it is never measured. */
  function WindowBytes(cap: int): int {
    Max(cap, MAX_BYTES_PER_MIN)
  }

  predicate Sound(w: Option<Window>, cap: int) {
    w.Some? ==> 1 <= w.value.n <= MAX_UPLOADS_PER_MIN && 0 <= w.value.bytes <= WindowBytes(cap)
  }

  /** Upload r belongs to a window that was opened after the one starting at x had run out at some reading. */
  predicate IsBehind(r: Upload, x: int, d: nat) {
    r.start >= x + WINDOW - d && r.now >= x + WINDOW - d
  }

  /** What is still accepted of a user whose last window is w, once a reading has been as late as top: windows start a
      minute but for the lag apart, a window is used only when those before it have run out, and none is overdrawn. */
  ghost predicate WellCharged(log: seq<Upload>, w: Option<Window>, top: int, d: nat, cap: int) {
    && (forall r :: r in log ==> top - d <= r.now < r.start + WINDOW)
    && (forall r :: r in log ==> (w.Some? && r.start == w.value.start) || r.start >= top - d)
    && (forall r :: r in log && w.Some? ==> r.start == w.value.start || IsBehind(r, w.value.start, d))
    && (forall r1, r2 :: r1 in log && r2 in log && r1.start < r2.start ==> IsBehind(r2, r1.start, d))
    && (forall x :: Count(log, StartsAt(x)) + ChargedN(w, x) <= MAX_UPLOADS_PER_MIN)
    && (forall x :: Total(log, StartsAt(x)) + ChargedBytes(w, x) <= WindowBytes(cap))
  }

  /** Going back to an earlier top keeps a log well charged. */
  lemma WellChargedEarlier(log: seq<Upload>, w: Option<Window>, top: int, top': int, d: nat, cap: int)
    requires WellCharged(log, w, top', d, cap) && top <= top'
    ensures WellCharged(log, w, top, d, cap)
  {
  }

  /** So does going back to a window that was pruned: it had run out at some reading. */
  lemma WellChargedPruned(log: seq<Upload>, w: Window, top: int, d: nat, cap: int)
    requires WellCharged(log, None, top, d, cap) && Sound(Some(w), cap) && Expired(w, top) && d < WINDOW
    ensures WellCharged(log, Some(w), top, d, cap)
  {
    CountNone(log, StartsAt(w.start));
    forall x ensures Count(log, StartsAt(x)) + ChargedN(Some(w), x) <= MAX_UPLOADS_PER_MIN
             ensures Total(log, StartsAt(x)) + ChargedBytes(Some(w), x) <= WindowBytes(cap)
    {
      assert Count(log, StartsAt(x)) + ChargedN(None, x) <= MAX_UPLOADS_PER_MIN;
      assert Total(log, StartsAt(x)) + ChargedBytes(None, x) <= WindowBytes(cap);
    }
  }

  /** One more upload at the front, charged to the window the user has. */
  lemma WellChargedCons(r: Upload, log: seq<Upload>, w: Window, top: int, d: nat, cap: int)
    requires Sound(Some(w), cap) && top - d <= r.now && r.start == w.start && !Expired(w, r.now) && d < WINDOW
    requires WellCharged(log, Some(Window(w.start, w.bytes + r.bytes, w.n + 1)), top, d, cap)
    ensures WellCharged([r] + log, Some(w), top, d, cap)
  {
    var w' := Some(Window(w.start, w.bytes + r.bytes, w.n + 1));
    assert ([r] + log)[1..] == log;
    forall x ensures Count([r] + log, StartsAt(x)) + ChargedN(Some(w), x) <= MAX_UPLOADS_PER_MIN
             ensures Total([r] + log, StartsAt(x)) + ChargedBytes(Some(w), x) <= WindowBytes(cap)
    {
      assert Count(log, StartsAt(x)) + ChargedN(w', x) <= MAX_UPLOADS_PER_MIN;
      assert Total(log, StartsAt(x)) + ChargedBytes(w', x) <= WindowBytes(cap);
    }
  }

  /** One more upload at the front, that opens a window. */
  lemma WellChargedOpen(r: Upload, log: seq<Upload>, top: int, d: nat, cap: int)
    requires r.start == r.now && top - d <= r.now <= top && d < WINDOW
    requires WellCharged(log, Some(Window(r.now, r.bytes, 1)), top, d, cap)
    ensures WellCharged([r] + log, None, top, d, cap)
  {
    var w' := Some(Window(r.now, r.bytes, 1));
    assert ([r] + log)[1..] == log;
    forall x ensures Count([r] + log, StartsAt(x)) <= MAX_UPLOADS_PER_MIN
             ensures Total([r] + log, StartsAt(x)) <= WindowBytes(cap)
    {
      assert Count(log, StartsAt(x)) + ChargedN(w', x) <= MAX_UPLOADS_PER_MIN;
      assert Total(log, StartsAt(x)) + ChargedBytes(w', x) <= WindowBytes(cap);
    }
  }

  /** The window of a user after one request. */
  lemma StepWindow(m: Limiter, e: Event, u: int, cap: int)
    requires Sound(WindowOf(m, u), cap) && e.byteLen <= cap
    ensures var (m', ok) := Step(m, e, true);
            var w, w' := WindowOf(m, u), WindowOf(m', u);
            Sound(w', cap) &&
            (if ok && e.user == u
             then w' == Some(match Live(m, u, e.now) case None => Window(e.now, Bytes(e), 1)
                                                     case Some(v) => Window(v.start, v.bytes + Bytes(e), v.n + 1))
             else w' == w || (w.Some? && w' == None && Expired(w.value, e.now)))
  {
  }

  predicate AreCapped(events: seq<Event>, cap: int) {
    forall e :: e in events ==> e.byteLen <= cap
  }

  lemma {:induction false} AcceptedIsWellCharged(m: Limiter, events: seq<Event>, u: int, top: int, d: nat, cap: int)
    requires WithLag(events, top, d) && d < WINDOW && Sound(WindowOf(m, u), cap) && AreCapped(events, cap)
    ensures WellCharged(Accepted(m, events, u), WindowOf(m, u), top, d, cap)
    decreases |events|
  {
    if events != [] {
      var e := events[0];
      StepWindow(m, e, u, cap);
      AcceptedIsWellCharged(Step(m, e, true).0, events[1..], u, Max(top, e.now), d, cap);
      AcceptedStep(m, events, u, Max(top, e.now), d, cap);
      WellChargedEarlier(Accepted(m, events, u), WindowOf(m, u), top, Max(top, e.now), d, cap);
    }
  }

  lemma AcceptedStep(m: Limiter, events: seq<Event>, u: int, top: int, d: nat, cap: int)
    requires events != [] && top - d <= events[0].now <= top && d < WINDOW
    requires Sound(WindowOf(m, u), cap) && events[0].byteLen <= cap
    requires var m' := Step(m, events[0], true).0;
             WellCharged(Accepted(m', events[1..], u), WindowOf(m', u), top, d, cap)
    ensures WellCharged(Accepted(m, events, u), WindowOf(m, u), top, d, cap)
  {
    var e := events[0];
    var (m', ok) := Step(m, e, true);
    var w, rest := WindowOf(m, u), Accepted(m', events[1..], u);
    var log := Accepted(m, events, u);
    StepWindow(m, e, u, cap);
    if ok && e.user == u {
      assert log == [log[0]] + rest;
      if Live(m, u, e.now).Some? {
        WellChargedCons(log[0], rest, w.value, top, d, cap);
      } else {
        WellChargedOpen(log[0], rest, top, d, cap);
        if w.Some? { WellChargedPruned(log, w.value, top, d, cap); }
      }
    } else if WindowOf(m', u) != w {
      WellChargedPruned(log, w.value, top, d, cap);
    }
  }

  lemma {:induction false} CountTwoWindows(log: seq<Upload>, p: Upload -> bool, x: int, y: int)
    requires forall r :: r in log && p(r) ==> r.start == x || r.start == y
    ensures Count(log, p) <= Count(log, StartsAt(x)) + Count(log, StartsAt(y))
    ensures Total(log, p) <= Total(log, StartsAt(x)) + Total(log, StartsAt(y))
  {
    if log != [] {
      assert log[0] in log;
      CountTwoWindows(log[1..], p, x, y);
    }
  }

  /** No 60 seconds less twice the lag meet three windows. */
  lemma TwoWindows(log: seq<Upload>, t: int, top: int, d: nat, cap: int) returns (x: int, y: int)
    requires WellCharged(log, None, top, d, cap) && d < WINDOW
    ensures forall r :: r in log && During(t, t + WINDOW - 2 * d)(r) ==> r.start == x || r.start == y
  {
    x, y := 0, 0;
    if r1 :| r1 in log && During(t, t + WINDOW - 2 * d)(r1) {
      x, y := r1.start, r1.start;
      if r2 :| r2 in log && During(t, t + WINDOW - 2 * d)(r2) && r2.start != x {
        y := r2.start;
      }
    }
  }

  /** In any 60 seconds less twice the lag, both ends included, of any run a user gets at most two windows' worth. */
  lemma SpanBound(events: seq<Event>, u: int, top: int, t: int, d: nat, cap: int)
    requires WithLag(events, top, d) && AreCapped(events, cap)
    ensures Count(Accepted(map[], events, u), During(t, t + WINDOW - 2 * d)) <= 2 * MAX_UPLOADS_PER_MIN
    ensures Total(Accepted(map[], events, u), During(t, t + WINDOW - 2 * d)) <= 2 * WindowBytes(cap)
  {
    var log, p := Accepted(map[], events, u), During(t, t + WINDOW - 2 * d);
    if 2 * d > WINDOW {
      CountNone(log, p);
    } else {
      AcceptedIsWellCharged(map[], events, u, top, d, cap);
      var x, y := TwoWindows(log, t, top, d, cap);
      CountTwoWindows(log, p, x, y);
      assert Count(log, StartsAt(x)) + ChargedN(None, x) <= MAX_UPLOADS_PER_MIN;
      assert Count(log, StartsAt(y)) + ChargedN(None, y) <= MAX_UPLOADS_PER_MIN;
      assert Total(log, StartsAt(x)) + ChargedBytes(None, x) <= WindowBytes(cap);
      assert Total(log, StartsAt(y)) + ChargedBytes(None, y) <= WindowBytes(cap);
    }
  }

  lemma {:induction false} LargestUpload(events: seq<Event>) returns (cap: int)
    ensures AreCapped(events, cap)
  {
    if events == [] {
      cap := 0;
    } else {
      cap := LargestUpload(events[1..]);
      cap := Max(events[0].byteLen, cap);
      assert forall e :: e in events ==> e == events[0] || e in events[1..];
    }
  }

  /** Whatever their size, at most 160 uploads in any such span. */
  lemma SpanUploads(events: seq<Event>, u: int, top: int, t: int, d: nat)
    requires WithLag(events, top, d)
    ensures Count(Accepted(map[], events, u), During(t, t + WINDOW - 2 * d)) <= 2 * MAX_UPLOADS_PER_MIN
  {
    var cap := LargestUpload(events);
    SpanBound(events, u, top, t, d, cap);
  }

  /** The uploads that open two windows a minute apart are both accepted, whatever their size. */
  lemma OpeningUploadsAreUnmeasured(byteLen: nat, now: int)
    ensures var events := [Event(1, byteLen, now), Event(1, byteLen, now + WINDOW)];
            WithLag(events, now, 0) && Total(Accepted(map[], events, 1), During(now, now + WINDOW)) == 2 * byteLen
  {
    var e1, e2 := Event(1, byteLen, now), Event(1, byteLen, now + WINDOW);
    var m1, m2 := OneWindow(byteLen, now), OneWindow(byteLen, now + WINDOW);
    Opens(map[], e1);
    Opens(m1, e2);
    var r1, r2 := Upload(now, byteLen, now), Upload(now + WINDOW, byteLen, now + WINDOW);
    assert [e1, e2][1..] == [e2] && [e2][1..] == [];
    assert Accepted(m2, [], 1) == [] && Accepted(m1, [e2], 1) == [r2];
    assert Accepted(map[], [e1, e2], 1) == [r1, r2];
    assert [r1, r2][1..] == [r2] && [r2][1..] == [];
    assert Total([r2], During(now, now + WINDOW)) == byteLen;
  }

  function OneWindow(byteLen: nat, now: int): Limiter {
    map[1 := Window(now, byteLen, 1)]
  }

  /** An upload that opens a window of the only user is accepted. */
  lemma Opens(m: Limiter, e: Event)
    requires e.user == 1 && e.byteLen >= 0 && m.Keys <= {1} && (1 in m ==> Expired(m[1], e.now))
    ensures Step(m, e, true) == (OneWindow(e.byteLen, e.now), true) && Live(m, 1, e.now) == None
  {
    assert m[1 := Window(e.now, e.byteLen, 1)] == OneWindow(e.byteLen, e.now);
  }

  /** The uploads of user u in a span of time stay within twice the limit of a window. */
  predicate KeepsBytes(events: seq<Event>, u: int, t: int, span: int) {
    Total(Accepted(map[], events, u), During(t, t + span)) <= 2 * MAX_BYTES_PER_MIN
  }

  predicate IsCappedRun(events: seq<Event>, top: int, d: nat, cap: int) {
    WithLag(events, top, d) && AreCapped(events, cap)
  }

  /** With a lag of d and uploads of at most cap bytes, no span of this length holds more than 96 MiB of one user. */
  ghost predicate EverySpanKeepsBytes(cap: int, d: nat, span: int) {
    forall events, u, top, t :: IsCappedRun(events, top, d, cap) ==> KeepsBytes(events, u, t, span)
  }

  /** Without a lag: 96 MiB in any 60 seconds, exactly if no single upload may exceed the limit of a window. */
  lemma MinuteBytesExact(cap: int)
    ensures EverySpanKeepsBytes(cap, 0, WINDOW) <==> cap <= MAX_BYTES_PER_MIN
  {
    if cap <= MAX_BYTES_PER_MIN {
      forall events, u, top, t | IsCappedRun(events, top, 0, cap) ensures KeepsBytes(events, u, t, WINDOW) {
        SpanBound(events, u, top, t, 0, cap);
      }
    } else {
      OpeningUploadsAreUnmeasured(cap, 0);
      var events := [Event(1, cap, 0), Event(1, cap, WINDOW)];
      assert IsCappedRun(events, 0, 0, cap) && !KeepsBytes(events, 1, 0, WINDOW);
    }
  }
}
