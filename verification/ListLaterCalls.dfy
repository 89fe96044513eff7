/** What calls that begin after an invalidation return: internal/mcpclient/tools_list_cache.go. */
module ListLaterCalls {
  import opened Strings
  import opened ListCache
  import opened ListInvalidation

  /** Call c has returned a list from a fetch below n: one it found in the cache, or one it waited for. */
  predicate Returned(t: State, c: nat, n: nat) {
    c < |t.calls| && match t.calls[c].phase
                     case Hit(_, origin) => origin.fetch < n
                     case Stored(fetch) => fetch < n
                     case _ => false
  }

  /** Call c for server id began after s, and has returned a list that was asked for before. */
  predicate ReturnedOld(s: State, t: State, c: nat, id: int) {
    |s.calls| <= c && Returned(t, c, |s.fetches|) && t.calls[c].key.id == id
  }

  ghost predicate ReturnsOld(s: State, id: int, events: seq<Event>) {
    Runs(Invalidated(s, id), events) && exists c: nat :: ReturnedOld(s, After(Invalidated(s, id), events), c, id)
  }

  /** The list call c waits for would be found by a call that begins now, or can be joined by one. */
  predicate IsOffered(s: State, c: nat, id: int) {
    StillComing(s, c, id) && (s.clock < UntilOf(s, c) || IsJoinable(s, c))
  }

  ghost predicate MayReturnOld(s: State, id: int) {
    exists c: nat :: IsOffered(s, c, id)
  }

  lemma LaterCallReturnsOld(s: State, id: int, c: nat) returns (events: seq<Event>)
    requires id > 0 && IsOffered(s, c, id)
    ensures ReturnsOld(s, id, events)
  {
    var t := Invalidated(s, id);
    assert StillComing(t, c, id);
    if s.clock < UntilOf(s, c) {
      events := ServeNew(s, t, id, c);
      assert ReturnedOld(s, After(t, events), |t.calls|, id);
    } else {
      events := JoinAndReturn(s, t, id, c);
      assert ReturnedOld(s, After(t, events), |t.calls|, id);
    }
  }

  /** A call that joins the fetch returns its list. */
  lemma JoinAndReturn(s: State, t: State, id: int, c: nat) returns (events: seq<Event>)
    requires id > 0 && StillComing(t, c, id) && IsJoinable(t, c) && t.calls[c].key !in t.entries
    requires t.calls[c].phase.fetch < |s.fetches| && |s.calls| <= |t.calls|
    ensures Runs(t, events) && ReturnedOld(s, After(t, events), |t.calls|, id)
  {
    var k, d := t.calls[c].key, |t.calls|;
    var t1 := Apply(t, Begin(k, 1));
    var t2 := Apply(t1, Lookup(d));
    var t3 := Apply(t2, Request(d, true));
    assert t3.calls[d] == Call(k, t.clock, 1, Waiting(t.calls[c].phase.fetch));
    assert StillComing(t3, d, id);
    Delivered(t3, d, id);
    var more := Deliver(t3, d);
    OneStep(t2, Request(d, true));
    RunsOn(t2, [Request(d, true)], more);
    OneStep(t1, Lookup(d));
    RunsOn(t1, [Lookup(d)], [Request(d, true)] + more);
    OneStep(t, Begin(k, 1));
    RunsOn(t, [Begin(k, 1)], [Lookup(d)] + ([Request(d, true)] + more));
    events := [Begin(k, 1)] + ([Lookup(d)] + ([Request(d, true)] + more));
  }

  // ---------- otherwise later calls return new lists only ----------

  /** Calls that are not in s began when s was, or later. */
  ghost predicate AreLater(s: State, t: State) {
    |s.calls| <= |t.calls| && s.clock <= t.clock
    && forall c :: |s.calls| <= c < |t.calls| ==> s.clock <= t.calls[c].now
  }

  lemma StepStaysLater(s: State, t: State, e: Event)
    requires Enabled(t, e) && AreLater(s, t)
    ensures AreLater(s, Apply(t, e))
  {
    var u := Apply(t, e);
    StepGrows(t, e);
    forall c | |s.calls| <= c < |u.calls| ensures s.clock <= u.calls[c].now {
      assert c < |t.calls| ==> u.calls[c] == t.calls[c].(phase := u.calls[c].phase);
    }
  }

  /** Whatever is older than s runs out before the calls that began later, and none of them waits for it. */
  ghost predicate IsPast(s: State, t: State, id: int) {
    && |s.fetches| <= |t.fetches| && AreLater(s, t)
    && (forall k :: IsOld(t, k, id, |s.fetches|) ==> t.entries[k].until <= s.clock)
    && (forall k :: k in t.flights && k.id == id ==> t.flights[k] >= |s.fetches|)
    && (forall c: nat :: StillComing(t, c, id) && t.calls[c].phase.fetch < |s.fetches|
                         ==> c < |s.calls| && UntilOf(t, c) <= s.clock)
    && (forall c: nat :: !ReturnedOld(s, t, c, id))
  }

  /** Only looking and storing make a call return a list. */
  lemma ReturnedBefore(t: State, e: Event, c: nat, n: nat)
    requires Enabled(t, e) && e != Lookup(c) && e != Finish(c) && Returned(Apply(t, e), c, n)
    ensures c < |t.calls| && t.calls[c] == Apply(t, e).calls[c]
  {
  }

  lemma LookupReturnsNothingOld(s: State, t: State, id: int, c: nat)
    requires Enabled(t, Lookup(c)) && IsPast(s, t, id)
    ensures !ReturnedOld(s, Apply(t, Lookup(c)), c, id)
  {
    if Apply(t, Lookup(c)).calls[c].phase.Hit? {
      HitIsEntry(t, c);
      var k := t.calls[c].key;
      assert IsOld(t, k, id, |s.fetches|) ==> t.entries[k].until <= s.clock;
    }
  }

  lemma FinishReturnsNothingOld(s: State, t: State, id: int, c: nat)
    requires Enabled(t, Finish(c)) && IsPast(s, t, id)
    ensures !ReturnedOld(s, Apply(t, Finish(c)), c, id)
  {
    if t.fetches[t.calls[c].phase.fetch].answer != Some(Refused) && t.calls[c].key.id == id {
      assert StillComing(t, c, id);
    }
  }

  lemma StepReturnsNothingOld(s: State, t: State, e: Event, id: int, c: nat)
    requires Enabled(t, e) && IsPast(s, t, id)
    ensures !ReturnedOld(s, Apply(t, e), c, id)
  {
    if e == Lookup(c) {
      LookupReturnsNothingOld(s, t, id, c);
    } else if e == Finish(c) {
      FinishReturnsNothingOld(s, t, id, c);
    } else if Returned(Apply(t, e), c, |s.fetches|) {
      ReturnedBefore(t, e, c, |s.fetches|);
      assert !ReturnedOld(s, t, c, id);
    }
  }

  lemma StepStoresPast(s: State, t: State, e: Event, id: int, k: Key)
    requires Enabled(t, e) && Inv(t) && IsPast(s, t, id) && IsOld(Apply(t, e), k, id, |s.fetches|)
    ensures Apply(t, e).entries[k].until <= s.clock
  {
    if !StoresNothing(t, e) && k == t.calls[e.c].key {
      FinishStores(t, e.c);
      assert StillComing(t, e.c, id);
    } else {
      if StoresNothing(t, e) { NothingStored(t, e, k); } else { EntryIsKept(t, e, k); }
      assert EntryOk(t, k);
      assert IsOld(t, k, id, |s.fetches|);
    }
  }

  lemma StepWaitsPast(s: State, t: State, e: Event, id: int, c: nat)
    requires Enabled(t, e) && Inv(t) && IsPast(s, t, id)
    requires StillComing(Apply(t, e), c, id) && Apply(t, e).calls[c].phase.fetch < |s.fetches|
    ensures c < |s.calls| && UntilOf(Apply(t, e), c) <= s.clock
  {
    if !(e.Request? && e.c == c) { ComingStepBack(t, e, c, id); }
  }

  lemma StepStaysPast(s: State, t: State, e: Event, id: int)
    requires Enabled(t, e) && Inv(t) && IsPast(s, t, id)
    ensures IsPast(s, Apply(t, e), id)
  {
    var u := Apply(t, e);
    StepGrows(t, e);
    StepStaysLater(s, t, e);
    forall k | IsOld(u, k, id, |s.fetches|) ensures u.entries[k].until <= s.clock {
      StepStoresPast(s, t, e, id, k);
    }
    forall k | k in u.flights && k.id == id ensures u.flights[k] >= |s.fetches| {
      FlightIsKept(t, e, k);
    }
    forall c: nat | StillComing(u, c, id) && u.calls[c].phase.fetch < |s.fetches|
      ensures c < |s.calls| && UntilOf(u, c) <= s.clock
    {
      StepWaitsPast(s, t, e, id, c);
    }
    forall c: nat ensures !ReturnedOld(s, u, c, id) {
      StepReturnsNothingOld(s, t, e, id, c);
    }
  }

  lemma {:induction false} StaysPast(s: State, t: State, events: seq<Event>, id: int)
    requires Inv(t) && IsPast(s, t, id) && Runs(t, events)
    ensures IsPast(s, After(t, events), id)
    decreases |events|
  {
    if events != [] {
      StepStaysPast(s, t, events[0], id);
      StepKeepsInv(t, events[0]);
      StaysPast(s, Apply(t, events[0]), events[1..], id);
    }
  }

  lemma LaterCallReturnsNew(s: State, id: int, events: seq<Event>)
    requires Inv(s) && id > 0 && !MayReturnOld(s, id) && Runs(Invalidated(s, id), events)
    ensures !ReturnsOld(s, id, events)
  {
    var t := Invalidated(s, id);
    forall k | k in t.flights ensures k.id != id {
      FlightIsComing(s, k);
      var c: nat :| StillComing(s, c, k.id) && s.calls[c].key == k && s.calls[c].phase.fetch == s.flights[k];
      assert k.id == id ==> IsOffered(s, c, id);
    }
    forall c: nat | StillComing(t, c, id) ensures UntilOf(t, c) <= s.clock {
      assert StillComing(s, c, id) && !IsOffered(s, c, id);
    }
    StepKeepsInv(s, Invalidate(id));
    StaysPast(s, t, events, id);
  }

  /** Some call that begins after an invalidation can return a list from before it, found in the cache or joined,
      exactly when a call waits for one that has not been refused, and either the entry it would store has not run out
      yet or its fetch can still be joined. */
  lemma LaterCallsExact(s: State, id: int)
    requires Inv(s) && id > 0
    ensures (exists events :: ReturnsOld(s, id, events)) <==> MayReturnOld(s, id)
  {
    if MayReturnOld(s, id) {
      var c: nat :| IsOffered(s, c, id);
      var events := LaterCallReturnsOld(s, id, c);
    } else {
      forall events ensures !ReturnsOld(s, id, events) {
        if Runs(Invalidated(s, id), events) { LaterCallReturnsNew(s, id, events); }
      }
    }
  }
}
