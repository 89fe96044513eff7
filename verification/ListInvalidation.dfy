/** When an invalidated list can come back: internal/mcpclient/tools_list_cache.go. */
module ListInvalidation {
  import opened Strings
  import opened ListCache

  // ---------- invalidation ----------

  /** Call c is for server id and waits for a list that can still be stored. */
  predicate StillComing(s: State, c: nat, id: int) {
    && c < |s.calls| && s.calls[c].key.id == id && s.calls[c].phase.Waiting?
    && s.calls[c].phase.fetch < |s.fetches| && s.fetches[s.calls[c].phase.fetch].answer != Some(Refused)
  }

  ghost predicate MayStoreOld(s: State, id: int) {
    exists c: nat :: StillComing(s, c, id)
  }

  function Invalidated(s: State, id: int): State {
    Apply(s, Invalidate(id))
  }

  /** An entry of the server comes from a fetch below n. */
  predicate IsOld(s: State, k: Key, id: int, n: nat) {
    k in s.entries && k.id == id && k in s.origins && s.origins[k].fetch < n
  }

  /** After an invalidation these events store a list of the server that was asked for before it. */
  ghost predicate StoresOld(s: State, id: int, events: seq<Event>) {
    Runs(Invalidated(s, id), events) && exists k :: IsOld(After(Invalidated(s, id), events), k, id, |s.fetches|)
  }

  /** The list call c waits for arrives, if it has not yet, and is stored. */
  function Deliver(s: State, c: nat): seq<Event>
    requires c < |s.calls| && s.calls[c].phase.Waiting? && s.calls[c].phase.fetch < |s.fetches|
  {
    var f := s.calls[c].phase.fetch;
    if s.fetches[f].answer == None then [Reply(f, Fetched([])), Finish(c)] else [Finish(c)]
  }

  /** What delivering leaves: the entry, and every other call as it was. */
  predicate IsDelivered(s: State, t: State, c: nat)
    requires c < |s.calls| && s.calls[c].phase.Waiting?
  {
    var k := s.calls[c].key;
    && t.clock == s.clock && t.calls == s.calls[c := s.calls[c].(phase := Stored(s.calls[c].phase.fetch))]
    && k in t.entries && t.entries[k].until == UntilOf(s, c)
    && k in t.origins && t.origins[k] == Origin(c, s.calls[c].phase.fetch)
  }

  lemma Delivered(s: State, c: nat, id: int)
    requires StillComing(s, c, id)
    ensures Runs(s, Deliver(s, c)) && IsDelivered(s, After(s, Deliver(s, c)), c)
  {
    var f := s.calls[c].phase.fetch;
    if s.fetches[f].answer == None {
      var t := Apply(s, Reply(f, Fetched([])));
      assert t.calls == s.calls && t.fetches[f].answer == Some(Fetched([]));
      FinishStores(t, c);
      assert Deliver(s, c)[1..] == [Finish(c)] && [Finish(c)][1..] == [];
      OneStep(t, Finish(c));
      assert Runs(s, Deliver(s, c));
    } else {
      FinishStores(s, c);
      OneStep(s, Finish(c));
    }
  }

  lemma OneStep(s: State, e: Event)
    requires Enabled(s, e)
    ensures Runs(s, [e]) && After(s, [e]) == Apply(s, e)
  {
    assert [e][1..] == [];
  }

  /** Whoever still waits for a list when the server is invalidated can store it afterwards. */
  lemma InvalidationCanBeUndone(s: State, id: int, c: nat) returns (events: seq<Event>)
    requires StillComing(s, c, id)
    ensures StoresOld(s, id, events)
  {
    var t := Invalidated(s, id);
    events := Deliver(t, c);
    Delivered(t, c, id);
    assert IsOld(After(t, events), s.calls[c].key, id, |s.fetches|);
  }

  /** Nothing asked for before fetch n is, or can get, into the entries of the server. */
  ghost predicate IsClean(s: State, id: int, n: nat) {
    && n <= |s.fetches|
    && (forall k :: k in s.entries && k.id == id ==> k in s.origins && s.origins[k].fetch >= n)
    && (forall k :: k in s.flights && k.id == id ==> s.flights[k] >= n)
    && forall c: nat :: StillComing(s, c, id) ==> s.calls[c].phase.fetch >= n
  }

  lemma ComingStepBack(s: State, e: Event, c: nat, id: int)
    requires Enabled(s, e) && Inv(s) && StillComing(Apply(s, e), c, id)
    requires !(e.Request? && e.c == c)
    ensures StillComing(s, c, id) && s.calls[c] == Apply(s, e).calls[c]
  {
    assert c < |s.calls| && s.calls[c] == Apply(s, e).calls[c];
    assert CallOk(s, s.calls[c]);
  }

  lemma StepStaysClean(s: State, e: Event, id: int, n: nat)
    requires Enabled(s, e) && Inv(s) && IsClean(s, id, n)
    ensures IsClean(Apply(s, e), id, n)
  {
    var t := Apply(s, e);
    forall k | k in t.entries && k.id == id ensures k in t.origins && t.origins[k].fetch >= n {
      if !StoresNothing(s, e) && k == s.calls[e.c].key {
        assert StillComing(s, e.c, id);
        FinishStores(s, e.c);
      } else if StoresNothing(s, e) {
        NothingStored(s, e, k);
      } else {
        EntryIsKept(s, e, k);
      }
    }
    forall k | k in t.flights && k.id == id ensures t.flights[k] >= n {
      FlightIsKept(s, e, k);
    }
    forall c: nat | StillComing(t, c, id) ensures t.calls[c].phase.fetch >= n {
      if !(e.Request? && e.c == c) { ComingStepBack(s, e, c, id); }
    }
  }

  lemma {:induction false} StaysClean(s: State, events: seq<Event>, id: int, n: nat)
    requires Inv(s) && IsClean(s, id, n) && Runs(s, events)
    ensures IsClean(After(s, events), id, n)
    decreases |events|
  {
    if events != [] {
      StepStaysClean(s, events[0], id, n);
      StepKeepsInv(s, events[0]);
      StaysClean(Apply(s, events[0]), events[1..], id, n);
    }
  }

  /** Flights of a server come with a call that waits for them. */
  lemma FlightIsComing(s: State, k: Key)
    requires Inv(s) && k in s.flights
    ensures exists c: nat :: StillComing(s, c, k.id) && s.calls[c].key == k && s.calls[c].phase.fetch == s.flights[k]
  {
    assert FlightOk(s, k);
    var c :| 0 <= c < |s.calls| && WaitsFor(s.calls[c], k, s.flights[k]);
    assert StillComing(s, c, k.id);
  }

  /** If no list can still come in, nothing asked for before the invalidation is ever stored after it. */
  lemma InvalidationHolds(s: State, id: int, events: seq<Event>)
    requires Inv(s) && id > 0 && !MayStoreOld(s, id) && Runs(Invalidated(s, id), events)
    ensures !StoresOld(s, id, events)
  {
    var t, n := Invalidated(s, id), |s.fetches|;
    forall k | k in t.flights ensures k.id != id {
      FlightIsComing(s, k);
    }
    forall c: nat ensures !StillComing(t, c, id) {
      assert StillComing(t, c, id) ==> StillComing(s, c, id);
    }
    StepKeepsInv(s, Invalidate(id));
    StaysClean(t, events, id, n);
  }

  /** Invalidating a server can be undone exactly when some call waits for a list of it that has not been refused. */
  lemma InvalidationExact(s: State, id: int)
    requires Inv(s) && id > 0
    ensures (exists events :: StoresOld(s, id, events)) <==> MayStoreOld(s, id)
  {
    if MayStoreOld(s, id) {
      var c: nat :| StillComing(s, c, id);
      var events := InvalidationCanBeUndone(s, id, c);
    } else {
      forall events ensures !StoresOld(s, id, events) {
        if Runs(Invalidated(s, id), events) { InvalidationHolds(s, id, events); }
      }
    }
  }

  // ---------- serving what was invalidated ----------

  /** Call c was served, after s, from a fetch that is older than s. */
  predicate ServedOld(s: State, t: State, c: nat, id: int) {
    && c < |t.calls| && t.calls[c].key.id == id && t.calls[c].phase.Hit?
    && t.calls[c].phase.origin.fetch < |s.fetches| && !(c < |s.calls| && s.calls[c].phase.Hit?)
  }

  ghost predicate ServesOld(s: State, id: int, events: seq<Event>) {
    Runs(Invalidated(s, id), events) && exists c: nat :: ServedOld(s, After(Invalidated(s, id), events), c, id)
  }

  /** Call d has still to look into the cache, and began before the entry that call c would store runs out. */
  predicate IsEarly(s: State, c: nat, d: nat)
    requires c < |s.calls|
  {
    d < |s.calls| && s.calls[d].key == s.calls[c].key && s.calls[d].phase == Started && s.calls[d].now < UntilOf(s, c)
  }

  /** Others may still join the fetch that call c waits for. */
  predicate IsJoinable(s: State, c: nat)
    requires c < |s.calls| && s.calls[c].phase.Waiting?
  {
    s.calls[c].key in s.flights && s.flights[s.calls[c].key] == s.calls[c].phase.fetch
  }

  /** The list call c waits for can come in time to be served. */
  ghost predicate InTime(s: State, c: nat, id: int) {
    StillComing(s, c, id) && (s.clock < UntilOf(s, c) || IsJoinable(s, c) || exists d: nat :: IsEarly(s, c, d))
  }

  ghost predicate MayServeOld(s: State, id: int) {
    exists c: nat :: InTime(s, c, id)
  }

  /** Looking up an entry that has not run out is a hit. */
  lemma LookupHits(s: State, d: nat)
    requires Enabled(s, Lookup(d)) && s.calls[d].key in s.entries && s.calls[d].key in s.origins
    requires s.calls[d].now < s.entries[s.calls[d].key].until
    ensures var t := Apply(s, Lookup(d));
            d < |t.calls| && t.calls[d].phase.Hit? && t.calls[d].phase.origin == s.origins[s.calls[d].key]
  {
  }

  lemma ServeEarly(s: State, t: State, id: int, c: nat, d: nat) returns (events: seq<Event>)
    requires StillComing(t, c, id) && IsEarly(t, c, d) && t.calls[c].phase.fetch < |s.fetches|
    requires d < |s.calls| ==> !s.calls[d].phase.Hit?
    ensures Runs(t, events) && ServedOld(s, After(t, events), d, id)
  {
    Delivered(t, c, id);
    var u := After(t, Deliver(t, c));
    assert u.calls[d] == t.calls[d];
    LookupHits(u, d);
    OneStep(u, Lookup(d));
    RunsOn(t, Deliver(t, c), [Lookup(d)]);
    events := Deliver(t, c) + [Lookup(d)];
  }

  /** While the clock allows it, a new call does as well. */
  lemma ServeNew(s: State, t: State, id: int, c: nat) returns (events: seq<Event>)
    requires id > 0 && StillComing(t, c, id) && t.clock < UntilOf(t, c)
    requires t.calls[c].phase.fetch < |s.fetches| && |s.calls| <= |t.calls|
    ensures Runs(t, events) && ServedOld(s, After(t, events), |t.calls|, id)
  {
    var e, d := Begin(t.calls[c].key, 1), |t.calls|;
    var u := Apply(t, e);
    assert StillComing(u, c, id) && IsEarly(u, c, d);
    var more := ServeEarly(s, u, id, c, d);
    OneStep(t, e);
    RunsOn(t, [e], more);
    events := [e] + more;
  }

  /** A new call that joins the fetch stores its list for its own time to live. */
  lemma ServeJoining(s: State, t: State, id: int, c: nat) returns (events: seq<Event>)
    requires id > 0 && StillComing(t, c, id) && IsJoinable(t, c) && t.calls[c].key !in t.entries
    requires t.calls[c].phase.fetch < |s.fetches| && |s.calls| <= |t.calls|
    ensures Runs(t, events) && ServedOld(s, After(t, events), |t.calls| + 1, id)
  {
    var k, d := t.calls[c].key, |t.calls|;
    var t1 := Apply(t, Begin(k, 1));
    var t2 := Apply(t1, Lookup(d));
    var t3 := Apply(t2, Request(d, true));
    assert t3.calls[d] == Call(k, t.clock, 1, Waiting(t.calls[c].phase.fetch));
    assert StillComing(t3, d, id);
    var more := ServeNew(s, t3, id, d);
    OneStep(t2, Request(d, true));
    RunsOn(t2, [Request(d, true)], more);
    OneStep(t1, Lookup(d));
    RunsOn(t1, [Lookup(d)], [Request(d, true)] + more);
    OneStep(t, Begin(k, 1));
    RunsOn(t, [Begin(k, 1)], [Lookup(d)] + ([Request(d, true)] + more));
    events := [Begin(k, 1)] + ([Lookup(d)] + ([Request(d, true)] + more));
  }

  /** A list in time is served after the invalidation. */
  lemma InvalidatedListIsServed(s: State, id: int, c: nat) returns (events: seq<Event>)
    requires id > 0 && InTime(s, c, id)
    ensures ServesOld(s, id, events)
  {
    var t := Invalidated(s, id);
    assert StillComing(t, c, id);
    if s.clock < UntilOf(s, c) {
      events := ServeNew(s, t, id, c);
      assert ServedOld(s, After(t, events), |t.calls|, id);
    } else if IsJoinable(s, c) {
      events := ServeJoining(s, t, id, c);
      assert ServedOld(s, After(t, events), |t.calls| + 1, id);
    } else {
      var d: nat :| IsEarly(s, c, d);
      events := ServeEarly(s, t, id, c, d);
      assert ServedOld(s, After(t, events), d, id);
    }
  }

  /** No call that looks for key k from now on finds an entry that runs out at until. */
  ghost predicate TooLate(s: State, k: Key, until: int) {
    && until <= s.clock
    && forall d: nat :: d < |s.calls| && s.calls[d].key == k && s.calls[d].phase == Started ==> until <= s.calls[d].now
  }

  lemma StepStaysTooLate(s: State, e: Event, k: Key, until: int)
    requires Enabled(s, e) && TooLate(s, k, until)
    ensures TooLate(Apply(s, e), k, until)
  {
    var t := Apply(s, e);
    forall d: nat | d < |t.calls| && t.calls[d].key == k && t.calls[d].phase == Started
      ensures until <= t.calls[d].now
    {
      assert d < |s.calls| ==> t.calls[d] == s.calls[d];
    }
  }

  /** Whatever is older than s and stored or still coming is too late, and has not been served. */
  ghost predicate IsLate(s: State, t: State, id: int) {
    && |s.fetches| <= |t.fetches|
    && (forall k :: IsOld(t, k, id, |s.fetches|) ==> TooLate(t, k, t.entries[k].until))
    && (forall k :: k in t.flights && k.id == id ==> t.flights[k] >= |s.fetches|)
    && (forall c: nat :: StillComing(t, c, id) && t.calls[c].phase.fetch < |s.fetches|
                         ==> TooLate(t, t.calls[c].key, UntilOf(t, c)))
    && (forall c: nat :: !ServedOld(s, t, c, id))
  }

  /** Only looking makes a call a hit. */
  lemma HitWasHit(t: State, e: Event, c: nat)
    requires Enabled(t, e) && e != Lookup(c) && c < |Apply(t, e).calls| && Apply(t, e).calls[c].phase.Hit?
    ensures c < |t.calls| && t.calls[c] == Apply(t, e).calls[c]
  {
  }

  /** What a hit comes from. */
  lemma HitIsEntry(t: State, c: nat)
    requires Enabled(t, Lookup(c)) && Apply(t, Lookup(c)).calls[c].phase.Hit?
    ensures var k := t.calls[c].key;
            && k in t.entries && k in t.origins && t.calls[c].now < t.entries[k].until
            && Apply(t, Lookup(c)).calls[c] == t.calls[c].(phase := Hit(t.entries[k].tools, t.origins[k]))
  {
  }

  lemma LookupServesNothingOld(s: State, t: State, id: int, c: nat)
    requires Enabled(t, Lookup(c)) && IsLate(s, t, id)
    ensures !ServedOld(s, Apply(t, Lookup(c)), c, id)
  {
    if Apply(t, Lookup(c)).calls[c].phase.Hit? {
      HitIsEntry(t, c);
      var k := t.calls[c].key;
      assert IsOld(t, k, id, |s.fetches|) ==> TooLate(t, k, t.entries[k].until);
    }
  }

  lemma StepServesNothingOld(s: State, t: State, e: Event, id: int, c: nat)
    requires Enabled(t, e) && IsLate(s, t, id)
    ensures !ServedOld(s, Apply(t, e), c, id)
  {
    var u := Apply(t, e);
    if e == Lookup(c) {
      LookupServesNothingOld(s, t, id, c);
    } else if c < |u.calls| && u.calls[c].phase.Hit? {
      HitWasHit(t, e, c);
      assert !ServedOld(s, t, c, id);
    }
  }

  lemma StepStoresLate(s: State, t: State, e: Event, id: int, k: Key)
    requires Enabled(t, e) && Inv(t) && IsLate(s, t, id) && IsOld(Apply(t, e), k, id, |s.fetches|)
    ensures TooLate(Apply(t, e), k, Apply(t, e).entries[k].until)
  {
    if !StoresNothing(t, e) && k == t.calls[e.c].key {
      FinishStores(t, e.c);
      assert StillComing(t, e.c, id);
      StepStaysTooLate(t, e, k, UntilOf(t, e.c));
    } else {
      if StoresNothing(t, e) { NothingStored(t, e, k); } else { EntryIsKept(t, e, k); }
      assert EntryOk(t, k);
      assert IsOld(t, k, id, |s.fetches|);
      StepStaysTooLate(t, e, k, t.entries[k].until);
    }
  }

  lemma StepStaysLate(s: State, t: State, e: Event, id: int)
    requires Enabled(t, e) && Inv(t) && IsLate(s, t, id)
    ensures IsLate(s, Apply(t, e), id)
  {
    var u := Apply(t, e);
    StepGrows(t, e);
    forall k | IsOld(u, k, id, |s.fetches|) ensures TooLate(u, k, u.entries[k].until) {
      StepStoresLate(s, t, e, id, k);
    }
    forall k | k in u.flights && k.id == id ensures u.flights[k] >= |s.fetches| {
      FlightIsKept(t, e, k);
    }
    forall c: nat | StillComing(u, c, id) && u.calls[c].phase.fetch < |s.fetches|
      ensures TooLate(u, u.calls[c].key, UntilOf(u, c))
    {
      if !(e.Request? && e.c == c) {
        ComingStepBack(t, e, c, id);
        StepStaysTooLate(t, e, u.calls[c].key, UntilOf(u, c));
      }
    }
    forall c: nat ensures !ServedOld(s, u, c, id) {
      StepServesNothingOld(s, t, e, id, c);
    }
  }

  lemma {:induction false} StaysLate(s: State, t: State, events: seq<Event>, id: int)
    requires Inv(t) && IsLate(s, t, id) && Runs(t, events)
    ensures IsLate(s, After(t, events), id)
    decreases |events|
  {
    if events != [] {
      StepStaysLate(s, t, events[0], id);
      StepKeepsInv(t, events[0]);
      StaysLate(s, Apply(t, events[0]), events[1..], id);
    }
  }

  lemma InvalidatedListIsNotServed(s: State, id: int, events: seq<Event>)
    requires Inv(s) && id > 0 && !MayServeOld(s, id) && Runs(Invalidated(s, id), events)
    ensures !ServesOld(s, id, events)
  {
    var t := Invalidated(s, id);
    forall k | k in t.flights ensures k.id != id {
      FlightIsComing(s, k);
      var c: nat :| StillComing(s, c, k.id) && s.calls[c].key == k && s.calls[c].phase.fetch == s.flights[k];
      assert k.id == id ==> InTime(s, c, id);
    }
    forall c: nat | StillComing(t, c, id) ensures TooLate(t, t.calls[c].key, UntilOf(t, c)) {
      assert StillComing(s, c, id) && !InTime(s, c, id);
      forall d: nat | d < |t.calls| && t.calls[d].key == t.calls[c].key && t.calls[d].phase == Started
        ensures UntilOf(t, c) <= t.calls[d].now
      {
        assert !IsEarly(s, c, d);
      }
    }
    StepKeepsInv(s, Invalidate(id));
    StaysLate(s, t, events, id);
  }

  /** An invalidated list is served afterwards exactly when one that has not been refused can still come in time: the
      entry would outlast the present moment, or a call that has yet to look, or others may still join its fetch. */
  lemma InvalidationServesExact(s: State, id: int)
    requires Inv(s) && id > 0
    ensures (exists events :: ServesOld(s, id, events)) <==> MayServeOld(s, id)
  {
    if MayServeOld(s, id) {
      var c: nat :| InTime(s, c, id);
      var events := InvalidatedListIsServed(s, id, c);
    } else {
      forall events ensures !ServesOld(s, id, events) {
        if Runs(Invalidated(s, id), events) { InvalidatedListIsNotServed(s, id, events); }
      }
    }
  }

  /** From the empty cache a call can come to wait for a list in time. */
  lemma WaitingIsReachable(key: Key)
    requires key.id > 0
    ensures var events := [Begin(key, 1), Lookup(0), Request(0, false)];
            Runs(INIT, events) && InTime(After(INIT, events), 0, key.id)
  {
    var s1 := Apply(INIT, Begin(key, 1));
    var s2 := Apply(s1, Lookup(0));
    OneStep(s2, Request(0, false));
    OneStep(s1, Lookup(0));
    RunsOn(s1, [Lookup(0)], [Request(0, false)]);
    OneStep(INIT, Begin(key, 1));
    RunsOn(INIT, [Begin(key, 1)], [Lookup(0)] + [Request(0, false)]);
    assert [Begin(key, 1)] + ([Lookup(0)] + [Request(0, false)]) == [Begin(key, 1), Lookup(0), Request(0, false)];
  }
}
