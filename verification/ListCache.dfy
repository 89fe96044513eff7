/** The tool-list cache of internal/mcpclient/tools_list_cache.go and its callers, step by step. */
module ListCache {
  import opened Strings

  const DEFAULT_TTL := 120_000_000_000

  datatype Tool = Tool(name: string, description: string)

  /** A server and the fingerprint of its configuration. */
  datatype Key = Key(id: int, fp: string)

  datatype Entry = Entry(tools: seq<Tool>, until: int)

  type Entries = map<Key, Entry>

  // ---------- the critical sections ----------

  function LookupIn(m: Entries, key: Key, now: int): Option<seq<Tool>> {
    if key in m && now < m[key].until then Some(m[key].tools) else None
  }

  /** Storing drops what has expired and what another fingerprint of the server left. */
  predicate Survives(m: Entries, k: Key, key: Key, now: int)
    requires k in m
  {
    now < m[k].until && (k.id == key.id ==> k.fp == key.fp)
  }

  function StoreIn(m: Entries, key: Key, tools: seq<Tool>, now: int, ttl: int): Entries {
    (map k | k in m && Survives(m, k, key, now) :: m[k])[key := Entry(tools, now + ttl)]
  }

  function InvalidateIn(m: Entries, id: int): Entries {
    if id <= 0 then m else map k | k in m && k.id != id :: m[k]
  }

  class ToolsListCache {
    var toolEntries: Entries

    constructor ()
      ensures toolEntries == map[]
    {
      toolEntries := map[];
    }

    method Lookup(key: Key, now: int) returns (hit: Option<seq<Tool>>)
      ensures hit == LookupIn(toolEntries, key, now)
    {
      if key in toolEntries && now < toolEntries[key].until { return Some(toolEntries[key].tools); }
      return None;
    }

    /** Deletes, key by key, the entries that drop selects. */
    method DeleteWhere(drop: (Key, Entry) -> bool)
      modifies this
      ensures forall k :: k in toolEntries <==> k in old(toolEntries) && !drop(k, old(toolEntries)[k])
      ensures forall k :: k in toolEntries ==> toolEntries[k] == old(toolEntries)[k]
    {
      var rest := toolEntries.Keys;
      while exists k :: k in rest
        invariant rest <= toolEntries.Keys
        invariant forall k :: k in toolEntries ==> k in old(toolEntries) && toolEntries[k] == old(toolEntries)[k]
        invariant forall k :: k in toolEntries ==> k in rest || !drop(k, old(toolEntries)[k])
        invariant forall k :: k in old(toolEntries) && k !in toolEntries ==> drop(k, old(toolEntries)[k])
        decreases |rest|
      {
        var k :| k in rest;
        rest := rest - {k};
        if drop(k, toolEntries[k]) { toolEntries := toolEntries - {k}; }
      }
    }

    method Store(key: Key, tools: seq<Tool>, now: int, ttl: int)
      modifies this
      ensures toolEntries == StoreIn(old(toolEntries), key, tools, now, ttl)
    {
      DeleteWhere((k, e: Entry) => !(now < e.until));
      DeleteWhere((k: Key, e) => k.id == key.id && k.fp != key.fp);
      toolEntries := toolEntries[key := Entry(tools, now + ttl)];
      SameEntries(toolEntries, StoreIn(old(toolEntries), key, tools, now, ttl));
    }

    method InvalidateServerTools(id: int)
      modifies this
      ensures toolEntries == InvalidateIn(old(toolEntries), id)
    {
      if id <= 0 { return; }
      DeleteWhere((k: Key, e) => k.id == id);
      SameEntries(toolEntries, InvalidateIn(old(toolEntries), id));
    }
  }

  lemma SameEntries(a: Entries, b: Entries)
    requires forall k :: k in a <==> k in b
    requires forall k :: k in a ==> a[k] == b[k]
    ensures a == b
  {
    assert a.Keys == b.Keys;
  }

  // ---------- callers and fetches ----------

  datatype Answer = Fetched(tools: seq<Tool>) | Refused

  /** A list request to a server, possibly still on its way. */
  datatype Fetch = Fetch(key: Key, answer: Option<Answer>)

  /** The call that stored an entry and the fetch it got the list from. */
  datatype Origin = Origin(call: nat, fetch: nat)

  datatype Phase =
    | Started | Missed | Waiting(fetch: nat) | Hit(tools: seq<Tool>, origin: Origin) | Stored(fetch: nat) | Failed

  /** now is read once, when the call begins. */
  datatype Call = Call(key: Key, now: int, ttl: int, phase: Phase)

  datatype State = State(clock: int, entries: Entries, origins: map<Key, Origin>, calls: seq<Call>, fetches: seq<Fetch>,
                         flights: map<Key, nat>)

  datatype Event =
    | Tick(d: nat)
    | Begin(key: Key, ttl: int)
    | Lookup(c: nat)
    | Request(c: nat, coalesce: bool)
    | Reply(f: nat, answer: Answer)
    | Finish(c: nat)
    | Invalidate(id: int)

  predicate Enabled(s: State, e: Event) {
    match e
    case Tick(_) => true
    case Begin(key, _) => key.id > 0
    case Lookup(c) => c < |s.calls| && s.calls[c].phase == Started
    case Request(c, _) => c < |s.calls| && s.calls[c].phase == Missed
    case Reply(f, _) => f < |s.fetches| && s.fetches[f].answer == None
    case Finish(c) => c < |s.calls| && s.calls[c].phase.Waiting? && s.calls[c].phase.fetch < |s.fetches| &&
      s.fetches[s.calls[c].phase.fetch].answer.Some?
    case Invalidate(_) => true
  }

  function SetPhase(s: State, c: nat, p: Phase): State
    requires c < |s.calls|
  {
    s.(calls := s.calls[c := s.calls[c].(phase := p)])
  }

  /** Each step is atomic: a critical section of the cache, or one of the coalescing group. */
  function Apply(s: State, e: Event): State
    requires Enabled(s, e)
  {
    match e
    case Tick(d) => s.(clock := s.clock + d)
    case Begin(key, ttl) => s.(calls := s.calls + [Call(key, s.clock, if ttl <= 0 then DEFAULT_TTL else ttl, Started)])
    case Lookup(c) =>
      var call := s.calls[c];
      var hit := LookupIn(s.entries, call.key, call.now);
      SetPhase(s, c, if hit.Some? && call.key in s.origins then Hit(hit.value, s.origins[call.key]) else Missed)
    case Request(c, coalesce) =>
      var key := s.calls[c].key;
      if coalesce && key in s.flights then SetPhase(s, c, Waiting(s.flights[key]))
      else
        var t := SetPhase(s, c, Waiting(|s.fetches|));
        t.(fetches := s.fetches + [Fetch(key, None)],
           flights := if coalesce then s.flights[key := |s.fetches|] else s.flights)
    case Reply(f, answer) =>
      var key := s.fetches[f].key;
      s.(fetches := s.fetches[f := Fetch(key, Some(answer))],
         flights := if key in s.flights && s.flights[key] == f then s.flights - {key} else s.flights)
    case Finish(c) =>
      var call, f := s.calls[c], s.calls[c].phase.fetch;
      var answer := s.fetches[f].answer.value;
      if answer.Refused? then SetPhase(s, c, Failed)
      else
        SetPhase(s, c, Stored(f)).(entries := StoreIn(s.entries, call.key, answer.tools, call.now, call.ttl),
                                   origins := s.origins[call.key := Origin(c, f)])
    case Invalidate(id) => s.(entries := InvalidateIn(s.entries, id))
  }

  const INIT := State(0, map[], map[], [], [], map[])

  /** The events can happen one after the other. */
  predicate Runs(s: State, events: seq<Event>)
    decreases |events|
  {
    events == [] || (Enabled(s, events[0]) && Runs(Apply(s, events[0]), events[1..]))
  }

  function After(s: State, events: seq<Event>): State
    requires Runs(s, events)
    decreases |events|
  {
    if events == [] then s else After(Apply(s, events[0]), events[1..])
  }

  lemma {:induction false} RunsOn(s: State, a: seq<Event>, b: seq<Event>)
    requires Runs(s, a) && Runs(After(s, a), b)
    ensures Runs(s, a + b) && After(s, a + b) == After(After(s, a), b)
    decreases |a|
  {
    if a == [] {
      assert a + b == b;
    } else {
      RunsOn(Apply(s, a[0]), a[1..], b);
      assert (a + b)[1..] == a[1..] + b;
    }
  }

  // ---------- safety ----------

  /** The list came from a fetch for this very key, stored by a call for it that had not expired at that time. */
  predicate Sourced(s: State, key: Key, tools: seq<Tool>, o: Origin) {
    && o.fetch < |s.fetches| && s.fetches[o.fetch] == Fetch(key, Some(Fetched(tools)))
    && o.call < |s.calls| && s.calls[o.call].key == key
  }

  ghost predicate OneFingerprint(m: Entries) {
    forall k1, k2 :: k1 in m && k2 in m && k1.id == k2.id ==> k1 == k2
  }

  predicate EntryOk(s: State, k: Key)
    requires k in s.entries
  {
    k in s.origins && Sourced(s, k, s.entries[k].tools, s.origins[k]) &&
    s.entries[k].until == s.calls[s.origins[k].call].now + s.calls[s.origins[k].call].ttl
  }

  predicate CallOk(s: State, c: Call) {
    match c.phase
    case Waiting(f) => f < |s.fetches| && s.fetches[f].key == c.key
    case Hit(tools, o) => Sourced(s, c.key, tools, o) && c.now < s.calls[o.call].now + s.calls[o.call].ttl
    case _ => true
  }

  /** A fetch that others may join is unanswered, and some call waits for it. */
  predicate FlightOk(s: State, k: Key)
    requires k in s.flights
  {
    s.flights[k] < |s.fetches| && s.fetches[s.flights[k]] == Fetch(k, None) &&
    exists c :: 0 <= c < |s.calls| && WaitsFor(s.calls[c], k, s.flights[k])
  }

  predicate WaitsFor(c: Call, k: Key, f: nat) {
    c.key == k && c.phase == Waiting(f)
  }

  ghost predicate Inv(s: State) {
    && OneFingerprint(s.entries)
    && (forall k :: k in s.entries ==> EntryOk(s, k))
    && (forall c :: 0 <= c < |s.calls| ==> CallOk(s, s.calls[c]))
    && (forall k :: k in s.flights ==> FlightOk(s, k))
  }

  /** Calls keep their key and times, and answered fetches their answer. */
  ghost predicate Grows(s: State, t: State) {
    && |s.calls| <= |t.calls| && |s.fetches| <= |t.fetches|
    && (forall c :: 0 <= c < |s.calls| ==> t.calls[c] == s.calls[c].(phase := t.calls[c].phase))
    && (forall f :: 0 <= f < |s.fetches| ==> t.fetches[f].key == s.fetches[f].key)
    && (forall f :: 0 <= f < |s.fetches| && s.fetches[f].answer.Some? ==> t.fetches[f] == s.fetches[f])
  }

  lemma StepGrows(s: State, e: Event)
    requires Enabled(s, e)
    ensures Grows(s, Apply(s, e))
  {
  }

  lemma GrownCallOk(s: State, t: State, c: Call)
    requires Grows(s, t) && CallOk(s, c)
    ensures CallOk(t, c)
  {
  }

  lemma GrownEntryOk(s: State, t: State, k: Key)
    requires Grows(s, t) && k in s.entries && EntryOk(s, k)
    requires k in t.entries && t.entries[k] == s.entries[k] && k in t.origins && t.origins[k] == s.origins[k]
    ensures EntryOk(t, k)
  {
  }

  /** An entry the step has not just stored is one that was there before. */
  predicate IsKept(s: State, t: State, k: Key)
    requires k in t.entries
  {
    && k in s.entries && t.entries[k] == s.entries[k]
    && (k in s.origins ==> k in t.origins && t.origins[k] == s.origins[k])
  }

  lemma EntryIsKept(s: State, e: Event, k: Key)
    requires Enabled(s, e) && k in Apply(s, e).entries && !(e.Finish? && k == s.calls[e.c].key)
    ensures IsKept(s, Apply(s, e), k)
  {
  }

  /** What storing leaves behind, unless the fetch was refused. */
  lemma FinishStores(s: State, c: nat)
    requires Enabled(s, Finish(c)) && s.fetches[s.calls[c].phase.fetch].answer != Some(Refused)
    ensures var t, k := Apply(s, Finish(c)), s.calls[c].key;
            && k in t.entries
            && t.entries[k] == Entry(s.fetches[s.calls[c].phase.fetch].answer.value.tools, UntilOf(s, c))
            && k in t.origins && t.origins[k] == Origin(c, s.calls[c].phase.fetch)
  {
  }

  lemma StoredEntryOk(s: State, c: nat)
    requires Enabled(s, Finish(c)) && CallOk(s, s.calls[c])
    requires s.fetches[s.calls[c].phase.fetch].answer != Some(Refused)
    ensures var t := Apply(s, Finish(c)); s.calls[c].key in t.entries && EntryOk(t, s.calls[c].key)
  {
    FinishStores(s, c);
    StepGrows(s, Finish(c));
  }

  function UntilOf(s: State, c: nat): int
    requires c < |s.calls|
  {
    s.calls[c].now + s.calls[c].ttl
  }

  // ---------- what stays ----------

  /** The step may take the entry of key k away: its server is invalidated, or a call stores a list that is for its
      server, or began when the entry had run out. */
  predicate Disturbs(s: State, e: Event, k: Key)
    requires Enabled(s, e) && k in s.entries
  {
    match e
    case Invalidate(id) => id == k.id
    case Finish(c) => s.calls[c].key.id == k.id || s.entries[k].until <= s.calls[c].now
    case _ => false
  }

  /** Every other step leaves the entry and its origin as they are. */
  lemma EntryStays(s: State, e: Event, k: Key)
    requires Enabled(s, e) && k in s.entries && !Disturbs(s, e, k)
    ensures var t := Apply(s, e); k in t.entries && t.entries[k] == s.entries[k]
    ensures var t := Apply(s, e); k in s.origins ==> k in t.origins && t.origins[k] == s.origins[k]
  {
  }

  /** After a call has stored a list for its key, it is the only entry of its server, and the rest are those of before
      that had not run out when the call began. */
  lemma StoredExactly(s: State, c: nat, k: Key)
    requires Enabled(s, Finish(c)) && s.fetches[s.calls[c].phase.fetch].answer != Some(Refused)
    ensures var t, call := Apply(s, Finish(c)), s.calls[c];
            && (k in t.entries <==>
                  k == call.key || (k in s.entries && k.id != call.key.id && call.now < s.entries[k].until))
            && (k in t.entries && k != call.key ==> t.entries[k] == s.entries[k])
            && (k == call.key ==> t.entries[k] == Entry(s.fetches[call.phase.fetch].answer.value.tools, UntilOf(s, c)))
  {
  }

  /** None of the events takes the entry of key k away. */
  predicate Undisturbed(s: State, events: seq<Event>, k: Key)
    requires Runs(s, events)
    decreases |events|
  {
    events == [] || (k in s.entries && !Disturbs(s, events[0], k) && Undisturbed(Apply(s, events[0]), events[1..], k))
  }

  lemma {:induction false} EntryStaysOn(s: State, events: seq<Event>, k: Key)
    requires Runs(s, events) && k in s.entries && Undisturbed(s, events, k)
    ensures var t := After(s, events);
            && k in t.entries && t.entries[k] == s.entries[k]
            && (k in s.origins ==> k in t.origins && t.origins[k] == s.origins[k])
    decreases |events|
  {
    if events != [] {
      EntryStays(s, events[0], k);
      EntryStaysOn(Apply(s, events[0]), events[1..], k);
    }
  }

  /** A call that looks for a listed key hits, and gets the list, until the entry runs out or is taken away. */
  lemma LaterLookupHits(s: State, events: seq<Event>, k: Key, c: nat)
    requires Inv(s) && Runs(s, events) && k in s.entries && Undisturbed(s, events, k)
    requires var t := After(s, events);
             Enabled(t, Lookup(c)) && t.calls[c].key == k && t.calls[c].now < s.entries[k].until
    ensures var t := Apply(After(s, events), Lookup(c)); t.calls[c].phase == Hit(s.entries[k].tools, s.origins[k])
  {
    assert EntryOk(s, k);
    EntryStaysOn(s, events, k);
  }

  /** A call misses exactly if there is no entry for its key, or it began when that had run out. */
  lemma LookupMisses(s: State, c: nat)
    requires Inv(s) && Enabled(s, Lookup(c))
    ensures var k := s.calls[c].key;
            Apply(s, Lookup(c)).calls[c].phase == Missed <==> k !in s.entries || s.entries[k].until <= s.calls[c].now
  {
    if s.calls[c].key in s.entries { assert EntryOk(s, s.calls[c].key); }
  }

  /** A refused fetch stores nothing. */
  predicate StoresNothing(s: State, e: Event)
    requires Enabled(s, e)
  {
    e.Finish? ==> s.fetches[s.calls[e.c].phase.fetch].answer == Some(Refused)
  }

  lemma NothingStored(s: State, e: Event, k: Key)
    requires Enabled(s, e) && StoresNothing(s, e) && k in Apply(s, e).entries
    ensures IsKept(s, Apply(s, e), k)
  {
  }

  lemma StepKeepsEntries(s: State, e: Event)
    requires Enabled(s, e) && Inv(s)
    ensures var t := Apply(s, e); forall k :: k in t.entries ==> EntryOk(t, k)
  {
    var t := Apply(s, e);
    StepGrows(s, e);
    forall k | k in t.entries ensures EntryOk(t, k) {
      if StoresNothing(s, e) {
        NothingStored(s, e, k);
        GrownEntryOk(s, t, k);
      } else if k == s.calls[e.c].key {
        StoredEntryOk(s, e.c);
      } else {
        EntryIsKept(s, e, k);
        GrownEntryOk(s, t, k);
      }
    }
  }

  lemma StepKeepsOneFingerprint(s: State, e: Event)
    requires Enabled(s, e) && OneFingerprint(s.entries)
    ensures OneFingerprint(Apply(s, e).entries)
  {
  }

  lemma LookupKeepsCall(s: State, c: nat)
    requires Enabled(s, Lookup(c)) && Inv(s)
    ensures var t := Apply(s, Lookup(c)); CallOk(t, t.calls[c])
  {
    if s.calls[c].key in s.entries { assert EntryOk(s, s.calls[c].key); }
  }

  lemma RequestKeepsCall(s: State, c: nat, coalesce: bool)
    requires Enabled(s, Request(c, coalesce)) && Inv(s)
    ensures var t := Apply(s, Request(c, coalesce)); CallOk(t, t.calls[c])
  {
    if s.calls[c].key in s.flights { assert FlightOk(s, s.calls[c].key); }
  }

  lemma StepKeepsCalls(s: State, e: Event)
    requires Enabled(s, e) && Inv(s)
    ensures var t := Apply(s, e); forall c :: 0 <= c < |t.calls| ==> CallOk(t, t.calls[c])
  {
    var t := Apply(s, e);
    StepGrows(s, e);
    forall c | 0 <= c < |t.calls| ensures CallOk(t, t.calls[c]) {
      if c < |s.calls| && t.calls[c] == s.calls[c] {
        GrownCallOk(s, t, s.calls[c]);
      } else if e.Lookup? {
        LookupKeepsCall(s, c);
      } else if e.Request? {
        RequestKeepsCall(s, c, e.coalesce);
      }
    }
  }

  lemma KeptFlightOk(s: State, e: Event, k: Key)
    requires Enabled(s, e) && k in s.flights && FlightOk(s, k)
    requires k in Apply(s, e).flights && Apply(s, e).flights[k] == s.flights[k]
    ensures FlightOk(Apply(s, e), k)
  {
    var t := Apply(s, e);
    var c :| 0 <= c < |s.calls| && WaitsFor(s.calls[c], k, s.flights[k]);
    assert t.calls[c] == s.calls[c];
    assert WaitsFor(t.calls[c], k, t.flights[k]);
  }

  lemma NewFlightOk(s: State, c: nat)
    requires Enabled(s, Request(c, true)) && s.calls[c].key !in s.flights
    ensures var t, k := Apply(s, Request(c, true)), s.calls[c].key; k in t.flights && FlightOk(t, k)
  {
    var t, k := Apply(s, Request(c, true)), s.calls[c].key;
    assert WaitsFor(t.calls[c], k, t.flights[k]);
  }

  lemma FlightIsKept(s: State, e: Event, k: Key)
    requires Enabled(s, e) && k in Apply(s, e).flights
    ensures if e.Request? && e.coalesce && s.calls[e.c].key == k && k !in s.flights
            then Apply(s, e).flights[k] == |s.fetches|
            else k in s.flights && Apply(s, e).flights[k] == s.flights[k]
  {
  }

  lemma StepKeepsFlights(s: State, e: Event)
    requires Enabled(s, e) && Inv(s)
    ensures var t := Apply(s, e); forall k :: k in t.flights ==> FlightOk(t, k)
  {
    var t := Apply(s, e);
    forall k | k in t.flights ensures FlightOk(t, k) {
      FlightIsKept(s, e, k);
      if k in s.flights { KeptFlightOk(s, e, k); } else { NewFlightOk(s, e.c); }
    }
  }

  lemma StepKeepsInv(s: State, e: Event)
    requires Enabled(s, e) && Inv(s)
    ensures Inv(Apply(s, e))
  {
    StepKeepsOneFingerprint(s, e);
    StepKeepsEntries(s, e);
    StepKeepsCalls(s, e);
    StepKeepsFlights(s, e);
  }

  lemma {:induction false} InvAfter(s: State, events: seq<Event>)
    requires Inv(s) && Runs(s, events)
    ensures Inv(After(s, events))
    decreases |events|
  {
    if events != [] {
      StepKeepsInv(s, events[0]);
      InvAfter(Apply(s, events[0]), events[1..]);
    }
  }

  /** In every interleaving: one fingerprint per server, and every hit returns what a fetch for the same server and
      fingerprint delivered, stored by a call that began less than its ttl before the hit began. */
  lemma EveryStateIsSafe(events: seq<Event>)
    requires Runs(INIT, events)
    ensures Inv(After(INIT, events))
  {
    InvAfter(INIT, events);
  }

  // ---------- coalescing ----------

  /** Every request that coming calls make is coalesced. */
  predicate Coalesces(e: Event) {
    e.Request? ==> e.coalesce
  }

  /** An unanswered fetch is the flight of its key. */
  predicate IsFlying(s: State, f: nat)
    requires f < |s.fetches|
  {
    s.fetches[f].answer == None ==> s.fetches[f].key in s.flights && s.flights[s.fetches[f].key] == f
  }

  ghost predicate AllFlying(s: State) {
    forall f: nat :: f < |s.fetches| ==> IsFlying(s, f)
  }

  lemma StepKeepsFlying(s: State, e: Event)
    requires Enabled(s, e) && Inv(s) && AllFlying(s) && Coalesces(e)
    ensures AllFlying(Apply(s, e))
  {
    var t := Apply(s, e);
    forall f: nat | f < |t.fetches| ensures IsFlying(t, f) {
      if f < |s.fetches| {
        assert IsFlying(s, f);
        if e.Reply? { assert IsFlying(s, e.f); }
      }
    }
  }

  lemma {:induction false} RunKeepsFlying(s: State, events: seq<Event>)
    requires Runs(s, events) && Inv(s) && AllFlying(s) && forall e :: e in events ==> Coalesces(e)
    ensures AllFlying(After(s, events))
    decreases |events|
  {
    if events != [] {
      assert events[0] in events;
      StepKeepsFlying(s, events[0]);
      StepKeepsInv(s, events[0]);
      RunKeepsFlying(Apply(s, events[0]), events[1..]);
    }
  }

  /** If all requests are coalesced, no two lists of one key are on their way at the same time. */
  lemma OneFetchAtATime(events: seq<Event>, f1: nat, f2: nat)
    requires Runs(INIT, events) && forall e :: e in events ==> Coalesces(e)
    requires var fetches := After(INIT, events).fetches;
             f1 < |fetches| && f2 < |fetches| && fetches[f1].key == fetches[f2].key
             && fetches[f1].answer == None && fetches[f2].answer == None
    ensures f1 == f2
  {
    RunKeepsFlying(INIT, events);
    assert IsFlying(After(INIT, events), f1) && IsFlying(After(INIT, events), f2);
  }

  /** A coalesced request issues a fetch exactly if none is on its way, and its call waits for it either way. */
  lemma RequestJoins(s: State, c: nat)
    requires Enabled(s, Request(c, true))
    ensures var t, k := Apply(s, Request(c, true)), s.calls[c].key;
            && k in t.flights && t.calls[c].phase == Waiting(t.flights[k])
            && (k in s.flights ==> t.fetches == s.fetches && t.flights == s.flights)
            && (k !in s.flights ==> t.fetches == s.fetches + [Fetch(k, None)] && t.flights[k] == |s.fetches|)
  {
  }
}
