/** The round machine of internal/usecase/chat_tool_loop.go and what its output looks like to the tool-chain UI. */
module ToolLoop {
  import opened Strings
  import opened Domain
  import opened ToolChain
  import Decimal

  const DEFAULT_TOOL_LOOP_ROUNDS := 12
  const MAX_TOOL_LOOP_ROUNDS_CAP := 128

  /** One parsed row of the model's tool blob. */
  datatype Row = Row(toolName: string, parameters: string)

  /** A row whose tool name was resolved against the declared tools. */
  datatype Call = Call(requested: string, resolved: string, parameters: string)

  /** One entry of the OpenAI tool_calls array. */
  datatype Item = Item(id: string, name: string, arguments: string)

  function CallId(i: nat): string {
    "call_" + Decimal.Itoa(i + 1)
  }

  /** Within a round the ids tell the calls apart. */
  lemma CallIdsDiffer(i: nat, j: nat)
    requires CallId(i) == CallId(j)
    ensures i == j
  {
    assert CallId(i)[5..] == Decimal.Itoa(i + 1) && CallId(j)[5..] == Decimal.Itoa(j + 1);
    Decimal.AtoiItoa(i + 1);
    Decimal.AtoiItoa(j + 1);
  }

  /** The rounds allowed, given the hint of the runner registry (0 or less means none). */
  function MaxToolInvocationRounds(hint: int): (n: nat)
    ensures 1 <= n <= MAX_TOOL_LOOP_ROUNDS_CAP
    ensures 1 <= hint <= MAX_TOOL_LOOP_ROUNDS_CAP ==> n == hint
  {
    var n := if hint > 0 then hint else DEFAULT_TOOL_LOOP_ROUNDS;
    if n > MAX_TOOL_LOOP_ROUNDS_CAP then MAX_TOOL_LOOP_ROUNDS_CAP else n
  }

  /** at lists, in order, exactly the places of the rows that call a real tool. */
  ghost predicate ArePlaces(rows: seq<Row>, at: seq<nat>, isDirectAnswer: string -> bool) {
    && (forall k :: 0 <= k < |at| ==> at[k] < |rows| && !isDirectAnswer(rows[at[k]].toolName))
    && (forall j, k :: 0 <= j < k < |at| ==> at[j] < at[k])
    && (forall i :: 0 <= i < |rows| && !isDirectAnswer(rows[i].toolName) ==> i in at)
  }

  predicate StandAt(rows: seq<Row>, at: seq<nat>, out: seq<Row>) {
    |out| == |at| && forall k :: 0 <= k < |at| ==> at[k] < |rows| && out[k] == rows[at[k]]
  }

  /** The rows that call a real tool, all of them and in order. */
  ghost predicate AreExecutable(rows: seq<Row>, out: seq<Row>, isDirectAnswer: string -> bool) {
    exists at :: ArePlaces(rows, at, isDirectAnswer) && StandAt(rows, at, out)
  }

  method FilterExecutableToolRows(rows: seq<Row>, isDirectAnswer: string -> bool) returns (out: seq<Row>)
    ensures AreExecutable(rows, out, isDirectAnswer)
  {
    out := [];
    ghost var at: seq<nat> := [];
    for i := 0 to |rows|
      invariant forall k :: 0 <= k < |at| ==> at[k] < i && !isDirectAnswer(rows[at[k]].toolName)
      invariant forall j, k :: 0 <= j < k < |at| ==> at[j] < at[k]
      invariant forall j :: 0 <= j < i && !isDirectAnswer(rows[j].toolName) ==> j in at
      invariant |out| == |at| && forall k :: 0 <= k < |at| ==> out[k] == rows[at[k]]
    {
      if !isDirectAnswer(rows[i].toolName) { out, at := out + [rows[i]], at + [i]; }
    }
    assert ArePlaces(rows, at, isDirectAnswer) && StandAt(rows, at, out);
  }

  /** There is only one such list. */
  lemma {:induction false} PlacesUnique(rows: seq<Row>, at: seq<nat>, at': seq<nat>, isDirectAnswer: string -> bool)
    requires ArePlaces(rows, at, isDirectAnswer) && ArePlaces(rows, at', isDirectAnswer)
    ensures at == at'
    decreases |rows|
  {
    if at != [] || at' != [] {
      var n := |rows| - 1;
      assert rows != [] by {
        var some := if at != [] then at else at';
        assert ArePlaces(rows, some, isDirectAnswer) && some[0] < |rows|;
      }
      if isDirectAnswer(rows[n].toolName) {
        PlacesBefore(rows, at, isDirectAnswer);
        PlacesBefore(rows, at', isDirectAnswer);
        PlacesUnique(rows[..n], at, at', isDirectAnswer);
      } else {
        PlacesBeforeLast(rows, at, isDirectAnswer);
        PlacesBeforeLast(rows, at', isDirectAnswer);
        PlacesUnique(rows[..n], at[..|at| - 1], at'[..|at'| - 1], isDirectAnswer);
      }
    }
  }

  /** Without a last row that is a direct answer the places stay. */
  lemma PlacesBefore(rows: seq<Row>, at: seq<nat>, isDirectAnswer: string -> bool)
    requires rows != [] && ArePlaces(rows, at, isDirectAnswer) && isDirectAnswer(rows[|rows| - 1].toolName)
    ensures ArePlaces(rows[..|rows| - 1], at, isDirectAnswer)
  {
    assert forall k :: 0 <= k < |at| ==> at[k] != |rows| - 1;
  }

  /** A last row that calls a real tool has the last place. */
  lemma LastPlace(rows: seq<Row>, at: seq<nat>, isDirectAnswer: string -> bool)
    requires rows != [] && ArePlaces(rows, at, isDirectAnswer) && !isDirectAnswer(rows[|rows| - 1].toolName)
    ensures at != [] && at[|at| - 1] == |rows| - 1
    ensures forall j :: 0 <= j < |at| - 1 ==> at[j] < |rows| - 1
  {
    var n, m := |rows| - 1, |at| - 1;
    assert n in at && at[m] < |rows|;
    forall j | 0 <= j < m ensures at[j] < n {
      assert at[j] < at[m];
    }
  }

  lemma PlacesBeforeLast(rows: seq<Row>, at: seq<nat>, isDirectAnswer: string -> bool)
    requires rows != [] && ArePlaces(rows, at, isDirectAnswer) && !isDirectAnswer(rows[|rows| - 1].toolName)
    ensures at != [] && at == at[..|at| - 1] + [|rows| - 1]
    ensures ArePlaces(rows[..|rows| - 1], at[..|at| - 1], isDirectAnswer)
  {
    LastPlace(rows, at, isDirectAnswer);
    var n, m := |rows| - 1, |at| - 1;
    forall i | 0 <= i < n && !isDirectAnswer(rows[i].toolName) ensures i in at[..m] {
      assert i in at;
    }
  }

  predicate Resolves(row: Row, call: Call, resolve: string -> Option<string>) {
    resolve(row.toolName) == Some(call.resolved) && call.requested == row.toolName && call.parameters == row.parameters
  }

  predicate AreResolved(rows: seq<Row>, calls: seq<Call>, resolve: string -> Option<string>) {
    |calls| == |rows| && forall i :: 0 <= i < |rows| ==> Resolves(rows[i], calls[i], resolve)
  }

  predicate SomeUnresolved(rows: seq<Row>, resolve: string -> Option<string>) {
    exists i :: 0 <= i < |rows| && resolve(rows[i].toolName).None?
  }

  /** None when some row names no declared tool. */
  method ResolveExecutableToolCalls(rows: seq<Row>, resolve: string -> Option<string>) returns (r: Option<seq<Call>>)
    ensures r.None? <==> SomeUnresolved(rows, resolve)
    ensures r.Some? ==> AreResolved(rows, r.value, resolve)
  {
    var out: seq<Call> := [];
    for i := 0 to |rows|
      invariant |out| == i && forall j :: 0 <= j < i ==> Resolves(rows[j], out[j], resolve)
    {
      var resolved := resolve(rows[i].toolName);
      if resolved.None? { return None; }
      out := out + [Call(rows[i].toolName, resolved.value, rows[i].parameters)];
    }
    return Some(out);
  }

  /** The stored arguments: the parameters without the white space around them, or an empty object for blank ones. */
  predicate AreArguments(arguments: string, parameters: string) {
    if All(parameters, IsSpace) then arguments == "{}" else arguments == TrimSpace(parameters)
  }

  /** Item i carries the i-th id and the resolved name and arguments of call i. */
  predicate AreItems(items: seq<Item>, calls: seq<Call>) {
    && |items| == |calls|
    && (forall i :: 0 <= i < |calls| ==> items[i].id == CallId(i) && items[i].name == calls[i].resolved)
    && (forall i :: 0 <= i < |calls| ==> AreArguments(items[i].arguments, calls[i].parameters))
  }

  method ToolCallItems(calls: seq<Call>) returns (items: seq<Item>)
    ensures AreItems(items, calls)
  {
    items := [];
    for i := 0 to |calls|
      invariant |items| == i
      invariant forall j :: 0 <= j < i ==> items[j].id == CallId(j) && items[j].name == calls[j].resolved
      invariant forall j :: 0 <= j < i ==> AreArguments(items[j].arguments, calls[j].parameters)
    {
      var args := TrimSpace(calls[i].parameters);
      BlankIff(calls[i].parameters);
      if args == "" { args := "{}"; }
      items := items + [Item(CallId(i), calls[i].resolved, args)];
    }
  }

  // ---------- persisted messages ----------

  /** json.Marshal of an item list starts its text with a bracket. */
  ghost predicate MarshalsArrays(marshal: seq<Item> -> string) {
    forall items :: marshal(items) != [] && (marshal(items))[0] == '['
  }

  /** One assistant message that calls k >= 1 tools, then the k results, each under the id and name of its call. */
  ghost predicate IsRound(ms: seq<Message>, marshal: seq<Item> -> string) {
    && |ms| >= 2
    && ms[0].role == Assistant
    && exists items: seq<Item> :: ms[0].toolCallsJSON == marshal(items) && AnswersItems(ms, items)
  }

  ghost predicate AnswersItems(ms: seq<Message>, items: seq<Item>) {
    && |items| + 1 == |ms|
    && forall i :: 0 <= i < |items| ==>
      && items[i].id == CallId(i)
      && ms[i + 1].role == Tool && ms[i + 1].toolCallID == items[i].id && ms[i + 1].toolName == items[i].name
  }

  predicate IsPlain(m: Message) {
    m.role == Assistant && m.toolCallsJSON == ""
  }

  ghost predicate AreRounds(rounds: seq<seq<Message>>, marshal: seq<Item> -> string) {
    forall i :: 0 <= i < |rounds| ==> IsRound(rounds[i], marshal)
  }

  function Flat(rounds: seq<seq<Message>>): seq<Message> {
    if rounds == [] then [] else rounds[0] + Flat(rounds[1..])
  }

  lemma {:induction false} FlatAppend(rounds: seq<seq<Message>>, r: seq<Message>)
    ensures Flat(rounds + [r]) == Flat(rounds) + r
  {
    if rounds == [] {
      assert (rounds + [r])[1..] == [];
    } else {
      FlatAppend(rounds[1..], r);
      assert (rounds + [r])[1..] == rounds[1..] + [r];
      Assoc(rounds[0], Flat(rounds[1..]), r);
    }
  }

  function ToolMessages(calls: seq<Call>, results: seq<string>): seq<Message>
    requires |results| == |calls|
  {
    seq(|calls|, i requires 0 <= i < |calls| =>
      NewMessage(Tool, results[i]).(toolName := calls[i].resolved, toolCallID := CallId(i)))
  }

  // ---------- what a run answers to ----------

  /** What one request to the model comes to: no reply, or a text with the rows of its tool blob ([] when there is no
      blob, or one that does not parse). */
  datatype Reply = Failed | Reply(raw: string, rows: seq<Row>)

  /** What surrounds a run: the replies round by round, result(r, i) for what call i of round r comes to, be it the
      tool's output or its error put into words, and the functions the loop calls. */
  datatype World = World(replies: nat -> Reply, result: (nat, nat) -> string, marshal: seq<Item> -> string,
                         isDirectAnswer: string -> bool, answerText: string -> string,
                         resolve: string -> Option<string>)

  /** The text a reply leaves once trimmed is not empty. */
  predicate Speaks(reply: Reply) {
    reply.Reply? && !All(reply.raw, IsSpace)
  }

  /** A spoken reply that calls no real tool. */
  predicate IsAnswer(reply: Reply, w: World) {
    Speaks(reply) && forall i :: 0 <= i < |reply.rows| ==> w.isDirectAnswer(reply.rows[i].toolName)
  }

  /** The one direct answer in the reply, if it has a text; the reply itself otherwise. */
  predicate IsAnswerText(text: string, reply: Reply, w: World)
    requires reply.Reply?
  {
    if |reply.rows| == 1 && w.answerText(reply.rows[0].parameters) != ""
    then text == w.answerText(reply.rows[0].parameters)
    else text == TrimSpace(reply.raw)
  }

  predicate IsAnswerStored(tail: seq<Message>, reply: Reply, w: World)
    requires reply.Reply?
  {
    |tail| == 1 && IsAnswerText(tail[0].content, reply, w) && tail[0] == NewMessage(Assistant, tail[0].content)
  }

  predicate IsUndeclared(row: Row, w: World) {
    !w.isDirectAnswer(row.toolName) && w.resolve(row.toolName).None?
  }

  /** Some row calls a real tool that is not declared. */
  predicate NamesUndeclared(reply: Reply, w: World)
    requires reply.Reply?
  {
    exists i :: 0 <= i < |reply.rows| && IsUndeclared(reply.rows[i], w)
  }

  predicate IsItemOf(item: Item, i: nat, row: Row, w: World) {
    && item.id == CallId(i)
    && w.resolve(row.toolName) == Some(item.name)
    && AreArguments(item.arguments, row.parameters)
  }

  /** items are the calls of the rows at the given places. */
  predicate AreItemsOf(items: seq<Item>, at: seq<nat>, rows: seq<Row>, w: World) {
    |items| == |at| && forall i :: 0 <= i < |at| ==> at[i] < |rows| && IsItemOf(items[i], i, rows[at[i]], w)
  }

  /** Round r as it is stored: the trimmed reply with its calls, then the result of each call, in order. */
  predicate Stores(ms: seq<Message>, r: nat, items: seq<Item>, w: World)
    requires w.replies(r).Reply?
  {
    && |ms| == |items| + 1
    && ms[0] == NewMessage(Assistant, TrimSpace(w.replies(r).raw)).(toolCallsJSON := w.marshal(items))
    && forall i :: 0 <= i < |items| ==>
         ms[i + 1] == NewMessage(Tool, w.result(r, i)).(toolName := items[i].name, toolCallID := items[i].id)
  }

  /** ms stores what reply r calls: every row of a real tool, and at least one. */
  ghost predicate IsRoundOf(ms: seq<Message>, r: nat, w: World) {
    var reply := w.replies(r);
    Speaks(reply) && exists at: seq<nat>, items: seq<Item> :: IsRoundWith(ms, r, at, items, w)
  }

  ghost predicate IsRoundWith(ms: seq<Message>, r: nat, at: seq<nat>, items: seq<Item>, w: World)
    requires w.replies(r).Reply?
  {
    var rows := w.replies(r).rows;
    ArePlaces(rows, at, w.isDirectAnswer) && at != [] && AreItemsOf(items, at, rows, w) && Stores(ms, r, items, w)
  }

  ghost predicate AreRoundsOf(rounds: seq<seq<Message>>, w: World) {
    forall r :: 0 <= r < |rounds| ==> IsRoundOf(rounds[r], r, w)
  }

  /** Why a run ends. */
  datatype Ending = Capped | Unanswered | Silent | Answered | Undeclared | NotStored

  /** After its rounds the run ends for this reason, with this tail. */
  ghost predicate EndsFor(ending: Ending, rounds: nat, cap: nat, tail: seq<Message>, w: World) {
    var reply := w.replies(rounds);
    && rounds <= cap && (ending.Capped? <==> rounds == cap)
    && (ending.Unanswered? ==> reply.Failed?)
    && (ending.Silent? ==> reply.Reply? && !Speaks(reply))
    && (ending.Undeclared? ==> Speaks(reply) && NamesUndeclared(reply, w))
    && (ending.NotStored? ==> Speaks(reply) && !NamesUndeclared(reply, w))
    && if ending.Answered?
       then IsAnswer(reply, w) && IsAnswerStored(tail, reply, w)
       else tail == []
  }

  /** A reply determines the round stored for it. */
  lemma RoundUnique(ms: seq<Message>, ms': seq<Message>, r: nat, w: World)
    requires IsRoundOf(ms, r, w) && IsRoundOf(ms', r, w)
    ensures ms == ms'
  {
    var reply := w.replies(r);
    var at: seq<nat>, items: seq<Item> :| IsRoundWith(ms, r, at, items, w);
    var at': seq<nat>, items': seq<Item> :| IsRoundWith(ms', r, at', items', w);
    PlacesUnique(reply.rows, at, at', w.isDirectAnswer);
    ItemsUnique(items, items', at, reply.rows, w);
    StoredUnique(ms, ms', r, items, w);
  }

  lemma StoredUnique(ms: seq<Message>, ms': seq<Message>, r: nat, items: seq<Item>, w: World)
    requires w.replies(r).Reply? && Stores(ms, r, items, w) && Stores(ms', r, items, w)
    ensures ms == ms'
  {
    forall k | 0 <= k < |ms| ensures ms[k] == ms'[k] {
      if k > 0 {
        var i, item := k - 1, items[k - 1];
        assert ms[i + 1] == NewMessage(Tool, w.result(r, i)).(toolName := item.name, toolCallID := item.id);
      }
    }
  }

  lemma ItemsUnique(items: seq<Item>, items': seq<Item>, at: seq<nat>, rows: seq<Row>, w: World)
    requires AreItemsOf(items, at, rows, w) && AreItemsOf(items', at, rows, w)
    ensures items == items'
  {
    forall i | 0 <= i < |at| ensures items[i] == items'[i] {
      assert IsItemOf(items[i], i, rows[at[i]], w) && IsItemOf(items'[i], i, rows[at[i]], w);
    }
  }

  /** Only a storage failure leaves anything open: two runs in the same world without one store the same. */
  lemma RunUnique(rounds: seq<seq<Message>>, tail: seq<Message>, ending: Ending, rounds': seq<seq<Message>>,
                  tail': seq<Message>, ending': Ending, cap: nat, w: World)
    requires AreRoundsOf(rounds, w) && EndsFor(ending, |rounds|, cap, tail, w) && ending != NotStored
    requires AreRoundsOf(rounds', w) && EndsFor(ending', |rounds'|, cap, tail', w) && ending' != NotStored
    ensures rounds == rounds' && tail == tail' && ending == ending'
  {
    if |rounds| < |rounds'| {
      NoRoundBehind(rounds', |rounds|, ending, tail, cap, w);
    } else if |rounds'| < |rounds| {
      NoRoundBehind(rounds, |rounds'|, ending', tail', cap, w);
    }
    forall r | 0 <= r < |rounds| && |rounds| == |rounds'| ensures rounds[r] == rounds'[r] {
      RoundUnique(rounds[r], rounds'[r], r, w);
    }
    assert ending == ending';
  }

  /** A run does not end where a reply makes a round. */
  lemma NoRoundBehind(rounds: seq<seq<Message>>, n: nat, ending: Ending, tail: seq<Message>, cap: nat, w: World)
    requires AreRoundsOf(rounds, w) && n < |rounds| <= cap
    ensures EndsFor(ending, n, cap, tail, w) ==> ending == NotStored
  {
    var reply := w.replies(n);
    assert IsRoundOf(rounds[n], n, w);
    var at: seq<nat>, items: seq<Item> :| IsRoundWith(rounds[n], n, at, items, w);
    assert !w.isDirectAnswer(reply.rows[at[0]].toolName);
    forall i | 0 <= i < |reply.rows| && !w.isDirectAnswer(reply.rows[i].toolName)
      ensures !IsUndeclared(reply.rows[i], w) {
      var k :| 0 <= k < |at| && at[k] == i;
      assert IsItemOf(items[k], k, reply.rows[at[k]], w);
    }
  }

  /** Such rounds are what the tool-chain UI looks for. */
  lemma RoundsOfAreRounds(rounds: seq<seq<Message>>, w: World)
    requires AreRoundsOf(rounds, w)
    ensures AreRounds(rounds, w.marshal)
  {
    forall r | 0 <= r < |rounds| ensures IsRound(rounds[r], w.marshal) {
      var reply := w.replies(r);
      assert IsRoundOf(rounds[r], r, w);
      var at: seq<nat>, items: seq<Item> :| IsRoundWith(rounds[r], r, at, items, w);
      forall i | 0 <= i < |items| ensures items[i].id == CallId(i) {
        assert IsItemOf(items[i], i, reply.rows[at[i]], w);
      }
      assert AnswersItems(rounds[r], items);
    }
  }

  /** The round just stored. */
  lemma RoundIsStored(r: nat, at: seq<nat>, execRows: seq<Row>, calls: seq<Call>, items: seq<Item>,
                      results: seq<string>, w: World) returns (ms: seq<Message>)
    requires Speaks(w.replies(r)) && ArePlaces(w.replies(r).rows, at, w.isDirectAnswer) && at != []
    requires StandAt(w.replies(r).rows, at, execRows) && AreResolved(execRows, calls, w.resolve)
    requires AreItems(items, calls) && AreResults(results, r, |calls|, w.result)
    ensures ms == [NewMessage(Assistant, TrimSpace(w.replies(r).raw)).(toolCallsJSON := w.marshal(items))]
                  + ToolMessages(calls, results)
    ensures IsRoundOf(ms, r, w)
  {
    var rows := w.replies(r).rows;
    ms := [NewMessage(Assistant, TrimSpace(w.replies(r).raw)).(toolCallsJSON := w.marshal(items))]
      + ToolMessages(calls, results);
    forall i | 0 <= i < |at| ensures IsItemOf(items[i], i, rows[at[i]], w) {
      assert Resolves(execRows[i], calls[i], w.resolve);
    }
    assert AreItemsOf(items, at, rows, w);
    assert IsRoundWith(ms, r, at, items, w);
  }

  /** What the rows of real tools say of a reply. */
  lemma RowsTell(reply: Reply, at: seq<nat>, execRows: seq<Row>, w: World)
    requires Speaks(reply) && ArePlaces(reply.rows, at, w.isDirectAnswer) && StandAt(reply.rows, at, execRows)
    ensures at == [] ==> IsAnswer(reply, w)
    ensures NamesUndeclared(reply, w) <==> SomeUnresolved(execRows, w.resolve)
  {
    if NamesUndeclared(reply, w) {
      var i :| 0 <= i < |reply.rows| && IsUndeclared(reply.rows[i], w);
      var k :| 0 <= k < |at| && at[k] == i;
      assert w.resolve(execRows[k].toolName).None?;
    }
    if k :| 0 <= k < |at| && w.resolve(execRows[k].toolName).None? {
      assert IsUndeclared(reply.rows[at[k]], w);
    }
  }

  class Repo {
    var messages: seq<Message>
    /** How often storing has failed. */
    ghost var faults: nat

    /** Creating a message may fail, and then changes nothing. */
    method Create(m: Message) returns (ok: bool)
      modifies this
      ensures messages == if ok then old(messages) + [m] else old(messages)
      ensures faults == if ok then old(faults) else old(faults) + 1
    {
      ok := *;
      if ok { messages := messages + [m]; } else { faults := faults + 1; }
    }

    /** The transaction of one round: every message is stored, or none is. */
    method CreateRound(assist: Message, toolMsgs: seq<Message>) returns (ok: bool)
      modifies this
      ensures messages == if ok then old(messages) + ([assist] + toolMsgs) else old(messages)
      ensures faults == if ok then old(faults) else old(faults) + 1
    {
      var saved := messages;
      ok := Create(assist);
      for i := 0 to |toolMsgs|
        invariant saved == old(messages)
        invariant ok ==> messages == saved + ([assist] + toolMsgs[..i])
        invariant faults == if ok then old(faults) else old(faults) + 1
      {
        if ok { ok := Create(toolMsgs[i]); }
      }
      assert toolMsgs[..|toolMsgs|] == toolMsgs;
      if !ok { messages := saved; }
    }
  }

  function Slots(n: nat): (s: set<nat>)
    ensures forall i: nat :: i in s <==> i < n
  {
    if n == 0 then {} else Slots(n - 1) + {n - 1}
  }

  /** Slot i holds the result of call i of round r. */
  predicate AreResults(results: seq<string>, r: nat, n: nat, result: (nat, nat) -> string) {
    |results| == n && forall i :: 0 <= i < n ==> results[i] == result(r, i)
  }

  /** The tools run concurrently: they end in any order, each writing to its own slot. */
  method RunTools(calls: seq<Call>, round: nat, result: (nat, nat) -> string) returns (results: array<string>)
    ensures fresh(results) && AreResults(results[..], round, |calls|, result)
  {
    results := new string[|calls|](_ => "");
    var pending := Slots(|calls|);
    while exists i :: i in pending
      invariant forall i :: i in pending ==> 0 <= i < results.Length
      invariant forall i :: 0 <= i < |calls| && i !in pending ==> results[i] == result(round, i)
      decreases |pending|
    {
      var i :| i in pending;
      results[i] := result(round, i);
      pending := pending - {i};
    }
  }

  lemma OneMoreRound(rounds: seq<seq<Message>>, ms: seq<Message>, w: World)
    requires AreRoundsOf(rounds, w) && IsRoundOf(ms, |rounds|, w)
    ensures AreRoundsOf(rounds + [ms], w)
  {
  }

  /** A reply that calls no real tool is stored as the answer. */
  method StoreAnswer(repo: Repo, w: World, reply: Reply, full: string)
    returns (ok: bool, ghost tail: seq<Message>)
    requires IsAnswer(reply, w) && full == TrimSpace(reply.raw)
    modifies repo
    ensures repo.messages == old(repo.messages) + tail
    ensures if ok then IsAnswerStored(tail, reply, w) else tail == []
    ensures repo.faults == if ok then old(repo.faults) else old(repo.faults) + 1
  {
    var answer := full;
    if |reply.rows| == 1 {
      var direct := w.answerText(reply.rows[0].parameters);
      if direct != "" { answer := direct; }
    }
    var m := NewMessage(Assistant, answer);
    ok := repo.Create(m);
    tail := if ok then [m] else [];
  }

  /** The second half of a round: the calls are resolved and run, and the round is stored. */
  method RunRound(repo: Repo, w: World, round: nat, full: string, execRows: seq<Row>, ghost at: seq<nat>)
    returns (ok: bool, ghost ms: seq<Message>, ghost ending: Ending)
    requires Speaks(w.replies(round)) && full == TrimSpace(w.replies(round).raw) && at != []
    requires ArePlaces(w.replies(round).rows, at, w.isDirectAnswer) && StandAt(w.replies(round).rows, at, execRows)
    modifies repo
    ensures ok ==> IsRoundOf(ms, round, w)
    ensures repo.messages == old(repo.messages) + ms
    ensures !ok ==> ms == [] && ending == if NamesUndeclared(w.replies(round), w) then Undeclared else NotStored
    ensures repo.faults == if !ok && ending.NotStored? then old(repo.faults) + 1 else old(repo.faults)
  {
    RowsTell(w.replies(round), at, execRows, w);
    var resolved := ResolveExecutableToolCalls(execRows, w.resolve);
    if resolved.None? { return false, [], Undeclared; }
    var calls := resolved.value;
    var items := ToolCallItems(calls);
    var toolResults := RunTools(calls, round, w.result);
    var assist := NewMessage(Assistant, full).(toolCallsJSON := w.marshal(items));
    var toolMsgs := ToolMessages(calls, toolResults[..]);
    ok := repo.CreateRound(assist, toolMsgs);
    if !ok { return false, [], NotStored; }
    ms := RoundIsStored(round, at, execRows, calls, items, toolResults[..], w);
    ending := Capped;
  }

  method RunChatToolLoop(repo: Repo, w: World, hint: int)
    returns (ghost rounds: seq<seq<Message>>, ghost tail: seq<Message>, ghost ending: Ending)
    modifies repo
    ensures repo.messages == old(repo.messages) + Flat(rounds) + tail
    ensures AreRoundsOf(rounds, w)
    ensures EndsFor(ending, |rounds|, MaxToolInvocationRounds(hint), tail, w)
    ensures if ending.NotStored? then repo.faults > old(repo.faults) else repo.faults == old(repo.faults)
  {
    rounds, tail, ending := [], [], Capped;
    var maxToolRounds := MaxToolInvocationRounds(hint);
    for round := 0 to maxToolRounds
      invariant |rounds| == round && tail == [] && repo.faults == old(repo.faults)
      invariant repo.messages == old(repo.messages) + Flat(rounds)
      invariant AreRoundsOf(rounds, w)
    {
      var reply := w.replies(round);
      if reply.Failed? { return rounds, [], Unanswered; }
      var full := TrimSpace(reply.raw);
      BlankIff(reply.raw);
      if full == "" { return rounds, [], Silent; }

      var execRows := FilterExecutableToolRows(reply.rows, w.isDirectAnswer);
      ghost var at :| ArePlaces(reply.rows, at, w.isDirectAnswer) && StandAt(reply.rows, at, execRows);
      RowsTell(reply, at, execRows, w);
      if |execRows| == 0 {
        var ok, last := StoreAnswer(repo, w, reply, full);
        return rounds, last, if ok then Answered else NotStored;
      }
      var ok, ms, why := RunRound(repo, w, round, full, execRows, at);
      if !ok { return rounds, [], why; }
      FlatAppend(rounds, ms);
      Assoc(old(repo.messages), Flat(rounds), ms);
      OneMoreRound(rounds, ms, w);
      rounds := rounds + [ms];
    }
  }

  // ---------- what the tool-chain UI makes of it ----------

  function Present(ms: seq<Message>): Messages {
    seq(|ms|, i requires 0 <= i < |ms| => Some(ms[i]))
  }

  predicate AreLong(rounds: seq<seq<Message>>) {
    forall i :: 0 <= i < |rounds| ==> |rounds[i]| >= 2
  }

  /** One segment per round, back to back from index i. */
  function SegmentsOf(rounds: seq<seq<Message>>, i: nat): seq<Segment>
    requires AreLong(rounds)
  {
    if rounds == [] then []
    else [Segment(i, i + 1, i + |rounds[0]| - 1)] + SegmentsOf(rounds[1..], i + |rounds[0]|)
  }

  /** The text of a non-empty item list is not blank. */
  lemma MarshalNotBlank(marshal: seq<Item> -> string, items: seq<Item>)
    requires MarshalsArrays(marshal)
    ensures TrimSpace(marshal(items)) != ""
  {
    var s := marshal(items);
    assert s[0] == '[' && TrimLeft(s, IsSpace) == s;
    var r := TrimRightParts(s, IsSpace);
  }

  /** From index i on, msgs are exactly ms. */
  ghost predicate EndsIn(msgs: Messages, i: nat, ms: seq<Message>) {
    |msgs| == i + |ms| && forall j :: i <= j < |msgs| ==> msgs[j] == Some(ms[j - i])
  }

  lemma PresentEndsIn(before: Messages, ms: seq<Message>)
    ensures EndsIn(before + Present(ms), |before|, ms)
  {
  }

  /** One stored round, seen at index i of the message list. */
  lemma RoundIsSegment(msgs: Messages, r: seq<Message>, rest: seq<Message>, i: nat, marshal: seq<Item> -> string)
    requires MarshalsArrays(marshal) && IsRound(r, marshal)
    requires EndsIn(msgs, i, r + rest) && (rest == [] || rest[0].role != Tool)
    ensures IsSegment(msgs, Segment(i, i + 1, i + |r| - 1))
    ensures EndsIn(msgs, i + |r|, rest)
  {
    var items: seq<Item> :| r[0].toolCallsJSON == marshal(items) && AnswersItems(r, items);
    MarshalNotBlank(marshal, items);
    forall j | i + 1 <= j <= i + |r| - 1 ensures IsTool(msgs[j]) {
      assert items[j - i - 1].id == CallId(j - i - 1);
    }
  }

  lemma {:induction false} RoundsAreSegments(msgs: Messages, rounds: seq<seq<Message>>, tail: seq<Message>, i: nat,
                                             marshal: seq<Item> -> string)
    requires MarshalsArrays(marshal) && AreRounds(rounds, marshal)
    requires |tail| <= 1 && forall m :: m in tail ==> IsPlain(m)
    requires EndsIn(msgs, i, Flat(rounds) + tail)
    ensures AreLong(rounds) && AreSegments(msgs, SegmentsOf(rounds, i), i, i + |Flat(rounds)|)
  {
    if rounds != [] {
      var r, rest := rounds[0], rounds[1..];
      FirstRoundIsSegment(msgs, rounds, tail, i, marshal);
      RoundsAreSegments(msgs, rest, tail, i + |r|, marshal);
      SegmentsBehind(msgs, rounds, i);
    }
  }

  lemma SegmentsBehind(msgs: Messages, rounds: seq<seq<Message>>, i: nat)
    requires rounds != [] && AreLong(rounds)
    requires IsSegment(msgs, Segment(i, i + 1, i + |rounds[0]| - 1))
    requires var k := i + |rounds[0]|; AreSegments(msgs, SegmentsOf(rounds[1..], k), k, k + |Flat(rounds[1..])|)
    ensures AreSegments(msgs, SegmentsOf(rounds, i), i, i + |Flat(rounds)|)
  {
    var s := SegmentsOf(rounds, i);
    assert s[1..] == SegmentsOf(rounds[1..], i + |rounds[0]|);
  }

  lemma FirstRoundIsSegment(msgs: Messages, rounds: seq<seq<Message>>, tail: seq<Message>, i: nat,
                            marshal: seq<Item> -> string)
    requires MarshalsArrays(marshal) && AreRounds(rounds, marshal) && rounds != []
    requires |tail| <= 1 && forall m :: m in tail ==> IsPlain(m)
    requires EndsIn(msgs, i, Flat(rounds) + tail)
    ensures |rounds[0]| >= 2 && IsSegment(msgs, Segment(i, i + 1, i + |rounds[0]| - 1))
    ensures AreRounds(rounds[1..], marshal) && EndsIn(msgs, i + |rounds[0]|, Flat(rounds[1..]) + tail)
  {
    var r, rest := rounds[0], rounds[1..];
    assert IsRound(r, marshal);
    Assoc(r, Flat(rest), tail);
    if rest == [] {
      if tail != [] { assert tail[0] in tail; }
    } else {
      assert IsRound(rest[0], marshal);
    }
    RoundIsSegment(msgs, r, Flat(rest) + tail, i, marshal);
  }

  /** The chain that rounds and a closing answer make from index i on. */
  function ChainOf(rounds: seq<seq<Message>>, tail: seq<Message>, i: nat): Element
    requires AreLong(rounds)
  {
    Chain(SegmentsOf(rounds, i), if tail == [] then None else Some(i + |Flat(rounds)|))
  }

  lemma StoredMessagesAreOneChain(msgs: Messages, rounds: seq<seq<Message>>, tail: seq<Message>, i: nat,
                                  marshal: seq<Item> -> string)
    requires MarshalsArrays(marshal) && AreRounds(rounds, marshal) && rounds != []
    requires |tail| <= 1 && forall m :: m in tail ==> IsPlain(m)
    requires EndsIn(msgs, i, Flat(rounds) + tail)
    ensures IsPartition(msgs, [ChainOf(rounds, tail, i)], i, |msgs|)
  {
    var end, n := i + |Flat(rounds)|, |msgs|;
    var segs := SegmentsOf(rounds, i);
    RoundsAreSegments(msgs, rounds, tail, i, marshal);
    if tail != [] { TailIsPlain(msgs, tail, end, Flat(rounds), i); }
    ChainCovers(msgs, segs, i, end);
    OneElement(msgs, ChainOf(rounds, tail, i), i, n);
  }

  lemma OneElement(msgs: Messages, e: Element, i: nat, j: nat)
    requires Covers(msgs, e, i, j)
    ensures IsPartition(msgs, [e], i, j)
  {
    assert [e][1..] == [] && IsPartition(msgs, [], j, j);
  }

  lemma TailIsPlain(msgs: Messages, tail: seq<Message>, end: nat, ms: seq<Message>, i: nat)
    requires |tail| == 1 && IsPlain(tail[0]) && EndsIn(msgs, i, ms + tail) && end == i + |ms|
    ensures end + 1 == |msgs| && IsPlainAssistant(msgs[end])
  {
    assert msgs[end] == Some((ms + tail)[end - i]);
  }

  lemma StoredIsOneChain(before: Messages, user: Message, rounds: seq<seq<Message>>, tail: seq<Message>,
                         marshal: seq<Item> -> string, msgs: Messages, es: seq<Element>)
    requires MarshalsArrays(marshal) && AreRounds(rounds, marshal) && rounds != []
    requires |tail| <= 1 && forall m :: m in tail ==> IsPlain(m)
    requires user.role == User
    requires msgs == before + [Some(user)] + Present(Flat(rounds) + tail)
    requires IsPartition(msgs, es, 0, |msgs|)
    ensures EndsInChain(es, |before|, rounds, tail)
  {
    var stored, i := Flat(rounds) + tail, |before| + 1;
    assert EndsIn(msgs, i, stored) by { PresentEndsIn(before + [Some(user)], stored); }
    StoredMessagesAreOneChain(msgs, rounds, tail, i, marshal);
    PartitionAfter(msgs, es, |before|, [ChainOf(rounds, tail, i)]);
  }

  /** The partition ends in a single at index n and the chain of the rounds and the tail. */
  ghost predicate EndsInChain(es: seq<Element>, n: nat, rounds: seq<seq<Message>>, tail: seq<Message>) {
    AreLong(rounds) && exists k: nat ::
      k < |es| && es[k] == Single(n) && es[k + 1..] == [ChainOf(rounds, tail, n + 1)]
  }

  /** Whatever the session held before the user's message, everything a run stored after it is one chain:
      a segment per round, closed by the plain answer if there is one. */
  lemma RunIsOneChain(before: Messages, user: Message, rounds: seq<seq<Message>>, tail: seq<Message>,
                      ending: Ending, cap: nat, w: World, msgs: Messages, es: seq<Element>)
    requires AreRoundsOf(rounds, w) && EndsFor(ending, |rounds|, cap, tail, w) && rounds != []
    requires MarshalsArrays(w.marshal) && user.role == User
    requires msgs == before + [Some(user)] + Present(Flat(rounds) + tail)
    requires IsPartition(msgs, es, 0, |msgs|)
    ensures EndsInChain(es, |before|, rounds, tail)
  {
    RoundsOfAreRounds(rounds, w);
    TailsArePlain(ending, |rounds|, cap, tail, w);
    StoredIsOneChain(before, user, rounds, tail, w.marshal, msgs, es);
  }

  lemma TailsArePlain(ending: Ending, rounds: nat, cap: nat, tail: seq<Message>, w: World)
    requires EndsFor(ending, rounds, cap, tail, w)
    ensures |tail| <= 1 && forall m :: m in tail ==> IsPlain(m)
  {
  }
}
