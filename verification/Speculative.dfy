/** Speculative generation in llm-runner/llama/wrapper.cpp: which positions of the target memory survive. */
module Speculative {
  import opened Strings
  import opened PrefixCache

  /** The prompt and the accepted tokens, without the last one: that token is decoded by the next iteration. */
  function Settled(prompt: seq<Token>, accepted: seq<Token>): seq<Token>
    requires prompt != []
  {
    (prompt + accepted)[..|prompt| - 1 + |accepted|]
  }

  /** Reading the bottom n positions of the memory gives ts. */
  lemma KeepRun(kv: Kv, ts: seq<Token>, a: nat, b: nat, n: nat)
    requires a <= n <= b <= |ts|
    requires Keep(kv, a) == Exactly(ts[..a])
    ensures Keep(WriteRun(kv, ts, a, b), n) == Exactly(ts[..n])
  {
    RunAt(kv, ts, a, b);
    ExactlyAt(ts[..a]);
    forall p: nat | p < a ensures p in kv && kv[p] == ts[p] {
      assert p in Keep(kv, a) && Keep(kv, a)[p] == ts[..a][p];
    }
    KeptIsExact(WriteRun(kv, ts, a, b), ts, n);
  }

  /** The sampler accepts a prefix of the draft and adds one token. */
  predicate Accepts(draft: seq<Token>, ids: seq<Token>) {
    1 <= |ids| <= |draft| + 1 && forall i :: 0 <= i < |ids| - 1 ==> ids[i] == draft[i]
  }

  /** What the next iteration settles was written by this one. */
  lemma SettledIsWritten(prompt: seq<Token>, accepted: seq<Token>, draft: seq<Token>, ids: seq<Token>, processed: nat)
    requires prompt != [] && Accepts(draft, ids) && processed <= |ids|
    ensures (prompt + accepted + draft)[..|prompt| - 1 + |accepted| + processed]
            == Settled(prompt, accepted + ids[..processed])
  {
    var n := |prompt| + |accepted|;
    var ts, us := prompt + accepted + draft, prompt + (accepted + ids[..processed]);
    assert forall i :: 0 <= i < n ==> ts[i] == us[i];
    assert forall j :: 0 <= j < processed - 1 ==> us[n + j] == ids[j] && ts[n + j] == draft[j];
  }

  /** Decoding the last token and the draft, then cutting at the new position, leaves exactly the settled tokens:
      of the draft only the accepted part stays. */
  lemma RollbackIsExact(kv: Kv, prompt: seq<Token>, accepted: seq<Token>, draft: seq<Token>, ids: seq<Token>,
                        processed: nat)
    requires prompt != [] && Accepts(draft, ids) && processed <= |ids|
    requires var nPast := |prompt| - 1 + |accepted|; Keep(kv, nPast) == Exactly(Settled(prompt, accepted))
    ensures var nPast := |prompt| - 1 + |accepted|;
            Keep(WriteRun(kv, prompt + accepted + draft, nPast, nPast + 1 + |draft|), nPast + processed)
            == Exactly(Settled(prompt, accepted + ids[..processed]))
  {
    var nPast := |prompt| - 1 + |accepted|;
    SettledIsWritten(prompt, accepted, draft, ids, processed);
    SettledIsWritten(prompt, accepted, draft, ids, 0);
    assert accepted + ids[..0] == accepted;
    KeepRun(kv, prompt + accepted + draft, nPast, nPast + 1 + |draft|, nPast + processed);
  }

  /** On a full hit the last prompt token but one is decoded again. */
  function ClearFrom(prompt: seq<Token>, prefixLen: nat): nat
    requires prefixLen <= |prompt|
  {
    if prefixLen == |prompt| && |prompt| > 1 then |prompt| - 2 else prefixLen
  }

  /** The memory holds what is reused of the prompt without its last token. */
  predicate HoldsReused(kv: Kv, prompt: seq<Token>, prefixLen: nat)
    requires prompt != [] && prefixLen <= |prompt|
  {
    Holds(kv, prompt, if |prompt| == 1 then 0 else ClearFrom(prompt, prefixLen))
  }

  /** The prompt but its last token is in memory before the first iteration. */
  method PreparePrompt(ctx: Context, prompt: seq<Token>, prefixLen: nat) returns (ok: bool)
    requires prompt != [] && prefixLen <= |prompt| && ctx.nBatch > 0
    modifies ctx`kv, ctx`faults
    ensures ok && HoldsReused(old(ctx.kv), prompt, prefixLen) ==>
              Keep(ctx.kv, |prompt| - 1) == Exactly(prompt[..|prompt| - 1])
    ensures ctx.faults == old(ctx.faults) + if ok then 0 else 1
  {
    var n := |prompt|;
    var clearFrom := if prefixLen == n && n > 1 then n - 2 else prefixLen;
    ctx.SeqRm(clearFrom);
    ok := true;
    if n > 1 && prefixLen < n - 1 {
      ok := ctx.DecodeChunks(prompt, prefixLen, n - 1);
    } else if prefixLen == n && n > 1 {
      ok := ctx.DecodeRun(prompt, n - 2, n - 1);
    }
    if ok && HoldsReused(old(ctx.kv), prompt, prefixLen) {
      PromptPrepared(old(ctx.kv), prompt, prefixLen, ctx.kv);
    }
  }

  lemma PromptPrepared(kv: Kv, prompt: seq<Token>, prefixLen: nat, kv': Kv)
    requires prompt != [] && prefixLen <= |prompt| && HoldsReused(kv, prompt, prefixLen)
    requires var n, k := |prompt|, ClearFrom(prompt, prefixLen);
             kv' == if n > 1 && k < n - 1 then WriteRun(Keep(kv, k), prompt, k, n - 1) else Keep(kv, k)
    ensures Keep(kv', |prompt| - 1) == Exactly(prompt[..|prompt| - 1])
  {
    var n, k := |prompt|, ClearFrom(prompt, prefixLen);
    if n > 1 {
      KeptIsExact(kv, prompt, k);
      KeepRun(Keep(kv, k), prompt, k, n - 1, n - 1);
    }
  }

  /** The tokens of one iteration go out until one ends generation, the callback refuses one or a stop word appears;
      early tells whether one of these came. */
  method Emit(ids: seq<Token>, text: string, takes: nat -> bool, v: Voice)
    returns (processed: nat, early: bool, result: string)
    ensures processed <= |ids| && result == text + Pieces(ids[..processed], v)
    ensures GoesOut(ids, processed, text, takes, v)
    ensures early <==> EndsAfter(ids, processed, text, takes, v)
    ensures !early ==> processed == |ids|
    ensures ids != [] ==> (processed == 0 <==> !Passes(ids, 0, takes, v))
  {
    processed, early, result := 0, false, text;
    while processed < |ids|
      invariant processed <= |ids| && result == text + Pieces(ids[..processed], v)
      invariant forall i :: 0 <= i < processed ==> Passes(ids, i, takes, v)
      invariant forall i :: 0 <= i <= processed ==> !StopsAfter(ids, i, text, v)
    {
      var id := ids[processed];
      if v.isEog(id) { return processed, true, result; }
      if !takes(processed) { return processed, true, result; }
      assert ids[..processed + 1][..processed] == ids[..processed];
      Assoc(text, Pieces(ids[..processed], v), v.piece(id));
      result := result + v.piece(id);
      processed := processed + 1;
      if v.hasStop(result) { return processed, true, result; }
    }
  }

  /** What the draft model, the sampler and the callback do in one iteration: takes tells which of the accepted tokens
      the callback takes. */
  datatype Turn = Turn(draft: seq<Token>, ids: seq<Token>, takes: nat -> bool)

  predicate IsTurn(turn: Turn) {
    Accepts(turn.draft, turn.ids)
  }

  /** The first token ends generation, or the callback refuses it. */
  predicate EndsAtOnce(turn: Turn, v: Voice)
    requires IsTurn(turn)
  {
    v.isEog(turn.ids[0]) || !turn.takes(0)
  }

  /** Position and last token between two iterations. */
  predicate Aligned(prompt: seq<Token>, accepted: seq<Token>, nPast: nat, lastToken: Token) {
    prompt != [] && nPast == |prompt| - 1 + |accepted| && lastToken == (prompt + accepted)[nPast]
  }

  /** Below the position the memory holds prompt and accepted tokens without the last one. */
  predicate Backed(kv: Kv, prompt: seq<Token>, accepted: seq<Token>)
    requires prompt != []
  {
    Keep(kv, |prompt| - 1 + |accepted|) == Exactly(Settled(prompt, accepted))
  }

  /** The memory after decoding the last token and the draft. */
  function Drafted(kv: Kv, prompt: seq<Token>, before: seq<Token>, draft: seq<Token>): Kv
    requires prompt != []
  {
    WriteRun(kv, prompt + before + draft, |prompt| - 1 + |before|, |prompt| + |before| + |draft|)
  }

  /** Decodes the last token followed by the draft, from position nPast on. */
  method DecodeDraft(ctx: Context, ghost prompt: seq<Token>, ghost before: seq<Token>, nPast: nat, lastToken: Token,
                     draft: seq<Token>)
    returns (ok: bool)
    requires Aligned(prompt, before, nPast, lastToken)
    modifies ctx`kv, ctx`faults
    ensures ctx.faults == old(ctx.faults) + if ok then 0 else 1
    ensures ok ==> nPast < ctx.nCtx && ctx.kv == Drafted(old(ctx.kv), prompt, before, draft)
    ensures !ok ==> (Backed(old(ctx.kv), prompt, before) ==> Backed(ctx.kv, prompt, before))
  {
    ghost var ts := prompt + before + draft;
    DraftFollows(prompt, before, lastToken, draft);
    var batch := DraftBatch(nPast, lastToken, draft, ts);
    ok := DecodeRunOf(ctx, nPast, batch, ts);
  }

  /** Decodes a batch that continues the memory from position nPast on: what is below stays if it fails. */
  method DecodeRunOf(ctx: Context, ghost nPast: nat, batch: seq<Slot>, ghost ts: seq<Token>) returns (ok: bool)
    requires batch != [] && |ts| == nPast + |batch| && IsRunOf(batch, ts, nPast)
    modifies ctx`kv, ctx`faults
    ensures ctx.faults == old(ctx.faults) + if ok then 0 else 1
    ensures ok ==> nPast < ctx.nCtx && ctx.kv == WriteRun(old(ctx.kv), ts, nPast, |ts|)
    ensures !ok ==> Keep(ctx.kv, nPast) == Keep(old(ctx.kv), nPast)
  {
    ok := ctx.Decode(batch);
    if ok {
      assert batch[0] in batch;
      BatchWritesRun(old(ctx.kv), batch, ts, nPast);
    } else {
      ghost var k :| 0 <= k <= |batch| && ctx.kv == WriteAll(old(ctx.kv), batch[..k]);
      BatchWritesRun(old(ctx.kv), batch[..k], ts, nPast);
      RunIsAbove(old(ctx.kv), ts, nPast, nPast + k);
    }
  }

  method DraftBatch(nPast: nat, lastToken: Token, draft: seq<Token>, ghost ts: seq<Token>) returns (batch: seq<Slot>)
    requires |ts| == nPast + 1 + |draft| && ts[nPast] == lastToken && ts[nPast + 1..] == draft
    ensures |batch| == |draft| + 1 && IsRunOf(batch, ts, nPast)
  {
    batch := [Slot(lastToken, nPast)];
    for i := 0 to |draft|
      invariant |batch| == i + 1 && IsRunOf(batch, ts, nPast)
    {
      assert ts[nPast + 1..][i] == draft[i];
      batch := batch + [Slot(draft[i], nPast + i + 1)];
    }
  }

  /** The stretch of tokens that an iteration decodes. */
  lemma DraftFollows(prompt: seq<Token>, before: seq<Token>, lastToken: Token, draft: seq<Token>)
    requires prompt != [] && Aligned(prompt, before, |prompt| - 1 + |before|, lastToken)
    ensures var ts, nPast := prompt + before + draft, |prompt| - 1 + |before|;
            |ts| == nPast + 1 + |draft| && ts[nPast] == lastToken && ts[nPast + 1..] == draft
  {
  }

  lemma RunIsAbove(kv: Kv, ts: seq<Token>, a: nat, b: nat)
    requires b <= |ts|
    ensures Keep(WriteRun(kv, ts, a, b), a) == Keep(kv, a)
  {
    RunAt(kv, ts, a, b);
  }

  /** One iteration: decode the last token with the draft, emit what was accepted, roll back the rest. */
  method Iterate(ctx: Context, prompt: seq<Token>, ghost before: seq<Token>, nPast: nat, lastToken: Token, text: string,
                 v: Voice, turn: Turn)
    returns (decoded: bool, early: bool, next: nat, last: Token, result: string, ghost accepted: seq<Token>)
    requires Aligned(prompt, before, nPast, lastToken) && IsTurn(turn)
    modifies ctx`kv, ctx`faults
    ensures before <= accepted && Aligned(prompt, accepted, next, last)
    ensures Backed(old(ctx.kv), prompt, before) ==>
              Backed(ctx.kv, prompt, accepted) && (decoded ==> ctx.kv == Exactly(Settled(prompt, accepted)))
    ensures decoded ==> nPast < ctx.nCtx && (early || nPast < next)
    ensures accepted == before <==> !decoded || EndsAtOnce(turn, v)
    ensures text == Pieces(before, v) ==> result == Pieces(accepted, v)
    ensures !decoded ==> accepted == before && !early
    ensures ctx.faults == old(ctx.faults) + if decoded then 0 else 1
    ensures decoded ==> exists k: nat :: IsEmitted(turn, k, before, accepted, text, early, v)
  {
    early, next, last, result, accepted := false, nPast, lastToken, text, before;
    decoded := DecodeDraft(ctx, prompt, before, nPast, lastToken, turn.draft);
    if !decoded { return; }
    var ids, processed := turn.ids, 0;
    processed, early, result := Emit(ids, text, turn.takes, v);
    accepted := before + ids[..processed];
    next := nPast + if early then processed else |ids|;
    ctx.SeqRm(next);
    if processed > 0 { last := ids[processed - 1]; }
    IterationAfter(old(ctx.kv), ctx.kv, prompt, before, lastToken, turn, processed);
    PiecesConcat(before, ids[..processed], v);
    assert IsEmitted(turn, processed, before, accepted, text, early, v);
  }

  /** The first k tokens of a turn went out behind text. */
  predicate IsEmitted(turn: Turn, k: nat, before: seq<Token>, accepted: seq<Token>, text: string, early: bool,
                      v: Voice)
  {
    && GoesOut(turn.ids, k, text, turn.takes, v)
    && accepted == before + turn.ids[..k]
    && (early <==> EndsAfter(turn.ids, k, text, turn.takes, v))
    && (!early ==> k == |turn.ids|)
  }

  // ---------- the whole call ----------

  /** Why a call ends: enough text, a failed decode, or an early end behind k tokens of the turn. */
  datatype Ending = Full | Broken | Early(k: nat)

  /** The tokens of the first n turns. */
  function TokensOf(turns: nat -> Turn, n: nat): seq<Token> {
    if n == 0 then [] else TokensOf(turns, n - 1) + turns(n - 1).ids
  }

  /** Before turn i there is less text than asked for, and the turn goes out whole. */
  predicate GoesOn(turns: nat -> Turn, i: nat, nPredict: int, v: Voice)
  {
    var ids, text := turns(i).ids, Pieces(TokensOf(turns, i), v);
    && |text| < nPredict && GoesOut(ids, |ids|, text, turns(i).takes, v)
    && !EndsAfter(ids, |ids|, text, turns(i).takes, v)
  }

  /** n turns go out whole, and then the call ends: accepted is what went out. */
  predicate IsCall(turns: nat -> Turn, n: nat, ending: Ending, accepted: seq<Token>, nPredict: int,
                   v: Voice)
  {
    var ids, text := turns(n).ids, Pieces(TokensOf(turns, n), v);
    && (forall i :: 0 <= i < n ==> GoesOn(turns, i, nPredict, v))
    && (ending.Full? <==> |text| >= nPredict)
    && match ending
       case Early(k) =>
         && GoesOut(ids, k, text, turns(n).takes, v)
         && EndsAfter(ids, k, text, turns(n).takes, v)
         && accepted == TokensOf(turns, n) + ids[..k]
       case _ => accepted == TokensOf(turns, n)
  }

  /** Without a failed decode the turns determine what goes out, and why it ends. */
  lemma CallUnique(turns: nat -> Turn, n1: nat, e1: Ending, a1: seq<Token>, n2: nat, e2: Ending, a2: seq<Token>,
                   nPredict: int, v: Voice)
    requires IsCall(turns, n1, e1, a1, nPredict, v) && !e1.Broken?
    requires IsCall(turns, n2, e2, a2, nPredict, v) && !e2.Broken?
    ensures n1 == n2 && e1 == e2 && a1 == a2
  {
    NotLonger(turns, n1, e1, a1, n2, e2, a2, nPredict, v);
    NotLonger(turns, n2, e2, a2, n1, e1, a1, nPredict, v);
  }

  lemma NotLonger(turns: nat -> Turn, n1: nat, e1: Ending, a1: seq<Token>, n2: nat, e2: Ending, a2: seq<Token>,
                  nPredict: int, v: Voice)
    requires IsCall(turns, n1, e1, a1, nPredict, v)
    requires IsCall(turns, n2, e2, a2, nPredict, v) && !e2.Broken?
    ensures n1 <= n2
  {
    assert n2 < n1 ==> GoesOn(turns, n2, nPredict, v);
  }

  /** After n turns went out whole. */
  predicate Underway(turns: nat -> Turn, n: nat, accepted: seq<Token>, result: string, nPredict: int,
                     v: Voice)
  {
    && accepted == TokensOf(turns, n) && result == Pieces(accepted, v)
    && forall i :: 0 <= i < n ==> GoesOn(turns, i, nPredict, v)
  }

  /** What one more iteration makes of the call. */
  lemma OneMoreTurn(turns: nat -> Turn, n: nat, k: nat, before: seq<Token>, accepted: seq<Token>, text: string,
                    result: string, early: bool, nPredict: int, v: Voice)
    requires Underway(turns, n, before, text, nPredict, v) && |text| < nPredict
    requires IsEmitted(turns(n), k, before, accepted, text, early, v)
    requires result == Pieces(accepted, v)
    ensures if early then IsCall(turns, n, Early(k), accepted, nPredict, v)
            else Underway(turns, n + 1, accepted, result, nPredict, v)
  {
    if !early {
      assert turns(n).ids[..k] == turns(n).ids;
      assert GoesOn(turns, n, nPredict, v);
    }
  }

  /** What an iteration leaves when processed of its tokens went out. */
  lemma IterationAfter(kv: Kv, kv': Kv, prompt: seq<Token>, before: seq<Token>, lastToken: Token, turn: Turn,
                       processed: nat)
    requires prompt != [] && Aligned(prompt, before, |prompt| - 1 + |before|, lastToken)
    requires IsTurn(turn) && processed <= |turn.ids|
    requires kv' == Keep(Drafted(kv, prompt, before, turn.draft), |prompt| - 1 + |before| + processed)
    ensures var accepted := before + turn.ids[..processed];
            && before <= accepted && (accepted == before <==> processed == 0)
            && Aligned(prompt, accepted, |prompt| - 1 + |before| + processed,
                       if processed > 0 then turn.ids[processed - 1] else lastToken)
            && (Backed(kv, prompt, before) ==>
                  Backed(kv', prompt, accepted) && kv' == Exactly(Settled(prompt, accepted)))
  {
    AlignedAfter(prompt, before, lastToken, turn.ids, processed);
    assert |before + turn.ids[..processed]| == |before| + processed;
    if Backed(kv, prompt, before) {
      RollbackIsBacked(kv, kv', prompt, before, turn.draft, turn.ids, processed);
    }
  }

  lemma AlignedAfter(prompt: seq<Token>, before: seq<Token>, lastToken: Token, ids: seq<Token>, processed: nat)
    requires prompt != [] && Aligned(prompt, before, |prompt| - 1 + |before|, lastToken) && processed <= |ids|
    ensures Aligned(prompt, before + ids[..processed], |prompt| - 1 + |before| + processed,
                    if processed > 0 then ids[processed - 1] else lastToken)
  {
    var accepted := before + ids[..processed];
    assert processed == 0 ==> accepted == before;
    assert processed > 0 ==>
        (prompt + accepted)[|prompt + accepted| - 1] == accepted[|accepted| - 1] == ids[processed - 1];
  }

  /** The next iteration can start from what this one leaves. */
  lemma RollbackIsBacked(kv: Kv, kv': Kv, prompt: seq<Token>, before: seq<Token>, draft: seq<Token>, ids: seq<Token>,
                         processed: nat)
    requires prompt != [] && Backed(kv, prompt, before) && Accepts(draft, ids) && processed <= |ids|
    requires kv' == Keep(Drafted(kv, prompt, before, draft), |prompt| - 1 + |before| + processed)
    ensures kv' == Exactly(Settled(prompt, before + ids[..processed]))
    ensures Backed(kv', prompt, before + ids[..processed])
  {
    RollbackIsExact(kv, prompt, before, draft, ids, processed);
    ExactlyAt(Settled(prompt, before + ids[..processed]));
    assert Keep(kv', |Settled(prompt, before + ids[..processed])|) == kv';
  }

  /** The loop: turn after turn until there is enough text, one ends early, or a decode fails. */
  method DraftLoop(ctx: Context, prompt: seq<Token>, nPredict: nat, v: Voice, turns: nat -> Turn)
    returns (clean: bool, ghost began: bool, ghost accepted: seq<Token>, result: string, ghost n: nat,
             ghost ending: Ending)
    requires prompt != [] && nPredict > 0 && forall i :: IsTurn(turns(i))
    modifies ctx`kv, ctx`faults
    ensures Backed(old(ctx.kv), prompt, []) ==>
              Backed(ctx.kv, prompt, accepted) && (clean ==> ctx.kv == Exactly(Settled(prompt, accepted)))
    ensures (clean ==> began) && (accepted == [] <==> !began || EndsAtOnce(turns(0), v))
    ensures result == Pieces(accepted, v) && IsCall(turns, n, ending, accepted, nPredict, v)
    ensures (ending.Broken? <==> !clean) && ctx.faults == old(ctx.faults) + if clean then 0 else 1
  {
    clean, began, accepted, result, n, ending := true, true, [], "", 0, Full;
    var lastToken, nPast: nat := prompt[|prompt| - 1], |prompt| - 1;
    assert prompt + accepted == prompt;
    ghost var sound := Backed(ctx.kv, prompt, []);
    var i := 0;
    while |result| < nPredict
      invariant Aligned(prompt, accepted, nPast, lastToken) && began && clean && ctx.faults == old(ctx.faults)
      invariant sound ==> Backed(ctx.kv, prompt, accepted)
      invariant sound && i > 0 ==> ctx.kv == Exactly(Settled(prompt, accepted))
      invariant if i == 0 then accepted == [] else accepted != [] && !EndsAtOnce(turns(0), v)
      invariant Underway(turns, i, accepted, result, nPredict, v)
      decreases ctx.nCtx - nPast
    {
      var early;
      ghost var before, text := accepted, result;
      clean, early, nPast, lastToken, result, accepted :=
        Iterate(ctx, prompt, accepted, nPast, lastToken, result, v, turns(i));
      if i == 0 { began := clean; }
      if !clean {
        n, ending := i, Broken;
        return;
      }
      ghost var k: nat :| IsEmitted(turns(i), k, before, accepted, text, early, v);
      OneMoreTurn(turns, i, k, before, accepted, text, result, early, nPredict, v);
      if early {
        n, ending := i, Early(k);
        return;
      }
      i := i + 1;
    }
    n := i;
  }

  /** ok: the call returned a result; clean: no decode failed while generating; began: the first of them did not. */
  method GenerateDraftWithTokens(ctx: Context, prompt: seq<Token>, prefixLen: nat, maxTokens: int, v: Voice,
                                 turns: nat -> Turn)
    returns (ok: bool, clean: bool, ghost began: bool, ghost accepted: seq<Token>, result: string, ghost n: nat,
             ghost ending: Ending)
    requires prefixLen <= |prompt| && ctx.nBatch > 0 && forall i :: IsTurn(turns(i))
    modifies ctx`kv, ctx`faults
    ensures ok ==> prompt != [] && |prompt| < ctx.nCtx && maxTokens >= 0
    ensures !ok && prompt != [] && |prompt| < ctx.nCtx && maxTokens >= 0 ==> ctx.faults > old(ctx.faults)
    ensures ok && HoldsReused(old(ctx.kv), prompt, prefixLen) ==>
              Backed(ctx.kv, prompt, accepted) && (clean ==> ctx.kv == Exactly(Settled(prompt, accepted)))
    ensures ok ==> (clean ==> began) && (accepted == [] <==> !began || EndsAtOnce(turns(0), v))
    ensures ok ==> result == Pieces(accepted, v)
    ensures ok ==> IsCall(turns, n, ending, accepted, Budget(maxTokens, ctx.nCtx - |prompt|), v)
    ensures ok ==> (ending.Broken? <==> !clean) && ctx.faults == old(ctx.faults) + if clean then 0 else 1
  {
    ok, clean, began, accepted, result, n, ending := false, true, true, [], "", 0, Full;
    if prompt == [] { return; }
    var prepared := PreparePrompt(ctx, prompt, prefixLen);
    if !prepared || maxTokens < 0 { return; }
    var genRoom := ctx.nCtx - |prompt|;
    if genRoom < 1 { return; }
    assert prompt + [] == prompt;
    clean, began, accepted, result, n, ending := DraftLoop(ctx, prompt, Budget(maxTokens, genRoom), v, turns);
    ok := true;
  }

  /** The whole call on the target context, which lists the prompt as cached before generating. */
  method GenerateDraft(ctx: Context, prompt: seq<Token>, caching: bool, maxTokens: int, v: Voice, turns: nat -> Turn)
    returns (ok: bool, clean: bool, ghost began: bool, ghost accepted: seq<Token>, result: string, ghost n: nat,
             ghost ending: Ending)
    requires ctx.nBatch > 0 && forall i :: IsTurn(turns(i))
    modifies ctx
    ensures prompt == [] ==> !ok && ctx.kv == old(ctx.kv) && ctx.cachedTokens == old(ctx.cachedTokens)
    ensures prompt != [] ==> ctx.cachedTokens == if caching then prompt else []
    ensures ok && Coherent(State(old(ctx.kv), old(ctx.cachedTokens)), ctx.nCtx) ==>
              && prompt != [] && Backed(ctx.kv, prompt, accepted)
              && (clean ==> ctx.kv == Exactly(Settled(prompt, accepted)))
              && (caching && clean ==> (Coherent(State(ctx.kv, prompt), ctx.nCtx)
                                        <==> !EndsAtOnce(turns(0), v) || |prompt| + 1 >= ctx.nCtx))
              && (caching && began && !EndsAtOnce(turns(0), v) ==> Coherent(State(ctx.kv, prompt), ctx.nCtx))
    ensures ok ==> prompt != [] && |prompt| < ctx.nCtx && maxTokens >= 0
    ensures !ok && prompt != [] && |prompt| < ctx.nCtx && maxTokens >= 0 ==> ctx.faults > old(ctx.faults)
    ensures ok ==> result == Pieces(accepted, v)
    ensures ok ==> IsCall(turns, n, ending, accepted, Budget(maxTokens, ctx.nCtx - |prompt|), v)
    ensures ok ==> (ending.Broken? <==> !clean) && ctx.faults == old(ctx.faults) + if clean then 0 else 1
  {
    ok, clean, began, accepted, result, n, ending := false, true, true, [], "", 0, Full;
    if prompt == [] { return; }
    var prefixLen := 0;
    if caching { prefixLen := ctx.FindCommonPrefix(ctx.cachedTokens, prompt); }
    LcpAgrees(ctx.cachedTokens, prompt);
    ctx.cachedTokens := if caching then prompt else [];
    ok, clean, began, accepted, result, n, ending :=
      GenerateDraftWithTokens(ctx, prompt, prefixLen, maxTokens, v, turns);
    if ok {
      if Coherent(State(old(ctx.kv), old(ctx.cachedTokens)), ctx.nCtx) {
        CoherentReuses(old(ctx.kv), old(ctx.cachedTokens), prompt, prefixLen, ctx.nCtx);
        if clean { PromptCachedAfterwards(ctx.kv, prompt, accepted, ctx.nCtx); }
        if accepted != [] { AcceptedIsCoherent(ctx.kv, prompt, accepted, ctx.nCtx); }
      }
    }
  }

  /** Backed cached tokens give a prompt with room all that it reuses of them. */
  lemma CoherentReuses(kv: Kv, cached: seq<Token>, prompt: seq<Token>, prefixLen: nat, nCtx: int)
    requires Coherent(State(kv, cached), nCtx) && prompt != [] && |prompt| < nCtx
    requires prefixLen == 0 || AgreeFor(cached, prompt, prefixLen)
    requires prefixLen <= |prompt|
    ensures HoldsReused(kv, prompt, prefixLen)
  {
  }

  /** Once a token has been accepted the whole prompt is in memory. */
  lemma AcceptedIsCoherent(kv: Kv, prompt: seq<Token>, accepted: seq<Token>, nCtx: int)
    requires prompt != [] && accepted != [] && Backed(kv, prompt, accepted)
    ensures Coherent(State(kv, prompt), nCtx)
  {
    var ts := Settled(prompt, accepted);
    ExactlyAt(ts);
    forall p: nat | p < |prompt| ensures p in kv && kv[p] == prompt[p] {
      assert p in Keep(kv, |ts|) && Keep(kv, |ts|)[p] == ts[p] == prompt[p];
    }
  }

  /** After a clean call the listed prompt is backed exactly when a token was accepted, or the prompt is so long that no
      prompt that fits reaches its last position: if the first token ends generation, the rollback removes that too. */
  lemma PromptCachedAfterwards(kv: Kv, prompt: seq<Token>, accepted: seq<Token>, nCtx: int)
    requires prompt != [] && |prompt| < nCtx && kv == Exactly(Settled(prompt, accepted))
    ensures Coherent(State(kv, prompt), nCtx) <==> accepted != [] || |prompt| + 1 >= nCtx
  {
    var n := |prompt| - 1;
    var ts := Settled(prompt, accepted);
    ExactlyAt(ts);
    assert forall p :: 0 <= p < |ts| && p < |prompt| ==> ts[p] == prompt[p];
    assert n in kv <==> accepted != [];
    assert Coherent(State(kv, prompt), nCtx) && |prompt| + 1 < nCtx ==> n in kv;
  }
}
