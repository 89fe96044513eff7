/** The KV prefix cache of llm-runner/llama/wrapper.cpp, for the single sequence 0. */
module PrefixCache {
  import opened Strings

  type Token = int

  /** The memory of a llama context: which token sits at which position. */
  type Kv = map<nat, Token>

  /** One entry of a llama_batch. */
  datatype Slot = Slot(token: Token, pos: nat)

  // ---------- memory operations ----------

  /** llama_memory_seq_rm(mem, 0, from, -1). */
  function Keep(kv: Kv, from: nat): Kv {
    map p | p in kv && p < from :: kv[p]
  }

  /** What a successful llama_decode leaves behind. */
  function WriteAll(kv: Kv, batch: seq<Slot>): Kv {
    if batch == [] then kv
    else
      var n := |batch| - 1;
      WriteAll(kv, batch[..n])[batch[n].pos := batch[n].token]
  }

  /** The tokens of ts from index a up to b, each written at its own position. */
  function WriteRun(kv: Kv, ts: seq<Token>, a: nat, b: nat): Kv
    requires b <= |ts|
  {
    if b <= a then kv else WriteRun(kv, ts, a, b - 1)[b - 1 := ts[b - 1]]
  }

  lemma {:induction false} RunAt(kv: Kv, ts: seq<Token>, a: nat, b: nat)
    requires b <= |ts|
    ensures forall p: nat {:trigger p in WriteRun(kv, ts, a, b)} ::
              p in WriteRun(kv, ts, a, b) <==> p in kv || a <= p < b
    ensures forall p: nat {:trigger WriteRun(kv, ts, a, b)[p]} ::
              p in WriteRun(kv, ts, a, b) ==> WriteRun(kv, ts, a, b)[p] == if a <= p < b then ts[p] else kv[p]
  {
    if a < b { RunAt(kv, ts, a, b - 1); }
  }

  /** The memory that holds ts and nothing else. */
  function Exactly(ts: seq<Token>): Kv {
    WriteRun(map[], ts, 0, |ts|)
  }

  /** kv holds the first n tokens of ts. */
  predicate Holds(kv: Kv, ts: seq<Token>, n: int)
    requires n <= |ts|
  {
    forall p: nat :: p < n ==> p in kv && kv[p] == ts[p]
  }

  predicate IsRunOf(batch: seq<Slot>, ts: seq<Token>, a: nat) {
    a + |batch| <= |ts| && forall i :: 0 <= i < |batch| ==> batch[i] == Slot(ts[a + i], a + i)
  }

  lemma {:induction false} BatchWritesRun(kv: Kv, batch: seq<Slot>, ts: seq<Token>, a: nat)
    requires IsRunOf(batch, ts, a)
    ensures WriteAll(kv, batch) == WriteRun(kv, ts, a, a + |batch|)
  {
    if batch != [] {
      BatchWritesRun(kv, batch[..|batch| - 1], ts, a);
    }
  }

  lemma {:induction false} RunsJoin(kv: Kv, ts: seq<Token>, a: nat, m: nat, b: nat)
    requires a <= m <= b <= |ts|
    ensures WriteRun(WriteRun(kv, ts, a, m), ts, m, b) == WriteRun(kv, ts, a, b)
  {
    if m < b { RunsJoin(kv, ts, a, m, b - 1); }
  }

  /** Cutting a memory that holds the first n tokens of ts leaves exactly those. */
  lemma KeptIsExact(kv: Kv, ts: seq<Token>, n: nat)
    requires n <= |ts| && Holds(kv, ts, n)
    ensures Keep(kv, n) == Exactly(ts[..n])
  {
    RunAt(map[], ts[..n], 0, n);
  }

  /** What the memory Exactly(ts) holds. */
  lemma ExactlyAt(ts: seq<Token>)
    ensures forall p: nat {:trigger p in Exactly(ts)} :: p in Exactly(ts) <==> p < |ts|
    ensures forall p: nat {:trigger Exactly(ts)[p]} :: p < |ts| ==> p in Exactly(ts) && Exactly(ts)[p] == ts[p]
  {
    RunAt(map[], ts, 0, |ts|);
  }

  /** Of the tokens from index a up to b, those up to some index have been written. */
  ghost predicate PartWritten(kv: Kv, ts: seq<Token>, a: nat, b: nat, kv': Kv)
    requires b <= |ts|
  {
    exists m: nat :: WrittenTo(kv, ts, a, b, m, kv')
  }

  predicate WrittenTo(kv: Kv, ts: seq<Token>, a: nat, b: nat, m: nat, kv': Kv)
    requires b <= |ts|
  {
    a <= m <= b && kv' == WriteRun(kv, ts, a, m)
  }

  // ---------- what goes out ----------

  /** The text of a token, which tokens end generation, and whether a stop word is in a text. */
  datatype Voice = Voice(piece: Token -> string, isEog: Token -> bool, hasStop: string -> bool)

  function Pieces(ids: seq<Token>, v: Voice): string {
    if ids == [] then "" else Pieces(ids[..|ids| - 1], v) + v.piece(ids[|ids| - 1])
  }

  lemma {:induction false} PiecesConcat(a: seq<Token>, b: seq<Token>, v: Voice)
    ensures Pieces(a + b, v) == Pieces(a, v) + Pieces(b, v)
    ensures |b| == 1 ==> Pieces(b, v) == v.piece(b[0])
  {
    if b == [] {
      assert a + b == a;
    } else {
      var front, t := b[..|b| - 1], b[|b| - 1];
      assert (a + b)[..|a + b| - 1] == a + front;
      PiecesConcat(a, front, v);
      Assoc(Pieces(a, v), Pieces(front, v), v.piece(t));
    }
  }

  /** Token i is emitted: it does not end generation and the callback takes it. */
  predicate Passes(ids: seq<Token>, i: nat, takes: nat -> bool, v: Voice)
    requires i < |ids|
  {
    !v.isEog(ids[i]) && takes(i)
  }

  /** After n tokens some stop word is in the text. */
  predicate StopsAfter(ids: seq<Token>, n: nat, text: string, v: Voice)
    requires n <= |ids|
  {
    n > 0 && v.hasStop(text + Pieces(ids[..n], v))
  }

  /** The first k tokens go out, with no stop word in the text before the last of them. */
  predicate GoesOut(ids: seq<Token>, k: nat, text: string, takes: nat -> bool, v: Voice) {
    k <= |ids| && forall i :: 0 <= i < k ==> Passes(ids, i, takes, v) && !StopsAfter(ids, i, text, v)
  }

  /** No more go out behind the first k: the next one does not, or a stop word is there. */
  predicate EndsAfter(ids: seq<Token>, k: nat, text: string, takes: nat -> bool, v: Voice)
    requires k <= |ids|
  {
    (k < |ids| && !Passes(ids, k, takes, v)) || StopsAfter(ids, k, text, v)
  }

  // ---------- the common prefix ----------

  function Lcp(a: seq<Token>, b: seq<Token>): nat {
    if a == [] || b == [] || a[0] != b[0] then 0 else 1 + Lcp(a[1..], b[1..])
  }

  /** a and b agree on exactly their first n tokens. */
  predicate AgreeFor(a: seq<Token>, b: seq<Token>, n: nat) {
    && n <= |a| && n <= |b|
    && (forall i :: 0 <= i < n ==> a[i] == b[i])
    && (n < |a| && n < |b| ==> a[n] != b[n])
  }

  lemma {:induction false} LcpAgrees(a: seq<Token>, b: seq<Token>)
    ensures AgreeFor(a, b, Lcp(a, b))
  {
    if a != [] && b != [] && a[0] == b[0] {
      LcpAgrees(a[1..], b[1..]);
      var n := Lcp(a[1..], b[1..]);
      forall i | 0 <= i < n + 1 ensures a[i] == b[i] {
        if i > 0 { assert a[1..][i - 1] == b[1..][i - 1]; }
      }
    }
  }

  lemma LcpIsLongest(a: seq<Token>, b: seq<Token>, n: nat)
    requires AgreeFor(a, b, n)
    ensures n == Lcp(a, b)
  {
    LcpAgrees(a, b);
  }

  // ---------- one call ----------

  /** The room checks: one token of room, and the whole of maxTokens if it is given. */
  predicate Fits(prompt: seq<Token>, maxTokens: int, nCtx: int) {
    |prompt| < nCtx && (maxTokens > 0 ==> |prompt| + maxTokens <= nCtx)
  }

  /** How many tokens to generate: as many as there is room for, or maxTokens if that is less. */
  function Budget(maxTokens: int, room: nat): (n: nat)
    ensures n <= room && (maxTokens > 0 ==> n <= maxTokens)
    ensures n == room || n == maxTokens > 0
  {
    if maxTokens > 0 && maxTokens < room then maxTokens else room
  }

  /** On a full hit the last prompt token is decoded again. */
  function KeepFrom(prompt: seq<Token>, prefixLen: nat): nat
    requires prefixLen <= |prompt| && prompt != []
  {
    if prefixLen == |prompt| then prefixLen - 1 else prefixLen
  }

  /** The memory when the first token is sampled. */
  function AtSample(kv: Kv, prompt: seq<Token>, prefixLen: nat): Kv
    requires prefixLen <= |prompt| && prompt != []
  {
    var k := KeepFrom(prompt, prefixLen);
    WriteRun(Keep(kv, k), prompt, k, |prompt|)
  }

  /** The memory of a call that kept k positions and stopped before all of the prompt behind them was decoded. */
  ghost predicate IsCutShort(kv: Kv, prompt: seq<Token>, k: nat, kv': Kv) {
    PartWritten(Keep(kv, k), prompt, k, |prompt|, kv')
  }

  /** Sampling sees the prompt and nothing else exactly when the kept positions hold it. */
  lemma AtSampleIsExact(kv: Kv, prompt: seq<Token>, prefixLen: nat)
    requires prefixLen <= |prompt| && prompt != []
    ensures AtSample(kv, prompt, prefixLen) == Exactly(prompt) <==> Holds(kv, prompt, KeepFrom(prompt, prefixLen))
  {
    var at, k := AtSample(kv, prompt, prefixLen), KeepFrom(prompt, prefixLen);
    RunAt(Keep(kv, k), prompt, k, |prompt|);
    ExactlyAt(prompt);
    if at == Exactly(prompt) {
      forall p: nat | p < k ensures p in kv && kv[p] == prompt[p] {
        assert p in at && at[p] == prompt[p];
      }
    }
  }

  lemma AtSampleEnds(kv: Kv, prompt: seq<Token>, prefixLen: nat)
    requires prefixLen <= |prompt| && prompt != []
    ensures Keep(AtSample(kv, prompt, prefixLen), |prompt|) == AtSample(kv, prompt, prefixLen)
  {
    var k := KeepFrom(prompt, prefixLen);
    RunAt(Keep(kv, k), prompt, k, |prompt|);
  }

  /** The first n of the tokens that are sampled. */
  function Firsts(ids: nat -> Token, n: nat): (ts: seq<Token>)
    ensures |ts| == n
  {
    if n == 0 then [] else Firsts(ids, n - 1) + [ids(n - 1)]
  }

  /** n of these tokens went out, and more do not, or something failed. */
  predicate IsGenerated(ids: seq<Token>, n: nat, result: string, failed: bool, takes: nat -> bool, v: Voice) {
    && GoesOut(ids, n, "", takes, v) && result == Pieces(ids[..n], v)
    && (failed || n == |ids| || EndsAfter(ids, n, "", takes, v))
  }

  lemma NoMoreOut(ids: seq<Token>, n: nat, result: string, takes: nat -> bool, v: Voice)
    requires IsGenerating(ids, n, result, takes, v) && n < |ids| && !Passes(ids, n, takes, v)
    ensures IsGenerated(ids, n, result, false, takes, v)
  {
  }

  /** If nothing fails the tokens determine how many go out. */
  lemma GeneratedUnique(ids: seq<Token>, n1: nat, r1: string, n2: nat, r2: string, takes: nat -> bool, v: Voice)
    requires IsGenerated(ids, n1, r1, false, takes, v) && IsGenerated(ids, n2, r2, false, takes, v)
    ensures n1 == n2 && r1 == r2
  {
  }

  lemma {:induction false} FirstsAre(ids: nat -> Token, n: nat, m: nat)
    requires n <= m
    ensures Firsts(ids, m)[..n] == Firsts(ids, n)
    ensures n < m ==> Firsts(ids, m)[n] == ids(n)
  {
    if n < m {
      FirstsAre(ids, n, m - 1);
    } else if n > 0 {
      FirstsAre(ids, n - 1, m - 1);
    }
  }

  /** n tokens went out, and no stop word is in their text. */
  predicate IsGenerating(ids: seq<Token>, n: nat, result: string, takes: nat -> bool, v: Voice) {
    GoesOut(ids, n, "", takes, v) && result == Pieces(ids[..n], v) && !StopsAfter(ids, n, "", v)
  }

  /** One more token passes. */
  lemma OneMoreOut(ids: seq<Token>, n: nat, result: string, takes: nat -> bool, v: Voice)
    requires IsGenerating(ids, n, result, takes, v) && n < |ids| && Passes(ids, n, takes, v)
    ensures var more := result + v.piece(ids[n]);
            if v.hasStop(more) then IsGenerated(ids, n + 1, more, false, takes, v) && StopsAfter(ids, n + 1, "", v)
            else IsGenerating(ids, n + 1, more, takes, v)
  {
    assert ids[..n + 1][..n] == ids[..n];
    assert "" + Pieces(ids[..n + 1], v) == Pieces(ids[..n + 1], v);
  }

  /** Behind the prompt these tokens have been written, or all of them but the last. */
  predicate WrittenBehind(kv: Kv, prompt: seq<Token>, ts: seq<Token>, kv': Kv) {
    kv' == WrittenFor(kv, prompt, ts, |ts|) || (ts != [] && kv' == WrittenFor(kv, prompt, ts, |ts| - 1))
  }

  function WrittenFor(kv: Kv, prompt: seq<Token>, ts: seq<Token>, d: nat): Kv
    requires d <= |ts|
  {
    WriteRun(kv, prompt + ts, |prompt|, |prompt| + d)
  }

  lemma {:induction false} SameRun(kv: Kv, ts: seq<Token>, us: seq<Token>, a: nat, b: nat)
    requires b <= |ts| && b <= |us| && ts[..b] == us[..b]
    ensures WriteRun(kv, ts, a, b) == WriteRun(kv, us, a, b)
    decreases b
  {
    if a < b {
      assert ts[b - 1] == ts[..b][b - 1] && us[b - 1] == us[..b][b - 1];
      assert ts[..b - 1] == ts[..b][..b - 1] && us[..b - 1] == us[..b][..b - 1];
      SameRun(kv, ts, us, a, b - 1);
    }
  }

  /** Generating leaves the prompt as it is. */
  lemma WrittenKeeps(kv: Kv, prompt: seq<Token>, ts: seq<Token>, kv': Kv)
    requires WrittenBehind(kv, prompt, ts, kv')
    ensures Keep(kv', |prompt|) == Keep(kv, |prompt|)
  {
    var n := |prompt|;
    RunAt(kv, prompt + ts, n, n + |ts|);
    if ts != [] { RunAt(kv, prompt + ts, n, n + |ts| - 1); }
  }

  /** One more token sampled, and then decoded. */
  lemma OneMoreWritten(kv: Kv, prompt: seq<Token>, ts: seq<Token>, t: Token)
    ensures WrittenFor(kv, prompt, ts + [t], |ts|) == WrittenFor(kv, prompt, ts, |ts|)
    ensures WrittenFor(kv, prompt, ts + [t], |ts| + 1) == WrittenFor(kv, prompt, ts, |ts|)[|prompt| + |ts| := t]
  {
    var n := |prompt| + |ts|;
    assert (prompt + (ts + [t]))[..n] == prompt + ts == (prompt + ts)[..n];
    SameRun(kv, prompt + (ts + [t]), prompt + ts, |prompt|, n);
    assert (prompt + (ts + [t]))[n] == t;
  }

  class Context {
    var kv: Kv
    var cachedTokens: seq<Token>
    /** How often a decode or the sampler has failed. */
    ghost var faults: nat
    const nCtx: int
    const nBatch: nat

    constructor (nCtx: int, nBatch: nat)
      ensures kv == map[] && cachedTokens == [] && this.nCtx == nCtx && this.nBatch == nBatch
    {
      kv, cachedTokens, faults := map[], [], 0;
      this.nCtx, this.nBatch := nCtx, nBatch;
    }

    method SeqRm(from: nat)
      modifies this`kv
      ensures kv == Keep(old(kv), from)
    {
      kv := Keep(kv, from);
    }

    /** A failing decode may leave some of the batch behind; a successful one fits the context. */
    method Decode(batch: seq<Slot>) returns (ok: bool)
      modifies this`kv, this`faults
      ensures ok ==> kv == WriteAll(old(kv), batch) && forall s :: s in batch ==> s.pos < nCtx
      ensures !ok ==> exists k :: 0 <= k <= |batch| && kv == WriteAll(old(kv), batch[..k])
      ensures faults == old(faults) + if ok then 0 else 1
    {
      ok := *;
      ok := ok && forall s :: s in batch ==> s.pos < nCtx;
      if !ok { faults := faults + 1; }
      var k :| 0 <= k <= |batch|;
      kv := WriteAll(kv, if ok then batch else batch[..k]);
    }

    /** A batch of one token. */
    method DecodeOne(token: Token, pos: nat) returns (ok: bool)
      modifies this`kv, this`faults
      ensures kv == old(kv)[pos := token] || (!ok && kv == old(kv))
      ensures faults == old(faults) + if ok then 0 else 1
    {
      var batch := [Slot(token, pos)];
      assert batch[..1] == batch && batch[..0] == [] && WriteAll(kv, batch) == kv[pos := token];
      ok := Decode(batch);
    }

    /** One batch: the tokens of ts from index a up to b at explicit positions. */
    method DecodeRun(ts: seq<Token>, a: nat, b: nat) returns (ok: bool)
      requires a <= b <= |ts|
      modifies this`kv, this`faults
      ensures ok ==> kv == WriteRun(old(kv), ts, a, b)
      ensures !ok ==> PartWritten(old(kv), ts, a, b, kv)
      ensures faults == old(faults) + if ok then 0 else 1
    {
      var batch: seq<Slot> := [];
      for i := a to b
        invariant |batch| == i - a && IsRunOf(batch, ts, a)
      {
        batch := batch + [Slot(ts[i], i)];
      }
      ok := Decode(batch);
      if ok {
        BatchWritesRun(old(kv), batch, ts, a);
      } else {
        ghost var k :| 0 <= k <= |batch| && kv == WriteAll(old(kv), batch[..k]);
        BatchWritesRun(old(kv), batch[..k], ts, a);
        assert WrittenTo(old(kv), ts, a, b, a + k, kv);
      }
    }

    /** Decodes the prompt tokens from index a up to b, at most nBatch at a time. */
    method DecodeChunks(prompt: seq<Token>, a: nat, b: nat) returns (ok: bool)
      requires a <= b <= |prompt| && nBatch > 0
      modifies this`kv, this`faults
      ensures ok ==> kv == WriteRun(old(kv), prompt, a, b)
      ensures !ok ==> PartWritten(old(kv), prompt, a, b, kv)
      ensures faults == old(faults) + if ok then 0 else 1
    {
      ghost var base := kv;
      ghost var m := a;
      var toProcess := b - a;
      var chunkStart := 0;
      while chunkStart < toProcess
        invariant 0 <= chunkStart && a <= m <= b
        invariant if chunkStart < toProcess then m == a + chunkStart else m == b
        invariant kv == WriteRun(base, prompt, a, m) && faults == old(faults)
        decreases toProcess - chunkStart
      {
        var chunkSize := if nBatch < toProcess - chunkStart then nBatch else toProcess - chunkStart;
        ok := DecodeRun(prompt, a + chunkStart, a + chunkStart + chunkSize);
        if !ok {
          ghost var k: nat :| WrittenTo(WriteRun(base, prompt, a, m), prompt, m, m + chunkSize, k, kv);
          RunsJoin(base, prompt, a, m, k);
          assert WrittenTo(base, prompt, a, b, k, kv);
          return;
        }
        RunsJoin(base, prompt, a, m, m + chunkSize);
        m := m + chunkSize;
        chunkStart := chunkStart + nBatch;
      }
      ok := true;
    }

    method FindCommonPrefix(a: seq<Token>, b: seq<Token>) returns (n: nat)
      ensures n == Lcp(a, b)
    {
      n := 0;
      var minLen := if |a| < |b| then |a| else |b|;
      while n < minLen && a[n] == b[n]
        invariant n <= minLen && forall i :: 0 <= i < n ==> a[i] == b[i]
      {
        n := n + 1;
      }
      LcpIsLongest(a, b, n);
    }

    /** Tokens are sampled, sent out and decoded one by one from the end of the prompt on, nPredict at most: all that
        passes goes out, up to a stop word or a failed decode. A token that completes a stop word is not decoded. */
    method GenerationLoop(ghost prompt: seq<Token>, nPast: nat, nPredict: nat, ids: nat -> Token, takes: nat -> bool,
                          v: Voice)
      returns (result: string, ghost n: nat)
      requires nPast == |prompt|
      modifies this`kv, this`faults
      ensures IsGenerated(Firsts(ids, nPredict), n, result, faults > old(faults), takes, v) && faults >= old(faults)
      ensures WrittenBehind(old(kv), prompt, Firsts(ids, n), kv)
      ensures faults == old(faults) ==>
                kv == WrittenFor(old(kv), prompt, Firsts(ids, n),
                                 if n > 0 && StopsAfter(Firsts(ids, nPredict), n, "", v) then n - 1 else n)
    {
      result, n := "", 0;
      var pos := nPast;
      ghost var all := Firsts(ids, nPredict);
      for nGen := 0 to nPredict
        invariant n == nGen && pos == nPast + n && faults == old(faults) && IsGenerating(all, n, result, takes, v)
        invariant kv == WrittenFor(old(kv), prompt, Firsts(ids, n), n)
      {
        var token := ids(nGen);
        FirstsAre(ids, nGen, nPredict);
        if !Passes(all, nGen, takes, v) { NoMoreOut(all, nGen, result, takes, v); }
        if v.isEog(token) { return; }
        if !takes(nGen) { return; }
        OneMoreOut(all, nGen, result, takes, v);
        OneMoreWritten(old(kv), prompt, Firsts(ids, nGen), token);
        result := result + v.piece(token);
        n := nGen + 1;
        if v.hasStop(result) { return; }
        var decoded := DecodeOne(token, pos);
        if !decoded { return; }
        pos := pos + 1;
      }
    }

    /** ok: the call got as far as sampling; at is the memory at that moment. A call with room that fails before leaves
        part of the prompt behind what it kept. */
    method GenerateWithTokens(prompt: seq<Token>, prefixLen: nat, maxTokens: int, ids: nat -> Token,
                              takes: nat -> bool, v: Voice)
      returns (ok: bool, result: string, ghost at: Kv, ghost n: nat)
      requires prefixLen <= |prompt| && nBatch > 0
      modifies this`kv, this`faults
      ensures prompt == [] || !Fits(prompt, maxTokens, nCtx) ==> !ok && kv == old(kv)
      ensures ok ==> at == AtSample(old(kv), prompt, prefixLen) && Keep(kv, |prompt|) == at
      ensures prompt != [] && Fits(prompt, maxTokens, nCtx) && !ok ==>
                IsCutShort(old(kv), prompt, KeepFrom(prompt, prefixLen), kv)
      ensures prompt != [] && Fits(prompt, maxTokens, nCtx) && maxTokens < 0 ==>
                !ok && kv == Keep(old(kv), KeepFrom(prompt, prefixLen))
      ensures !ok && prompt != [] && Fits(prompt, maxTokens, nCtx) && maxTokens >= 0 ==> faults > old(faults)
      ensures ok ==> IsGenerated(Firsts(ids, Budget(maxTokens, nCtx - |prompt|)), n, result, faults > old(faults),
                                 takes, v)
      ensures ok ==> WrittenBehind(at, prompt, Firsts(ids, n), kv)
    {
      ok, result, at, n := false, "", map[], 0;
      var nTokens := |prompt|;
      if nTokens == 0 || nCtx <= 0 || nCtx - nTokens < 1 || (maxTokens > 0 && nTokens + maxTokens > nCtx) { return; }

      var clearFrom := if prefixLen == nTokens && nTokens > 0 then prefixLen - 1 else prefixLen;
      if clearFrom >= 0 && clearFrom < nCtx { SeqRm(clearFrom); }

      var samplerFails: bool := *;
      if samplerFails || maxTokens < 0 {
        assert WrittenTo(kv, prompt, clearFrom, nTokens, clearFrom, kv);
        faults := faults + 1;
        return;
      }

      var nPast := prefixLen;
      if prefixLen < nTokens {
        var decoded := DecodeChunks(prompt, prefixLen, nTokens);
        if !decoded { return; }
        nPast := nTokens;
      } else if prefixLen == nTokens && nTokens > 0 {
        var decoded := DecodeRun(prompt, nTokens - 1, nTokens);
        if !decoded { return; }
        nPast := nTokens;
      }
      var genRoom := nCtx - nPast;
      if genRoom < 1 { return; }
      at := kv;
      AtSampleEnds(old(kv), prompt, prefixLen);

      result, n := GenerationLoop(prompt, nPast, Budget(maxTokens, genRoom), ids, takes, v);
      WrittenKeeps(at, prompt, Firsts(ids, n), kv);
      ok := true;
    }

    method Generate(prompt: seq<Token>, caching: bool, maxTokens: int, ids: nat -> Token, takes: nat -> bool, v: Voice)
      returns (ok: bool, result: string, ghost at: Kv, ghost n: nat)
      requires nBatch > 0
      modifies this
      ensures Outcome(State(old(kv), old(cachedTokens)), prompt, caching, maxTokens, nCtx, ok, at,
                      State(kv, cachedTokens))
      ensures !ok && prompt != [] && Fits(prompt, maxTokens, nCtx) && maxTokens >= 0 ==> faults > old(faults)
      ensures ok ==> IsGenerated(Firsts(ids, Budget(maxTokens, nCtx - |prompt|)), n, result, faults > old(faults),
                                 takes, v)
      ensures ok ==> WrittenBehind(at, prompt, Firsts(ids, n), kv)
    {
      if prompt == [] { return false, "", map[], 0; }
      var prefixLen := 0;
      if caching { prefixLen := FindCommonPrefix(cachedTokens, prompt); }
      LcpAgrees(cachedTokens, prompt);
      cachedTokens := if caching then prompt else [];
      ok, result, at, n := GenerateWithTokens(prompt, prefixLen, maxTokens, ids, takes, v);
    }
  }

  // ---------- runs of calls ----------

  datatype State = State(kv: Kv, cached: seq<Token>)

  function PrefixLen(s: State, prompt: seq<Token>, caching: bool): (n: nat)
    ensures n <= |prompt|
  {
    LcpAgrees(s.cached, prompt);
    if caching then Lcp(s.cached, prompt) else 0
  }

  /** What one call may do to the state. */
  ghost predicate Outcome(s: State, prompt: seq<Token>, caching: bool, maxTokens: int, nCtx: int, ok: bool, at: Kv,
                          s': State)
  {
    if prompt == [] then !ok && s' == s
    else
      var n := PrefixLen(s, prompt, caching);
      && s'.cached == (if caching then prompt else [])
      && (!Fits(prompt, maxTokens, nCtx) ==> !ok && s'.kv == s.kv)
      && (ok ==> at == AtSample(s.kv, prompt, n) && Keep(s'.kv, |prompt|) == at)
      && (Fits(prompt, maxTokens, nCtx) && !ok ==> IsCutShort(s.kv, prompt, KeepFrom(prompt, n), s'.kv))
      && (Fits(prompt, maxTokens, nCtx) && maxTokens < 0 ==> !ok && s'.kv == Keep(s.kv, KeepFrom(prompt, n)))
  }

  /** How many of the cached tokens a prompt that fits can make use of. */
  function Usable(cached: seq<Token>, nCtx: int): (n: int)
    ensures n <= |cached|
  {
    if |cached| < nCtx - 2 then |cached| else nCtx - 2
  }

  /** The cached tokens are in memory as far as a prompt that fits can make use of them. */
  predicate Coherent(s: State, nCtx: int) {
    Holds(s.kv, s.cached, Usable(s.cached, nCtx))
  }

  /** Every prompt that fits is served as if nothing had been cached. */
  ghost predicate ServesAll(s: State, nCtx: int) {
    forall prompt: seq<Token> :: prompt != [] && Fits(prompt, 0, nCtx) ==>
      AtSample(s.kv, prompt, PrefixLen(s, prompt, true)) == Exactly(prompt)
  }

  /** Exactly the coherent states do so. */
  lemma CoherentServesAll(s: State, nCtx: int)
    ensures Coherent(s, nCtx) <==> ServesAll(s, nCtx)
  {
    if Coherent(s, nCtx) {
      forall prompt: seq<Token> | prompt != [] && Fits(prompt, 0, nCtx)
        ensures AtSample(s.kv, prompt, PrefixLen(s, prompt, true)) == Exactly(prompt)
      {
        CoherentServes(s, nCtx, prompt);
      }
    } else {
      var prompt := IncoherentMisleads(s, nCtx);
    }
  }

  /** A prompt that shares exactly the tokens up to a missing or stale one and then differs. */
  lemma IncoherentMisleads(s: State, nCtx: int) returns (prompt: seq<Token>)
    requires !Coherent(s, nCtx)
    ensures prompt != [] && Fits(prompt, 0, nCtx)
    ensures AtSample(s.kv, prompt, PrefixLen(s, prompt, true)) != Exactly(prompt)
  {
    var p: nat :| p < |s.cached| && p < nCtx - 2 && !(p in s.kv && s.kv[p] == s.cached[p]);
    var next := if p + 1 < |s.cached| then s.cached[p + 1] + 1 else 0;
    prompt := s.cached[..p + 1] + [next];
    LcpIsLongest(s.cached, prompt, p + 1);
    AtSampleIsExact(s.kv, prompt, p + 1);
    assert prompt[p] == s.cached[p];
  }

  lemma CoherentServes(s: State, nCtx: int, prompt: seq<Token>)
    requires Coherent(s, nCtx) && prompt != [] && Fits(prompt, 0, nCtx)
    ensures AtSample(s.kv, prompt, PrefixLen(s, prompt, true)) == Exactly(prompt)
  {
    var n := Lcp(s.cached, prompt);
    LcpAgrees(s.cached, prompt);
    AtSampleIsExact(s.kv, prompt, n);
  }

  /** A call that succeeds from a coherent state samples from exactly its prompt and leaves a coherent state. */
  lemma SuccessStaysCoherent(s: State, prompt: seq<Token>, caching: bool, maxTokens: int, nCtx: int, at: Kv, s': State)
    requires Coherent(s, nCtx) && Outcome(s, prompt, caching, maxTokens, nCtx, true, at, s')
    ensures at == Exactly(prompt) && Coherent(s', nCtx)
  {
    if caching { CoherentServes(s, nCtx, prompt); } else { AtSampleIsExact(s.kv, prompt, 0); }
    ExactlyAt(prompt);
    forall p: nat | p < |prompt| ensures p in s'.kv && s'.kv[p] == prompt[p] {
      assert p in Keep(s'.kv, |prompt|) && Keep(s'.kv, |prompt|)[p] == prompt[p];
    }
  }

  datatype Call = Call(prompt: seq<Token>, caching: bool, maxTokens: int)

  /** states[i] is the state before call i, ats[i] what call i sampled from. */
  ghost predicate IsRun(states: seq<State>, calls: seq<Call>, ats: seq<Kv>, nCtx: int) {
    && |states| == |calls| + 1 == |ats| + 1
    && states[0] == State(map[], [])
    && forall i :: 0 <= i < |calls| ==>
      Outcome(states[i], calls[i].prompt, calls[i].caching, calls[i].maxTokens, nCtx, true, ats[i], states[i + 1])
  }

  /** In every run of successful calls, with caching on or off call by call, every call samples from its prompt. */
  lemma {:induction false} EveryCallIsExact(states: seq<State>, calls: seq<Call>, ats: seq<Kv>, nCtx: int, i: nat)
    requires IsRun(states, calls, ats, nCtx) && i <= |calls|
    ensures Coherent(states[i], nCtx)
    ensures forall j :: 0 <= j < i ==> ats[j] == Exactly(calls[j].prompt)
  {
    if i > 0 {
      var k := i - 1;
      EveryCallIsExact(states, calls, ats, nCtx, k);
      SuccessStaysCoherent(states[k], calls[k].prompt, calls[k].caching, calls[k].maxTokens, nCtx, ats[k], states[i]);
    }
  }

  // ---------- calls that fail ----------

  /** A call rejected for lack of room stores its prompt as cached without decoding it: every later prompt is served
      right exactly when the memory already held that prompt, as far as it can be used. */
  lemma RejectedServesAll(s: State, prompt: seq<Token>, maxTokens: int, nCtx: int, at: Kv, s': State)
    requires prompt != [] && !Fits(prompt, maxTokens, nCtx) && Outcome(s, prompt, true, maxTokens, nCtx, false, at, s')
    ensures ServesAll(s', nCtx) <==> Holds(s.kv, prompt, Usable(prompt, nCtx))
  {
    CoherentServesAll(s', nCtx);
  }

  /** A call that fails once the memory holds the prompt up to index m, and no more: every later prompt is served right
      exactly when that is as much of it as can be used. */
  lemma CutShortServesAll(s: State, prompt: seq<Token>, maxTokens: int, nCtx: int, at: Kv, s': State, m: nat)
    requires Coherent(s, nCtx) && prompt != [] && Fits(prompt, maxTokens, nCtx)
    requires Outcome(s, prompt, true, maxTokens, nCtx, false, at, s')
    requires var k := KeepFrom(prompt, PrefixLen(s, prompt, true));
             WrittenTo(Keep(s.kv, k), prompt, k, |prompt|, m, s'.kv)
    ensures ServesAll(s', nCtx) <==> m >= Usable(prompt, nCtx)
  {
    var n := PrefixLen(s, prompt, true);
    var k, u := KeepFrom(prompt, n), Usable(prompt, nCtx);
    LcpAgrees(s.cached, prompt);
    RunAt(Keep(s.kv, k), prompt, k, m);
    CoherentServesAll(s', nCtx);
    assert m < u ==> !(m in s'.kv);
  }

  /** A negative number of tokens is refused only after the memory has been cut: a coherent state is left exactly when
      the kept part is as much of the prompt as can be used. */
  lemma NegativeServesAll(s: State, prompt: seq<Token>, maxTokens: int, nCtx: int, ok: bool, at: Kv, s': State)
    requires Coherent(s, nCtx) && prompt != [] && |prompt| < nCtx && maxTokens < 0
    requires Outcome(s, prompt, true, maxTokens, nCtx, ok, at, s')
    ensures ServesAll(s', nCtx) <==> KeepFrom(prompt, PrefixLen(s, prompt, true)) >= Usable(prompt, nCtx)
  {
    var k := KeepFrom(prompt, PrefixLen(s, prompt, true));
    assert WrittenTo(Keep(s.kv, k), prompt, k, |prompt|, k, s'.kv);
    CutShortServesAll(s, prompt, maxTokens, nCtx, at, s', k);
  }

  /** So a rejected call can make the next successful one sample from a prompt nobody sent. */
  lemma RejectionCanCorrupt(s0: State, at0: Kv, s1: State, s2: State, at2: Kv, s3: State)
    requires s0 == State(map[], [])
    requires Outcome(s0, [1, 2], true, 0, 8, true, at0, s1)
    requires Outcome(s1, [1, 3, 4, 5, 6, 7, 8, 9], true, 0, 8, false, map[], s2)
    requires Outcome(s2, [1, 3, 5], true, 0, 8, true, at2, s3)
    ensures at2 != Exactly([1, 3, 5]) && 1 in at2 && at2[1] == 2
  {
    SuccessStaysCoherent(s0, [1, 2], true, 0, 8, at0, s1);
    ExactlyAt([1, 2]);
    assert 1 in Keep(s1.kv, 2) && s1.kv[1] == 2;
    var rejected, prompt := [1, 3, 4, 5, 6, 7, 8, 9], [1, 3, 5];
    LcpIsLongest(rejected, prompt, 2);
    RunAt(Keep(s1.kv, 2), prompt, 2, 3);
    ExactlyAt(prompt);
    assert 1 in at2 && Exactly(prompt)[1] == 3;
  }
}
