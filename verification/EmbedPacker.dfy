/** Batched embeddings of llm-runner/llama/wrapper.cpp: many texts in one decode, one sequence id each. */
module EmbedPacker {
  import opened Strings

  type Token = int
  type Vec = seq<real>

  /** The tokens each sequence of the llama memory holds. */
  type Mem = map<nat, seq<Token>>

  datatype Entry = Entry(token: Token, pos: nat, seqId: nat)

  function Row(mem: Mem, s: nat): seq<Token> {
    if s in mem then mem[s] else []
  }

  /** Decoding needs every token at the next position of its sequence. */
  function Append(mem: Mem, batch: seq<Entry>): Option<Mem> {
    if batch == [] then Some(mem)
    else
      var e := batch[|batch| - 1];
      match Append(mem, batch[..|batch| - 1])
      case None => None
      case Some(m) => if |Row(m, e.seqId)| == e.pos then Some(m[e.seqId := Row(m, e.seqId) + [e.token]]) else None
  }

  // ---------- what a batch holds ----------

  function TextEntries(text: seq<Token>, s: nat): seq<Entry> {
    seq(|text|, j requires 0 <= j < |text| => Entry(text[j], j, s))
  }

  /** Texts under the sequence ids 0, 1, 2, ... */
  function Pack(texts: seq<seq<Token>>): seq<Entry> {
    if texts == [] then []
    else
      var s := |texts| - 1;
      Pack(texts[..s]) + TextEntries(texts[s], s)
  }

  /** The memory holds exactly these texts, sequence by sequence. */
  ghost predicate HoldsTexts(mem: Mem, texts: seq<seq<Token>>) {
    && (forall s :: s in mem ==> s < |texts|)
    && forall s :: 0 <= s < |texts| ==> Row(mem, s) == texts[s]
  }

  lemma {:induction false} AppendEntries(mem: Mem, m: Mem, batch: seq<Entry>, text: seq<Token>, s: nat, j: nat)
    returns (m': Mem)
    requires Append(mem, batch) == Some(m) && Row(m, s) == [] && j <= |text|
    ensures Append(mem, batch + TextEntries(text, s)[..j]) == Some(m')
    ensures Row(m', s) == text[..j] && OnlyRow(m, m', s)
  {
    if j == 0 {
      assert batch + TextEntries(text, s)[..j] == batch;
      m' := m;
    } else {
      var m1 := AppendEntries(mem, m, batch, text, s, j - 1);
      var e := Entry(text[j - 1], j - 1, s);
      EntriesNext(batch, text, s, j);
      AppendOne(mem, m1, batch + TextEntries(text, s)[..j - 1], e);
      m' := m1[s := Row(m1, s) + [text[j - 1]]];
    }
  }

  /** The two memories differ in row s at most. */
  ghost predicate OnlyRow(m: Mem, m': Mem, s: nat) {
    forall q :: q != s ==> (q in m' <==> q in m) && Row(m', q) == Row(m, q)
  }

  lemma EntriesNext(batch: seq<Entry>, text: seq<Token>, s: nat, j: nat)
    requires 0 < j <= |text|
    ensures batch + TextEntries(text, s)[..j]
            == batch + TextEntries(text, s)[..j - 1] + [Entry(text[j - 1], j - 1, s)]
    ensures text[..j] == text[..j - 1] + [text[j - 1]]
  {
    assert TextEntries(text, s)[..j] == TextEntries(text, s)[..j - 1] + [Entry(text[j - 1], j - 1, s)];
  }

  lemma AppendOne(mem: Mem, m: Mem, batch: seq<Entry>, e: Entry)
    requires Append(mem, batch) == Some(m) && |Row(m, e.seqId)| == e.pos
    ensures Append(mem, batch + [e]) == Some(m[e.seqId := Row(m, e.seqId) + [e.token]])
  {
    assert (batch + [e])[..|batch|] == batch;
  }

  /** A packed batch decodes into an empty memory, each text into its own sequence. */
  lemma {:induction false} PackDecodes(texts: seq<seq<Token>>) returns (m: Mem)
    requires forall t :: t in texts ==> t != []
    ensures Append(map[], Pack(texts)) == Some(m) && HoldsTexts(m, texts)
  {
    if texts == [] {
      m := map[];
    } else {
      var s := |texts| - 1;
      var t := texts[s];
      assert forall q :: q in texts[..s] ==> q in texts;
      var m0 := PackDecodes(texts[..s]);
      assert s !in m0;
      m := AppendEntries(map[], m0, Pack(texts[..s]), t, s, |t|);
      assert TextEntries(t, s)[..|t|] == TextEntries(t, s) && t[..|t|] == t;
      HoldsOneMore(m0, m, texts);
    }
  }

  lemma HoldsOneMore(m: Mem, m': Mem, texts: seq<seq<Token>>)
    requires texts != [] && HoldsTexts(m, texts[..|texts| - 1]) && OnlyRow(m, m', |texts| - 1)
    requires Row(m', |texts| - 1) == texts[|texts| - 1]
    ensures HoldsTexts(m', texts)
  {
    assert forall q :: 0 <= q < |texts| - 1 ==> texts[..|texts| - 1][q] == texts[q];
  }

  lemma PackAppend(texts: seq<seq<Token>>, t: seq<Token>)
    ensures Pack(texts + [t]) == Pack(texts) + TextEntries(t, |texts|)
  {
    assert (texts + [t])[..|texts|] == texts;
  }

  lemma PackNext(texts: seq<seq<Token>>, a: nat, k: nat)
    requires a <= k < |texts|
    ensures Pack(texts[a..k + 1]) == Pack(texts[a..k]) + TextEntries(texts[k], k - a)
  {
    assert texts[a..k + 1] == texts[a..k] + [texts[k]];
    PackAppend(texts[a..k], texts[k]);
  }

  // ---------- the algorithm ----------

  class Context {
    var mem: Mem
    const nBatch: nat
    const nSeqMax: nat
    const embed: seq<Token> -> Vec

    constructor (nBatch: nat, nSeqMax: nat, embed: seq<Token> -> Vec)
      ensures this.nBatch == nBatch && this.nSeqMax == nSeqMax && this.embed == embed
    {
      mem := map[];
      this.nBatch, this.nSeqMax, this.embed := nBatch, nSeqMax, embed;
    }

    /** An empty batch is refused; any other may fail, and leave anything behind. */
    method Decode(batch: seq<Entry>) returns (ok: bool)
      modifies this`mem
      ensures ok ==> batch != [] && Append(old(mem), batch) == Some(mem)
    {
      var m := Append(mem, batch);
      ok := *;
      if ok && batch != [] && m.Some? {
        mem := m.value;
      } else {
        ok := false;
        mem := *;
      }
    }

    /** llama_memory_seq_rm(mem, s, -1, -1) */
    method ClearSequence(s: nat)
      modifies this`mem
      ensures mem == old(mem) - {s}
    {
      mem := mem - {s};
    }

    /** Decodes the batch and copies the vector of every sequence in it to the next free slots of the output. */
    method Flush(batch: seq<Entry>, s: nat, embeddings: array<Vec>, stored: nat, ghost texts: seq<seq<Token>>)
      returns (ok: bool)
      requires stored + s <= embeddings.Length
      requires |texts| == s && batch == Pack(texts) && mem == map[] && forall t :: t in texts ==> t != []
      modifies this`mem, embeddings
      ensures ok ==> batch != [] && HoldsTexts(mem, texts)
      ensures ok ==> forall i :: 0 <= i < embeddings.Length ==>
        embeddings[i] == if stored <= i < stored + s then embed(texts[i - stored]) else old(embeddings[i])
    {
      ghost var m := PackDecodes(texts);
      ok := Decode(batch);
      if !ok { return; }
      for q := 0 to s
        invariant HoldsTexts(mem, texts)
        invariant forall i :: 0 <= i < embeddings.Length ==>
          embeddings[i] == if stored <= i < stored + q then embed(texts[i - stored]) else old(embeddings[i])
      {
        var missing: bool := *;
        if missing { return false; }
        embeddings[stored + q] := embed(Row(mem, q));
      }
    }

    /** Frees the sequences of a batch that has been copied out. */
    method ClearSequences(s: nat)
      requires forall p :: p in mem ==> p < s
      modifies this`mem
      ensures mem == map[]
    {
      for q := 0 to s
        invariant forall p :: p in mem ==> q <= p < s
      {
        ClearSequence(q);
      }
    }

    /** None: an error return, or the abort of adding to a full batch. */
    method EmbeddingsBatch(allTokens: seq<seq<Token>>, embeddings: array<Vec>) returns (r: Option<nat>)
      requires embeddings.Length == |allTokens|
      modifies this`mem, embeddings
      ensures r.Some? ==> r.value == |allTokens| > 0
      ensures r.Some? ==> forall k :: 0 <= k < |allTokens| ==> embeddings[k] == embed(allTokens[k])
      ensures r.Some? ==> forall k :: 0 <= k < |allTokens| ==> 1 <= |allTokens[k]| <= nBatch
    {
      var nTexts := |allTokens|;
      if nTexts == 0 || [] in allTokens { return None; }
      mem := map[];
      var batch: seq<Entry>, stored, s: nat := [], 0, 0;
      for k := 0 to nTexts
        invariant stored + s == k && mem == map[]
        invariant batch == Pack(allTokens[stored..k])
        invariant forall i :: 0 <= i < stored ==> embeddings[i] == embed(allTokens[i])
        invariant forall i :: 0 <= i < k ==> |allTokens[i]| <= nBatch
      {
        var tokens := allTokens[k];
        if |batch| + |tokens| > nBatch || s >= nSeqMax {
          ghost var texts := allTokens[stored..k];
          var ok := Flush(batch, s, embeddings, stored, texts);
          if !ok { return None; }
          ClearSequences(s);
          stored, s, batch := k, 0, [];
        }
        if |batch| + |tokens| > nBatch { return None; }
        PackNext(allTokens, stored, k);
        batch := batch + TextEntries(tokens, s);
        s := s + 1;
      }
      if s > 0 {
        var ok := Flush(batch, s, embeddings, stored, allTokens[stored..nTexts]);
        if !ok { return None; }
        stored := stored + s;
      }
      // The closing check of the count never fires.
      assert stored == nTexts;
      return Some(stored);
    }
  }
}
