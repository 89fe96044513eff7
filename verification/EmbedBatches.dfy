/** Divide-and-conquer embedding of internal/usecase/document_ingest_embed.go. */
module EmbedBatches {

  type Vec = seq<real>

  datatype Result<+T> = Ok(value: T) | Err

  /** An embedding backend. It may fail, answer with the wrong number of vectors or leave vectors empty;
      the other vectors it returns are right. A reliable backend embeds single texts without fail; one that does
      not batch refuses every batch. */
  class Backend {
    const embed: string -> Vec
    const reliable: bool
    const batches: bool
    var calls: nat

    constructor (embed: string -> Vec, reliable: bool, batches: bool)
      ensures this.embed == embed && this.reliable == reliable && this.batches == batches && calls == 0
    {
      this.embed, this.reliable, this.batches, calls := embed, reliable, batches, 0;
    }

    method Embed(text: string) returns (r: Result<Vec>)
      modifies this`calls
      ensures calls == old(calls) + 1
      ensures r.Ok? ==> r.value == [] || r.value == embed(text)
      ensures reliable ==> r == Ok(embed(text))
    {
      calls := calls + 1;
      var fails: bool, empty: bool := *, *;
      if reliable { return Ok(embed(text)); }
      if fails { return Err; }
      return Ok(if empty then [] else embed(text));
    }

    method EmbedBatch(texts: seq<string>) returns (r: Result<array<Vec>>)
      modifies this`calls
      ensures calls == old(calls) + 1
      ensures !batches ==> r.Err?
      ensures r.Ok? ==> fresh(r.value)
      ensures r.Ok? && r.value.Length == |texts| ==>
        forall i :: 0 <= i < |texts| ==> r.value[i] == [] || r.value[i] == embed(texts[i])
    {
      calls := calls + 1;
      var fails: bool, n: nat := *, *;
      if fails || !batches { return Err; }
      var batch := new Vec[n](_ => []);
      for i := 0 to n
        invariant calls == old(calls) + 1
        invariant forall j :: 0 <= j < i && j < |texts| ==> batch[j] == [] || batch[j] == embed(texts[j])
        invariant forall j :: i <= j < n ==> batch[j] == []
      {
        var empty: bool := *;
        if !empty && i < |texts| { batch[i] := embed(texts[i]); }
      }
      return Ok(batch);
    }
  }

  /** One non-empty vector per text, in order, each the embedding of its text. */
  ghost predicate AllEmbedded(embed: string -> Vec, texts: seq<string>, vecs: seq<Vec>) {
    |vecs| == |texts| && forall i :: 0 <= i < |texts| ==> vecs[i] == embed(texts[i]) && vecs[i] != []
  }

  /** No text embeds to an empty vector. */
  ghost predicate NeverEmpty(embed: string -> Vec) {
    forall t :: embed(t) != []
  }

  method EmbedTextsRecursive(llm: Backend, texts: seq<string>) returns (r: Result<seq<Vec>>)
    modifies llm`calls
    ensures r.Ok? ==> AllEmbedded(llm.embed, texts, r.value)
    ensures llm.reliable && NeverEmpty(llm.embed) ==> r.Ok?
    ensures llm.calls - old(llm.calls) <= if texts == [] then 0 else 2 * |texts| - 1
    ensures llm.reliable && NeverEmpty(llm.embed) && !llm.batches && texts != [] ==>
      llm.calls == old(llm.calls) + 2 * |texts| - 1
    decreases |texts|, if |texts| == 1 then 0 else 2
  {
    if |texts| == 0 { return Ok([]); }
    if |texts| == 1 {
      var v := llm.Embed(texts[0]);
      if v.Err? || v.value == [] { return Err; }
      return Ok([v.value]);
    }
    var answer := llm.EmbedBatch(texts);
    if answer.Err? {
      r := SplitAndEmbed(llm, texts);
      return;
    }
    var batch := answer.value;
    if batch.Length != |texts| {
      r := SplitAndEmbed(llm, texts);
      return;
    }
    for i := 0 to batch.Length
      invariant forall j :: 0 <= j < i ==> batch[j] == llm.embed(texts[j]) && batch[j] != []
      invariant forall j :: i <= j < batch.Length ==> batch[j] == [] || batch[j] == llm.embed(texts[j])
      invariant llm.calls <= old(llm.calls) + 1 + i
    {
      if batch[i] == [] {
        var one := EmbedTextsRecursive(llm, texts[i..i + 1]);
        if one.Err? { return Err; }
        batch[i] := one.value[0];
      }
    }
    return Ok(batch[..]);
  }

  method SplitAndEmbed(llm: Backend, texts: seq<string>) returns (r: Result<seq<Vec>>)
    requires texts != []
    modifies llm`calls
    ensures r.Ok? ==> AllEmbedded(llm.embed, texts, r.value)
    ensures llm.reliable && NeverEmpty(llm.embed) ==> r.Ok?
    ensures llm.calls - old(llm.calls) <= if |texts| == 1 then 1 else 2 * |texts| - 2
    ensures llm.reliable && NeverEmpty(llm.embed) && !llm.batches ==>
      llm.calls == old(llm.calls) + if |texts| == 1 then 1 else 2 * |texts| - 2
    decreases |texts|, 1
  {
    if |texts| == 1 {
      r := EmbedTextsRecursive(llm, texts);
      return;
    }
    var mid := |texts| / 2;
    var a := EmbedTextsRecursive(llm, texts[..mid]);
    if a.Err? { return Err; }
    var b := EmbedTextsRecursive(llm, texts[mid..]);
    if b.Err? { return Err; }
    return Ok(a.value + b.value);
  }

  lemma EmbeddedTogether(embed: string -> Vec, texts: seq<string>, i: nat, end: nat, a: seq<Vec>, b: seq<Vec>)
    requires i <= end <= |texts| && AllEmbedded(embed, texts[..i], a) && AllEmbedded(embed, texts[i..end], b)
    ensures AllEmbedded(embed, texts[..end], a + b)
  {
    assert texts[..end] == texts[..i] + texts[i..end];
  }

  /** Any batch size gives the same vectors; the number of backend calls stays below twice the number of texts. */
  method EmbedTextsBatches(llm: Backend, texts: seq<string>, batchSize: int) returns (r: Result<seq<Vec>>)
    modifies llm`calls
    ensures r.Ok? ==> AllEmbedded(llm.embed, texts, r.value)
    ensures llm.reliable && NeverEmpty(llm.embed) ==> r.Ok?
    ensures llm.calls - old(llm.calls) <= if texts == [] then 0 else 2 * |texts| - 1
  {
    if |texts| == 0 { return Ok([]); }
    var size := if batchSize <= 0 then 32 else batchSize;
    var out: seq<Vec> := [];
    var i := 0;
    while i < |texts|
      invariant 0 <= i && |out| == if i < |texts| then i else |texts|
      invariant AllEmbedded(llm.embed, texts[..|out|], out)
      invariant llm.calls - old(llm.calls) <= if out == [] then 0 else 2 * |out| - 1
      decreases |texts| - i
    {
      var end := if i + size < |texts| then i + size else |texts|;
      var part := EmbedTextsRecursive(llm, texts[i..end]);
      if part.Err? { return Err; }
      EmbeddedTogether(llm.embed, texts, i, end, out, part.value);
      out := out + part.value;
      i := i + size;
    }
    // The closing check of the count never fires.
    assert texts[..|out|] == texts;
    return Ok(out);
  }
}
