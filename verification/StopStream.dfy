/** The streaming stop filter of llm-runner/service/stop_stream.go. */
module StopStream {
  import opened Strings

  /** len(s) in Go: the length of the UTF-8 encoding. */
  function RuneBytes(c: char): nat {
    var n := c as int;
    if n < 0x80 then 1 else if n < 0x800 then 2 else if n < 0x1_0000 then 3 else 4
  }

  function ByteLen(s: string): nat {
    if s == [] then 0 else ByteLen(s[..|s| - 1]) + RuneBytes(s[|s| - 1])
  }

  const IM_END := "<|im_end|>"
  const IM_END_FW := "<\U{FF5C}im_end\U{FF5C}>"
  const EOT := "<|eot_id|>"

  const NOISE: seq<string> :=
    [IM_END, IM_END + "\n", IM_END + "\r\n", IM_END_FW, EOT, EOT + "\n", EOT + "\r\n"]

  /** sort.Slice by descending byte length, in whatever order it leaves equal lengths. */
  ghost predicate Sorts(sort: seq<string> -> seq<string>) {
    forall ss :: IsSortOf(sort(ss), ss)
  }

  ghost predicate IsSortOf(ts: seq<string>, ss: seq<string>) {
    (forall t :: t in ts <==> t in ss) && Descends(ts)
  }

  predicate Descends(ts: seq<string>) {
    forall i, j :: 0 <= i < j < |ts| ==> ByteLen(ts[i]) >= ByteLen(ts[j])
  }

  /** t in front of the first stop that is not longer. */
  function Insert(t: string, ts: seq<string>): seq<string> {
    if ts == [] || ByteLen(t) >= ByteLen(ts[0]) then [t] + ts else [ts[0]] + Insert(t, ts[1..])
  }

  /** One such order, which leaves equal lengths as they were. */
  function ByLength(ss: seq<string>): seq<string> {
    if ss == [] then [] else Insert(ss[0], ByLength(ss[1..]))
  }

  lemma InsertSorts(t: string, ts: seq<string>, ss: seq<string>)
    requires IsSortOf(ts, ss)
    ensures IsSortOf(Insert(t, ts), [t] + ss)
  {
    InsertKeeps(t, ts);
    InsertDescends(t, ts);
  }

  lemma {:induction false} InsertKeeps(t: string, ts: seq<string>)
    ensures forall u :: u in Insert(t, ts) <==> u == t || u in ts
  {
    if ts != [] && ByteLen(t) < ByteLen(ts[0]) {
      InsertKeeps(t, ts[1..]);
      assert forall u :: u in ts <==> u == ts[0] || u in ts[1..];
    }
  }

  lemma {:induction false} InsertDescends(t: string, ts: seq<string>)
    requires Descends(ts)
    ensures Descends(Insert(t, ts))
  {
    if ts != [] && ByteLen(t) < ByteLen(ts[0]) {
      InsertDescends(t, ts[1..]);
      InsertKeeps(t, ts[1..]);
      var rest := Insert(t, ts[1..]);
      forall j | 0 <= j < |rest| ensures ByteLen(ts[0]) >= ByteLen(rest[j]) {
        assert rest[j] in rest;
      }
    }
  }

  lemma {:induction false} ByLengthSorts(ss: seq<string>)
    ensures IsSortOf(ByLength(ss), ss)
  {
    if ss != [] {
      ByLengthSorts(ss[1..]);
      InsertSorts(ss[0], ByLength(ss[1..]), ss[1..]);
      assert ss == [ss[0]] + ss[1..];
    }
  }

  /** What is asked of the sort can be had. */
  lemma SortsExists()
    ensures Sorts(ss => ByLength(ss))
  {
    var sort := (ss: seq<string>) => ByLength(ss);
    forall ss ensures IsSortOf(sort(ss), ss) {
      ByLengthSorts(ss);
    }
  }

  function CutSuffix(s: string, t: string): string {
    if t != [] && HasSuffix(s, t) then s[..|s| - |t|] else s
  }

  /** One pass over the stops. */
  function Pass(s: string, stops: seq<string>): string
    decreases |stops|
  {
    if stops == [] then s else Pass(CutSuffix(s, stops[0]), stops[1..])
  }

  lemma {:induction false} PassShortens(s: string, stops: seq<string>)
    ensures Pass(s, stops) <= s
    decreases |stops|
  {
    if stops != [] { PassShortens(CutSuffix(s, stops[0]), stops[1..]); }
  }

  /** Passes until one changes nothing. */
  function Passes(s: string, stops: seq<string>): string
    decreases |s|
  {
    PassShortens(s, stops);
    var r := Pass(s, stops);
    if r == s then s else Passes(r, stops)
  }

  function TrimStops(s: string, stops: seq<string>, sort: seq<string> -> seq<string>): string {
    if s == [] || stops == [] then s else TrimRight(Passes(s, sort(stops)), IsBlankRune)
  }

  lemma {:induction false} PassAppend(s: string, a: seq<string>, t: string)
    ensures Pass(s, a + [t]) == CutSuffix(Pass(s, a), t)
    decreases |a|
  {
    if a == [] {
      assert (a + [t])[1..] == [];
    } else {
      PassAppend(CutSuffix(s, a[0]), a[1..], t);
      assert (a + [t])[1..] == a[1..] + [t];
    }
  }

  method TrimTrailingStops(s: string, stops: seq<string>, sort: seq<string> -> seq<string>) returns (r: string)
    ensures r == TrimStops(s, stops, sort)
  {
    if s == "" || |stops| == 0 { return s; }
    var st := sort(stops);
    var out, changed := s, true;
    while changed
      invariant Passes(out, st) == Passes(s, st)
      invariant !changed ==> Passes(out, st) == out
      decreases |out|, changed
    {
      changed := false;
      ghost var before := out;
      for i := 0 to |st|
        invariant out == Pass(before, st[..i])
        invariant changed <==> out != before
        invariant out <= before
      {
        PassAppend(before, st[..i], st[i]);
        assert st[..i + 1] == st[..i] + [st[i]];
        var t := st[i];
        if t != "" && HasSuffix(out, t) {
          out := out[..|out| - |t|];
          changed := true;
        }
      }
      assert st[..|st|] == st;
    }
    return TrimRight(out, IsBlankRune);
  }

  // ---------- the filter ----------

  /** The held-back end of the text is what flush trims, first of the stops, then of the noise. */
  function TrimEnd(s: string, stops: seq<string>, sort: seq<string> -> seq<string>): string {
    TrimStops(TrimStops(s, stops, sort), NOISE, sort)
  }

  /** What the filter holds back of a text. */
  function Held(text: string, maxRunes: nat): (end: string)
    ensures |end| == if |text| < maxRunes then |text| else maxRunes
  {
    text[if |text| < maxRunes then 0 else |text| - maxRunes..]
  }

  /** All that comes out for a text, whatever pieces it arrived in. */
  function Output(text: string, stops: seq<string>, maxRunes: nat, sort: seq<string> -> seq<string>): string {
    var end := Held(text, maxRunes);
    text[..|text| - |end|] + TrimEnd(end, stops, sort)
  }

  class StopStreamFilter {
    const stops: seq<string>
    const maxRunes: nat
    const sort: seq<string> -> seq<string>
    var buf: string
    var emitted: string
    /** The pieces pushed so far, one after the other. */
    ghost var text: string

    ghost predicate Valid()
      reads this
    {
      |buf| <= maxRunes && |buf| == (if |text| < maxRunes then |text| else maxRunes) && emitted + buf == text
    }

    /** merged stands for the stops merged with the noise: trimmed and without repeats. */
    constructor (merged: seq<string>, sort: seq<string> -> seq<string>)
      requires Sorts(sort)
      ensures Valid() && text == "" && this.sort == sort
      ensures IsFilter(merged, stops, maxRunes)
    {
      var cleaned: seq<string>, n: nat := [], 0;
      for i := 0 to |merged|
        invariant forall s :: s in cleaned <==> exists m :: m in merged[..i] && s == TrimSpace(m) && s != ""
        invariant forall s :: s in cleaned ==> |s| <= n
        invariant n > 0 ==> exists s :: s in cleaned && |s| == n
      {
        var s := TrimSpace(merged[i]);
        if s != "" {
          cleaned := cleaned + [s];
          if |s| > n { n := |s|; }
        }
      }
      assert merged[..|merged|] == merged;
      stops, maxRunes, this.sort := sort(cleaned), n, sort;
      buf, emitted, text := "", "", "";
      new;
      assert IsSortOf(stops, cleaned);
    }

    method Push(piece: string)
      requires Valid()
      modifies this
      ensures Valid() && text == old(text) + piece
      ensures old(emitted) <= emitted
    {
      text := text + piece;
      if piece == "" { return; }
      if maxRunes == 0 {
        emitted := emitted + piece;
        assert emitted + buf == text;
        return;
      }
      buf := buf + piece;
      while |buf| > maxRunes
        invariant text == old(text) + piece && emitted + buf == text && old(emitted) <= emitted
        invariant |buf| >= if |text| < maxRunes then |text| else maxRunes
        decreases |buf|
      {
        var emitCount := |buf| - maxRunes;
        emitted := emitted + buf[..emitCount];
        buf := buf[emitCount..];
      }
    }

    method Flush()
      requires Valid()
      modifies this
      ensures emitted == Output(text, stops, maxRunes, sort) && text == old(text) && buf == ""
    {
      assert text[..|text| - |buf|] == emitted && text[|text| - |buf|..] == buf;
      var rest := TrimTrailingStops(buf, stops, sort);
      rest := TrimTrailingStops(rest, NOISE, sort);
      buf := "";
      emitted := emitted + rest;
    }
  }

  /** What a stream was filtered with: the trimmed stops, and the runes of the longest. */
  ghost predicate IsFilter(merged: seq<string>, stops: seq<string>, maxRunes: nat) {
    && (forall s :: s in stops <==> exists m :: m in merged && s == TrimSpace(m) && s != "")
    && (forall s :: s in stops ==> |s| <= maxRunes)
    && (maxRunes > 0 ==> exists s :: s in stops && |s| == maxRunes)
  }

  /** However the text is cut into pieces, the same comes out. */
  method Stream(pieces: seq<string>, merged: seq<string>, sort: seq<string> -> seq<string>)
    returns (out: string, stops: seq<string>, maxRunes: nat)
    requires Sorts(sort)
    ensures IsFilter(merged, stops, maxRunes) && out == Output(Concat(pieces), stops, maxRunes, sort)
  {
    var f := new StopStreamFilter(merged, sort);
    stops, maxRunes := f.stops, f.maxRunes;
    for i := 0 to |pieces|
      invariant f.Valid() && fresh(f) && f.text == Concat(pieces[..i])
    {
      f.Push(pieces[i]);
      assert pieces[..i + 1] == pieces[..i] + [pieces[i]];
      ConcatAppend(pieces[..i], [pieces[i]]);
    }
    f.Flush();
    assert pieces[..|pieces|] == pieces;
    out := f.emitted;
  }

  // ---------- what trimming removes ----------

  lemma {:induction false} PassesShorten(s: string, stops: seq<string>)
    ensures Passes(s, stops) <= s
    decreases |s|
  {
    PassShortens(s, stops);
    if Pass(s, stops) != s { PassesShorten(Pass(s, stops), stops); }
  }

  lemma TrimStopsShortens(s: string, stops: seq<string>, sort: seq<string> -> seq<string>)
    ensures TrimStops(s, stops, sort) <= s
  {
    PassesShorten(s, sort(stops));
    var r := TrimRightParts(Passes(s, sort(stops)), IsBlankRune);
  }

  lemma PrefixBehind(text: string, k: nat, t: string)
    requires k <= |text| && t <= text[k..]
    ensures text[..k] + t <= text
  {
  }

  /** Only the end of the text is ever held back or removed. */
  lemma OutputIsPrefix(text: string, stops: seq<string>, maxRunes: nat, sort: seq<string> -> seq<string>)
    ensures Output(text, stops, maxRunes, sort) <= text
  {
    var end := Held(text, maxRunes);
    TrimStopsShortens(end, stops, sort);
    TrimStopsShortens(TrimStops(end, stops, sort), NOISE, sort);
    PrefixBehind(text, |text| - |end|, TrimEnd(end, stops, sort));
  }

  lemma {:induction false} ByteLenConcat(a: string, b: string)
    ensures ByteLen(a + b) == ByteLen(a) + ByteLen(b) && ByteLen(b) >= |b|
  {
    if b == [] {
      assert a + b == a;
    } else {
      ByteLenConcat(a, b[..|b| - 1]);
      assert (a + b)[..|a + b| - 1] == a + b[..|b| - 1];
    }
  }

  /** Of two suffixes the one with more runes has more bytes. */
  lemma LongerSuffixHasMoreBytes(s: string, t: string, u: string)
    requires HasSuffix(s, t) && HasSuffix(s, u) && |t| < |u|
    ensures ByteLen(t) < ByteLen(u)
  {
    var front := u[..|u| - |t|];
    assert u == front + t by { assert s[|s| - |u|..] == s[|s| - |u|..|s| - |t|] + s[|s| - |t|..]; }
    ByteLenConcat(front, t);
    ByteLenConcat([], front);
    assert [] + front == front;
  }

  /** A pass over sorted stops removes at least the length of any stop the text ends in. */
  lemma {:induction false} PassRemoves(s: string, stops: seq<string>, t: string)
    requires t in stops && t != [] && HasSuffix(s, t)
    requires Descends(stops)
    ensures |Pass(s, stops)| <= |s| - |t|
    decreases |stops|
  {
    var u := stops[0];
    PassShortens(CutSuffix(s, u), stops[1..]);
    if u != [] && HasSuffix(s, u) {
      if u != t {
        var j :| 0 < j < |stops| && stops[j] == t;
        if |u| < |t| { LongerSuffixHasMoreBytes(s, u, t); }
      }
    } else {
      assert t in stops[1..];
      PassRemoves(s, stops[1..], t);
    }
  }

  lemma TrimStopsRemoves(s: string, stops: seq<string>, sort: seq<string> -> seq<string>, t: string)
    requires Sorts(sort) && t in stops && t != [] && HasSuffix(s, t)
    ensures |TrimStops(s, stops, sort)| <= |s| - |t|
  {
    var sorted := sort(stops);
    assert IsSortOf(sorted, stops);
    PassRemoves(s, sorted, t);
    PassesShorten(Pass(s, sorted), sorted);
    var r := TrimRightParts(Passes(s, sorted), IsBlankRune);
  }

  lemma HeldSuffix(text: string, t: string, maxRunes: nat)
    requires HasSuffix(text, t) && |t| <= maxRunes
    ensures HasSuffix(Held(text, maxRunes), t)
  {
    var end := Held(text, maxRunes);
    assert end[|end| - |t|..] == text[|text| - |t|..];
  }

  /** A text that ends in a stop comes out shorter by at least that stop. */
  lemma StopIsRemoved(text: string, stops: seq<string>, maxRunes: nat, sort: seq<string> -> seq<string>, t: string)
    requires Sorts(sort) && t in stops && t != [] && |t| <= maxRunes && HasSuffix(text, t)
    ensures |Output(text, stops, maxRunes, sort)| <= |text| - |t|
  {
    var end := Held(text, maxRunes);
    HeldSuffix(text, t, maxRunes);
    TrimStopsRemoves(end, stops, sort, t);
    TrimStopsShortens(TrimStops(end, stops, sort), NOISE, sort);
  }

  // ---------- nothing else is removed ----------

  /** t is made of these words, one after the other. */
  ghost predicate IsRow(t: string, words: seq<string>) {
    exists ws: seq<string> :: RowOf(t, ws, words)
  }

  ghost predicate RowOf(t: string, ws: seq<string>, words: seq<string>) {
    t == Concat(ws) && forall w :: w in ws ==> w in words
  }

  lemma NoRow(words: seq<string>)
    ensures IsRow("", words)
  {
    assert RowOf("", [], words);
  }

  lemma OneWordRow(t: string, w: string, words: seq<string>)
    requires IsRow(t, words) && w in words
    ensures IsRow(t + w, words)
  {
    var ws :| RowOf(t, ws, words);
    ConcatAppend(ws, [w]);
    ConcatOne(w);
    assert RowOf(t + w, ws + [w], words);
  }

  lemma TwoRows(t: string, u: string, words: seq<string>)
    requires IsRow(t, words) && IsRow(u, words)
    ensures IsRow(t + u, words)
  {
    var ws :| RowOf(t, ws, words);
    var us :| RowOf(u, us, words);
    ConcatAppend(ws, us);
    assert RowOf(t + u, ws + us, words);
  }

  lemma {:induction false} PassCuts(s: string, stops: seq<string>, words: seq<string>) returns (t: string)
    requires forall w :: w in stops ==> w in words
    ensures s == Pass(s, stops) + t && IsRow(t, words)
    decreases |stops|
  {
    if stops == [] {
      t := "";
      NoRow(words);
    } else {
      var w, less := stops[0], CutSuffix(s, stops[0]);
      t := PassCuts(less, stops[1..], words);
      if less != s {
        assert s == less + w;
        Assoc(Pass(s, stops), t, w);
        OneWordRow(t, w, words);
        t := t + w;
      }
    }
  }

  lemma {:induction false} PassesCut(s: string, stops: seq<string>, words: seq<string>) returns (t: string)
    requires forall w :: w in stops ==> w in words
    ensures s == Passes(s, stops) + t && IsRow(t, words)
    decreases |s|
  {
    PassShortens(s, stops);
    t := PassCuts(s, stops, words);
    var less := Pass(s, stops);
    if less != s {
      var more := PassesCut(less, stops, words);
      TwoRows(more, t, words);
      Assoc(Passes(s, stops), more, t);
      t := more + t;
    } else {
      t := "";
      NoRow(words);
    }
  }

  lemma {:induction false} PassFixed(s: string, stops: seq<string>, w: string)
    requires Pass(s, stops) == s && w in stops && w != ""
    ensures !HasSuffix(s, w)
    decreases |stops|
  {
    PassShortens(CutSuffix(s, stops[0]), stops[1..]);
    if w != stops[0] { PassFixed(s, stops[1..], w); }
  }

  lemma {:induction false} PassesEnd(s: string, stops: seq<string>, w: string)
    requires w in stops && w != ""
    ensures !HasSuffix(Passes(s, stops), w)
    decreases |s|
  {
    PassShortens(s, stops);
    if Pass(s, stops) == s { PassFixed(s, stops, w); } else { PassesEnd(Pass(s, stops), stops, w); }
  }

  /** All stops at the end go, and then all blank runes. */
  lemma AllStopsGo(s: string, stops: seq<string>, sort: seq<string> -> seq<string>) returns (blanks: string)
    requires Sorts(sort) && s != "" && stops != []
    ensures var r := TrimStops(s, stops, sort);
            && r + blanks <= s && All(blanks, IsBlankRune) && (r != "" ==> !IsBlankRune(r[|r| - 1]))
            && forall w :: w in stops && w != "" ==> !HasSuffix(r + blanks, w)
  {
    var sorted := sort(stops);
    assert IsSortOf(sorted, stops);
    PassesShorten(s, sorted);
    blanks := TrimRightParts(Passes(s, sorted), IsBlankRune);
    forall w | w in stops && w != "" ensures !HasSuffix(Passes(s, sorted), w) {
      PassesEnd(s, sorted, w);
    }
  }

  /** Blank runes and then stops are taken off the end. */
  lemma TrimStopsCuts(s: string, stops: seq<string>, sort: seq<string> -> seq<string>)
    returns (blanks: string, row: string)
    requires Sorts(sort)
    ensures s == TrimStops(s, stops, sort) + blanks + row && All(blanks, IsBlankRune) && IsRow(row, stops)
  {
    NoRow(stops);
    if s == [] || stops == [] {
      blanks, row := "", "";
    } else {
      var sorted := sort(stops);
      assert IsSortOf(sorted, stops);
      row := PassesCut(s, sorted, stops);
      blanks := TrimRightParts(Passes(s, sorted), IsBlankRune);
    }
  }

  /** All that is missing from the output, from the back: stops, then blank runes, then noise, then blank runes. */
  lemma OutputCuts(text: string, stops: seq<string>, maxRunes: nat, sort: seq<string> -> seq<string>)
    returns (blanks: string, noise: string, more: string, row: string)
    requires Sorts(sort)
    ensures text == Output(text, stops, maxRunes, sort) + (blanks + noise + more + row)
    ensures All(blanks, IsBlankRune) && IsRow(noise, NOISE) && All(more, IsBlankRune) && IsRow(row, stops)
  {
    var end := Held(text, maxRunes);
    var once := TrimStops(end, stops, sort);
    more, row := TrimStopsCuts(end, stops, sort);
    blanks, noise := TrimStopsCuts(once, NOISE, sort);
    assert text == text[..|text| - |end|] + end;
    Regroup(text[..|text| - |end|], TrimStops(once, NOISE, sort), blanks, noise, more, row);
  }

  lemma Regroup(front: string, kept: string, blanks: string, noise: string, more: string, row: string)
    ensures front + (kept + blanks + noise + more + row) == front + kept + (blanks + noise + more + row)
  {
  }

  lemma {:induction false} NothingToCut(s: string, stops: seq<string>)
    requires forall w :: w in stops && w != "" ==> !HasSuffix(s, w)
    ensures Pass(s, stops) == s
    decreases |stops|
  {
    if stops != [] {
      assert stops[0] in stops;
      NothingToCut(s, stops[1..]);
    }
  }

  lemma NothingToTrim(s: string, stops: seq<string>, sort: seq<string> -> seq<string>)
    requires Sorts(sort) && forall w :: w in stops && w != "" ==> !HasSuffix(s, w)
    requires s != "" ==> !IsBlankRune(s[|s| - 1])
    ensures TrimStops(s, stops, sort) == s
  {
    assert IsSortOf(sort(stops), stops);
    NothingToCut(s, sort(stops));
  }

  /** A text that ends in no stop, no noise and no blank rune comes out whole. */
  lemma WholeText(text: string, stops: seq<string>, maxRunes: nat, sort: seq<string> -> seq<string>)
    requires Sorts(sort) && (text != "" ==> !IsBlankRune(text[|text| - 1]))
    requires forall w :: (w in stops || w in NOISE) && w != "" ==> !HasSuffix(text, w)
    ensures Output(text, stops, maxRunes, sort) == text
  {
    var end := Held(text, maxRunes);
    forall w | (w in stops || w in NOISE) && w != "" ensures !HasSuffix(end, w) {
      if HasSuffix(end, w) { SuffixOfEnd(text, end, w); }
    }
    NothingToTrim(end, stops, sort);
    NothingToTrim(end, NOISE, sort);
    assert text == text[..|text| - |end|] + end;
  }

  lemma SuffixOfEnd(text: string, end: string, w: string)
    requires HasSuffix(text, end) && HasSuffix(end, w)
    ensures HasSuffix(text, w)
  {
    assert text[|text| - |w|..] == text[|text| - |end|..][|end| - |w|..];
  }

  // ---------- noise with a line break ----------

  /** The two line breaks noise can end in. */
  predicate IsBreak(nl: string) {
    nl == "\n" || nl == "\r\n"
  }

  /** Trimmed stops, as the constructor makes them. */
  predicate AreTrimmed(stops: seq<string>) {
    forall u :: u in stops ==> u != "" && !IsSpace(u[|u| - 1])
  }

  lemma FilterIsTrimmed(merged: seq<string>, stops: seq<string>, maxRunes: nat)
    requires IsFilter(merged, stops, maxRunes)
    ensures AreTrimmed(stops)
  {
    forall u | u in stops ensures u != "" && !IsSpace(u[|u| - 1]) {
      var m :| m in merged && u == TrimSpace(m) && u != "";
      var l, r := TrimParts(m, IsSpace);
    }
  }

  lemma {:induction false} BreakBlocksPass(s: string, stops: seq<string>)
    requires AreTrimmed(stops) && s != "" && IsSpace(s[|s| - 1])
    ensures Pass(s, stops) == s
    decreases |stops|
  {
    if stops != [] {
      assert stops[0] in stops;
      BreakBlocksPass(s, stops[1..]);
    }
  }

  /** A trimmed stop is not found behind a line break: only the line break goes. */
  lemma BreakIsTrimmed(w: string, nl: string, stops: seq<string>, sort: seq<string> -> seq<string>)
    requires Sorts(sort) && AreTrimmed(stops) && stops != [] && IsBreak(nl)
    requires w != "" && !IsBlankRune(w[|w| - 1])
    ensures TrimStops(w + nl, stops, sort) == w
  {
    var s, sorted := w + nl, sort(stops);
    assert IsSortOf(sorted, stops);
    assert s[|s| - 1] == '\n';
    BreakBlocksPass(s, sorted);
    TrimRightSkip(w, nl, IsBlankRune);
  }

  /** What the filter always gets, trimmed. */
  const NOISE_WORDS: seq<string> := [IM_END, IM_END_FW, EOT]

  lemma NoiseWords(w: string)
    requires w in NOISE_WORDS
    ensures w in NOISE && |w| == 10 && Tight(w, IsSpace)
  {
  }

  /** Noise is one of these words, and perhaps a line break. */
  lemma NoiseParts(t: string) returns (w: string, nl: string)
    requires t in NOISE
    ensures t == w + nl && w in NOISE_WORDS && (nl == "" || IsBreak(nl))
  {
    if t in NOISE_WORDS {
      w, nl := t, "";
    } else if t == IM_END + "\n" {
      w, nl := IM_END, "\n";
    } else if t == IM_END + "\r\n" {
      w, nl := IM_END, "\r\n";
    } else if t == EOT + "\n" {
      w, nl := EOT, "\n";
    } else {
      w, nl := EOT, "\r\n";
    }
  }

  lemma WordBehindBreak(end: string, w: string, nl: string, stops: seq<string>, sort: seq<string> -> seq<string>)
    requires Sorts(sort) && AreTrimmed(stops) && stops != [] && IsBreak(nl) && w in NOISE_WORDS
    requires HasSuffix(end, w + nl)
    ensures |TrimEnd(end, stops, sort)| <= |end| - |w + nl|
  {
    NoiseWords(w);
    var x := end[..|end| - |nl|];
    assert end[|end| - |w + nl|..] == w + nl;
    assert end == end[..|end| - |w + nl|] + (w + nl);
    assert x == end[..|end| - |w + nl|] + w && end == x + nl;
    assert HasSuffix(x, w) && x[|x| - 1] == w[9];
    BreakIsTrimmed(x, nl, stops, sort);
    TrimStopsRemoves(x, NOISE, sort, w);
  }

  /** A text that ends in noise loses all of it exactly when the filter holds back as many runes. */
  lemma NoiseIsRemovedIff(text: string, merged: seq<string>, stops: seq<string>, maxRunes: nat,
                          sort: seq<string> -> seq<string>, t: string)
    requires Sorts(sort) && IsFilter(merged, stops, maxRunes) && forall w :: w in NOISE_WORDS ==> w in merged
    requires t in NOISE && HasSuffix(text, t)
    ensures |Output(text, stops, maxRunes, sort)| <= |text| - |t| <==> |t| <= maxRunes
  {
    var w, nl := NoiseParts(t);
    NoiseWords(w);
    TrimTight(w, IsSpace);
    assert w in stops;
    if nl == "" {
      StopIsRemoved(text, stops, maxRunes, sort, t);
    } else if |t| <= maxRunes {
      FilterIsTrimmed(merged, stops, maxRunes);
      BrokenNoiseGoes(text, w, nl, stops, maxRunes, sort);
    }
  }

  lemma BrokenNoiseGoes(text: string, w: string, nl: string, stops: seq<string>, maxRunes: nat,
                        sort: seq<string> -> seq<string>)
    requires Sorts(sort) && AreTrimmed(stops) && stops != [] && IsBreak(nl) && w in NOISE_WORDS
    requires HasSuffix(text, w + nl) && |w + nl| <= maxRunes
    ensures |Output(text, stops, maxRunes, sort)| <= |text| - |w + nl|
  {
    HeldSuffix(text, w + nl, maxRunes);
    WordBehindBreak(Held(text, maxRunes), w, nl, stops, sort);
  }

  lemma {:induction false} ShortStays(s: string, stops: seq<string>)
    requires forall u :: u in stops ==> |s| < |u|
    ensures Pass(s, stops) == s
    decreases |stops|
  {
    if stops != [] {
      assert stops[0] in stops;
      ShortStays(s, stops[1..]);
    }
  }

  /** Text shorter than any noise is not cut. */
  lemma ShortEndStays(end: string, sort: seq<string> -> seq<string>)
    requires Sorts(sort) && 0 < |end| < 10 && !IsSpace(end[|end| - 1])
    ensures TrimStops(end, NOISE, sort) == end
  {
    assert IsSortOf(sort(NOISE), NOISE);
    forall u | u in sort(NOISE) ensures |end| < |u| {
      var v, b := NoiseParts(u);
      NoiseWords(v);
    }
    ShortStays(end, sort(NOISE));
    TrimRightFixed(end);
  }

  lemma LastTen(x: string, w: string, nl: string)
    requires |w| == 10 && |nl| <= 10
    ensures var text, k := x + w + nl, |nl|;
            text[|text| - 10..] == w[k..] + nl && text[..|text| - 10] == x + w[..k] && x + w[..k] + w[k..] == x + w
  {
  }

  /** The line break takes the place of the first runes of the noise: with no longer stop than the noise words, these
      go out before the end is trimmed, and only the line break is lost. */
  lemma BrokenNoiseStays(x: string, w: string, nl: string, stops: seq<string>, sort: seq<string> -> seq<string>)
    requires Sorts(sort) && AreTrimmed(stops) && stops != [] && w in NOISE_WORDS && IsBreak(nl)
    ensures Output(x + w + nl, stops, 10, sort) == x + w
  {
    NoiseWords(w);
    LastTen(x, w, nl);
    var end := w[|nl|..];
    assert end[|end| - 1] == w[9];
    BreakIsTrimmed(end, nl, stops, sort);
    ShortEndStays(end, sort);
  }

  lemma TrimRightFixed(s: string)
    requires s != "" && !IsSpace(s[|s| - 1])
    ensures TrimRight(s, IsBlankRune) == s
  {
  }

  /** The input of the default stops on which the noise stays. */
  lemma DefaultStopsKeepNoise(stops: seq<string>, maxRunes: nat, sort: seq<string> -> seq<string>)
    requires Sorts(sort) && IsFilter(NOISE_WORDS, stops, maxRunes)
    ensures maxRunes == 10 && Output("hi" + IM_END + "\n", stops, maxRunes, sort) == "hi" + IM_END
  {
    FilterIsTrimmed(NOISE_WORDS, stops, maxRunes);
    forall w | w in NOISE_WORDS ensures TrimSpace(w) == w && |w| == 10 {
      NoiseWords(w);
      TrimTight(w, IsSpace);
    }
    assert IM_END in NOISE_WORDS && IM_END in stops;
    BrokenNoiseStays("hi", IM_END, "\n", stops, sort);
  }
}
