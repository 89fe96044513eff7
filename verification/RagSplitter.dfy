/** The text splitter of pkg/rag/splitter.go, on runes. */
module RagSplitter {
  import opened Strings

  datatype SplitOptions = SplitOptions(size: int, overlap: int)

  /** The defaults and limits of the options. */
  function NormalizedOptions(o: SplitOptions): (r: SplitOptions)
    ensures r.size >= 1 && 0 <= r.overlap < r.size
    ensures 0 <= o.overlap < o.size ==> r == o
  {
    var size := if o.size <= 0 then 1024 else o.size;
    var overlap := if o.overlap < 0 then 0 else o.overlap;
    SplitOptions(size, if overlap >= size then size / 4 else overlap)
  }

  /** A piece of text under a heading path, from PDF pages lo to hi (0 when there are none). */
  datatype Piece = Piece(text: string, path: seq<string>, lo: int, hi: int)

  function Visible(parts: seq<string>): string {
    NonSpace(Concat(parts))
  }

  predicate Blank(s: string) {
    NonSpace(s) == []
  }

  /** No part is blank or longer than max. */
  predicate PartsFit(parts: seq<string>, max: int) {
    forall p :: p in parts ==> |p| <= max && !Blank(p)
  }

  /** Parts that together show exactly the runes of s. */
  predicate IsSplit(s: string, parts: seq<string>, max: int) {
    Visible(parts) == NonSpace(s) && PartsFit(parts, max)
  }

  lemma VisibleAppend(parts: seq<string>, p: string)
    ensures Visible(parts + [p]) == Visible(parts) + NonSpace(p)
  {
    ConcatAppend(parts, [p]);
    ConcatOne(p);
    NonSpaceConcat(Concat(parts), p);
  }

  lemma VisibleConcat(a: seq<string>, b: seq<string>)
    ensures Visible(a + b) == Visible(a) + Visible(b)
  {
    ConcatAppend(a, b);
    NonSpaceConcat(Concat(a), Concat(b));
  }

  lemma TrimIsBlank(s: string)
    ensures NonSpace(TrimSpace(s)) == NonSpace(s) && (TrimSpace(s) == "" <==> Blank(s)) && |TrimSpace(s)| <= |s|
  {
    NonSpaceTrim(s, IsSpace);
    BlankIff(s);
    NonSpaceBlank(s);
    var l, r := TrimParts(s, IsSpace);
  }

  // ---------- hard splits ----------

  function Chunks(s: string, max: int): seq<string>
    requires max >= 1
    decreases |s|
  {
    if s == "" then [] else if |s| <= max then [s]
    else
      FrontBlanksShowNothing(s[max..]);
      [s[..max]] + Chunks(TrimLeft(s[max..], IsBlankRune), max)
  }

  lemma {:induction false} ChunksShow(s: string, max: int)
    requires max >= 1
    ensures Visible(Chunks(s, max)) == NonSpace(s)
    ensures forall p :: p in Chunks(s, max) ==> 1 <= |p| <= max
    decreases |s|
  {
    if s != "" && |s| <= max {
      VisibleAppend([], s);
      assert [] + [s] == [s];
    } else if s != "" {
      var rest := TrimLeft(s[max..], IsBlankRune);
      FrontBlanksShowNothing(s[max..]);
      ChunksShow(rest, max);
      VisibleConcat([s[..max]], Chunks(rest, max));
      ConcatOne(s[..max]);
      NonSpaceConcat(s[..max], s[max..]);
      assert s == s[..max] + s[max..];
    }
  }

  /** Cuts after every max runes, dropping white space at the front of what is left. */
  method ChunkRunes(text: string, max: int) returns (out: seq<string>)
    requires max >= 1
    ensures out == Chunks(text, max)
  {
    out := [];
    var s := text;
    while |s| > 0
      invariant out + Chunks(s, max) == Chunks(text, max)
      decreases |s|
    {
      if |s| <= max {
        out := out + [s];
        return;
      }
      var i := 0;
      while i < max && i < |s|
        invariant 0 <= i <= max
      {
        i := i + 1;
      }
      FrontBlanksShowNothing(s[i..]);
      Assoc(out, [s[..i]], Chunks(TrimLeft(s[i..], IsBlankRune), max));
      out := out + [s[..i]];
      s := TrimLeft(s[i..], IsBlankRune);
    }
  }

  /** The parts with what was dropped behind each of them. */
  function JoinGaps(parts: seq<string>, gaps: seq<string>): string
    requires |gaps| == |parts|
  {
    if parts == [] then "" else parts[0] + gaps[0] + JoinGaps(parts[1..], gaps[1..])
  }

  /** Stretches of s with nothing but white space dropped between them; only the last is shorter than max, nothing is
      dropped behind a shorter one, and none but the first begins with white space. */
  predicate AreCuts(s: string, parts: seq<string>, gaps: seq<string>, max: int) {
    && |gaps| == |parts| && s == JoinGaps(parts, gaps)
    && (forall i :: 0 <= i < |parts| ==> 1 <= |parts[i]| <= max && All(gaps[i], IsBlankRune))
    && (forall i :: 0 <= i < |parts| && (i < |parts| - 1 || gaps[i] != "") ==> |parts[i]| == max)
    && (forall i :: 0 < i < |parts| ==> !IsBlankRune(parts[i][0]))
  }

  lemma {:induction false} ChunksAreCuts(s: string, max: int) returns (gaps: seq<string>)
    requires max >= 1
    ensures AreCuts(s, Chunks(s, max), gaps, max)
    decreases |s|
  {
    if s == "" {
      gaps := [];
    } else if |s| <= max {
      gaps := [""];
      OneCut(s, max);
    } else {
      var rest := TrimLeft(s[max..], IsBlankRune);
      var l := CutFront(s, max);
      var more := ChunksAreCuts(rest, max);
      gaps := [l] + more;
      CutsCons(s, s[..max], l, rest, Chunks(rest, max), more, max);
    }
  }

  lemma CutFront(s: string, max: int) returns (l: string)
    requires 1 <= max < |s|
    ensures var rest := TrimLeft(s[max..], IsBlankRune);
            && s == s[..max] + l + rest && All(l, IsBlankRune) && |rest| < |s|
            && (rest != "" ==> !IsBlankRune(rest[0]))
  {
    l := TrimLeftParts(s[max..], IsBlankRune);
    assert s == s[..max] + s[max..];
    Assoc(s[..max], l, TrimLeft(s[max..], IsBlankRune));
  }

  lemma OneCut(s: string, max: int)
    requires 1 <= |s| <= max
    ensures AreCuts(s, [s], [""], max)
  {
    assert JoinGaps([s], [""]) == s + "" + "";
  }

  lemma CutsCons(s: string, p: string, l: string, rest: string, parts: seq<string>, gaps: seq<string>, max: int)
    requires |p| == max >= 1 && All(l, IsBlankRune) && s == p + l + rest && AreCuts(rest, parts, gaps, max)
    requires rest != "" ==> !IsBlankRune(rest[0])
    ensures AreCuts(s, [p] + parts, [l] + gaps, max)
  {
    assert ([p] + parts)[1..] == parts && ([l] + gaps)[1..] == gaps;
    if parts != [] { assert rest[0] == parts[0][0]; }
  }

  /** There is only one way to cut. */
  lemma {:induction false} CutsAreChunks(s: string, parts: seq<string>, gaps: seq<string>, max: int)
    requires max >= 1 && AreCuts(s, parts, gaps, max)
    ensures parts == Chunks(s, max)
    decreases |parts|
  {
    if parts != [] {
      var p, l, rest := parts[0], gaps[0], JoinGaps(parts[1..], gaps[1..]);
      assert s == p + (l + rest);
      if |s| <= max {
        ShortIsOneCut(s, parts, gaps, max);
      } else {
        assert |p| == max && s[..max] == p && s[max..] == l + rest;
        CutsAreChunks(rest, parts[1..], gaps[1..], max);
        if |parts| > 1 { assert rest[0] == parts[1][0]; }
        TrimLeftSkip(l, rest, IsBlankRune);
        assert parts == [p] + parts[1..];
      }
    }
  }

  /** What a second part adds. */
  lemma FirstPartShorter(parts: seq<string>, gaps: seq<string>)
    requires |gaps| == |parts| > 0 && (|parts| > 1 ==> |parts[1]| >= 1)
    ensures |JoinGaps(parts, gaps)| >= |parts[0]| + |gaps[0]| + (if |parts| > 1 then 1 else 0)
  {
    if |parts| > 1 {
      assert JoinGaps(parts[1..], gaps[1..]) == parts[1] + gaps[1] + JoinGaps(parts[1..][1..], gaps[1..][1..]);
    }
  }

  lemma ShortIsOneCut(s: string, parts: seq<string>, gaps: seq<string>, max: int)
    requires max >= 1 && AreCuts(s, parts, gaps, max) && parts != [] && |s| <= max
    ensures parts == [s] && s != ""
  {
    FirstPartShorter(parts, gaps);
    assert |parts| == 1 && gaps[0] == "";
    assert parts[0] + gaps[0] + JoinGaps([], []) == parts[0] && parts[1..] == [] && gaps[1..] == [];
  }

  lemma FrontBlanksShowNothing(b: string)
    ensures NonSpace(TrimLeft(b, IsBlankRune)) == NonSpace(b) && |TrimLeft(b, IsBlankRune)| <= |b|
  {
    var l := TrimLeftParts(b, IsBlankRune);
    NonSpaceConcat(l, TrimLeft(b, IsBlankRune));
    NonSpaceBlank(l);
  }

  /** The parts trimmed, without the blank ones. */
  function Trimmed(parts: seq<string>): seq<string> {
    if parts == [] then [] else Trimmed(parts[..|parts| - 1]) + UnlessEmpty(TrimSpace(parts[|parts| - 1]))
  }

  function HardParts(s: string, max: int): seq<string>
    requires max >= 1
  {
    Trimmed(Chunks(s, max))
  }

  lemma TrimmedNext(parts: seq<string>, i: nat)
    requires i < |parts|
    ensures Trimmed(parts[..i + 1]) == Trimmed(parts[..i]) + UnlessEmpty(TrimSpace(parts[i]))
  {
    assert parts[..i + 1][..i] == parts[..i];
  }

  lemma {:induction false} TrimmedFits(parts: seq<string>, max: int)
    requires forall p :: p in parts ==> |p| <= max
    ensures IsSplit(Concat(parts), Trimmed(parts), max)
  {
    if parts != [] {
      var front, p := parts[..|parts| - 1], parts[|parts| - 1];
      assert parts == front + [p] && p in parts;
      TrimmedFits(front, max);
      VisibleUnlessEmpty(Trimmed(front), p);
      VisibleAppend(front, p);
      TrimIsBlank(p);
      TrimIsBlank(TrimSpace(p));
    }
  }

  lemma HardIsSplit(s: string, max: int)
    requires max >= 1
    ensures IsSplit(s, HardParts(s, max), max)
  {
    ChunksShow(s, max);
    TrimmedFits(Chunks(s, max), max);
  }

  method HardSplitRunes(s: string, max: int) returns (out: seq<string>)
    requires max >= 1
    ensures out == HardParts(s, max) && IsSplit(s, out, max)
  {
    out := [];
    var parts := ChunkRunes(s, max);
    for i := 0 to |parts|
      invariant out == Trimmed(parts[..i])
    {
      var t := TrimSpace(parts[i]);
      TrimmedNext(parts, i);
      if t != "" { out := out + [t]; }
    }
    assert parts[..|parts|] == parts;
    HardIsSplit(s, max);
  }

  // ---------- sentences ----------

  /** Rune i ends a sentence. The ellipsis never does: the test for what follows it reads inside its own encoding. */
  predicate EndsSentence(s: string, i: nat)
    requires i < |s|
  {
    (s[i] == '.' || s[i] == '!' || s[i] == '?') &&
    (i + 1 < |s| ==> s[i + 1] == ' ' || s[i + 1] == '\n' || s[i + 1] == '\t' || s[i + 1] == '"' || s[i + 1] == '\''
                     || s[i + 1] == ')')
  }

  /** Where the sentence still open at rune i began. */
  function OpenedAt(s: string, i: nat): (n: nat)
    requires i <= |s|
    ensures n <= i
  {
    if i == 0 then 0 else if EndsSentence(s, i - 1) then i else OpenedAt(s, i - 1)
  }

  function UnlessEmpty(t: string): seq<string> {
    if t == "" then [] else [t]
  }

  /** The sentences closed before rune i, trimmed. */
  function ClosedSentences(s: string, i: nat): seq<string>
    requires i <= |s|
  {
    if i == 0 then []
    else if EndsSentence(s, i - 1) then ClosedSentences(s, i - 1) + UnlessEmpty(TrimSpace(s[OpenedAt(s, i - 1)..i]))
    else ClosedSentences(s, i - 1)
  }

  function Sentences(text: string): seq<string> {
    var s := TrimSpace(text);
    ClosedSentences(s, |s|) + UnlessEmpty(TrimSpace(s[OpenedAt(s, |s|)..]))
  }

  method SplitSentences(text: string) returns (out: seq<string>)
    ensures out == Sentences(text)
  {
    var s := TrimSpace(text);
    if s == "" { return []; }
    out := [];
    var start := 0;
    for i := 0 to |s|
      invariant start == OpenedAt(s, i) && out == ClosedSentences(s, i)
    {
      if s[i] != '.' && s[i] != '!' && s[i] != '?' { continue; }
      if i + 1 < |s| {
        var next := s[i + 1];
        if next != ' ' && next != '\n' && next != '\t' && next != '"' && next != '\'' && next != ')' { continue; }
      }
      var seg := TrimSpace(s[start..i + 1]);
      if seg != "" { out := out + [seg]; }
      start := i + 1;
    }
    var tail := TrimSpace(s[start..]);
    if tail != "" { out := out + [tail]; }
  }

  lemma VisibleUnlessEmpty(parts: seq<string>, t: string)
    ensures Visible(parts + UnlessEmpty(TrimSpace(t))) == Visible(parts) + NonSpace(t)
  {
    TrimIsBlank(t);
    if TrimSpace(t) == "" {
      assert parts + [] == parts;
    } else {
      VisibleAppend(parts, TrimSpace(t));
    }
  }

  lemma OneMoreSentence(s: string, o: nat, i: nat, parts: seq<string>)
    requires o <= i <= |s| && Visible(parts) == NonSpace(s[..o])
    ensures Visible(parts + UnlessEmpty(TrimSpace(s[o..i]))) == NonSpace(s[..i])
  {
    var a, b := s[..o], s[o..i];
    assert s[..i] == a + b;
    NonSpaceConcat(a, b);
    VisibleUnlessEmpty(parts, b);
  }

  lemma {:induction false} ClosedConserve(s: string, i: nat)
    requires i <= |s|
    ensures Visible(ClosedSentences(s, i)) == NonSpace(s[..OpenedAt(s, i)])
  {
    if i > 0 {
      ClosedConserve(s, i - 1);
      if EndsSentence(s, i - 1) { OneMoreSentence(s, OpenedAt(s, i - 1), i, ClosedSentences(s, i - 1)); }
    } else {
      assert s[..0] == [];
    }
  }

  /** Splitting into sentences loses nothing but white space. */
  lemma SentencesConserve(text: string)
    ensures Visible(Sentences(text)) == NonSpace(text)
  {
    var s := TrimSpace(text);
    ClosedConserve(s, |s|);
    OneMoreSentence(s, OpenedAt(s, |s|), |s|, ClosedSentences(s, |s|));
    assert s[OpenedAt(s, |s|)..|s|] == s[OpenedAt(s, |s|)..] && s[..|s|] == s;
    TrimIsBlank(text);
  }

  /** The borders of the sentences of s: its ends, and all runes behind the end of a sentence. */
  predicate AreBorders(s: string, cuts: seq<nat>) {
    && cuts != [] && cuts[0] == 0 && cuts[|cuts| - 1] == |s|
    && (forall j, k :: 0 <= j < k < |cuts| ==> cuts[j] < cuts[k])
    && forall i :: 0 < i < |s| ==> (i in cuts <==> IsBorder(s, i))
  }

  predicate IsBorder(s: string, i: nat) {
    0 < i <= |s| && EndsSentence(s, i - 1)
  }

  /** The stretches between two borders, trimmed. */
  predicate AreBetween(s: string, cuts: seq<nat>, parts: seq<string>) {
    && |parts| == |cuts| - 1
    && forall k :: 0 <= k < |parts| ==> IsBetween(s, cuts, k, parts[k])
  }

  predicate IsBetween(s: string, cuts: seq<nat>, k: nat, part: string)
    requires k + 1 < |cuts|
  {
    cuts[k] < cuts[k + 1] <= |s| && part == TrimSpace(s[cuts[k]..cuts[k + 1]]) && part != ""
  }

  /** The borders up to rune i. */
  function BordersUpTo(s: string, i: nat): seq<nat>
    requires i <= |s|
  {
    if i == 0 then [0]
    else if EndsSentence(s, i - 1) then BordersUpTo(s, i - 1) + [i] else BordersUpTo(s, i - 1)
  }

  lemma {:induction false} BordersAre(s: string, i: nat)
    requires i <= |s|
    ensures var cuts := BordersUpTo(s, i);
            && cuts != [] && cuts[0] == 0 && cuts[|cuts| - 1] == OpenedAt(s, i)
            && (forall j, k :: 0 <= j < k < |cuts| ==> cuts[j] < cuts[k])
            && forall j :: 0 < j <= |s| ==> (j in cuts <==> j <= i && IsBorder(s, j))
  {
    if i > 0 { BordersAre(s, i - 1); }
  }

  /** A sentence that ends shows its end. */
  lemma EndShows(s: string, o: nat, i: nat)
    requires o < i <= |s| && !IsSpace(s[i - 1])
    ensures TrimSpace(s[o..i]) != ""
  {
    BlankIff(s[o..i]);
    assert s[o..i][i - o - 1] == s[i - 1];
  }

  lemma BetweenMore(s: string, cuts: seq<nat>, parts: seq<string>, i: nat)
    requires AreBetween(s, cuts, parts) && cuts != [] && cuts[|cuts| - 1] < i <= |s|
    requires TrimSpace(s[cuts[|cuts| - 1]..i]) != ""
    ensures AreBetween(s, cuts + [i], parts + [TrimSpace(s[cuts[|cuts| - 1]..i])])
  {
    var more, last := cuts + [i], parts + [TrimSpace(s[cuts[|cuts| - 1]..i])];
    forall k | 0 <= k < |last| ensures IsBetween(s, more, k, last[k]) {
      if k < |parts| { assert IsBetween(s, cuts, k, parts[k]); }
    }
  }

  lemma {:induction false} ClosedAreBetween(s: string, i: nat)
    requires i <= |s|
    ensures AreBetween(s, BordersUpTo(s, i), ClosedSentences(s, i))
  {
    if i > 0 {
      ClosedAreBetween(s, i - 1);
      BordersAre(s, i - 1);
      if EndsSentence(s, i - 1) {
        EndShows(s, OpenedAt(s, i - 1), i);
        BetweenMore(s, BordersUpTo(s, i - 1), ClosedSentences(s, i - 1), i);
      }
    }
  }

  /** The sentences of a text are the stretches between consecutive borders, trimmed. */
  lemma SentencesAreBetween(text: string) returns (cuts: seq<nat>)
    requires !Blank(text)
    ensures AreBorders(TrimSpace(text), cuts) && AreBetween(TrimSpace(text), cuts, Sentences(text))
  {
    var s := TrimSpace(text);
    var l, r := TrimParts(text, IsSpace);
    TrimIsBlank(text);
    cuts := BordersUpTo(s, |s|);
    BordersAre(s, |s|);
    ClosedAreBetween(s, |s|);
    var o := OpenedAt(s, |s|);
    if o < |s| {
      LastSentence(s, cuts, ClosedSentences(s, |s|));
      LastBorder(s, cuts);
      cuts := cuts + [|s|];
    } else {
      NothingLeft(s);
    }
  }

  lemma NothingLeft(s: string)
    ensures UnlessEmpty(TrimSpace(s[|s|..])) == []
  {
    assert s[|s|..] == "" && TrimSpace("") == "";
  }

  lemma LastBorder(s: string, cuts: seq<nat>)
    requires cuts != [] && cuts[0] == 0 && cuts[|cuts| - 1] < |s|
    requires forall j, k :: 0 <= j < k < |cuts| ==> cuts[j] < cuts[k]
    requires forall i :: 0 < i <= |s| ==> (i in cuts <==> IsBorder(s, i))
    ensures AreBorders(s, cuts + [|s|])
  {
    var more := cuts + [|s|];
    forall j, k | 0 <= j < k < |more| ensures more[j] < more[k] {
      if k == |cuts| { assert j < |cuts| - 1 ==> cuts[j] < cuts[|cuts| - 1]; }
    }
  }

  lemma LastSentence(s: string, cuts: seq<nat>, parts: seq<string>)
    requires Tight(s, IsSpace) && AreBetween(s, cuts, parts) && cuts != [] && cuts[|cuts| - 1] < |s|
    ensures AreBetween(s, cuts + [|s|], parts + UnlessEmpty(TrimSpace(s[cuts[|cuts| - 1]..])))
  {
    var o := cuts[|cuts| - 1];
    assert s[o..] == s[o..|s|];
    EndShows(s, o, |s|);
    BetweenMore(s, cuts, parts, |s|);
  }
}
