/** The overlap between neighbouring chunks: pkg/rag/splitter.go. */
module RagOverlap {
  import opened Strings
  import opened RagSplitter

  /** The last max runes of s, trimmed when something was cut off. */
  function RuneSuffix(s: string, max: int): string {
    if max <= 0 || s == "" then "" else if |s| <= max then s else TrimSpace(s[|s| - max..])
  }

  /** The text of a chunk after the end of its predecessor. */
  function WithOverlap(prev: string, text: string, size: int, overlap: int): string {
    var suffix := RuneSuffix(prev, overlap);
    var joined := suffix + "\n\n" + text;
    if suffix == "" then text else if |joined| > size + overlap then RuneSuffix(joined, size + overlap) else joined
  }

  /** Decodes rune by rune past what is cut off. */
  method CutFront(s: string, max: int) returns (r: string)
    ensures r == RuneSuffix(s, max)
  {
    if max <= 0 || s == "" { return ""; }
    var runes := |s|;
    if runes <= max { return s; }
    var i, skip := 0, runes - max;
    while skip > 0 && i < |s|
      invariant 0 <= skip && i + skip == runes - max
    {
      i := i + 1;
      skip := skip - 1;
    }
    return TrimSpace(s[i..]);
  }

  method PutInFront(prev: string, own: string, size: int, overlap: int) returns (text: string)
    ensures text == WithOverlap(prev, own, size, overlap)
  {
    text := own;
    var suffix := CutFront(prev, overlap);
    if suffix != "" {
      text := suffix + "\n\n" + text;
      if |text| > size + overlap { text := CutFront(text, size + overlap); }
    }
  }

  method ApplyOverlap(chunks: seq<Piece>, size: int, overlap: int) returns (out: seq<Piece>)
    ensures |out| == |chunks|
    ensures overlap <= 0 ==> out == chunks
    ensures overlap > 0 ==> forall i :: 0 <= i < |out| ==> out[i] == Overlapped(chunks, i, size, overlap)
  {
    if overlap <= 0 || |chunks| < 2 { return chunks; }
    out := [];
    for i := 0 to |chunks|
      invariant |out| == i && forall k :: 0 <= k < i ==> out[k] == Overlapped(chunks, k, size, overlap)
    {
      var text := chunks[i].text;
      if i > 0 { text := PutInFront(chunks[i - 1].text, text, size, overlap); }
      out := out + [chunks[i].(text := text)];
    }
  }

  function Overlapped(chunks: seq<Piece>, i: nat, size: int, overlap: int): Piece
    requires i < |chunks|
  {
    if i == 0 then chunks[0] else chunks[i].(text := WithOverlap(chunks[i - 1].text, chunks[i].text, size, overlap))
  }

  /** Cutting in front of text that begins and ends in visible runes keeps that text. */
  lemma TrimKeepsEnd(x: string, m: string) returns (l: string, y: string)
    requires m != [] && Tight(m, IsSpace)
    ensures x == l + y && All(l, IsSpace) && Tight(y + m, IsSpace) && TrimSpace(x + m) == y + m
  {
    l := TrimLeftParts(x, IsSpace);
    y := TrimLeft(x, IsSpace);
    assert (y + m)[|y + m| - 1] == m[|m| - 1];
    TrimUnique(l, y + m, [], IsSpace);
    assert l + (y + m) + [] == x + m;
  }

  /** The suffix that is taken and the white space in front of it make up the last max runes. */
  lemma SuffixOfTight(s: string, max: int) returns (l: string)
    requires s != [] && Tight(s, IsSpace) && max > 0
    ensures RuneSuffix(s, max) != [] && Tight(RuneSuffix(s, max), IsSpace)
    ensures All(l, IsSpace) && HasSuffix(s, l + RuneSuffix(s, max))
    ensures |l| + |RuneSuffix(s, max)| == if |s| <= max then |s| else max
  {
    l := [];
    assert l + s == s;
    if |s| > max {
      var x, m, y := s[|s| - max..|s| - 1], [s[|s| - 1]], [];
      assert s[|s| - max..] == x + m;
      l, y := TrimKeepsEnd(x, m);
      assert s == s[..|s| - max] + (l + (y + m));
    }
  }

  lemma SuffixIntro(x: string, y: string)
    ensures HasSuffix(x + y, y)
  {
  }

  lemma SuffixElim(s: string, t: string) returns (x: string)
    requires HasSuffix(s, t)
    ensures s == x + t
  {
    x := s[..|s| - |t|];
  }

  lemma SuffixAppend(a: string, b: string, c: string)
    requires HasSuffix(a, b)
    ensures HasSuffix(a + c, b + c)
  {
    var x := SuffixElim(a, b);
    Assoc(x, b, c);
    SuffixIntro(x, b + c);
  }

  lemma SuffixTrans(a: string, b: string, c: string)
    requires HasSuffix(a, b) && HasSuffix(b, c)
    ensures HasSuffix(a, c)
  {
    var x := SuffixElim(a, b);
    var y := SuffixElim(b, c);
    Assoc(x, y, c);
    SuffixIntro(x + y, c);
  }

  /** The last room runes of a suffix and its separator are blank when they lie in the separator. */
  lemma BlankTail(suffix: string, front: string, x: string)
    requires suffix != [] && !IsSpace(suffix[|suffix| - 1]) && front == suffix + "\n\n" && HasSuffix(front, x)
    ensures TrimLeft(x, IsSpace) == [] <==> |x| <= 2
  {
    if |x| <= 2 {
      assert All(x, IsSpace);
      TrimLeftSkip(x, [], IsSpace);
      assert x + [] == x;
    } else {
      assert x[|x| - 3] == suffix[|suffix| - 1];
      var l := TrimLeftParts(x, IsSpace);
    }
  }

  /** Of a suffix and its separator, the last room runes lose their leading white space. */
  lemma CutFrontOf(suffix: string, room: nat) returns (x: string, l: string, y: string)
    requires suffix != [] && Tight(suffix, IsSpace) && room <= |suffix| + 2
    ensures var front := suffix + "\n\n"; x == front[|front| - room..] && x == l + y && HasSuffix(front, y)
    ensures All(l, IsSpace) && (y != [] ==> !IsSpace(y[0])) && (y == [] <==> room <= 2)
  {
    var front := suffix + "\n\n";
    x := front[|front| - room..];
    l := TrimLeftParts(x, IsSpace);
    y := TrimLeft(x, IsSpace);
    BlankTail(suffix, front, x);
    SuffixIntro(l, y);
    SuffixTrans(front, x, y);
  }

  /** A long join is cut before the text: y is what is left of the join in front of it, behind white space l. */
  lemma CutJoin(suffix: string, text: string, n: int) returns (l: string, y: string)
    requires suffix != [] && Tight(suffix, IsSpace) && text != [] && Tight(text, IsSpace)
    requires |text| < n < |suffix| + 2 + |text|
    ensures RuneSuffix(suffix + "\n\n" + text, n) == y + text && HasSuffix(suffix + "\n\n", l + y)
    ensures All(l, IsSpace) && |l| + |y| == n - |text| && (y == [] <==> n - |text| <= 2)
    ensures y + text != [] && !IsSpace((y + text)[0])
  {
    var x;
    x, l, y := CutFrontOf(suffix, n - |text|);
    EndOfJoin(suffix + "\n\n", text, n, x);
    FrontTrimmed(x, l, y, text);
    LastRunes(suffix + "\n\n" + text, n, x + text);
  }

  lemma EndOfJoin(front: string, text: string, n: int, x: string)
    requires |text| <= n <= |front| + |text| && x == front[|front| - (n - |text|)..]
    ensures HasSuffix(front + text, x + text) && |x + text| == n
  {
  }

  lemma LastRunes(s: string, n: int, end: string)
    requires 0 < n < |s| && |end| == n && HasSuffix(s, end)
    ensures RuneSuffix(s, n) == TrimSpace(end)
  {
  }

  lemma FrontTrimmed(x: string, l: string, y: string, text: string)
    requires x == l + y && All(l, IsSpace) && (y != [] ==> !IsSpace(y[0])) && text != [] && Tight(text, IsSpace)
    ensures TrimSpace(x + text) == y + text && y + text != [] && !IsSpace((y + text)[0])
  {
    assert (y + text)[|y + text| - 1] == text[|text| - 1];
    TrimUnique(l, y + text, [], IsSpace);
    assert l + (y + text) + [] == x + text;
  }

  /** The last m runes of s are white space and w. */
  ghost predicate TakesAll(w: string, s: string, m: int) {
    exists l :: All(l, IsSpace) && |l| + |w| == m && HasSuffix(s, l + w)
  }

  /** How many runes there is room for: the end of the predecessor, separator and text, up to size + overlap. */
  function Room(prev: string, text: string, size: int, overlap: int): int {
    var n := (if |prev| <= overlap then |prev| else overlap) + 2 + |text|;
    if n <= size + overlap then n else size + overlap
  }

  /** w is text with as much of the end of its predecessor in front as there is room for, less leading white space. */
  ghost predicate IsOverlapped(w: string, prev: string, text: string, size: int, overlap: int) {
    && |w| <= size + overlap && HasSuffix(w, text) && w != [] && !IsSpace(w[0])
    && TakesAll(w, prev + ("\n\n" + text), Room(prev, text, size, overlap))
    && (w == text <==> size + overlap - |text| <= 2)
  }

  /** There is only one such text. */
  lemma OverlappedUnique(w: string, w': string, prev: string, text: string, size: int, overlap: int)
    requires IsOverlapped(w, prev, text, size, overlap) && IsOverlapped(w', prev, text, size, overlap)
    ensures w == w'
  {
    var s, m := prev + ("\n\n" + text), Room(prev, text, size, overlap);
    var l :| All(l, IsSpace) && |l| + |w| == m && HasSuffix(s, l + w);
    var l' :| All(l', IsSpace) && |l'| + |w'| == m && HasSuffix(s, l' + w');
    SameEnd(l, w, l', w', s[|s| - m..]);
  }

  lemma SameEnd(l: string, w: string, l': string, w': string, end: string)
    requires All(l, IsSpace) && All(l', IsSpace) && l + w == end == l' + w'
    requires w != [] && w' != [] && !IsSpace(w[0]) && !IsSpace(w'[0])
    ensures w == w'
  {
    assert end[|l|] == w[0] && end[|l'|] == w'[0];
    assert forall k :: 0 <= k < |l| ==> end[k] == l[k];
    assert forall k :: 0 <= k < |l'| ==> end[k] == l'[k];
    assert w == end[|l|..] && w' == end[|l'|..];
  }

  lemma ShortTakes(prev: string, l: string, suffix: string, text: string, m: int)
    requires All(l, IsSpace) && HasSuffix(prev, l + suffix)
    requires |suffix| + 2 + |text| <= m <= |l| + |suffix| + 2 + |text|
    ensures TakesAll(suffix + "\n\n" + text, prev + ("\n\n" + text), m)
  {
    var joined, k := suffix + "\n\n" + text, m - (|suffix| + 2 + |text|);
    var front, back := l[..|l| - k], l[|l| - k..];
    assert l + suffix == front + (back + suffix);
    SuffixIntro(front, back + suffix);
    SuffixTrans(prev, l + suffix, back + suffix);
    SuffixAppend(prev, back + suffix, "\n\n" + text);
    assert back + suffix + ("\n\n" + text) == back + joined;
  }

  lemma ShortJoin(prev: string, l: string, suffix: string, text: string, size: int, overlap: int)
    requires suffix != [] && !IsSpace(suffix[0]) && |suffix| + 2 + |text| <= size + overlap
    requires All(l, IsSpace) && HasSuffix(prev, l + suffix)
    requires |l| + |suffix| == if |prev| <= overlap then |prev| else overlap
    ensures IsOverlapped(suffix + "\n\n" + text, prev, text, size, overlap)
  {
    SuffixIntro(suffix + "\n\n", text);
    ShortTakes(prev, l, suffix, text, Room(prev, text, size, overlap));
    assert |suffix + "\n\n" + text| == |suffix| + 2 + |text|;
  }

  lemma LongTakes(prev: string, suffix: string, text: string, l: string, y: string, m: int)
    requires HasSuffix(prev, suffix) && HasSuffix(suffix + "\n\n", l + y)
    requires All(l, IsSpace) && |l| + |y| + |text| == m
    ensures TakesAll(y + text, prev + ("\n\n" + text), m)
  {
    SuffixAppend(suffix + "\n\n", l + y, text);
    Assoc(suffix, "\n\n", text);
    SuffixAppend(prev, suffix, "\n\n" + text);
    Assoc(l, y, text);
    SuffixTrans(prev + ("\n\n" + text), suffix + ("\n\n" + text), l + (y + text));
  }

  lemma LongJoin(prev: string, suffix: string, text: string, size: int, overlap: int, l: string, y: string)
    requires HasSuffix(prev, suffix) && HasSuffix(suffix + "\n\n", l + y)
    requires |suffix| <= (if |prev| <= overlap then |prev| else overlap) && |suffix| + 2 + |text| > size + overlap
    requires All(l, IsSpace) && |l| + |y| == size + overlap - |text| && (y == [] <==> size + overlap - |text| <= 2)
    requires y + text != [] && !IsSpace((y + text)[0])
    ensures IsOverlapped(y + text, prev, text, size, overlap)
  {
    SuffixIntro(y, text);
    LongTakes(prev, suffix, text, l, y, size + overlap);
    NoRoom(prev, suffix, text, size, overlap);
    EmptyFront(y, text);
  }

  lemma NoRoom(prev: string, suffix: string, text: string, size: int, overlap: int)
    requires |suffix| <= (if |prev| <= overlap then |prev| else overlap) && |suffix| + 2 + |text| > size + overlap
    ensures Room(prev, text, size, overlap) == size + overlap
  {
  }

  lemma EmptyFront(y: string, text: string)
    ensures |y + text| == |y| + |text| && (y + text == text <==> y == [])
  {
    if y == [] { assert y + text == text; }
  }

  lemma LongOverlap(prev: string, front: string, suffix: string, text: string, size: int, overlap: int)
    requires suffix != [] && Tight(suffix, IsSpace) && text != [] && Tight(text, IsSpace) && |text| <= size
    requires HasSuffix(prev, front + suffix) && |suffix| <= (if |prev| <= overlap then |prev| else overlap)
    requires overlap > 0 && |suffix| + 2 + |text| > size + overlap
    ensures IsOverlapped(RuneSuffix(suffix + "\n\n" + text, size + overlap), prev, text, size, overlap)
  {
    var l, y := CutJoin(suffix, text, size + overlap);
    SuffixIntro(front, suffix);
    SuffixTrans(prev, front + suffix, suffix);
    LongJoin(prev, suffix, text, size, overlap, l, y);
  }

  /**
   * With overlap a chunk has at most size + overlap runes, still ends with its whole own text, and has as much of the
   * end of its predecessor in front as there is room for. The overlap is lost exactly when at most two runes are left
   * for it.
   */
  lemma OverlapKeepsText(prev: string, text: string, size: int, overlap: int)
    requires prev != [] && Tight(prev, IsSpace) && text != [] && Tight(text, IsSpace) && |text| <= size && overlap > 0
    ensures IsOverlapped(WithOverlap(prev, text, size, overlap), prev, text, size, overlap)
  {
    var front := SuffixOfTight(prev, overlap);
    var suffix := RuneSuffix(prev, overlap);
    var joined := suffix + "\n\n" + text;
    assert |joined| == |suffix| + 2 + |text|;
    if |joined| > size + overlap {
      LongOverlap(prev, front, suffix, text, size, overlap);
      assert WithOverlap(prev, text, size, overlap) == RuneSuffix(joined, size + overlap);
    } else {
      ShortJoin(prev, front, suffix, text, size, overlap);
      assert WithOverlap(prev, text, size, overlap) == joined;
    }
  }
}
