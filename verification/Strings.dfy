/** Go's string helpers, over sequences of runes, shared by the other modules. */
module Strings {

  datatype Option<+T> = None | Some(value: T)

  /** unicode.IsSpace. */
  predicate IsSpace(c: char) {
    '\t' <= c <= '\r' || c == ' ' || c == '\U{85}' || c == '\U{A0}' || c == '\U{1680}' || '\U{2000}' <= c <= '\U{200A}'
    || c == '\U{2028}' || c == '\U{2029}' || c == '\U{202F}' || c == '\U{205F}' || c == '\U{3000}'
  }

  /** The cutset " \t\r\n". */
  predicate IsBlankRune(c: char) {
    c == ' ' || c == '\t' || c == '\r' || c == '\n'
  }

  predicate All(s: string, p: char -> bool) {
    forall i :: 0 <= i < |s| ==> p(s[i])
  }

  function TrimRight(s: string, cut: char -> bool): string {
    if s == [] || !cut(s[|s| - 1]) then s else TrimRight(s[..|s| - 1], cut)
  }

  function TrimLeft(s: string, cut: char -> bool): string {
    if s == [] || !cut(s[0]) then s else TrimLeft(s[1..], cut)
  }

  lemma {:induction false} TrimRightParts(s: string, cut: char -> bool) returns (r: string)
    ensures s == TrimRight(s, cut) + r && All(r, cut)
    ensures TrimRight(s, cut) != [] ==> !cut(TrimRight(s, cut)[|TrimRight(s, cut)| - 1])
  {
    if s == [] || !cut(s[|s| - 1]) {
      r := [];
    } else {
      r := TrimRightParts(s[..|s| - 1], cut);
      r := r + [s[|s| - 1]];
    }
  }

  lemma {:induction false} TrimLeftParts(s: string, cut: char -> bool) returns (l: string)
    ensures s == l + TrimLeft(s, cut) && All(l, cut)
    ensures TrimLeft(s, cut) != [] ==> !cut(TrimLeft(s, cut)[0])
  {
    if s == [] || !cut(s[0]) {
      l := [];
    } else {
      l := TrimLeftParts(s[1..], cut);
      l := [s[0]] + l;
    }
  }

  function Trim(s: string, cut: char -> bool): string {
    TrimRight(TrimLeft(s, cut), cut)
  }

  function TrimSpace(s: string): string {
    Trim(s, IsSpace)
  }

  /** s keeps its first and last rune when trimmed. */
  predicate Tight(s: string, cut: char -> bool) {
    s != [] ==> !cut(s[0]) && !cut(s[|s| - 1])
  }

  /** t stands in s from rune at on. */
  predicate StandsAt(s: string, at: nat, t: string) {
    at + |t| <= |s| && s[at..at + |t|] == t
  }

  predicate HasSuffix(s: string, t: string) {
    |t| <= |s| && s[|s| - |t|..] == t
  }

  /** Trimming removes cutset runes at both ends and nothing else. */
  lemma TrimParts(s: string, cut: char -> bool) returns (l: string, r: string)
    ensures s == l + Trim(s, cut) + r && All(l, cut) && All(r, cut) && Tight(Trim(s, cut), cut)
  {
    l := TrimLeftParts(s, cut);
    r := TrimRightParts(TrimLeft(s, cut), cut);
    if Trim(s, cut) != [] { assert Trim(s, cut)[0] == TrimLeft(s, cut)[0]; }
  }

  lemma {:induction false} TrimLeftSkip(l: string, x: string, cut: char -> bool)
    requires All(l, cut)
    ensures TrimLeft(l + x, cut) == TrimLeft(x, cut)
  {
    if l == [] {
      assert l + x == x;
    } else {
      assert (l + x)[1..] == l[1..] + x;
      TrimLeftSkip(l[1..], x, cut);
    }
  }

  lemma {:induction false} TrimRightSkip(x: string, r: string, cut: char -> bool)
    requires All(r, cut)
    ensures TrimRight(x + r, cut) == TrimRight(x, cut)
  {
    if r == [] {
      assert x + r == x;
    } else {
      assert (x + r)[..|x + r| - 1] == x + r[..|r| - 1];
      TrimRightSkip(x, r[..|r| - 1], cut);
    }
  }

  /** That decomposition determines the trimmed string. */
  lemma TrimUnique(l: string, m: string, r: string, cut: char -> bool)
    requires All(l, cut) && All(r, cut) && Tight(m, cut)
    ensures Trim(l + m + r, cut) == m
  {
    assert l + m + r == l + (m + r);
    TrimLeftSkip(l, m + r, cut);
    if m == [] {
      TrimLeftSkip(r, [], cut);
      assert m + r == r + [];
    } else {
      TrimRightSkip(m, r, cut);
    }
  }

  /** What trimming one end leaves of visible text with cutset runes around it. */
  lemma TrimOneEnd(l: string, m: string, r: string, cut: char -> bool)
    requires All(l, cut) && All(r, cut) && m != [] && Tight(m, cut)
    ensures TrimLeft(l + m + r, cut) == m + r && TrimRight(l + m + r, cut) == l + m
  {
    Assoc(l, m, r);
    TrimLeftSkip(l, m + r, cut);
    TrimRightSkip(l + m, r, cut);
    assert (l + m)[|l + m| - 1] == m[|m| - 1];
  }

  lemma TrimTight(s: string, cut: char -> bool)
    ensures Tight(s, cut) <==> Trim(s, cut) == s
  {
    if Tight(s, cut) {
      TrimUnique([], s, [], cut);
      assert [] + s + [] == s;
    }
    var _, _ := TrimParts(s, cut);
  }

  lemma Assoc<T>(a: seq<T>, b: seq<T>, c: seq<T>)
    ensures a + b + c == a + (b + c)
  {
  }

  function UnlessSpace(c: char): string {
    if IsSpace(c) then [] else [c]
  }

  /** The runes of s that are not white space, in order. */
  function NonSpace(s: string): string {
    if s == [] then [] else UnlessSpace(s[0]) + NonSpace(s[1..])
  }

  lemma {:induction false} NonSpaceConcat(a: string, b: string)
    ensures NonSpace(a + b) == NonSpace(a) + NonSpace(b)
  {
    if a == [] {
      assert a + b == b;
    } else {
      var t := a[1..];
      NonSpaceConcat(t, b);
      assert (a + b)[1..] == t + b;
      calc {
        NonSpace(a + b);
        UnlessSpace(a[0]) + NonSpace(t + b);
        UnlessSpace(a[0]) + (NonSpace(t) + NonSpace(b));
        { Assoc(UnlessSpace(a[0]), NonSpace(t), NonSpace(b)); }
        NonSpace(a) + NonSpace(b);
      }
    }
  }

  lemma {:induction false} NonSpaceBlank(s: string)
    ensures All(s, IsSpace) <==> NonSpace(s) == []
  {
    if s != [] { NonSpaceBlank(s[1..]); }
  }

  /** Trimming with any cutset of white space keeps every other rune. */
  lemma NonSpaceTrim(s: string, cut: char -> bool)
    requires forall c :: cut(c) ==> IsSpace(c)
    ensures NonSpace(Trim(s, cut)) == NonSpace(s)
  {
    var l, r := TrimParts(s, cut);
    NonSpaceConcat(l + Trim(s, cut), r);
    NonSpaceConcat(l, Trim(s, cut));
    NonSpaceBlank(l);
    NonSpaceBlank(r);
  }

  function Concat(ss: seq<string>): string {
    if ss == [] then [] else ss[0] + Concat(ss[1..])
  }

  lemma {:induction false} ConcatAppend(a: seq<string>, b: seq<string>)
    ensures Concat(a + b) == Concat(a) + Concat(b)
  {
    if a == [] {
      assert a + b == b;
    } else {
      ConcatAppend(a[1..], b);
      assert (a + b)[1..] == a[1..] + b;
      Assoc(a[0], Concat(a[1..]), Concat(b));
    }
  }

  lemma ConcatOne(t: string)
    ensures Concat([t]) == t
  {
    assert [t][1..] == [];
    assert t + [] == t;
  }

  /** Joining with a white-space separator shows both texts. */
  lemma JoinShows(a: string, sep: string, b: string)
    requires All(sep, IsSpace)
    ensures NonSpace(a + sep + b) == NonSpace(a) + NonSpace(b)
  {
    NonSpaceConcat(a + sep, b);
    NonSpaceConcat(a, sep);
    NonSpaceBlank(sep);
  }

  lemma BlankIff(s: string)
    ensures TrimSpace(s) == "" <==> All(s, IsSpace)
  {
    var l, r := TrimParts(s, IsSpace);
    if All(s, IsSpace) {
      TrimUnique(s, [], [], IsSpace);
      assert s + [] + [] == s;
    }
  }

  /** strings.ToLower and strings.ToUpper, for every rune that has an ASCII letter as its other case: these two pairs
      are all there are besides the ASCII letters. */
  function LowerRune(c: char): char {
    if 'A' <= c <= 'Z' then (c as int + 32) as char
    else if c == '\U{130}' then 'i' else if c == '\U{212A}' then 'k' else c
  }

  function UpperRune(c: char): char {
    if 'a' <= c <= 'z' then (c as int - 32) as char
    else if c == '\U{131}' then 'I' else if c == '\U{17F}' then 'S' else c
  }

  function ToLower(s: string): string {
    seq(|s|, i requires 0 <= i < |s| => LowerRune(s[i]))
  }

  function ToUpper(s: string): string {
    seq(|s|, i requires 0 <= i < |s| => UpperRune(s[i]))
  }
}
