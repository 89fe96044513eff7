/** The bracket scanners of llm-runner/tool_action_extract.go, against the grammar of RFC 8259. */
module JsonScanner {
  import opened Strings

  // ---------- JSON texts, sections 2 to 7 of RFC 8259 ----------

  datatype StringItem = Plain(c: char) | Escape(e: char) | Unicode(hex: string)

  /** A value with the insignificant white space it is written with. */
  datatype Json =
    | Word(text: string)
    | Str(items: seq<StringItem>)
    | Arr(blank: string, elems: seq<Elem>)
    | Obj(blank: string, members: seq<Member>)

  datatype Elem = Elem(before: string, value: Json, after: string)

  datatype Member = Member(before: string, key: seq<StringItem>, beforeColon: string, elem: Elem)

  predicate IsHex(c: char) {
    '0' <= c <= '9' || 'a' <= c <= 'f' || 'A' <= c <= 'F'
  }

  /** Runes of the literals true, false, null (section 3) and of numbers (section 6). */
  predicate IsWordRune(c: char) {
    '0' <= c <= '9' || 'a' <= c <= 'z' || c == 'E' || c == '+' || c == '-' || c == '.'
  }

  predicate ValidItem(i: StringItem) {
    match i
    case Plain(c) => c >= ' ' && c != '"' && c != '\\'
    case Escape(e) => e in "\"\\/bfnrt"
    case Unicode(h) => |h| == 4 && All(h, IsHex)
  }

  predicate ValidItems(items: seq<StringItem>) {
    forall i :: i in items ==> ValidItem(i)
  }

  predicate ValidElem(e: Elem) {
    All(e.before, IsBlankRune) && All(e.after, IsBlankRune) && Valid(e.value)
  }

  predicate ValidMember(m: Member) {
    All(m.before, IsBlankRune) && All(m.beforeColon, IsBlankRune) && ValidItems(m.key) && ValidElem(m.elem)
  }

  predicate Valid(v: Json) {
    match v
    case Word(t) => t != [] && All(t, IsWordRune)
    case Str(items) => ValidItems(items)
    case Arr(b, es) => All(b, IsBlankRune) && forall e :: e in es ==> ValidElem(e)
    case Obj(b, ms) => All(b, IsBlankRune) && forall m :: m in ms ==> ValidMember(m)
  }

  function PrintItem(i: StringItem): string {
    match i
    case Plain(c) => [c]
    case Escape(e) => ['\\', e]
    case Unicode(h) => ['\\', 'u'] + h
  }

  function PrintItems(items: seq<StringItem>): string {
    if items == [] then [] else PrintItem(items[0]) + PrintItems(items[1..])
  }

  function PrintString(items: seq<StringItem>): string {
    ['"'] + PrintItems(items) + ['"']
  }

  function PrintElem(e: Elem): string {
    e.before + Print(e.value) + e.after
  }

  function PrintMember(m: Member): string {
    m.before + PrintString(m.key) + m.beforeColon + [':'] + PrintElem(m.elem)
  }

  function PrintElems(es: seq<Elem>): string {
    if es == [] then [] else if |es| == 1 then PrintElem(es[0]) else PrintElem(es[0]) + [','] + PrintElems(es[1..])
  }

  function PrintMembers(ms: seq<Member>): string {
    if ms == [] then [] else if |ms| == 1 then PrintMember(ms[0])
    else PrintMember(ms[0]) + [','] + PrintMembers(ms[1..])
  }

  function Inner(v: Json): string
    requires v.Arr? || v.Obj?
    decreases v, 0
  {
    match v
    case Arr(b, es) => b + PrintElems(es)
    case Obj(b, ms) => b + PrintMembers(ms)
  }

  function Print(v: Json): string
    decreases v, 1
  {
    match v
    case Word(t) => t
    case Str(items) => PrintString(items)
    case Arr(_, _) => ['['] + Inner(v) + [']']
    case Obj(_, _) => ['{'] + Inner(v) + ['}']
  }

  // ---------- the scanner ----------

  /** The array and the object scanner differ only in their brackets. */
  datatype Kind = Array | Object {
    function Open(): char { if Array? then '[' else '{' }
    function Close(): char { if Array? then ']' else '}' }
  }

  datatype State = State(depth: int, inString: bool, escape: bool)

  const START := State(0, false, false)

  function Step(k: Kind, st: State, c: char): State {
    if st.escape then st.(escape := false)
    else if st.inString then
      if c == '\\' then st.(escape := true) else if c == '"' then st.(inString := false) else st
    else if c == '"' then st.(inString := true)
    else if c == k.Open() then st.(depth := st.depth + 1)
    else if c == k.Close() then st.(depth := st.depth - 1)
    else st
  }

  /** This rune closes the outermost bracket. */
  predicate Closes(k: Kind, st: State, c: char) {
    !st.escape && !st.inString && c == k.Close() && st.depth == 1
  }

  /** The state after all of s, or None if the outermost bracket closes within s. */
  function Run(k: Kind, s: string, st: State): Option<State> {
    if s == [] then Some(st)
    else if Closes(k, st, s[0]) then None
    else Run(k, s[1..], Step(k, st, s[0]))
  }

  /** r is the bracketed text that s begins with. */
  predicate IsBracketed(k: Kind, s: string, r: string) {
    && 2 <= |r| && r <= s
    && r[0] == k.Open()
    && Run(k, r[..|r| - 1], START) == Some(State(1, false, false))
    && r[|r| - 1] == k.Close()
  }

  /** What the leading scanner returns for text: the bracketed text at its front, if there is one. */
  predicate IsLeading(k: Kind, text: string, r: string) {
    var s := TrimSpace(text);
    if r == [] then s == [] || s[0] != k.Open() || Run(k, s, START).Some? else IsBracketed(k, s, r)
  }

  lemma {:induction false} RunConcat(k: Kind, a: string, b: string, st: State)
    ensures Run(k, a + b, st) == match Run(k, a, st) case None => None case Some(m) => Run(k, b, m)
    decreases |a|
  {
    if a == [] {
      assert a + b == b;
    } else {
      assert (a + b)[1..] == a[1..] + b;
      RunConcat(k, a[1..], b, Step(k, st, a[0]));
    }
  }

  /** t[i] is the scanner's state before rune i of s. */
  ghost predicate IsTrace(k: Kind, s: string, t: seq<State>) {
    |t| == |s| + 1 && t[0] == START && forall i :: 0 <= i < |s| ==> t[i + 1] == Step(k, t[i], s[i])
  }

  lemma {:induction false} TraceOf(k: Kind, s: string) returns (t: seq<State>)
    ensures IsTrace(k, s, t)
  {
    if s == [] {
      t := [START];
    } else {
      var n := |s| - 1;
      var u := TraceOf(k, s[..n]);
      t := u + [Step(k, u[n], s[n])];
    }
  }

  ghost predicate OpenUntil(k: Kind, s: string, t: seq<State>, n: nat)
    requires IsTrace(k, s, t) && n <= |s|
  {
    forall i :: 0 <= i < n ==> !Closes(k, t[i], s[i])
  }

  lemma {:induction false} TraceRuns(k: Kind, s: string, t: seq<State>, n: nat)
    requires IsTrace(k, s, t) && n <= |s| && OpenUntil(k, s, t, n)
    ensures Run(k, s[..n], START) == Some(t[n])
  {
    if n > 0 {
      TraceRuns(k, s, t, n - 1);
      assert s[..n] == s[..n - 1] + [s[n - 1]] && [s[n - 1]][1..] == [];
      RunConcat(k, s[..n - 1], [s[n - 1]], START);
    }
  }

  lemma ClosedAt(k: Kind, text: string, t: seq<State>, n: nat)
    requires var s := TrimSpace(text);
             IsTrace(k, s, t) && n < |s| && s[0] == k.Open() && OpenUntil(k, s, t, n) && Closes(k, t[n], s[n])
    ensures IsLeading(k, text, TrimSpace(text)[..n + 1])
  {
    var s := TrimSpace(text);
    TraceRuns(k, s, t, n);
    assert s[..n + 1][..n] == s[..n];
  }

  lemma NeverClosed(k: Kind, text: string, t: seq<State>)
    requires var s := TrimSpace(text); IsTrace(k, s, t) && OpenUntil(k, s, t, |s|)
    ensures IsLeading(k, text, "")
  {
    var s := TrimSpace(text);
    TraceRuns(k, s, t, |s|);
    assert s[..|s|] == s;
  }

  method ExtractLeading(k: Kind, text: string) returns (r: string)
    ensures IsLeading(k, text, r)
  {
    var s := TrimSpace(text);
    if |s| == 0 || s[0] != k.Open() { return ""; }
    ghost var t := TraceOf(k, s);
    var depth, inString, escape := 0, false, false;
    for i := 0 to |s|
      invariant t[i] == State(depth, inString, escape)
      invariant OpenUntil(k, s, t, i)
    {
      var b := s[i];
      if escape {
        escape := false;
      } else if inString {
        if b == '\\' {
          escape := true;
        } else if b == '"' {
          inString := false;
        }
      } else if b == '"' {
        inString := true;
      } else if b == k.Open() {
        depth := depth + 1;
      } else if b == k.Close() {
        depth := depth - 1;
        if depth == 0 {
          ClosedAt(k, text, t, i);
          return s[..i + 1];
        }
      }
    }
    NeverClosed(k, text, t);
    return "";
  }

  lemma RunPrefix(k: Kind, a: string, b: string)
    requires a <= b && Run(k, b, START).Some?
    ensures Run(k, a, START).Some?
  {
    RunConcat(k, a, b[|a|..], START);
    assert b == a + b[|a|..];
  }

  /** A bracketed prefix closes at its last rune. */
  lemma BracketedCloses(k: Kind, s: string, r: string)
    requires IsBracketed(k, s, r)
    ensures Run(k, r, START) == None
  {
    var a := r[..|r| - 1];
    assert r == a + [k.Close()];
    RunConcat(k, a, [k.Close()], START);
  }

  lemma BracketedNotShorter(k: Kind, s: string, r1: string, r2: string)
    requires IsBracketed(k, s, r1) && IsBracketed(k, s, r2)
    ensures |r1| >= |r2|
  {
    BracketedCloses(k, s, r1);
    if |r1| <= |r2| - 1 { RunPrefix(k, r1, r2[..|r2| - 1]); }
  }

  /** What the leading scanner returns is determined by the text. */
  lemma LeadingUnique(k: Kind, text: string, r1: string, r2: string)
    requires IsLeading(k, text, r1) && IsLeading(k, text, r2)
    ensures r1 == r2
  {
    var s := TrimSpace(text);
    if r1 != [] {
      BracketedCloses(k, s, r1);
      if r2 == [] { RunPrefix(k, r1, s); }
    }
    if r2 != [] {
      BracketedCloses(k, s, r2);
      if r1 == [] { RunPrefix(k, r2, s); }
    }
    if r1 != [] && r2 != [] {
      BracketedNotShorter(k, s, r1, r2);
      BracketedNotShorter(k, s, r2, r1);
    }
  }

  // ---------- printed values ----------

  /** Text the scanner passes over without a change of state, at any depth. */
  ghost predicate Neutral(k: Kind, s: string) {
    forall d {:trigger State(d, false, false)} ::
      d >= 1 ==> Run(k, s, State(d, false, false)) == Some(State(d, false, false))
  }

  lemma NeutralConcat(k: Kind, a: string, b: string)
    requires Neutral(k, a) && Neutral(k, b)
    ensures Neutral(k, a + b)
  {
    forall d | d >= 1 ensures Run(k, a + b, State(d, false, false)) == Some(State(d, false, false)) {
      RunConcat(k, a, b, State(d, false, false));
    }
  }

  predicate IsPlainRune(c: char) {
    c !in "\"[]{}"
  }

  lemma {:induction false} PlainNeutral(k: Kind, s: string)
    requires All(s, IsPlainRune)
    ensures Neutral(k, s)
  {
    if s != [] {
      PlainNeutral(k, s[1..]);
    }
  }

  lemma ItemStaysInside(k: Kind, i: StringItem, st: State)
    requires ValidItem(i) && st.inString && !st.escape
    ensures Run(k, PrintItem(i), st) == Some(st)
  {
    var p := PrintItem(i);
    match i
    case Plain(c) => assert p[1..] == [];
    case Escape(e) =>
      assert p[1..] == [e] && [e][1..] == [];
      assert Run(k, p, st) == Run(k, [e], st.(escape := true));
    case Unicode(h) =>
      assert p[1..] == ['u'] + h && (['u'] + h)[1..] == h;
      assert Run(k, p, st) == Run(k, ['u'] + h, st.(escape := true));
      HexStaysInside(k, h, st);
  }

  /** Inside a string nothing but its closing quote counts. */
  lemma {:induction false} ItemsStayInside(k: Kind, items: seq<StringItem>, st: State)
    requires ValidItems(items) && st.inString && !st.escape
    ensures Run(k, PrintItems(items), st) == Some(st)
  {
    if items != [] {
      var p := PrintItem(items[0]);
      assert items[0] in items;
      ItemStaysInside(k, items[0], st);
      ItemsStayInside(k, items[1..], st);
      RunConcat(k, p, PrintItems(items[1..]), st);
    }
  }

  lemma {:induction false} HexStaysInside(k: Kind, h: string, st: State)
    requires All(h, IsHex) && st.inString && !st.escape
    ensures Run(k, h, st) == Some(st)
  {
    if h != [] { HexStaysInside(k, h[1..], st); }
  }

  lemma StringNeutral(k: Kind, items: seq<StringItem>)
    requires ValidItems(items)
    ensures Neutral(k, PrintString(items))
  {
    forall d | d >= 1 ensures Run(k, PrintString(items), State(d, false, false)) == Some(State(d, false, false)) {
      ItemsStayInside(k, items, State(d, true, false));
      RunConcat(k, PrintItems(items), ['"'], State(d, true, false));
      assert PrintString(items)[1..] == PrintItems(items) + ['"'];
    }
  }

  /** Text in brackets, of either kind, around neutral text. */
  lemma BracketsNeutral(k: Kind, j: Kind, s: string)
    requires Neutral(k, s)
    ensures Neutral(k, [j.Open()] + s + [j.Close()])
  {
    forall d | d >= 1
      ensures Run(k, [j.Open()] + s + [j.Close()], State(d, false, false)) == Some(State(d, false, false))
    {
      BracketsRun(k, j, s, d);
    }
  }

  lemma BracketsRun(k: Kind, j: Kind, s: string, d: nat)
    requires Neutral(k, s) && d >= 1
    ensures Run(k, [j.Open()] + s + [j.Close()], State(d, false, false)) == Some(State(d, false, false))
  {
    var t := [j.Open()] + s + [j.Close()];
    var st := State(if j == k then d + 1 else d, false, false);
    assert Step(k, State(d, false, false), j.Open()) == st;
    CloseRuns(k, j, st.depth, d);
    RunConcat(k, s, [j.Close()], st);
    assert t[1..] == s + [j.Close()];
  }

  lemma CloseRuns(k: Kind, j: Kind, inner: nat, d: nat)
    requires d >= 1 && inner == if j == k then d + 1 else d
    ensures Run(k, [j.Close()], State(inner, false, false)) == Some(State(d, false, false))
  {
  }

  lemma ElemNeutral(k: Kind, e: Elem)
    requires ValidElem(e)
    ensures Neutral(k, PrintElem(e))
    decreases e
  {
    ValueNeutral(k, e.value);
    PlainNeutral(k, e.before);
    PlainNeutral(k, e.after);
    NeutralConcat(k, e.before, Print(e.value));
    NeutralConcat(k, e.before + Print(e.value), e.after);
  }

  lemma MemberNeutral(k: Kind, m: Member)
    requires ValidMember(m)
    ensures Neutral(k, PrintMember(m))
    decreases m
  {
    StringNeutral(k, m.key);
    PlainNeutral(k, m.before);
    PlainNeutral(k, m.beforeColon);
    PlainNeutral(k, [':']);
    NeutralConcat(k, m.before, PrintString(m.key));
    NeutralConcat(k, m.before + PrintString(m.key), m.beforeColon);
    NeutralConcat(k, m.before + PrintString(m.key) + m.beforeColon, [':']);
    ElemNeutral(k, m.elem);
    NeutralConcat(k, m.before + PrintString(m.key) + m.beforeColon + [':'], PrintElem(m.elem));
  }

  lemma ElemsNeutral(k: Kind, es: seq<Elem>)
    requires forall e :: e in es ==> ValidElem(e)
    ensures Neutral(k, PrintElems(es))
    decreases es
  {
    if es != [] {
      ElemNeutral(k, es[0]);
      ElemsNeutral(k, es[1..]);
      PlainNeutral(k, [',']);
      NeutralConcat(k, PrintElem(es[0]), [',']);
      NeutralConcat(k, PrintElem(es[0]) + [','], PrintElems(es[1..]));
    }
  }

  lemma MembersNeutral(k: Kind, ms: seq<Member>)
    requires forall m :: m in ms ==> ValidMember(m)
    ensures Neutral(k, PrintMembers(ms))
    decreases ms
  {
    if ms != [] {
      MemberNeutral(k, ms[0]);
      MembersNeutral(k, ms[1..]);
      PlainNeutral(k, [',']);
      NeutralConcat(k, PrintMember(ms[0]), [',']);
      NeutralConcat(k, PrintMember(ms[0]) + [','], PrintMembers(ms[1..]));
    }
  }

  lemma InnerNeutral(k: Kind, v: Json)
    requires Valid(v) && (v.Arr? || v.Obj?)
    ensures Neutral(k, Inner(v))
    decreases v, 0
  {
    PlainNeutral(k, v.blank);
    if v.Arr? {
      ElemsNeutral(k, v.elems);
      NeutralConcat(k, v.blank, PrintElems(v.elems));
    } else {
      MembersNeutral(k, v.members);
      NeutralConcat(k, v.blank, PrintMembers(v.members));
    }
  }

  lemma ValueNeutral(k: Kind, v: Json)
    requires Valid(v)
    ensures Neutral(k, Print(v))
    decreases v, 1
  {
    match v
    case Word(t) => PlainNeutral(k, t);
    case Str(items) => StringNeutral(k, items);
    case Arr(_, _) => InnerNeutral(k, v); BracketsNeutral(k, Array, Inner(v));
    case Obj(_, _) => InnerNeutral(k, v); BracketsNeutral(k, Object, Inner(v));
  }

  /** The scanner's own kind of value. */
  predicate Matches(k: Kind, v: Json) {
    if k.Array? then v.Arr? else v.Obj?
  }

  lemma PrintedValueIsBracketed(k: Kind, v: Json, s: string)
    requires Valid(v) && Matches(k, v) && Print(v) <= s
    ensures IsBracketed(k, s, Print(v))
  {
    var p := Print(v);
    var a := p[..|p| - 1];
    assert a == [k.Open()] + Inner(v) && a[1..] == Inner(v);
    InnerNeutral(k, v);
    assert Run(k, a, START) == Run(k, Inner(v), State(1, false, false));
  }

  lemma {:induction false} TrimRightKeepsFront(p: string, after: string)
    requires p != [] && !IsSpace(p[|p| - 1])
    ensures p <= TrimRight(p + after, IsSpace)
  {
    if after == [] {
      assert p + after == p;
    } else {
      var t := after[..|after| - 1];
      assert (p + after)[..|p + after| - 1] == p + t;
      TrimRightKeepsFront(p, t);
    }
  }

  /** Trimming keeps a front that begins and ends in a visible rune. */
  lemma TrimKeepsFront(before: string, p: string, after: string)
    requires All(before, IsSpace) && p != [] && Tight(p, IsSpace)
    ensures p <= TrimSpace(before + p + after)
  {
    Assoc(before, p, after);
    TrimLeftSkip(before, p + after, IsSpace);
    TrimRightKeepsFront(p, after);
  }

  /** Whatever brackets, quotes or escapes occur in its strings, a printed value is what the
      scanner returns, after any white space and before any text. */
  lemma ScannerFindsPrintedValue(k: Kind, v: Json, before: string, after: string, r: string)
    requires Valid(v) && Matches(k, v) && All(before, IsSpace)
    requires IsLeading(k, before + Print(v) + after, r)
    ensures r == Print(v)
  {
    TrimKeepsFront(before, Print(v), after);
    PrintedValueIsBracketed(k, v, TrimSpace(before + Print(v) + after));
    LeadingUnique(k, before + Print(v) + after, r, Print(v));
  }

  // ---------- the embedded search ----------

  /** The text at an opening bracket that the embedded search tries. */
  ghost predicate Candidate(k: Kind, text: string, i: nat, c: string) {
    i < |text| && text[i] == k.Open() && c != [] && IsLeading(k, text[i..], c)
  }

  ghost predicate Absent(c: char, s: string, lo: nat, hi: nat) {
    hi <= |s| && forall j :: lo <= j < hi ==> s[j] != c
  }

  method IndexOf(s: string, c: char) returns (r: int)
    ensures -1 <= r < |s|
    ensures r >= 0 ==> s[r] == c
    ensures Absent(c, s, 0, if r < 0 then |s| else r)
  {
    for i := 0 to |s|
      invariant forall j :: 0 <= j < i ==> s[j] != c
    {
      if s[i] == c { return i; }
    }
    return -1;
  }

  ghost predicate NoneAcceptedBefore(k: Kind, text: string, accepts: string -> bool, n: nat) {
    forall j: nat, c: string :: j < n && Candidate(k, text, j, c) ==> !accepts(c)
  }

  /** r is the accepted candidate that starts first, or empty if none is accepted. */
  ghost predicate IsFirstAccepted(k: Kind, text: string, accepts: string -> bool, r: string) {
    if r == [] then NoneAcceptedBefore(k, text, accepts, |text|)
    else accepts(r) && exists i: nat :: Candidate(k, text, i, r) && NoneAcceptedBefore(k, text, accepts, i)
  }

  lemma AbsentInSuffix(c: char, text: string, from: nat, n: nat)
    requires from <= |text| && Absent(c, text[from..], 0, n)
    ensures Absent(c, text, from, from + n)
  {
    forall j | from <= j < from + n ensures text[j] != c {
      assert text[from..][j - from] == text[j];
    }
  }

  /** One round of the search, on the suffix still to be searched. */
  lemma SearchRound(k: Kind, text: string, accepts: string -> bool, off: nat, idx: nat, candidate: string)
    requires off <= |text| && NoneAcceptedBefore(k, text, accepts, off)
    requires idx < |text| - off && Absent(k.Open(), text[off..], 0, idx) && text[off..][idx] == k.Open()
    requires IsLeading(k, text[off..][idx..], candidate)
    ensures if candidate != [] && accepts(candidate) then IsFirstAccepted(k, text, accepts, candidate)
            else NoneAcceptedBefore(k, text, accepts, off + idx + 1)
    ensures text[off..][idx + 1..] == text[off + idx + 1..]
  {
    AbsentInSuffix(k.Open(), text, off, idx);
    var i := off + idx;
    assert text[off..][idx..] == text[i..];
    assert NoneAcceptedBefore(k, text, accepts, i);
    if candidate != [] && accepts(candidate) {
      assert Candidate(k, text, i, candidate);
    } else {
      forall j: nat, c | j < i + 1 && Candidate(k, text, j, c) ensures !accepts(c) {
        if j == i { LeadingUnique(k, text[i..], candidate, c); }
      }
    }
  }

  lemma SearchEnds(k: Kind, text: string, accepts: string -> bool, off: nat)
    requires off <= |text| && NoneAcceptedBefore(k, text, accepts, off)
    requires Absent(k.Open(), text[off..], 0, |text| - off)
    ensures IsFirstAccepted(k, text, accepts, "")
  {
    AbsentInSuffix(k.Open(), text, off, |text| - off);
  }

  /** accepts stands for "parses as a list of tool calls one of which has a name". */
  method ExtractEmbedded(k: Kind, text: string, accepts: string -> bool) returns (r: string)
    ensures IsFirstAccepted(k, text, accepts, r)
  {
    var s := text;
    ghost var off: nat := 0;
    while true
      invariant off <= |text| && s == text[off..]
      invariant NoneAcceptedBefore(k, text, accepts, off)
      decreases |s|
    {
      var idx := IndexOf(s, k.Open());
      if idx < 0 {
        SearchEnds(k, text, accepts, off);
        return "";
      }
      var sub := s[idx..];
      var candidate := ExtractLeading(k, sub);
      SearchRound(k, text, accepts, off, idx, candidate);
      if candidate != "" && accepts(candidate) { return candidate; }
      s := s[idx + 1..];
      off := off + idx + 1;
    }
  }

  /** A candidate is a stretch of the text itself. */
  lemma CandidateIsSubstring(k: Kind, text: string, i: nat, c: string)
    requires Candidate(k, text, i, c)
    ensures i + |c| <= |text| && text[i..i + |c|] == c
  {
    var t := text[i..];
    assert t[0] == k.Open();
    assert TrimLeft(t, IsSpace) == t;
    var r := TrimRightParts(t, IsSpace);
    assert c <= TrimSpace(t) <= t;
    assert text[i..i + |c|] == t[..|c|];
  }

  /** A printed value that is accepted is found inside any text where no accepted candidate starts earlier. */
  lemma SearchFindsPrintedValue(k: Kind, v: Json, before: string, after: string, accepts: string -> bool, r: string)
    requires Valid(v) && Matches(k, v) && accepts(Print(v))
    requires NoneAcceptedBefore(k, before + Print(v) + after, accepts, |before|)
    requires IsFirstAccepted(k, before + Print(v) + after, accepts, r)
    ensures r == Print(v)
  {
    var text, n := before + Print(v) + after, |before|;
    PrintedValueIsCandidate(k, v, before, after);
    assert r != [];
    var i: nat :| Candidate(k, text, i, r) && NoneAcceptedBefore(k, text, accepts, i);
    assert i == n;
    LeadingUnique(k, text[n..], r, Print(v));
  }

  lemma PrintedValueIsCandidate(k: Kind, v: Json, before: string, after: string)
    requires Valid(v) && Matches(k, v)
    ensures Candidate(k, before + Print(v) + after, |before|, Print(v))
  {
    var text, n := before + Print(v) + after, |before|;
    assert text[n..] == [] + Print(v) + after;
    assert text[n] == Print(v)[0];
    TrimKeepsFront([], Print(v), after);
    PrintedValueIsBracketed(k, v, TrimSpace(text[n..]));
  }
}
