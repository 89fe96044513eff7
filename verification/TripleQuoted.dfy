/** Triple-quoted blocks of a Modelfile: llm-runner/service/modelfile.go. */
module TripleQuoted {
  import opened Strings
  import opened Lines

  const TQ := "\"\"\""

  predicate IsCr(c: char) {
    c == '\r'
  }

  predicate IsCrLf(c: char) {
    c == '\r' || c == '\n'
  }

  /** What precedes the last three quotes of s; s itself if there are none. */
  function BeforeLastQuotes(s: string): string {
    var i := LastQuotes(s, |s|);
    if i >= 0 then s[..i] else s
  }

  /** strings.LastIndex, among the occurrences that end by rune n. */
  function LastQuotes(s: string, n: nat): (i: int)
    requires n <= |s|
    ensures i <= n
  {
    if n < 3 then -1 else if s[n - 3..n] == TQ then n - 3 else LastQuotes(s, n - 1)
  }

  function WithoutSuffix(s: string): string {
    if HasSuffix(s, TQ) then s[..|s| - 3] else s
  }

  predicate Closes(line: string) {
    HasSuffix(TrimSpace(TrimRight(line, IsCr)), TQ)
  }

  lemma TrimCrFirst(line: string)
    ensures TrimSpace(TrimRight(line, IsCr)) == TrimSpace(line)
  {
    var cr := TrimRightParts(line, IsCr);
    var l, r := TrimParts(TrimRight(line, IsCr), IsSpace);
    var t := TrimSpace(TrimRight(line, IsCr));
    assert line == l + t + (r + cr);
    TrimUnique(l, t, r + cr, IsSpace);
  }

  /** The builder gets one more line; as long as it is empty, no newline. */
  function More(b: string, line: string): string {
    if b == "" then line else b + "\n" + line
  }

  /** What a closing line leaves of the body. */
  function Ended(b: string, line: string): string {
    TrimRight(More(b, WithoutSuffix(BeforeLastQuotes(TrimRight(line, IsCr)))), IsCrLf)
  }

  /** A body and the line behind it. */
  datatype Body = Unclosed | Body(text: string, next: nat)

  /** The same body, k lines further down. */
  function Down(r: Body, k: nat): Body {
    match r case Unclosed => Unclosed case Body(text, next) => Body(text, next + k)
  }

  /** From the lines behind an opening, with b already read: the body and the number of lines it took. */
  function Closed(lines: seq<string>, b: string): (r: Body)
    ensures r.Body? ==> 1 <= r.next <= |lines|
    decreases |lines|
  {
    if lines == [] then Unclosed
    else if Closes(lines[0]) then Body(Ended(b, lines[0]), 1)
    else Down(Closed(lines[1..], More(b, TrimRight(lines[0], IsCr))), 1)
  }

  /** The body a directive's argument opens, and the number of lines it takes with the directive's own. */
  function Block(lines: seq<string>, arg: string): (r: Body)
    requires lines != []
    ensures r.Body? ==> 1 <= r.next <= |lines|
  {
    var rest := if TQ <= arg then arg[3..] else arg;
    if HasSuffix(rest, TQ) then Body(TrimRight(rest[..|rest| - 3], IsCrLf), 1) else Down(Closed(lines[1..], rest), 1)
  }

  method ConsumeTripleQuoted(lines: seq<string>, start: nat, firstArg: string) returns (r: Body)
    requires start < |lines|
    ensures r == Down(Block(lines[start..], firstArg), start)
  {
    var rest := if TQ <= firstArg then firstArg[3..] else firstArg;
    assert lines[start..][1..] == lines[start + 1..];
    if HasSuffix(rest, TQ) && |rest| >= 3 {
      return Body(TrimRight(rest[..|rest| - 3], IsCrLf), start + 1);
    }
    r := ReadToClosing(lines, start + 1, rest);
  }

  method ReadToClosing(lines: seq<string>, from: nat, rest: string) returns (r: Body)
    requires from <= |lines|
    ensures r == Down(Closed(lines[from..], rest), from)
  {
    var b, j := rest, from;
    while j < |lines|
      invariant from <= j <= |lines|
      invariant Down(Closed(lines[j..], b), j) == Down(Closed(lines[from..], rest), from)
    {
      ClosedStep(lines, j, b);
      var line := TrimRight(lines[j], IsCr);
      var trimmed := TrimSpace(line);
      if HasSuffix(trimmed, TQ) {
        b := WriteLine(b, WithoutSuffix(BeforeLastQuotes(line)));
        return Body(TrimRight(b, IsCrLf), j + 1);
      }
      b := WriteLine(b, line);
      j := j + 1;
    }
    return Unclosed;
  }

  lemma ClosedStep(lines: seq<string>, j: nat, b: string)
    requires j < |lines|
    ensures Closed(lines[j..], b) == if Closes(lines[j]) then Body(Ended(b, lines[j]), 1)
                                     else Down(Closed(lines[j + 1..], More(b, TrimRight(lines[j], IsCr))), 1)
  {
    assert lines[j..][1..] == lines[j + 1..];
  }

  method WriteLine(b: string, line: string) returns (b': string)
    ensures b' == More(b, line)
  {
    b' := b;
    if |b'| > 0 { b' := b' + "\n"; }
    b' := b' + line;
  }

  // ---------- bodies written as blocks ----------

  /** The builder after some lines that do not close the block. */
  function Gather(b: string, lines: seq<string>): string
    decreases |lines|
  {
    if lines == [] then b else Gather(More(b, TrimRight(lines[0], IsCr)), lines[1..])
  }

  predicate NoneCloses(lines: seq<string>) {
    forall l :: l in lines ==> !Closes(l)
  }

  lemma {:induction false} ClosedByQuotes(lines: seq<string>, rest: seq<string>, b: string)
    requires NoneCloses(lines)
    ensures Closed(lines + ([TQ] + rest), b) == Body(TrimRight(Gather(b, lines), IsCrLf), |lines| + 1)
    decreases |lines|
  {
    var all := lines + ([TQ] + rest);
    if lines == [] {
      QuotesClose(b);
      assert all[0] == TQ;
    } else {
      assert all[0] == lines[0] && all[1..] == lines[1..] + ([TQ] + rest) && lines[0] in lines;
      ClosedByQuotes(lines[1..], rest, More(b, TrimRight(lines[0], IsCr)));
    }
  }

  lemma QuotesClose(b: string)
    ensures Closes(TQ) && Ended(b, TQ) == TrimRight(b, IsCrLf)
  {
    TrimTight(TQ, IsSpace);
    assert TQ[0..3] == TQ && TrimRight(TQ, IsCr) == TQ && BeforeLastQuotes(TQ) == "" && WithoutSuffix("") == "";
    TrimRightSkip(b, "\n", IsCrLf);
    assert b + "\n" + "" == b + "\n";
  }

  /** A closing line inside ends the block before all of it has been read. */
  lemma {:induction false} ClosedEarly(lines: seq<string>, rest: seq<string>, b: string)
    requires !NoneCloses(lines)
    ensures var r := Closed(lines + rest, b); r.Body? && r.next <= |lines|
    decreases |lines|
  {
    var all := lines + rest;
    assert all[0] == lines[0];
    if !Closes(lines[0]) {
      assert all[1..] == lines[1..] + rest;
      var l :| l in lines && Closes(l);
      assert l in lines[1..];
      ClosedEarly(lines[1..], rest, More(b, TrimRight(lines[0], IsCr)));
    }
  }

  predicate NoCrEnds(lines: seq<string>) {
    forall l :: l in lines ==> TrimRight(l, IsCr) == l
  }

  /** Gathering adds nothing, and loses something at a carriage return or at an empty line in front. */
  lemma {:induction false} GatherLength(b: string, lines: seq<string>)
    requires lines != []
    ensures |Gather(b, lines)| <= |More(b, Join(lines))|
    ensures !NoCrEnds(lines) || (b == "" && |lines| > 1 && lines[0] == "")
            ==> |Gather(b, lines)| < |More(b, Join(lines))|
    decreases |lines|
  {
    var l, rest := lines[0], lines[1..];
    var cut := TrimRightParts(l, IsCr);
    assert forall k :: k in lines ==> k == l || k in rest;
    if rest != [] { GatherLength(More(b, TrimRight(l, IsCr)), rest); }
  }

  lemma {:induction false} GatherExact(b: string, lines: seq<string>)
    requires lines != [] && NoCrEnds(lines) && (b != "" || |lines| == 1 || lines[0] != "")
    ensures Gather(b, lines) == More(b, Join(lines))
    decreases |lines|
  {
    var l, rest := lines[0], lines[1..];
    assert l in lines && forall k :: k in rest ==> k in lines;
    if rest != [] {
      GatherExact(More(b, l), rest);
      Assoc(b + "\n", l, "\n" + Join(rest));
      Assoc(b + "\n" + l, "\n", Join(rest));
      Assoc(l, "\n", Join(rest));
    }
  }

  /** No line of the body closes the block or ends in a carriage return, and no line break begins or ends it. */
  predicate BlockSafe(body: string) {
    && NoneCloses(Split(body)) && NoCrEnds(Split(body))
    && (body != "" ==> body[0] != '\n' && !IsCrLf(body[|body| - 1]))
  }

  lemma FirstLineEmpty(body: string)
    requires body != ""
    ensures body[0] == '\n' <==> |Split(body)| > 1 && Split(body)[0] == ""
  {
  }

  lemma TrimRightFixed(s: string, cut: char -> bool)
    ensures |TrimRight(s, cut)| <= |s|
    ensures TrimRight(s, cut) == s <==> s == "" || !cut(s[|s| - 1])
  {
    var r := TrimRightParts(s, cut);
  }

  /** A body written between lines of three quotes is read back exactly when it is safe. */
  lemma BlockRoundTrips(opening: string, body: string, rest: seq<string>)
    ensures Block([opening] + (Split(body) + ([TQ] + rest)), TQ) == Body(body, |Split(body)| + 2) <==> BlockSafe(body)
  {
    var lines := Split(body);
    var all := [opening] + (lines + ([TQ] + rest));
    assert all[1..] == lines + ([TQ] + rest) && TQ[3..] == "";
    SplitIsLines(body);
    if NoneCloses(lines) {
      ClosedByQuotes(lines, rest, "");
      BodyRoundTrips(body);
    } else {
      ClosedEarly(lines, [TQ] + rest, "");
    }
  }

  lemma BodyRoundTrips(body: string)
    requires NoneCloses(Split(body)) && Join(Split(body)) == body
    ensures TrimRight(Gather("", Split(body)), IsCrLf) == body <==> BlockSafe(body)
  {
    var lines := Split(body);
    GatherLength("", lines);
    TrimRightFixed(Gather("", lines), IsCrLf);
    if body != "" { FirstLineEmpty(body); }
    if NoCrEnds(lines) && (|lines| == 1 || lines[0] != "") { GatherExact("", lines); }
  }
}
