/** Which directives the encoder writes are refused by the parser: llm-runner/service/modelfile.go. */
module ModelfileRefused {
  import opened Strings
  import opened Lines
  import opened TripleQuoted
  import opened Modelfile
  import opened ModelfileEncode
  import opened ModelfileItems
  import opened ModelfileShape

  /** A visible body in which only the last line may close the block it is written in. */
  ghost predicate BodyGood(body: string) {
    TrimSpace(body) != "" && !ClosesInside(body)
  }

  /** An item written for a manifest that the parser could have returned. */
  ghost predicate ItemGood(item: Item) {
    match item
    case FromItem(path) => IsArg(path)
    case FloatItem(key, _) => IsFloatKey(key)
    case IntItem(key, n) => IsIntKey(key) || (key.NumCtx? && n > 0)
    case StopItem(_) => true
    case TextItem(kind, body) => (kind.System? || kind.Template?) && BodyGood(body)
    case MessageItem(m) => IsRole(m.role) && BodyGood(m.content)
  }

  // ---------- refused directives ----------

  /** A one-line directive that stops the parser. */
  lemma LineStops(c: Strconv, kind: Kind, arg: string, rest: string, st: State, e: Error)
    requires !kind.Unknown? && IsArg(arg)
    requires Execute(c, kind, TrimSpace(arg), [KindName(kind) + " " + arg] + Split(rest), st) == Stopped(e)
    ensures ParseLines(c, Split(Line(kind, arg) + rest), st) == Err(e)
  {
    DirectiveOf(c, kind, arg, Split(rest), st);
    LineSplits(kind, arg, rest);
  }

  lemma SecondFromStops(c: Strconv, path: string, rest: string, st: State)
    requires IsArg(path) && st.out.from != ""
    ensures ParseLines(c, Split(ItemText(c, FromItem(path)) + rest), st) == Err(Repeated)
  {
    LineStops(c, From, path, rest, st, Repeated);
  }

  lemma ParameterStops(c: Strconv, key: Key, value: string, rest: string, st: State, e: Error)
    requires !key.Unsupported? && IsArg(value) && Applied(c, st, key, UnquoteValue(c, value)) == Err(e)
    ensures ParseLines(c, Split(ParameterText(key, value) + rest), st) == Err(e)
  {
    KeyNames(key);
    var arg := KeyName(key) + " " + value;
    WordAndArg(KeyName(key), value);
    ParameterExecutes(c, key, value, [KindName(Parameter) + " " + arg] + Split(rest), st);
    LineStops(c, Parameter, arg, rest, st, e);
  }

  lemma EmptyStopStops(c: Strconv, token: string, rest: string, st: State)
    requires Lawful(c) && TrimSpace(ReadStop(c, token)) == ""
    ensures ParseLines(c, Split(ItemText(c, StopItem(token)) + rest), st) == Err(EmptyStop)
  {
    QuotedIsArg(c, token);
    BlankStopStops(c, QuoteToken(c, token), rest, st);
  }

  lemma BlankStopStops(c: Strconv, value: string, rest: string, st: State)
    requires IsArg(value) && TrimSpace(UnquoteValue(c, value)) == ""
    ensures ParseLines(c, Split(ParameterText(Stop, value) + rest), st) == Err(EmptyStop)
  {
    ParameterStops(c, Stop, value, rest, st, EmptyStop);
  }

  // ---------- blocks that end too early ----------

  /** The line of three quotes that is left over is no directive. */
  lemma StrayQuotes(c: Strconv, rest: seq<string>, st: State)
    ensures ParseLines(c, [TQ] + rest, st) == Err(UnknownDirective)
  {
    QuotesAreArg();
    TrimCrFirst(TQ);
    WordEndOf(TQ, "", IsBlankOrTab);
    assert TQ + "" == TQ;
    assert ToUpper(TQ) == TQ;
  }

  /** A closing line with a line behind it closes inside. */
  lemma ClosingLineInside(line: string)
    requires OneLine(line) && Closes(line)
    ensures ClosesInside(line + "\n")
  {
    TrimCrFirst(line);
    var l, r := TrimParts(line, IsSpace);
    var m := TrimSpace(line);
    var i := |l| + |m| - 3;
    var s := line + "\n";
    assert s[i..i + 3] == m[|m| - 3..] == TQ;
    assert s[i] == s[i..i + 3][0] && s[i + 1] == s[i..i + 3][1] && s[i + 2] == s[i..i + 3][2];
    assert ClosesAt(s, i, |line|);
  }

  lemma {:induction false} InnerLinesOpen(lines: seq<string>, k: nat)
    requires OneLiners(lines) && k + 1 < |lines| && Closes(lines[k])
    ensures ClosesInside(Join(lines))
  {
    var rest := Join(lines[1..]);
    assert OneLiners(lines[1..]);
    if k == 0 {
      ClosingLineInside(lines[0]);
      ClosesWithin("", lines[0] + "\n", rest);
      assert "" + (lines[0] + "\n") + rest == Join(lines);
    } else {
      InnerLinesOpen(lines[1..], k - 1);
      ClosesWithin(lines[0] + "\n", rest, "");
      assert (lines[0] + "\n") + rest + "" == Join(lines);
    }
  }

  /** A block whose only closing line is its last ends there. */
  lemma {:induction false} ClosedAtLast(lines: seq<string>, rest: seq<string>, b: string)
    requires lines != [] && Closes(lines[|lines| - 1]) && forall k :: 0 <= k < |lines| - 1 ==> !Closes(lines[k])
    ensures var r := Closed(lines + rest, b); r.Body? && r.next == |lines|
    decreases |lines|
  {
    var all := lines + rest;
    assert all[0] == lines[0];
    if |lines| > 1 {
      assert all[1..] == lines[1..] + rest;
      ClosedAtLast(lines[1..], rest, More(b, TrimRight(lines[0], IsCr)));
    }
  }

  /** Only the last line closes. */
  predicate ClosesLast(lines: seq<string>) {
    lines != [] && Closes(lines[|lines| - 1]) && forall k :: 0 <= k < |lines| - 1 ==> !Closes(lines[k])
  }

  lemma OpenClosesLast(lines: seq<string>)
    requires OneLiners(lines) && !NoneCloses(lines) && !ClosesInside(Join(lines))
    ensures ClosesLast(lines)
  {
    forall k | 0 <= k < |lines| - 1 ensures !Closes(lines[k]) {
      if Closes(lines[k]) { InnerLinesOpen(lines, k); }
    }
  }

  lemma UnreadableClosesLast(body: string)
    requires BodyGood(body) && !BodyReadable(body)
    ensures OnLine(body) == TQ && ClosesLast(Split(body))
    ensures forall rest :: Below(body, rest) == Split(body) + ([TQ] + rest)
  {
    SplitIsLines(body);
    OpenClosesLast(Split(body));
  }

  lemma EarlyBlock(head: string, lines: seq<string>, rest: seq<string>)
    requires ClosesLast(lines)
    ensures var r := StringField([head] + (lines + ([TQ] + rest)), TQ); r.Field? && r.next == |lines| + 1
  {
    var all := [head] + (lines + ([TQ] + rest));
    BlockLines(head, lines, rest);
    assert TQ[3..] == "" && !HasSuffix("", TQ);
    ClosedAtLast(lines, [TQ] + rest, "");
    assert Block(all, TQ) == Down(Closed(all[1..], ""), 1);
  }

  /** The block of a good body that is not readable ends one line early. */
  lemma EarlyField(head: string, body: string, rest: seq<string>) returns (next: nat)
    requires BodyGood(body) && !BodyReadable(body)
    ensures var lines := [head] + Below(body, rest);
            var r := StringField(lines, TrimSpace(OnLine(body)));
            r.Field? && r.next == next <= |lines| && lines[next..] == [TQ] + rest
  {
    UnreadableClosesLast(body);
    QuotesAreArg();
    EarlyBlock(head, Split(body), rest);
    BlockLines(head, Split(body), rest);
    next := |Split(body)| + 1;
  }

  /** A directive that stops the parser, or leaves the line of three quotes behind its block. */
  lemma EarlyBodyStops(c: Strconv, kind: Kind, front: string, body: string, rest: string, st: State)
    requires !kind.Unknown? && IsArg(front + OnLine(body)) && BodyGood(body) && !BodyReadable(body)
    requires var arg := front + OnLine(body);
             var lines := [KindName(kind) + " " + arg] + Below(body, Split(rest));
             var r, f := Execute(c, kind, TrimSpace(arg), lines, st), StringField(lines, TrimSpace(OnLine(body)));
             f.Field? ==> r.Stopped? || r.next == f.next
    ensures ParseLines(c, Split(BodyText(kind, front, body) + rest), st).Err?
  {
    var arg := front + OnLine(body);
    var below := Below(body, Split(rest));
    var next := EarlyField(KindName(kind) + " " + arg, body, Split(rest));
    BodySplits(kind, front, body, rest);
    DirectiveOf(c, kind, arg, below, st);
    var r := Execute(c, kind, TrimSpace(arg), [KindName(kind) + " " + arg] + below, st);
    if r.Step? { StrayQuotes(c, Split(rest), r.st); }
  }

  /** SYSTEM and TEMPLATE stop the parser or go on where their text ends; a second one stops it. */
  lemma TextExecutes(c: Strconv, kind: Kind, arg: string, lines: seq<string>, st: State)
    requires (kind.System? || kind.Template?) && lines != []
    ensures var r, f := Execute(c, kind, arg, lines, st), StringField(lines, arg);
            && (f.Field? ==> r.Stopped? || r.next == f.next)
            && (f.Field? && !IsFirst(st, TextItem(kind, "")) ==> r == Stopped(Repeated))
  {
  }

  lemma MessageExecutes(c: Strconv, arg: string, role: string, x: string, lines: seq<string>, st: State)
    requires IsRole(role) && SplitField(TrimSpace(arg)) == Split2(role, x) && TrimSpace(arg) != "" && lines != []
    ensures var r, f := Execute(c, Message, arg, lines, st), StringField(lines, x);
            f.Field? ==> r.Step? && r.next == f.next
  {
  }

  lemma EarlyText(c: Strconv, kind: Kind, body: string, rest: string, st: State)
    requires (kind.System? || kind.Template?) && BodyGood(body) && !BodyReadable(body)
    ensures ParseLines(c, Split(BodyText(kind, "", body) + rest), st).Err?
  {
    UnreadableClosesLast(body);
    QuotesAreArg();
    var arg := "" + OnLine(body);
    assert arg == OnLine(body);
    TextExecutes(c, kind, TrimSpace(arg), [KindName(kind) + " " + arg] + Below(body, Split(rest)), st);
    EarlyBodyStops(c, kind, "", body, rest, st);
  }

  lemma EarlyMessage(c: Strconv, m: ModelMessage, rest: string, st: State)
    requires IsRole(m.role) && BodyGood(m.content) && !BodyReadable(m.content)
    ensures ParseLines(c, Split(BodyText(Message, m.role + " ", m.content) + rest), st).Err?
  {
    var body := m.content;
    UnreadableClosesLast(body);
    QuotesAreArg();
    MessageArg(m.role, OnLine(body));
    var arg := m.role + " " + OnLine(body);
    TrimTwice(arg);
    var lines := [KindName(Message) + " " + arg] + Below(body, Split(rest));
    MessageExecutes(c, TrimSpace(arg), m.role, TrimSpace(OnLine(body)), lines, st);
    EarlyBodyStops(c, Message, m.role + " ", body, rest, st);
  }

  // ---------- items ----------

  lemma SecondTextStops(c: Strconv, kind: Kind, body: string, rest: string, st: State)
    requires (kind.System? || kind.Template?) && BodyReadable(body) && !IsFirst(st, TextItem(kind, body))
    ensures ParseLines(c, Split(BodyText(kind, "", body) + rest), st) == Err(Repeated)
  {
    var arg := "" + OnLine(body);
    assert arg == OnLine(body);
    QuotesAreArg();
    var below := Below(body, Split(rest));
    BodyField(KindName(kind) + " " + arg, body, Split(rest));
    TextExecutes(c, kind, TrimSpace(arg), [KindName(kind) + " " + arg] + below, st);
    DirectiveOf(c, kind, arg, below, st);
    BodySplits(kind, "", body, rest);
  }

  /** The parser gets past an item only if it can read it and has no value for it yet. */
  lemma ItemPassed(c: Strconv, item: Item, rest: string, st: State)
    requires Lawful(c) && ItemGood(item)
    ensures ParseLines(c, Split(ItemText(c, item) + rest), st).Err? || (ItemReadable(c, item) && IsFirst(st, item))
  {
    match item
    case FromItem(path) => if st.out.from != "" { SecondFromStops(c, path, rest, st); }
    case StopItem(token) => if TrimSpace(ReadStop(c, token)) == "" { EmptyStopStops(c, token, rest, st); }
    case TextItem(kind, body) =>
      if !BodyReadable(body) {
        EarlyText(c, kind, body, rest, st);
      } else if !IsFirst(st, item) {
        SecondTextStops(c, kind, body, rest, st);
      }
    case MessageItem(m) => if !BodyReadable(m.content) { EarlyMessage(c, m, rest, st); }
    case _ =>
  }
}
