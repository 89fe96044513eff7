/** What every parsed manifest looks like, whatever the file: llm-runner/service/modelfile.go. */
module ModelfileShape {
  import opened Strings
  import opened Lines
  import opened TripleQuoted
  import opened Modelfile

  /** Three quotes at i, then only white space up to the line break at j. */
  predicate ClosesAt(s: string, i: nat, j: nat) {
    && i + 3 <= j < |s| && s[i] == s[i + 1] == s[i + 2] == '"' && s[j] == '\n'
    && forall k :: i + 3 <= k < j ==> IsSpace(s[k])
  }

  /** Some line before the last one ends in three quotes. */
  ghost predicate ClosesInside(s: string) {
    exists i: nat, j: nat :: ClosesAt(s, i, j)
  }

  lemma SameThere(s: string, a: nat, t: string, i: nat, j: nat)
    requires StandsAt(s, a, t) && a <= i && j < a + |t|
    ensures ClosesAt(s, i, j) <==> j >= a && ClosesAt(t, i - a, j - a)
  {
    assert forall k :: 0 <= k < |t| ==> s[a + k] == s[a..a + |t|][k] == t[k];
    if j >= a && ClosesAt(t, i - a, j - a) {
      assert forall k :: i + 3 <= k < j ==> s[k] == t[k - a];
    }
  }

  lemma ClosesWithin(l: string, t: string, r: string)
    requires ClosesInside(t)
    ensures ClosesInside(l + t + r)
  {
    var i: nat, j: nat :| ClosesAt(t, i, j);
    assert StandsAt(l + t + r, |l|, t);
    SameThere(l + t + r, |l|, t, |l| + i, |l| + j);
  }

  lemma OneLineIsOpen(s: string)
    requires OneLine(s)
    ensures !ClosesInside(s)
  {
  }

  /** Nothing closes before the end of b, nor at it. */
  ghost predicate IsOpen(b: string) {
    !ClosesInside(b + "\n")
  }

  lemma VisibleStays(l: string, m: string, r: string, k: nat)
    requires All(l, IsSpace) && All(r, IsSpace) && k < |l + m + r| && !IsSpace((l + m + r)[k])
    ensures |l| <= k < |l| + |m|
  {
  }

  /** Three quotes and white space at the end of a line close it. */
  lemma ClosesAtEnd(line: string, i: nat)
    requires i + 3 <= |line| && line[i..i + 3] == TQ
    requires forall k :: i + 3 <= k < |line| ==> IsSpace(line[k])
    ensures Closes(line)
  {
    TrimCrFirst(line);
    var l, r := TrimParts(line, IsSpace);
    var m := TrimSpace(line);
    assert line[i] == line[i..i + 3][0] && line[i + 2] == line[i..i + 3][2];
    VisibleStays(l, m, r, i);
    VisibleStays(l, m, r, i + 2);
    assert line[|l| + |m| - 1] == m[|m| - 1];
    assert m[|m| - 3..] == line[i..i + 3];
  }

  lemma OpenLine(line: string)
    requires OneLine(line)
    ensures !Closes(line) ==> IsOpen(line)
  {
    if !IsOpen(line) {
      var s := line + "\n";
      var i: nat, j: nat :| ClosesAt(s, i, j);
      assert forall k :: 0 <= k < |line| ==> s[k] == line[k] && line[k] in line;
      assert j == |line|;
      assert line[i..i + 3] == TQ;
      forall k | i + 3 <= k < |line| ensures IsSpace(line[k]) {
        assert IsSpace(s[k]);
      }
      ClosesAtEnd(line, i);
    }
  }

  lemma OpenAppend(b: string, line: string)
    requires OneLine(line)
    ensures IsOpen(b) ==> !ClosesInside(b + "\n" + line)
  {
    var s := b + "\n" + line;
    if ClosesInside(s) {
      var i: nat, j: nat :| ClosesAt(s, i, j);
      assert forall k :: |b| < k < |s| ==> s[k] == line[k - |b| - 1] && s[k] in line;
      assert StandsAt(s, 0, b + "\n");
      SameThere(s, 0, b + "\n", i, j);
    }
  }

  lemma OpenMore(b: string, line: string)
    ensures IsOpen(b) && IsOpen(line) ==> IsOpen(More(b, line))
  {
    if b != "" && !IsOpen(More(b, line)) {
      var s := More(b, line) + "\n";
      var i: nat, j: nat :| ClosesAt(s, i, j);
      assert StandsAt(s, 0, b + "\n") && StandsAt(s, |b| + 1, line + "\n") && s[|b|] == '\n';
      if i <= |b| {
        assert i + 2 < |b|;
        var e := if j < |b| then j else |b|;
        assert ClosesAt(s, i, e);
        SameThere(s, 0, b + "\n", i, e);
      } else {
        SameThere(s, |b| + 1, line + "\n", i, j);
      }
    }
  }

  // ---------- blocks ----------

  /** What is left of a line: a front part of it, without its carriage returns or not. */
  lemma LineParts(line: string)
    requires OneLine(line)
    ensures OneLine(TrimRight(line, IsCr)) && OneLine(WithoutSuffix(BeforeLastQuotes(TrimRight(line, IsCr))))
    ensures Closes(TrimRight(line, IsCr)) <==> Closes(line)
  {
    var cr := TrimRightParts(line, IsCr);
    TrimCrFirst(line);
    TrimCrFirst(TrimRight(line, IsCr));
  }

  lemma TrimOpen(s: string, cut: char -> bool)
    ensures !ClosesInside(s) ==> !ClosesInside(TrimRight(s, cut)) && !ClosesInside(Trim(s, cut))
  {
    var l, r := TrimParts(s, cut);
    var r' := TrimRightParts(s, cut);
    if ClosesInside(Trim(s, cut)) { ClosesWithin(l, Trim(s, cut), r); }
    if ClosesInside(TrimRight(s, cut)) {
      ClosesWithin("", TrimRight(s, cut), r');
      assert "" + TrimRight(s, cut) + r' == s;
    }
  }

  lemma EndedIsOpen(b: string, line: string)
    requires IsOpen(b) && OneLine(line)
    ensures !ClosesInside(Ended(b, line))
  {
    var x := WithoutSuffix(BeforeLastQuotes(TrimRight(line, IsCr)));
    LineParts(line);
    if b == "" { OneLineIsOpen(x); } else { OpenAppend(b, x); }
    TrimOpen(More(b, x), IsCrLf);
  }

  /** No line but the last of a text read from a block ends in three quotes. */
  lemma {:induction false} ClosedIsOpen(lines: seq<string>, b: string)
    requires OneLiners(lines) && IsOpen(b)
    ensures var r := Closed(lines, b); r.Body? ==> !ClosesInside(r.text)
    decreases |lines|
  {
    if lines != [] {
      var l := lines[0];
      assert l in lines && forall k :: k in lines[1..] ==> k in lines;
      if Closes(l) {
        EndedIsOpen(b, l);
      } else {
        LineParts(l);
        OpenLine(TrimRight(l, IsCr));
        OpenMore(b, TrimRight(l, IsCr));
        ClosedIsOpen(lines[1..], More(b, TrimRight(l, IsCr)));
      }
    }
  }

  /** An argument of a directive: trimmed, on one line. */
  predicate IsTrimmedArg(arg: string) {
    OneLine(arg) && Tight(arg, IsSpace)
  }

  lemma RestIsOpen(rest: string)
    requires OneLine(rest) && (rest != "" ==> !IsSpace(rest[|rest| - 1]))
    ensures HasSuffix(rest, TQ) || IsOpen(rest)
  {
    var l := TrimLeftParts(rest, IsSpace);
    var x := TrimLeft(rest, IsSpace);
    if x != "" { assert x[|x| - 1] == rest[|rest| - 1]; }
    TrimRightFixed(x, IsSpace);
    TrimCrFirst(rest);
    if HasSuffix(x, TQ) { assert rest[|rest| - 3..] == x[|x| - 3..]; }
    OpenLine(rest);
  }

  lemma FieldIsOpen(lines: seq<string>, arg: string)
    requires lines != [] && OneLiners(lines) && IsTrimmedArg(arg)
    ensures var r := StringField(lines, arg); r.Field? ==> !ClosesInside(r.text)
  {
    if TQ <= arg {
      var rest := arg[3..];
      assert OneLine(rest);
      if HasSuffix(rest, TQ) {
        OneLineIsOpen(rest[..|rest| - 3]);
        TrimOpen(rest[..|rest| - 3], IsCrLf);
      } else {
        RestIsOpen(rest);
        assert OneLiners(lines[1..]);
        ClosedIsOpen(lines[1..], rest);
      }
    } else {
      OneLineIsOpen(arg);
    }
  }

  // ---------- directives ----------

  /** FROM is one line, roles are known, and no text has a line before its last that ends in three quotes. */
  ghost predicate Shaped(m: ModelYaml) {
    && OneLine(m.from) && !ClosesInside(m.system) && !ClosesInside(m.template)
    && AllShaped(m.messages)
  }

  ghost predicate AllShaped(ms: seq<ModelMessage>) {
    forall i :: 0 <= i < |ms| ==> ShapedMessage(ms[i])
  }

  ghost predicate ShapedMessage(m: ModelMessage) {
    IsRole(m.role) && !ClosesInside(m.content)
  }

  lemma PartOneLine(l: string, t: string, r: string)
    requires OneLine(l + t + r)
    ensures OneLine(t)
  {
    assert forall c :: c in t ==> c in l + t + r;
  }

  lemma TrimmedArg(s: string)
    requires OneLine(s)
    ensures IsTrimmedArg(TrimSpace(s)) && OneLine(UnquotePath(s))
  {
    var l, r := TrimParts(s, IsSpace);
    var t := TrimSpace(s);
    PartOneLine(l, t, r);
    if |t| >= 2 {
      var l', r' := TrimParts(t[1..|t| - 1], IsSpace);
      assert t == t[..1] + t[1..|t| - 1] + t[|t| - 1..];
      assert t == (t[..1] + l') + TrimSpace(t[1..|t| - 1]) + (r' + t[|t| - 1..]);
      PartOneLine(t[..1] + l', TrimSpace(t[1..|t| - 1]), r' + t[|t| - 1..]);
    }
  }

  lemma SplitArgs(s: string)
    requires OneLine(s)
    ensures IsTrimmedArg(SplitDirective(s).rest) && IsTrimmedArg(SplitField(s).rest)
  {
    var i, j := WordEnd(s, IsBlankOrTab), WordEnd(s, IsSpace);
    if i < |s| { TrimmedArg(s[i + 1..]); }
    TrimmedArg(s[j..]);
  }

  lemma MessageIsShaped(lines: seq<string>, arg: string)
    requires lines != [] && OneLiners(lines) && OneLine(arg)
    ensures var r := MessageOf(lines, arg); r.MessageField? ==> ShapedMessage(r.message)
  {
    TrimmedArg(arg);
    SplitArgs(TrimSpace(arg));
    FieldIsOpen(lines, SplitField(TrimSpace(arg)).rest);
  }

  lemma AddShaped(ms: seq<ModelMessage>, m: ModelMessage)
    requires AllShaped(ms) && ShapedMessage(m)
    ensures AllShaped(ms + [m])
  {
  }

  lemma MessageKeepsShape(c: Strconv, arg: string, lines: seq<string>, st: State)
    requires lines != [] && OneLiners(lines) && OneLine(arg) && Shaped(st.out)
    ensures var r := Execute(c, Message, arg, lines, st); r.Step? ==> Shaped(r.st.out)
  {
    MessageIsShaped(lines, arg);
    var r := MessageOf(lines, arg);
    if r.MessageField? { AddShaped(st.out.messages, r.message); }
  }

  lemma TextKeepsShape(c: Strconv, kind: Kind, arg: string, lines: seq<string>, st: State)
    requires (kind.System? || kind.Template?) && lines != [] && OneLiners(lines) && IsTrimmedArg(arg) && Shaped(st.out)
    ensures var r := Execute(c, kind, arg, lines, st); r.Step? ==> Shaped(r.st.out)
  {
    FieldIsOpen(lines, arg);
  }

  lemma ExecuteKeepsShape(c: Strconv, kind: Kind, arg: string, lines: seq<string>, st: State)
    requires lines != [] && OneLiners(lines) && IsTrimmedArg(arg) && Shaped(st.out)
    ensures var r := Execute(c, kind, arg, lines, st); r.Step? ==> Shaped(r.st.out)
  {
    match kind
    case Message => MessageKeepsShape(c, arg, lines, st);
    case From => TrimmedArg(arg);
    case System => TextKeepsShape(c, kind, arg, lines, st);
    case Template => TextKeepsShape(c, kind, arg, lines, st);
    case _ =>
  }

  lemma DirectiveKeepsShape(c: Strconv, lines: seq<string>, st: State)
    requires lines != [] && OneLiners(lines) && Shaped(st.out)
    ensures var r := Directive(c, lines, st); r.Step? ==> Shaped(r.st.out)
  {
    var trimmed := TrimSpace(TrimRight(lines[0], IsCr));
    assert lines[0] in lines;
    TrimCrFirst(lines[0]);
    TrimmedArg(lines[0]);
    SplitArgs(trimmed);
    var d := SplitDirective(trimmed);
    ExecuteKeepsShape(c, KindOf(d.word), d.rest, lines, st);
  }

  lemma {:induction false} LinesAreShaped(c: Strconv, lines: seq<string>, st: State)
    requires OneLiners(lines) && Shaped(st.out)
    ensures var r := ParseLines(c, lines, st); r.Ok? ==> Shaped(r.value)
    decreases |lines|
  {
    if lines != [] {
      DirectiveKeepsShape(c, lines, st);
      var d := Directive(c, lines, st);
      if d.Step? {
        assert forall k :: k in lines[d.next..] ==> k in lines;
        LinesAreShaped(c, lines[d.next..], d.st);
      }
    }
  }

  /** Every manifest the parser returns has this shape. */
  lemma ParsedIsShaped(c: Strconv, data: string)
    ensures var r := Parse(c, data); r.Ok? ==> Shaped(r.value)
  {
    SplitIsLines(data);
    OneLineIsOpen("");
    LinesAreShaped(c, Split(data), START);
  }
}
