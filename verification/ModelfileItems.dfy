/** What the parser makes of each directive the encoder writes: llm-runner/service/modelfile.go. */
module ModelfileItems {
  import opened Strings
  import opened Lines
  import opened TripleQuoted
  import opened Decimal
  import opened Modelfile
  import opened ModelfileEncode

  predicate IsQuote(c: char) {
    c == '"' || c == '\'' || c == '`'
  }

  /** A word without white space. */
  predicate IsWord(w: string) {
    w != "" && forall i :: 0 <= i < |w| ==> !IsSpace(w[i])
  }

  /** A formatted float is a word that is no quoted literal, and can be read; a NaN may come back as another NaN. */
  ghost predicate LawfulFloats(c: Strconv) {
    forall f :: IsWord(c.formatFloat(f)) && !IsQuote(c.formatFloat(f)[0]) && c.parseFloat(c.formatFloat(f)).Some?
  }

  predicate IsQuoted(q: string) {
    |q| >= 2 && q[0] == '"' && q[|q| - 1] == '"' && OneLine(q)
  }

  /** Quoted strings are Go literals on one line; only quoted literals can be unquoted, and that makes them shorter. */
  ghost predicate LawfulQuotes(c: Strconv) {
    && (forall s :: IsQuoted(c.quote(s)) && c.unquote(c.quote(s)) == Some(s))
    && (forall s :: c.unquote(s).Some? ==> s != "" && IsQuote(s[0]) && |c.unquote(s).value| < |s|)
  }

  ghost predicate Lawful(c: Strconv) {
    LawfulFloats(c) && LawfulQuotes(c)
  }

  // ---------- lines and words ----------

  lemma {:induction false} WordEndOf(w: string, rest: string, p: char -> bool)
    requires forall i :: 0 <= i < |w| ==> !p(w[i])
    requires rest != "" ==> p(rest[0])
    ensures WordEnd(w + rest, p) == |w|
  {
    if w == "" {
      assert w + rest == rest;
    } else {
      WordEndOf(w[1..], rest, p);
      assert (w + rest)[1..] == w[1..] + rest;
    }
  }

  /** An argument: one line with something visible in it. */
  predicate IsArg(arg: string) {
    OneLine(arg) && TrimSpace(arg) != ""
  }

  lemma WordIsArg(w: string)
    requires IsWord(w)
    ensures IsArg(w) && TrimSpace(w) == w
  {
    TrimTight(w, IsSpace);
  }

  lemma KindNames(kind: Kind)
    requires !kind.Unknown?
    ensures var w := KindName(kind); IsWord(w) && w[0] != '#' && ToUpper(w) == w && KindOf(w) == kind
  {
    KindIsWord(kind);
    KindIsUpper(kind);
  }

  lemma KindIsWord(kind: Kind)
    requires !kind.Unknown?
    ensures var w := KindName(kind); IsWord(w) && w[0] != '#' && KindOf(w) == kind
  {
  }

  lemma KindIsUpper(kind: Kind)
    requires !kind.Unknown?
    ensures ToUpper(KindName(kind)) == KindName(kind)
  {
  }

  lemma KeyNames(key: Key)
    requires !key.Unsupported?
    ensures var w := KeyName(key); IsWord(w) && ToLower(w) == w && KeyOf(w) == key
  {
    KeyOfName(key);
    KeyIsWord(key);
    KeyIsLower(key);
  }

  lemma KeyIsWord(key: Key)
    requires !key.Unsupported?
    ensures IsWord(KeyName(key))
  {
  }

  lemma KeyIsLower(key: Key)
    requires !key.Unsupported?
    ensures ToLower(KeyName(key)) == KeyName(key)
  {
  }

  lemma KeyOfName(key: Key)
    requires !key.Unsupported?
    ensures KeyOf(KeyName(key)) == key
  {
  }

  lemma RoleNames(role: string)
    requires IsRole(role)
    ensures IsWord(role) && ToLower(role) == role && RoleOf(role) == role
  {
    WordIsArg(role);
  }

  /** Trimming a line with a word in front. */
  lemma TrimWord(w: string, arg: string) returns (l: string)
    requires IsWord(w) && TrimSpace(arg) != ""
    ensures All(l, IsSpace) && TrimSpace(w + " " + arg) == w + (" " + (l + TrimSpace(arg)))
    ensures TrimSpace(" " + (l + TrimSpace(arg))) == TrimSpace(arg) == TrimSpace(l + TrimSpace(arg))
  {
    var r;
    l, r := TrimParts(arg, IsSpace);
    var t := TrimSpace(arg);
    var a := w + (" " + (l + t));
    assert w + " " + arg == "" + a + r;
    assert a[|a| - 1] == t[|t| - 1];
    TrimUnique("", a, r, IsSpace);
    TrimUnique(" " + l, t, "", IsSpace);
    assert " " + (l + t) == " " + l + t + "";
    TrimUnique(l, t, "", IsSpace);
    assert l + t + "" == l + t;
  }

  /** A word and an argument on a line are split again. */
  lemma FieldsOf(w: string, arg: string)
    requires IsWord(w) && ToLower(w) == w && TrimSpace(arg) != ""
    ensures SplitField(TrimSpace(w + " " + arg)) == Split2(w, TrimSpace(arg))
  {
    var l := TrimWord(w, arg);
    var more := " " + (l + TrimSpace(arg));
    WordEndOf(w, more, IsSpace);
    assert (w + more)[..|w|] == w && (w + more)[|w|..] == more;
  }

  lemma SplitAtBlank(w: string, arg: string)
    requires IsWord(w)
    ensures SplitDirective(w + (" " + arg)) == Split2(ToUpper(w), TrimSpace(arg))
  {
    var line := w + (" " + arg);
    WordEndOf(w, " " + arg, IsBlankOrTab);
    assert line[..|w|] == w && line[|w| + 1..] == arg;
  }

  lemma DirectiveWord(w: string, arg: string)
    requires IsWord(w) && TrimSpace(arg) != ""
    ensures var line := TrimSpace(w + " " + arg);
            line != "" && line[0] == w[0] && SplitDirective(line) == Split2(ToUpper(w), TrimSpace(arg))
  {
    var l := TrimWord(w, arg);
    SplitAtBlank(w, l + TrimSpace(arg));
  }

  /** The line of a directive is read as that directive with that argument, trimmed. */
  lemma DirectiveOf(c: Strconv, kind: Kind, arg: string, rest: seq<string>, st: State)
    requires !kind.Unknown? && IsArg(arg)
    ensures var lines := [KindName(kind) + " " + arg] + rest;
            Directive(c, lines, st) == Execute(c, kind, TrimSpace(arg), lines, st)
  {
    KindNames(kind);
    TrimCrFirst(KindName(kind) + " " + arg);
    DirectiveWord(KindName(kind), arg);
  }

  lemma LineSplits(kind: Kind, arg: string, rest: string)
    requires !kind.Unknown? && IsArg(arg)
    ensures Split(Line(kind, arg) + rest) == [KindName(kind) + " " + arg] + Split(rest)
  {
    KindNames(kind);
    WordIsArg(KindName(kind));
    var line := KindName(kind) + " " + arg;
    SplitConcat(line, rest);
    SplitOne(line);
    assert Line(kind, arg) + rest == line + "\n" + rest;
  }

  /** A one-line directive leads to the state it executes to. */
  lemma LineParses(c: Strconv, kind: Kind, arg: string, rest: string, st: State, st': State)
    requires !kind.Unknown? && IsArg(arg)
    requires Execute(c, kind, TrimSpace(arg), [KindName(kind) + " " + arg] + Split(rest), st) == Step(st', 1)
    ensures ParseLines(c, Split(Line(kind, arg) + rest), st) == ParseLines(c, Split(rest), st')
  {
    DirectiveOf(c, kind, arg, Split(rest), st);
    LineSplits(kind, arg, rest);
    var lines := [KindName(kind) + " " + arg] + Split(rest);
    assert lines[1..] == Split(rest);
  }

  // ---------- bodies ----------

  /** A body that is read to its end: no line of a block closes it. */
  predicate BodyReadable(body: string) {
    if NeedsBlock(body) then NoneCloses(Split(body)) else TrimSpace(body) != ""
  }

  /** What is read for a body. */
  function ReadBody(body: string): string {
    if NeedsBlock(body) then TrimRight(Gather("", Split(body)), IsCrLf) else TrimSpace(body)
  }

  /** A body that survives in the form it is written in. */
  predicate BodySafe(body: string) {
    if NeedsBlock(body) then BlockSafe(body) else body != "" && Tight(body, IsSpace)
  }

  /** A body is read back exactly when it is safe; what is read is never longer. */
  lemma BodyExact(body: string)
    requires BodyReadable(body)
    ensures ReadBody(body) == body <==> BodySafe(body)
    ensures |ReadBody(body)| <= |body|
  {
    if NeedsBlock(body) {
      SplitIsLines(body);
      BodyRoundTrips(body);
      GatherLength("", Split(body));
      TrimRightFixed(Gather("", Split(body)), IsCrLf);
    } else {
      TrimTight(body, IsSpace);
      var l, r := TrimParts(body, IsSpace);
    }
  }

  /** What stands on the directive's line for the body, what stands below it, and how many lines that makes. */
  function OnLine(body: string): string {
    if NeedsBlock(body) then TQ else body
  }

  function Below(body: string, rest: seq<string>): seq<string> {
    if NeedsBlock(body) then Split(body) + ([TQ] + rest) else rest
  }

  function LinesOf(body: string): nat {
    if NeedsBlock(body) then |Split(body)| + 2 else 1
  }

  lemma BodySplits(kind: Kind, front: string, body: string, rest: string)
    requires !kind.Unknown? && IsArg(front + OnLine(body))
    ensures Split(BodyText(kind, front, body) + rest)
            == [KindName(kind) + " " + (front + OnLine(body))] + Below(body, Split(rest))
  {
    if NeedsBlock(body) {
      var tail := body + "\n" + (TQ + "\n" + rest);
      LineSplits(kind, front + TQ, tail);
      SplitConcat(body, TQ + "\n" + rest);
      SplitConcat(TQ, rest);
      SplitOne(TQ);
      assert (body + "\n" + TQ + "\n") + rest == tail;
      Assoc(Line(kind, front + TQ), body + "\n" + TQ + "\n", rest);
    } else {
      LineSplits(kind, front + body, rest);
    }
  }

  /** The lines of a block behind its opening, and the lines behind the block. */
  lemma BlockLines(head: string, lines: seq<string>, rest: seq<string>)
    ensures var all := [head] + (lines + ([TQ] + rest));
            all[1..] == lines + ([TQ] + rest) && all[|lines| + 2..] == rest && all[|lines| + 1..] == [TQ] + rest
  {
  }

  lemma BlockField(head: string, body: string, rest: seq<string>)
    requires NoneCloses(Split(body))
    ensures var lines := [head] + (Split(body) + ([TQ] + rest));
            StringField(lines, TQ) == Field(TrimRight(Gather("", Split(body)), IsCrLf), |Split(body)| + 2)
            && lines[|Split(body)| + 2..] == rest
  {
    var lines := [head] + (Split(body) + ([TQ] + rest));
    BlockLines(head, Split(body), rest);
    assert TQ[3..] == "";
    ClosedByQuotes(Split(body), rest, "");
    assert Block(lines, TQ) == Body(TrimRight(Gather("", Split(body)), IsCrLf), |Split(body)| + 2);
  }

  lemma BodyField(head: string, body: string, rest: seq<string>)
    requires BodyReadable(body)
    ensures StringField([head] + Below(body, rest), TrimSpace(OnLine(body))) == Field(ReadBody(body), LinesOf(body))
    ensures ([head] + Below(body, rest))[LinesOf(body)..] == rest
  {
    if NeedsBlock(body) {
      QuotesAreArg();
      BlockField(head, body, rest);
    } else {
      NoQuotes(body);
    }
  }

  lemma NoQuotes(body: string)
    requires !NeedsBlock(body) && TrimSpace(body) != ""
    ensures !(TQ <= TrimSpace(body))
  {
    var l, r := TrimParts(body, IsSpace);
    assert body[|l|] == TrimSpace(body)[0] && body[|l|] in body;
    assert TQ[0] == '"' && '"' !in body;
  }

  lemma QuotesAreArg()
    ensures IsArg(TQ) && TrimSpace(TQ) == TQ
  {
    TrimTight(TQ, IsSpace);
  }

  /** A directive with a body leads to the state it executes to. */
  lemma BodyParses(c: Strconv, kind: Kind, front: string, body: string, rest: string, st: State, st': State)
    requires !kind.Unknown? && IsArg(front + OnLine(body)) && BodyReadable(body)
    requires var arg := front + OnLine(body);
             Execute(c, kind, TrimSpace(arg), [KindName(kind) + " " + arg] + Below(body, Split(rest)), st)
             == Step(st', LinesOf(body))
    ensures ParseLines(c, Split(BodyText(kind, front, body) + rest), st) == ParseLines(c, Split(rest), st')
  {
    var arg := front + OnLine(body);
    var head := KindName(kind) + " " + arg;
    DirectiveOf(c, kind, arg, Below(body, Split(rest)), st);
    BodySplits(kind, front, body, rest);
    BodyField(head, body, Split(rest));
  }

  // ---------- items ----------

  /** What is read for a float. */
  function ReadFloat(c: Strconv, f: Float): Float {
    match c.parseFloat(c.formatFloat(f)) case Some(g) => g case None => f
  }

  /** What is read for a stop token. */
  function ReadStop(c: Strconv, token: string): string {
    UnquoteValue(c, QuoteToken(c, token))
  }

  /** An item the parser accepts. */
  predicate ItemReadable(c: Strconv, item: Item) {
    match item
    case FromItem(path) => IsArg(path)
    case FloatItem(key, _) => IsFloatKey(key)
    case IntItem(key, n) => IsIntKey(key) || (key.NumCtx? && n > 0)
    case StopItem(token) => TrimSpace(ReadStop(c, token)) != ""
    case TextItem(kind, body) => (kind.System? || kind.Template?) && BodyReadable(body)
    case MessageItem(m) => IsRole(m.role) && BodyReadable(m.content)
  }

  /** FROM, SYSTEM and TEMPLATE come once. */
  predicate IsFirst(st: State, item: Item) {
    match item
    case FromItem(_) => st.out.from == ""
    case TextItem(kind, _) => if kind.System? then st.out.system == "" else st.out.template == ""
    case _ => true
  }

  /** What an item means to the parser. */
  function Meaning(c: Strconv, st: State, item: Item): State {
    match item
    case FromItem(path) => st.(out := st.out.(from := UnquotePath(path)))
    case FloatItem(key, f) => WithParam(st, SetFloat(st.param, key, ReadFloat(c, f)))
    case IntItem(key, n) =>
      if key.NumCtx? then st.(out := st.out.(numCtx := Some(n))) else WithParam(st, SetInt(st.param, key, n))
    case StopItem(token) => st.(out := st.out.(stop := st.out.stop + [ReadStop(c, token)]))
    case TextItem(kind, body) =>
      if kind.System? then st.(out := st.out.(system := ReadBody(body)))
      else st.(out := st.out.(template := ReadBody(body)))
    case MessageItem(m) =>
      st.(out := st.out.(messages := st.out.messages + [ModelMessage(m.role, ReadBody(m.content))]))
  }

  lemma TrimTwice(s: string)
    ensures TrimSpace(TrimSpace(s)) == TrimSpace(s)
  {
    var l, r := TrimParts(s, IsSpace);
    TrimTight(TrimSpace(s), IsSpace);
  }

  lemma FromParses(c: Strconv, item: Item, rest: string, st: State)
    requires item.FromItem? && ItemReadable(c, item) && IsFirst(st, item)
    ensures ParseLines(c, Split(ItemText(c, item) + rest), st) == ParseLines(c, Split(rest), Meaning(c, st, item))
  {
    TrimTwice(item.path);
    LineParses(c, From, item.path, rest, st, Meaning(c, st, item));
  }

  lemma WordAndArg(w: string, arg: string)
    requires IsWord(w) && IsArg(arg)
    ensures IsArg(w + " " + arg)
  {
    WordIsArg(w);
    var l := TrimWord(w, arg);
  }

  lemma ParameterExecutes(c: Strconv, key: Key, value: string, lines: seq<string>, st: State)
    requires !key.Unsupported? && IsArg(value) && lines != []
    ensures Execute(c, Parameter, TrimSpace(KeyName(key) + " " + value), lines, st)
            == match Applied(c, st, key, UnquoteValue(c, value)) case Err(e) => Stopped(e) case Ok(st') => Step(st', 1)
  {
    KeyNames(key);
    FieldsOf(KeyName(key), value);
    TrimTwice(value);
    var f := SplitField(TrimSpace(KeyName(key) + " " + value));
    assert f == Split2(KeyName(key), TrimSpace(value)) && f.rest != "";
    assert UnquoteValue(c, f.rest) == UnquoteValue(c, value);
  }

  /** A parameter with a visible value on one line. */
  lemma ParameterParses(c: Strconv, key: Key, value: string, rest: string, st: State, st': State)
    requires !key.Unsupported? && IsArg(value) && Applied(c, st, key, UnquoteValue(c, value)) == Ok(st')
    ensures ParseLines(c, Split(ParameterText(key, value) + rest), st) == ParseLines(c, Split(rest), st')
  {
    KeyNames(key);
    var arg := KeyName(key) + " " + value;
    WordAndArg(KeyName(key), value);
    ParameterExecutes(c, key, value, [KindName(Parameter) + " " + arg] + Split(rest), st);
    LineParses(c, Parameter, arg, rest, st, st');
  }

  /** A number is a word that is no quoted literal, and is read back. */
  lemma IntegerIsRead(n: Int64)
    ensures IsWord(Itoa(n)) && !IsQuote(Itoa(n)[0]) && Atoi64(Itoa(n)) == Some(n)
  {
    ItoaRunes(n);
    AtoiItoa(n);
  }

  /** A word that is no quoted literal is the value itself. */
  lemma PlainValue(c: Strconv, value: string)
    requires LawfulQuotes(c) && IsWord(value) && !IsQuote(value[0])
    ensures IsArg(value) && UnquoteValue(c, value) == value
  {
    WordIsArg(value);
  }

  lemma FloatParses(c: Strconv, item: Item, rest: string, st: State)
    requires Lawful(c) && ItemReadable(c, item) && item.FloatItem?
    ensures ParseLines(c, Split(ItemText(c, item) + rest), st) == ParseLines(c, Split(rest), Meaning(c, st, item))
  {
    PlainValue(c, c.formatFloat(item.f));
    ParameterParses(c, item.key, c.formatFloat(item.f), rest, st, Meaning(c, st, item));
  }

  lemma IntParses(c: Strconv, item: Item, rest: string, st: State)
    requires Lawful(c) && ItemReadable(c, item) && item.IntItem?
    ensures ParseLines(c, Split(ItemText(c, item) + rest), st) == ParseLines(c, Split(rest), Meaning(c, st, item))
  {
    IntegerIsRead(item.n);
    PlainValue(c, Itoa(item.n));
    ParameterParses(c, item.key, Itoa(item.n), rest, st, Meaning(c, st, item));
  }

  lemma QuotedIsArg(c: Strconv, token: string)
    requires LawfulQuotes(c)
    ensures IsArg(QuoteToken(c, token))
  {
    var t, q := TrimSpace(token), QuoteToken(c, token);
    TrimTwice(token);
    if NeedsQuoting(t) { assert IsQuoted(c.quote(t)); }
    if t == "" || NeedsQuoting(t) { TrimTight(q, IsSpace); }
  }

  lemma StopParses(c: Strconv, item: Item, rest: string, st: State)
    requires Lawful(c) && item.StopItem? && ItemReadable(c, item)
    ensures ParseLines(c, Split(ItemText(c, item) + rest), st) == ParseLines(c, Split(rest), Meaning(c, st, item))
  {
    QuotedIsArg(c, item.token);
    ParameterParses(c, Stop, QuoteToken(c, item.token), rest, st, Meaning(c, st, item));
  }

  lemma TextParses(c: Strconv, item: Item, rest: string, st: State)
    requires item.TextItem? && ItemReadable(c, item) && IsFirst(st, item)
    ensures ParseLines(c, Split(ItemText(c, item) + rest), st) == ParseLines(c, Split(rest), Meaning(c, st, item))
  {
    var arg := "" + OnLine(item.body);
    assert arg == OnLine(item.body);
    QuotesAreArg();
    BodyField(KindName(item.kind) + " " + arg, item.body, Split(rest));
    BodyParses(c, item.kind, "", item.body, rest, st, Meaning(c, st, item));
  }

  /** A message's line is split into role and what stands on the line for the content. */
  lemma MessageArg(role: string, shown: string)
    requires IsRole(role) && IsArg(shown)
    ensures var arg := role + " " + shown;
            IsArg(arg) && SplitField(TrimSpace(arg)) == Split2(role, TrimSpace(shown))
  {
    RoleNames(role);
    WordAndArg(role, shown);
    FieldsOf(role, shown);
  }

  lemma MessageParses(c: Strconv, item: Item, rest: string, st: State)
    requires item.MessageItem? && ItemReadable(c, item)
    ensures ParseLines(c, Split(ItemText(c, item) + rest), st) == ParseLines(c, Split(rest), Meaning(c, st, item))
  {
    var m := item.message;
    QuotesAreArg();
    MessageArg(m.role, OnLine(m.content));
    var arg := m.role + " " + OnLine(m.content);
    TrimTwice(arg);
    BodyField(KindName(Message) + " " + arg, m.content, Split(rest));
    BodyParses(c, Message, m.role + " ", m.content, rest, st, Meaning(c, st, item));
  }

  lemma ItemParses(c: Strconv, item: Item, rest: string, st: State)
    requires Lawful(c) && ItemReadable(c, item) && IsFirst(st, item)
    ensures ParseLines(c, Split(ItemText(c, item) + rest), st) == ParseLines(c, Split(rest), Meaning(c, st, item))
  {
    match item
    case FromItem(_) => FromParses(c, item, rest, st);
    case FloatItem(_, _) => FloatParses(c, item, rest, st);
    case IntItem(_, _) => IntParses(c, item, rest, st);
    case StopItem(_) => StopParses(c, item, rest, st);
    case TextItem(_, _) => TextParses(c, item, rest, st);
    case MessageItem(_) => MessageParses(c, item, rest, st);
  }
}
