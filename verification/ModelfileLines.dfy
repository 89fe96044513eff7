/** What each line of a Modelfile does, also those the encoder never writes: llm-runner/service/modelfile.go. */
module ModelfileLines {
  import opened Strings
  import opened Lines
  import opened TripleQuoted
  import opened Decimal
  import opened Modelfile
  import opened ModelfileEncode
  import opened ModelfileItems

  // ---------- how a line is written ----------

  /** The parts of l + w + gap + a + r: a word and its argument, in white space. */
  predicate AreParts(l: string, w: string, gap: string, a: string, r: string) {
    && All(l, IsSpace) && All(gap, IsSpace) && All(r, IsSpace)
    && IsWord(w) && w[0] != '#' && Tight(a, IsSpace)
    && if a == "" then gap == "" else gap != "" && IsBlankOrTab(gap[0])
  }

  /** The line has this word and this argument. */
  ghost predicate Writes(line: string, w: string, a: string) {
    exists l, gap, r :: AreParts(l, w, gap, a, r) && line == l + (w + gap + a) + r
  }

  /** A comment: its first visible rune is a hash. */
  ghost predicate IsComment(line: string) {
    exists l, x: string :: All(l, IsSpace) && line == l + ("#" + x)
  }

  /** The same word but for the case of ASCII letters. */
  predicate SameLetters(a: string, b: string) {
    |a| == |b| && forall i :: 0 <= i < |a| ==> SameLetter(a[i], b[i])
  }

  predicate SameLetter(a: char, b: char) {
    a == b || ('A' <= a <= 'Z' && b as int == a as int + 32) || ('A' <= b <= 'Z' && a as int == b as int + 32)
  }

  lemma SameCases(a: string, b: string)
    requires SameLetters(a, b)
    ensures ToUpper(a) == ToUpper(b) && ToLower(a) == ToLower(b)
  {
    forall i | 0 <= i < |a| ensures UpperRune(a[i]) == UpperRune(b[i]) && LowerRune(a[i]) == LowerRune(b[i]) {
      assert SameLetter(a[i], b[i]);
    }
  }

  /** Such a line is run as the directive that the word names. */
  lemma LineIsRun(c: Strconv, lines: seq<string>, w: string, a: string, st: State)
    requires lines != [] && Writes(lines[0], w, a)
    ensures Directive(c, lines, st) == Execute(c, KindOf(ToUpper(w)), a, lines, st)
  {
    var l, gap, r :| AreParts(l, w, gap, a, r) && lines[0] == l + (w + gap + a) + r;
    var t := w + gap + a;
    TrimCrFirst(lines[0]);
    assert TrimSpace(lines[0]) == t by { TrimUnique(l, t, r, IsSpace); }
    assert t != "" && t[0] == w[0];
    PartsAreSplit(l, w, gap, a, r);
  }

  lemma PartsAreSplit(l: string, w: string, gap: string, a: string, r: string)
    requires AreParts(l, w, gap, a, r)
    ensures SplitDirective(w + gap + a) == Split2(ToUpper(w), a)
  {
    var t := w + gap + a;
    if a == "" {
      assert t == w + "";
      WordEndOf(w, "", IsBlankOrTab);
    } else {
      assert t == w + (gap + a) && t[..|w|] == w && t[|w| + 1..] == gap[1..] + a + "";
      WordEndOf(w, gap + a, IsBlankOrTab);
      TrimUnique(gap[1..], a, "", IsSpace);
    }
  }

  // ---------- lines that are passed over ----------

  /** Blank lines, comments and REQUIRES change nothing. */
  lemma PassedOver(c: Strconv, line: string, rest: seq<string>, st: State, w: string, a: string)
    requires All(line, IsSpace) || IsComment(line) || (Writes(line, w, a) && SameLetters(w, "REQUIRES"))
    ensures Directive(c, [line] + rest, st) == Step(st, 1)
  {
    TrimCrFirst(line);
    BlankIff(line);
    if !All(line, IsSpace) {
      if IsComment(line) { CommentIsTrimmed(line); } else { RequiresIsPassed(c, line, rest, st, w, a); }
    }
  }

  lemma RequiresIsPassed(c: Strconv, line: string, rest: seq<string>, st: State, w: string, a: string)
    requires Writes(line, w, a) && SameLetters(w, "REQUIRES")
    ensures Directive(c, [line] + rest, st) == Step(st, 1)
  {
    WordIs(w, Requires);
    LineIsRun(c, [line] + rest, w, a, st);
  }

  lemma CommentIsTrimmed(line: string)
    requires IsComment(line)
    ensures TrimSpace(line) != "" && TrimSpace(line)[0] == '#'
  {
    var l, x: string :| All(l, IsSpace) && line == l + ("#" + x);
    var r := TrimRightParts(x, IsSpace);
    var m := "#" + TrimRight(x, IsSpace);
    assert line == l + m + r;
    TrimUnique(l, m, r, IsSpace);
  }

  // ---------- names ----------

  /** A directive is known by its name in any case. */
  lemma WordIs(w: string, kind: Kind)
    requires !kind.Unknown? && SameLetters(w, KindName(kind))
    ensures KindOf(ToUpper(w)) == kind
  {
    SameCases(w, KindName(kind));
    KindNames(kind);
  }

  /** The case of a directive's name does not matter. */
  lemma NamesInAnyCase(c: Strconv, line: string, line': string, w: string, w': string, a: string,
                       rest: seq<string>, st: State)
    requires Writes(line, w, a) && Writes(line', w', a) && SameLetters(w, w')
    ensures Directive(c, [line] + rest, st) == Directive(c, [line'] + rest, st)
  {
    SameCases(w, w');
    LineIsRun(c, [line] + rest, w, a, st);
    LineIsRun(c, [line'] + rest, w', a, st);
    SameBehind(c, KindOf(ToUpper(w)), a, line, line', rest, st);
  }

  /** A directive reads nothing of its own line but the argument. */
  lemma SameBehind(c: Strconv, kind: Kind, a: string, line: string, line': string, rest: seq<string>, st: State)
    ensures Execute(c, kind, a, [line] + rest, st) == Execute(c, kind, a, [line'] + rest, st)
  {
    SameField(a, line, line', rest);
    SameField(SplitField(TrimSpace(a)).rest, line, line', rest);
  }

  lemma SameField(a: string, line: string, line': string, rest: seq<string>)
    ensures StringField([line] + rest, a) == StringField([line'] + rest, a)
  {
    assert ([line] + rest)[1..] == rest == ([line'] + rest)[1..];
  }

  // ---------- parameters ----------

  /** PARAMETER with a key and a value. */
  ghost predicate WritesParameter(line: string, key: string, value: string) {
    IsWord(key) && value != "" && Tight(value, IsSpace) && exists w, gap: string ::
      SameLetters(w, "PARAMETER") && All(gap, IsSpace) && gap != "" && Writes(line, w, key + gap + value)
  }

  /** What a value stands for: what strconv.Unquote makes of it, or itself. */
  function Meaning(c: Strconv, value: string): string {
    if c.unquote(value).Some? then c.unquote(value).value else value
  }

  lemma MeaningIs(c: Strconv, value: string)
    requires Tight(value, IsSpace)
    ensures UnquoteValue(c, value) == Meaning(c, value)
  {
    TrimTight(value, IsSpace);
  }

  lemma KeyIsSplit(key: string, gap: string, value: string)
    requires IsWord(key) && All(gap, IsSpace) && gap != "" && value != "" && Tight(value, IsSpace)
    ensures SplitField(key + gap + value) == Split2(ToLower(key), value)
  {
    var a := key + gap + value;
    assert a == key + (gap + value) && a[..|key|] == key && a[|key|..] == gap + value + "";
    WordEndOf(key, gap + value, IsSpace);
    TrimUnique(gap, value, "", IsSpace);
  }

  lemma ParameterIsRun(c: Strconv, line: string, rest: seq<string>, key: string, value: string, st: State)
    requires WritesParameter(line, key, value)
    ensures Directive(c, [line] + rest, st)
            == match Applied(c, st, KeyOf(ToLower(key)), Meaning(c, value))
               case Err(e) => Stopped(e)
               case Ok(st') => Step(st', 1)
  {
    var w, gap: string :| SameLetters(w, "PARAMETER") && All(gap, IsSpace) && gap != ""
      && Writes(line, w, key + gap + value);
    var a := key + gap + value;
    WordIs(w, Parameter);
    LineIsRun(c, [line] + rest, w, a, st);
    KeyIsSplit(key, gap, value);
    MeaningIs(c, value);
  }

  /** The case of a key does not matter, and max_tokens is another name of num_predict. */
  lemma KeysInAnyCase(c: Strconv, line: string, line': string, key: string, key': string, value: string,
                      rest: seq<string>, st: State)
    requires WritesParameter(line, key, value) && WritesParameter(line', key', value)
    requires SameLetters(key, key') || (SameLetters(key, "max_tokens") && SameLetters(key', "num_predict"))
    ensures Directive(c, [line] + rest, st) == Directive(c, [line'] + rest, st)
  {
    ParameterIsRun(c, line, rest, key, value, st);
    ParameterIsRun(c, line', rest, key', value, st);
    SameKey(key, key');
  }

  lemma SameKey(key: string, key': string)
    requires SameLetters(key, key') || (SameLetters(key, "max_tokens") && SameLetters(key', "num_predict"))
    ensures KeyOf(ToLower(key)) == KeyOf(ToLower(key'))
  {
    if SameLetters(key, key') {
      SameCases(key, key');
    } else {
      SameCases(key, "max_tokens");
      SameCases(key', "num_predict");
      assert ToLower("max_tokens") == "max_tokens";
      assert ToLower("num_predict") == "num_predict";
    }
  }

  // ---------- what each directive does ----------

  /** The parameters change if the value is a number. */
  function Numbered(isNumber: bool, p: Parameters, st: State): Step {
    if isNumber then Step(State(st.out, p, true), 1) else Stopped(BadNumber)
  }

  lemma KeyIs(word: string, key: Key)
    requires !key.Unsupported? && SameLetters(word, KeyName(key))
    ensures KeyOf(ToLower(word)) == key
  {
    SameCases(word, KeyName(key));
    KeyNames(key);
  }

  /** The parameters with the field of a number's key set. */
  lemma NumberSets(c: Strconv, line: string, rest: seq<string>, word: string, key: Key, value: string, st: State)
    requires WritesParameter(line, word, value) && SameLetters(word, KeyName(key))
    ensures var r, v := Directive(c, [line] + rest, st), Meaning(c, value);
      && (IsFloatKey(key) ==> r == Numbered(c.parseFloat(v).Some?, FloatSet(st.param, key, c.parseFloat(v)), st))
      && (IsIntKey(key) ==> r == Numbered(Atoi64(v).Some?, IntSet(st.param, key, Atoi64(v)), st))
  {
    ParameterIsRun(c, line, rest, word, value, st);
    if !key.Unsupported? { KeyIs(word, key); }
  }

  function FloatSet(p: Parameters, key: Key, n: Option<Float>): Parameters {
    match key
    case Temperature => p.(temperature := n)
    case TopP => p.(topP := n)
    case RepeatPenalty => p.(repeatPenalty := n)
    case _ => p.(minP := n)
  }

  function IntSet(p: Parameters, key: Key, n: Option<Int64>): Parameters {
    match key
    case TopK => p.(topK := n)
    case NumPredict => p.(maxTokens := n)
    case RepeatLastN => p.(repeatLastN := n)
    case _ => p.(seed := n)
  }

  /** Each key of a float sets the field of its name and no other. */
  lemma FloatKeysSet(c: Strconv, line: string, rest: seq<string>, key: string, value: string, st: State)
    requires WritesParameter(line, key, value)
    ensures var r, n, p := Directive(c, [line] + rest, st), c.parseFloat(Meaning(c, value)), st.param;
      && (SameLetters(key, "temperature") ==> r == Numbered(n.Some?, p.(temperature := n), st))
      && (SameLetters(key, "top_p") ==> r == Numbered(n.Some?, p.(topP := n), st))
      && (SameLetters(key, "repeat_penalty") ==> r == Numbered(n.Some?, p.(repeatPenalty := n), st))
      && (SameLetters(key, "min_p") ==> r == Numbered(n.Some?, p.(minP := n), st))
  {
    if SameLetters(key, "temperature") { NumberSets(c, line, rest, key, Temperature, value, st); }
    if SameLetters(key, "top_p") { NumberSets(c, line, rest, key, TopP, value, st); }
    if SameLetters(key, "repeat_penalty") { NumberSets(c, line, rest, key, RepeatPenalty, value, st); }
    if SameLetters(key, "min_p") { NumberSets(c, line, rest, key, MinP, value, st); }
  }

  /** Each key of an integer sets the field of its name and no other; max_tokens and num_predict set the same one. */
  lemma IntKeysSet(c: Strconv, line: string, rest: seq<string>, key: string, value: string, st: State)
    requires WritesParameter(line, key, value)
    ensures var r, n, p := Directive(c, [line] + rest, st), Atoi64(Meaning(c, value)), st.param;
      && (SameLetters(key, "top_k") ==> r == Numbered(n.Some?, p.(topK := n), st))
      && (SameLetters(key, "max_tokens") || SameLetters(key, "num_predict") ==>
            r == Numbered(n.Some?, p.(maxTokens := n), st))
      && (SameLetters(key, "repeat_last_n") ==> r == Numbered(n.Some?, p.(repeatLastN := n), st))
      && (SameLetters(key, "seed") ==> r == Numbered(n.Some?, p.(seed := n), st))
  {
    if SameLetters(key, "top_k") { NumberSets(c, line, rest, key, TopK, value, st); }
    if SameLetters(key, "num_predict") { NumberSets(c, line, rest, key, NumPredict, value, st); }
    if SameLetters(key, "max_tokens") { MaxTokensSets(c, line, rest, key, value, st); }
    if SameLetters(key, "repeat_last_n") { NumberSets(c, line, rest, key, RepeatLastN, value, st); }
    if SameLetters(key, "seed") { NumberSets(c, line, rest, key, Seed, value, st); }
  }

  lemma MaxTokensSets(c: Strconv, line: string, rest: seq<string>, key: string, value: string, st: State)
    requires WritesParameter(line, key, value) && SameLetters(key, "max_tokens")
    ensures var n := Atoi64(Meaning(c, value));
      Directive(c, [line] + rest, st) == Numbered(n.Some?, st.param.(maxTokens := n), st)
  {
    ParameterIsRun(c, line, rest, key, value, st);
    SameKey(key, "num_predict");
    KeyIs("num_predict", NumPredict);
  }

  const KEYS := ["temperature", "top_p", "top_k", "max_tokens", "num_predict", "num_ctx", "stop", "repeat_last_n",
                 "repeat_penalty", "seed", "min_p"]

  /** The context size is positive, a stop token visible, and every other key is refused. */
  lemma OtherKeysDo(c: Strconv, line: string, rest: seq<string>, key: string, value: string, st: State)
    requires WritesParameter(line, key, value)
    ensures var r, v := Directive(c, [line] + rest, st), Meaning(c, value);
      && (SameLetters(key, "num_ctx") ==>
            match Atoi64(v)
            case None => r == Stopped(BadNumber)
            case Some(n) =>
              r == if n > 0 then Step(st.(out := st.out.(numCtx := Some(n))), 1) else Stopped(NumCtxNotPositive))
      && (SameLetters(key, "stop") ==>
            r == if All(v, IsSpace) then Stopped(EmptyStop)
                 else Step(st.(out := st.out.(stop := st.out.stop + [v])), 1))
      && (ToLower(key) !in KEYS ==> r == Stopped(UnsupportedParameter))
  {
    ParameterIsRun(c, line, rest, key, value, st);
    BlankIff(Meaning(c, value));
    if SameLetters(key, "num_ctx") { KeyIs(key, NumCtx); }
    if SameLetters(key, "stop") { KeyIs(key, Stop); }
    if ToLower(key) !in KEYS { OtherKey(ToLower(key)); }
  }

  lemma OtherKey(key: string)
    requires key !in KEYS
    ensures KeyOf(key) == Unsupported
  {
    assert KEYS[0] == "temperature" && KEYS[1] == "top_p" && KEYS[2] == "top_k" && KEYS[3] == "max_tokens";
    assert KEYS[4] == "num_predict" && KEYS[5] == "num_ctx" && KEYS[6] == "stop" && KEYS[7] == "repeat_last_n";
    assert KEYS[8] == "repeat_penalty" && KEYS[9] == "seed" && KEYS[10] == "min_p";
  }

  /** FROM takes a path once, without the quotes around it. */
  lemma FromDoes(c: Strconv, line: string, rest: seq<string>, w: string, a: string, st: State)
    requires Writes(line, w, a) && SameLetters(w, "FROM")
    ensures var r := Directive(c, [line] + rest, st);
      if a == "" then r == Stopped(MissingValue)
      else if st.out.from != "" then r == Stopped(Repeated)
      else r.Step? && r.next == 1 && r.st == st.(out := st.out.(from := r.st.out.from))
           && r.st.out.from == if |a| >= 2 && a[0] == '"' && a[|a| - 1] == '"' then TrimSpace(a[1..|a| - 1]) else a
  {
    WordIs(w, From);
    LineIsRun(c, [line] + rest, w, a, st);
    TrimTight(a, IsSpace);
  }

  const NAMES := ["LICENSE", "ADAPTER", "REQUIRES", "MESSAGE", "FROM", "SYSTEM", "TEMPLATE", "PARAMETER"]

  /** ADAPTER is refused, and so is every name that is none. */
  lemma Refused(c: Strconv, line: string, rest: seq<string>, w: string, a: string, st: State)
    requires Writes(line, w, a)
    ensures SameLetters(w, "ADAPTER") ==> Directive(c, [line] + rest, st) == Stopped(AdapterUnsupported)
    ensures ToUpper(w) !in NAMES ==> Directive(c, [line] + rest, st) == Stopped(UnknownDirective)
  {
    LineIsRun(c, [line] + rest, w, a, st);
    if SameLetters(w, "ADAPTER") { WordIs(w, Adapter); }
    if ToUpper(w) !in NAMES { OtherName(ToUpper(w)); }
  }

  lemma OtherName(name: string)
    requires name !in NAMES
    ensures KindOf(name) == Unknown
  {
    assert NAMES[0] == "LICENSE" && NAMES[1] == "ADAPTER" && NAMES[2] == "REQUIRES" && NAMES[3] == "MESSAGE";
    assert NAMES[4] == "FROM" && NAMES[5] == "SYSTEM" && NAMES[6] == "TEMPLATE" && NAMES[7] == "PARAMETER";
  }

  /** SYSTEM and TEMPLATE take a text once, each into its own field; LICENSE reads one as they do and drops it. */
  lemma TextsDo(c: Strconv, line: string, rest: seq<string>, w: string, a: string, st: State)
    requires Writes(line, w, a)
    ensures var r, t := Directive(c, [line] + rest, st), StringField([line] + rest, a);
      && (SameLetters(w, "LICENSE") ==> r == if t.Field? then Step(st, t.next) else Stopped(t.error))
      && (SameLetters(w, "SYSTEM") ==>
            r == if t.NoField? then Stopped(t.error) else if st.out.system != "" then Stopped(Repeated)
                 else Step(st.(out := st.out.(system := t.text)), t.next))
      && (SameLetters(w, "TEMPLATE") ==>
            r == if t.NoField? then Stopped(t.error) else if st.out.template != "" then Stopped(Repeated)
                 else Step(st.(out := st.out.(template := t.text)), t.next))
  {
    LineIsRun(c, [line] + rest, w, a, st);
    if SameLetters(w, "LICENSE") { WordIs(w, License); }
    if SameLetters(w, "SYSTEM") { WordIs(w, System); }
    if SameLetters(w, "TEMPLATE") { WordIs(w, Template); }
  }

  /** MESSAGE takes a role in any case, stores it in lower case, and reads the text behind it as SYSTEM reads one. */
  lemma MessageDoes(c: Strconv, line: string, rest: seq<string>, w: string, role: string, gap: string, text: string,
                    st: State)
    requires SameLetters(w, "MESSAGE") && IsWord(role) && All(gap, IsSpace) && gap != ""
    requires text != "" && Tight(text, IsSpace) && Writes(line, w, role + gap + text)
    ensures var r, t := Directive(c, [line] + rest, st), StringField([line] + rest, text);
      && (SameLetters(role, "system") || SameLetters(role, "user") || SameLetters(role, "assistant") ==>
            r == if t.NoField? then Stopped(t.error)
                 else var m := ModelMessage(ToLower(role), t.text);
                      Step(st.(out := st.out.(messages := st.out.messages + [m])), t.next))
      && (ToLower(role) !in {"system", "user", "assistant"} ==> r == Stopped(UnknownRole))
  {
    var a := role + gap + text;
    WordIs(w, Message);
    LineIsRun(c, [line] + rest, w, a, st);
    TrimTight(a, IsSpace);
    KeyIsSplit(role, gap, text);
    if SameLetters(role, "system") { RoleIs(role, "system"); }
    if SameLetters(role, "user") { RoleIs(role, "user"); }
    if SameLetters(role, "assistant") { RoleIs(role, "assistant"); }
  }

  lemma RoleIs(word: string, role: string)
    requires IsRole(role) && SameLetters(word, role)
    ensures ToLower(word) == role
  {
    SameCases(word, role);
    RoleNames(role);
  }
}
