/** The Modelfile parser: llm-runner/service/modelfile.go. */
module Modelfile {
  import opened Strings
  import opened Lines
  import opened TripleQuoted
  import opened Decimal

  // ---------- manifests ----------

  /** Go's int. */
  type Int64 = n: int | -0x8000_0000_0000_0000 <= n < 0x8000_0000_0000_0000

  /** A float64, by its bits. */
  datatype Float = Float(bits: int)

  datatype Parameters = Parameters(
    temperature: Option<Float>, topP: Option<Float>, topK: Option<Int64>, maxTokens: Option<Int64>,
    repeatLastN: Option<Int64>, repeatPenalty: Option<Float>, seed: Option<Int64>, minP: Option<Float>)

  datatype ModelMessage = ModelMessage(role: string, content: string)

  datatype ModelYaml = ModelYaml(
    from: string, system: string, template: string, mmproj: string, parameter: Option<Parameters>,
    numCtx: Option<Int64>, stop: seq<string>, messages: seq<ModelMessage>)

  const NO_PARAMETERS := Parameters(None, None, None, None, None, None, None, None)
  const EMPTY := ModelYaml("", "", "", "", None, None, [], [])

  /** The strconv functions the codec calls for floats and quoted strings. */
  datatype Strconv = Strconv(
    formatFloat: Float -> string, parseFloat: string -> Option<Float>,
    quote: string -> string, unquote: string -> Option<string>)

  datatype Error =
    | UnknownDirective | AdapterUnsupported | MissingValue | Repeated | MissingFrom | UnclosedQuotes
    | BadParameter | UnsupportedParameter | BadNumber | NumCtxNotPositive | EmptyStop | NoRole | UnknownRole

  datatype Result<+T> = Ok(value: T) | Err(error: Error)

  // ---------- names ----------

  datatype Kind = License | Adapter | Requires | Message | From | System | Template | Parameter | Unknown

  function KindOf(dir: string): Kind {
    if dir == "LICENSE" then License else if dir == "ADAPTER" then Adapter else if dir == "REQUIRES" then Requires
    else if dir == "MESSAGE" then Message else if dir == "FROM" then From else if dir == "SYSTEM" then System
    else if dir == "TEMPLATE" then Template else if dir == "PARAMETER" then Parameter else Unknown
  }

  datatype Key =
    | Temperature | TopP | TopK | NumPredict | NumCtx | Stop | RepeatLastN | RepeatPenalty | Seed | MinP | Unsupported

  function KeyOf(key: string): Key {
    if key == "temperature" then Temperature else if key == "top_p" then TopP else if key == "top_k" then TopK
    else if key == "max_tokens" || key == "num_predict" then NumPredict else if key == "num_ctx" then NumCtx
    else if key == "stop" then Stop else if key == "repeat_last_n" then RepeatLastN
    else if key == "repeat_penalty" then RepeatPenalty else if key == "seed" then Seed
    else if key == "min_p" then MinP else Unsupported
  }

  predicate IsRole(role: string) {
    role == "system" || role == "user" || role == "assistant"
  }

  // ---------- words ----------

  predicate IsBlankOrTab(c: char) {
    c == ' ' || c == '\t'
  }

  /** strings.IndexFunc, the length of s when there is none. */
  function WordEnd(s: string, p: char -> bool): (n: nat)
    ensures n <= |s|
  {
    if s == [] || p(s[0]) then 0 else 1 + WordEnd(s[1..], p)
  }

  datatype Split2 = Split2(word: string, rest: string)

  /** splitModelfileDirective, the directive as written. */
  function SplitDirective(trimmed: string): Split2 {
    var i := WordEnd(trimmed, IsBlankOrTab);
    if i == |trimmed| then Split2(ToUpper(trimmed), "") else Split2(ToUpper(trimmed[..i]), TrimSpace(trimmed[i + 1..]))
  }

  /** The first of strings.Fields, in lower case, and what follows it. */
  function SplitField(arg: string): Split2 {
    var i := WordEnd(arg, IsSpace);
    Split2(ToLower(arg[..i]), TrimSpace(arg[i..]))
  }

  function UnquotePath(path: string): string {
    var s := TrimSpace(path);
    if |s| >= 2 && s[0] == '"' && s[|s| - 1] == '"' then TrimSpace(s[1..|s| - 1]) else s
  }

  function UnquoteValue(c: Strconv, value: string): string {
    var s := TrimSpace(value);
    match c.unquote(s) case Some(u) => u case None => s
  }

  function Atoi64(s: string): Option<Int64> {
    match Atoi(s)
    case None => None
    case Some(n) => if -0x8000_0000_0000_0000 <= n < 0x8000_0000_0000_0000 then Some(n) else None
  }

  // ---------- parameters ----------

  /** out, param and haveParam of the parser. */
  datatype State = State(out: ModelYaml, param: Parameters, have: bool)

  function SetFloat(p: Parameters, key: Key, f: Float): Parameters {
    match key
    case Temperature => p.(temperature := Some(f))
    case TopP => p.(topP := Some(f))
    case RepeatPenalty => p.(repeatPenalty := Some(f))
    case MinP => p.(minP := Some(f))
    case _ => p
  }

  function SetInt(p: Parameters, key: Key, n: Int64): Parameters {
    match key
    case TopK => p.(topK := Some(n))
    case NumPredict => p.(maxTokens := Some(n))
    case RepeatLastN => p.(repeatLastN := Some(n))
    case Seed => p.(seed := Some(n))
    case _ => p
  }

  predicate IsFloatKey(key: Key) {
    key.Temperature? || key.TopP? || key.RepeatPenalty? || key.MinP?
  }

  predicate IsIntKey(key: Key) {
    key.TopK? || key.NumPredict? || key.RepeatLastN? || key.Seed?
  }

  function WithParam(st: State, p: Parameters): State {
    st.(param := p, have := true)
  }

  function Applied(c: Strconv, st: State, key: Key, val: string): Result<State> {
    if IsFloatKey(key) then
      match c.parseFloat(val) {
        case None => Err(BadNumber)
        case Some(f) => Ok(WithParam(st, SetFloat(st.param, key, f)))
      }
    else if IsIntKey(key) then
      match Atoi64(val) { case None => Err(BadNumber) case Some(n) => Ok(WithParam(st, SetInt(st.param, key, n))) }
    else if key.NumCtx? then
      match Atoi64(val) {
        case None => Err(BadNumber)
        case Some(n) => if n <= 0 then Err(NumCtxNotPositive) else Ok(st.(out := st.out.(numCtx := Some(n))))
      }
    else if key.Stop? then
      if TrimSpace(val) == "" then Err(EmptyStop) else Ok(st.(out := st.out.(stop := st.out.stop + [val])))
    else Err(UnsupportedParameter)
  }

  // ---------- directives ----------

  /** A state and the line to go on with. */
  datatype Step = Step(st: State, next: nat) | Stopped(error: Error)

  datatype Field = Field(text: string, next: nat) | NoField(error: Error)

  function StringField(lines: seq<string>, arg: string): (r: Field)
    requires lines != []
    ensures r.Field? ==> 1 <= r.next <= |lines|
  {
    if !(TQ <= arg) then Field(arg, 1)
    else match Block(lines, arg) case Unclosed => NoField(UnclosedQuotes) case Body(text, next) => Field(text, next)
  }

  datatype MessageField = MessageField(message: ModelMessage, next: nat) | NoMessage(error: Error)

  function MessageOf(lines: seq<string>, arg: string): (r: MessageField)
    requires lines != []
    ensures r.MessageField? ==> 1 <= r.next <= |lines|
  {
    var a := TrimSpace(arg);
    var f := SplitField(a);
    if a == "" then NoMessage(NoRole)
    else if !IsRole(f.word) then NoMessage(UnknownRole)
    else match StringField(lines, f.rest)
         case NoField(e) => NoMessage(e)
         case Field(text, next) => MessageField(ModelMessage(f.word, text), next)
  }

  function Execute(c: Strconv, kind: Kind, arg: string, lines: seq<string>, st: State): (r: Step)
    requires lines != []
    ensures r.Step? ==> 1 <= r.next <= |lines|
  {
    match kind
    case License => (match StringField(lines, arg) case NoField(e) => Stopped(e) case Field(_, next) => Step(st, next))
    case Adapter => Stopped(AdapterUnsupported)
    case Requires => Step(st, 1)
    case Message => (
      match MessageOf(lines, arg)
      case NoMessage(e) => Stopped(e)
      case MessageField(m, next) => Step(st.(out := st.out.(messages := st.out.messages + [m])), next))
    case From =>
      if arg == "" then Stopped(MissingValue)
      else if st.out.from != "" then Stopped(Repeated)
      else Step(st.(out := st.out.(from := UnquotePath(arg))), 1)
    case System => (
      match StringField(lines, arg)
      case NoField(e) => Stopped(e)
      case Field(t, next) =>
        if st.out.system != "" then Stopped(Repeated) else Step(st.(out := st.out.(system := t)), next))
    case Template => (
      match StringField(lines, arg)
      case NoField(e) => Stopped(e)
      case Field(t, next) =>
        if st.out.template != "" then Stopped(Repeated) else Step(st.(out := st.out.(template := t)), next))
    case Parameter =>
      var f := SplitField(arg);
      if f.rest == "" then Stopped(BadParameter)
      else (match Applied(c, st, KeyOf(f.word), UnquoteValue(c, f.rest))
            case Err(e) => Stopped(e)
            case Ok(st') => Step(st', 1))
    case Unknown => Stopped(UnknownDirective)
  }

  /** One directive, or a line that is blank or a comment. */
  function Directive(c: Strconv, lines: seq<string>, st: State): (r: Step)
    requires lines != []
    ensures r.Step? ==> 1 <= r.next <= |lines|
  {
    var trimmed := TrimSpace(TrimRight(lines[0], IsCr));
    if trimmed == "" || trimmed[0] == '#' then Step(st, 1)
    else var d := SplitDirective(trimmed); Execute(c, KindOf(d.word), d.rest, lines, st)
  }

  function Finished(st: State): Result<ModelYaml> {
    if TrimSpace(st.out.from) == "" then Err(MissingFrom)
    else Ok(if st.have then st.out.(parameter := Some(st.param)) else st.out)
  }

  function ParseLines(c: Strconv, lines: seq<string>, st: State): Result<ModelYaml>
    decreases |lines|
  {
    if lines == [] then Finished(st)
    else match Directive(c, lines, st)
         case Stopped(e) => Err(e)
         case Step(st', next) => ParseLines(c, lines[next..], st')
  }

  const START := State(EMPTY, NO_PARAMETERS, false)

  function Parse(c: Strconv, data: string): Result<ModelYaml> {
    ParseLines(c, Split(data), START)
  }

  // ---------- the parser ----------

  /** The next line, or the error that ends the parse. */
  datatype Progress = At(next: nat) | Failed(error: Error)

  /** What comes of line i, whose directive comes to step. */
  predicate IsLineStep(step: Step, i: nat, r: Progress, st': State) {
    match step
    case Stopped(e) => r == Failed(e)
    case Step(d, next) => r == At(i + next) && st' == d
  }

  method ParseStringField(lines: seq<string>, i: nat, arg: string) returns (r: Field)
    requires i < |lines|
    ensures match StringField(lines[i..], arg)
            case NoField(e) => r == NoField(e)
            case Field(text, next) => r == Field(text, i + next)
  {
    if !(TQ <= arg) { return Field(arg, i + 1); }
    var b := ConsumeTripleQuoted(lines, i, arg);
    match b
    case Unclosed => return NoField(UnclosedQuotes);
    case Body(text, next) => return Field(text, next);
  }

  method ParseMessageDirective(lines: seq<string>, i: nat, arg: string) returns (r: MessageField)
    requires i < |lines|
    ensures match MessageOf(lines[i..], arg)
            case NoMessage(e) => r == NoMessage(e)
            case MessageField(m, next) => r == MessageField(m, i + next)
  {
    var a := TrimSpace(arg);
    if a == "" { return NoMessage(NoRole); }
    var f := SplitField(a);
    if !IsRole(f.word) { return NoMessage(UnknownRole); }
    var t := ParseStringField(lines, i, f.rest);
    match t
    case NoField(e) => return NoMessage(e);
    case Field(text, next) => return MessageField(ModelMessage(f.word, text), next);
  }

  /** The manifest being read. */
  class Builder {
    var out: ModelYaml
    var param: Parameters
    var haveParam: bool

    constructor ()
      ensures St() == START
    {
      out, param, haveParam := EMPTY, NO_PARAMETERS, false;
    }

    ghost function St(): State
      reads this
    {
      State(out, param, haveParam)
    }

    method ApplyParameter(c: Strconv, key: Key, val: string) returns (error: Option<Error>)
      modifies this
      ensures match Applied(c, old(St()), key, val)
              case Err(e) => error == Some(e)
              case Ok(st) => error == None && St() == st
    {
      if IsFloatKey(key) {
        var f := c.parseFloat(val);
        if f.None? { return Some(BadNumber); }
        param := SetFloat(param, key, f.value);
        haveParam := true;
      } else if IsIntKey(key) {
        var n := Atoi64(val);
        if n.None? { return Some(BadNumber); }
        param := SetInt(param, key, n.value);
        haveParam := true;
      } else if key.NumCtx? {
        var n := Atoi64(val);
        if n.None? { return Some(BadNumber); }
        if n.value <= 0 { return Some(NumCtxNotPositive); }
        out := out.(numCtx := n);
      } else if key.Stop? {
        if TrimSpace(val) == "" { return Some(EmptyStop); }
        out := out.(stop := out.stop + [val]);
      } else {
        return Some(UnsupportedParameter);
      }
      return None;
    }

    method Run(c: Strconv, kind: Kind, arg: string, lines: seq<string>, i: nat) returns (r: Progress)
      requires i < |lines|
      modifies this
      ensures match Execute(c, kind, arg, lines[i..], old(St()))
              case Stopped(e) => r == Failed(e)
              case Step(st, next) => r == At(i + next) && St() == st
    {
      r := At(i + 1);
      match kind
      case License =>
        var t := ParseStringField(lines, i, arg);
        match t { case NoField(e) => r := Failed(e); case Field(_, next) => r := At(next); }
      case Adapter => r := Failed(AdapterUnsupported);
      case Requires =>
      case Message =>
        var m := ParseMessageDirective(lines, i, arg);
        match m {
          case NoMessage(e) => r := Failed(e);
          case MessageField(message, next) =>
            out := out.(messages := out.messages + [message]);
            r := At(next);
        }
      case From =>
        if arg == "" { return Failed(MissingValue); }
        if out.from != "" { return Failed(Repeated); }
        out := out.(from := UnquotePath(arg));
      case System =>
        var t := ParseStringField(lines, i, arg);
        match t {
          case NoField(e) => r := Failed(e);
          case Field(text, next) =>
            if out.system != "" { return Failed(Repeated); }
            out := out.(system := text);
            r := At(next);
        }
      case Template =>
        var t := ParseStringField(lines, i, arg);
        match t {
          case NoField(e) => r := Failed(e);
          case Field(text, next) =>
            if out.template != "" { return Failed(Repeated); }
            out := out.(template := text);
            r := At(next);
        }
      case Parameter =>
        var f := SplitField(arg);
        if f.rest == "" { return Failed(BadParameter); }
        var error := ApplyParameter(c, KeyOf(f.word), UnquoteValue(c, f.rest));
        if error.Some? { return Failed(error.value); }
      case Unknown => r := Failed(UnknownDirective);
    }

    /** One directive, or a line that is blank or a comment. */
    method ParseLine(c: Strconv, lines: seq<string>, i: nat) returns (r: Progress)
      requires i < |lines|
      modifies this
      ensures IsLineStep(Directive(c, lines[i..], old(St())), i, r, St())
    {
      assert lines[i..][0] == lines[i];
      var line := TrimRight(lines[i], IsCr);
      var trimmed := TrimSpace(line);
      if trimmed == "" || trimmed[0] == '#' { return At(i + 1); }
      var d := SplitDirective(trimmed);
      r := Run(c, KindOf(d.word), d.rest, lines, i);
    }
  }

  /** One round of the loop over the lines: what the first line comes to, and the parse of those behind it. */
  lemma ParseOne(c: Strconv, lines: seq<string>, st: State) returns (step: Step, behind: seq<string>)
    requires lines != []
    ensures step == Directive(c, lines, st)
    ensures step.Stopped? ==> ParseLines(c, lines, st) == Err(step.error)
    ensures step.Step? ==> 1 <= step.next <= |lines| && behind == lines[step.next..]
                           && ParseLines(c, lines, st) == ParseLines(c, behind, step.st)
  {
    step, behind := Directive(c, lines, st), [];
    if step.Step? { behind := lines[step.next..]; }
  }

  lemma Behind(lines: seq<string>, i: nat, n: nat)
    requires i + n <= |lines|
    ensures lines[i..][n..] == lines[i + n..]
  {
  }

  method ParseModelfile(c: Strconv, data: string) returns (r: Result<ModelYaml>)
    ensures r == Parse(c, data)
  {
    var lines := Split(data);
    var b := new Builder();
    var i := 0;
    ghost var rest := lines;
    while i < |lines|
      invariant i <= |lines| && rest == lines[i..] && ParseLines(c, rest, b.St()) == Parse(c, data)
    {
      ghost var step, behind := ParseOne(c, rest, b.St());
      var next := b.ParseLine(c, lines, i);
      if next.Failed? { return Err(next.error); }
      Behind(lines, i, next.next - i);
      i, rest := next.next, behind;
    }
    if TrimSpace(b.out.from) == "" { return Err(MissingFrom); }
    if b.haveParam { b.out := b.out.(parameter := Some(b.param)); }
    return Ok(b.out);
  }
}
