/** The Modelfile encoder and its round trip through the parser: llm-runner/service/modelfile_encode.go. */
module ModelfileEncode {
  import opened Strings
  import opened TripleQuoted
  import opened Decimal
  import opened Modelfile

  // ---------- what is written ----------

  /** One directive of the encoded file. */
  datatype Item =
    | FromItem(path: string)
    | FloatItem(key: Key, f: Float)
    | IntItem(key: Key, n: Int64)
    | StopItem(token: string)
    | TextItem(kind: Kind, body: string)
    | MessageItem(message: ModelMessage)

  function KeyName(key: Key): string {
    match key
    case Temperature => "temperature" case TopP => "top_p" case TopK => "top_k" case NumPredict => "num_predict"
    case NumCtx => "num_ctx" case Stop => "stop" case RepeatLastN => "repeat_last_n"
    case RepeatPenalty => "repeat_penalty" case Seed => "seed" case MinP => "min_p" case Unsupported => ""
  }

  function KindName(kind: Kind): string {
    match kind
    case License => "LICENSE" case Adapter => "ADAPTER" case Requires => "REQUIRES" case Message => "MESSAGE"
    case From => "FROM" case System => "SYSTEM" case Template => "TEMPLATE" case Parameter => "PARAMETER"
    case Unknown => ""
  }

  predicate NeedsQuoting(s: string) {
    ' ' in s || '\t' in s || '\n' in s || '"' in s || '#' in s
  }

  /** quoteModelfileToken. */
  function QuoteToken(c: Strconv, s: string): string {
    var t := TrimSpace(s);
    if t == "" then "\"\"" else if NeedsQuoting(t) then c.quote(t) else t
  }

  predicate NeedsBlock(body: string) {
    '\n' in body || '"' in body
  }

  function Line(kind: Kind, arg: string): string {
    KindName(kind) + " " + arg + "\n"
  }

  /** A body on the directive's line, or as a block below it; front is a role, if any. */
  function BodyText(kind: Kind, front: string, body: string): string {
    if NeedsBlock(body) then Line(kind, front + TQ) + (body + "\n" + TQ + "\n") else Line(kind, front + body)
  }

  function ParameterText(key: Key, value: string): string {
    Line(Parameter, KeyName(key) + " " + value)
  }

  function ItemText(c: Strconv, item: Item): string {
    match item
    case FromItem(path) => Line(From, path)
    case FloatItem(key, f) => ParameterText(key, c.formatFloat(f))
    case IntItem(key, n) => ParameterText(key, Itoa(n))
    case StopItem(token) => ParameterText(Stop, QuoteToken(c, token))
    case TextItem(kind, body) => BodyText(kind, "", body)
    case MessageItem(m) => BodyText(Message, m.role + " ", m.content)
  }

  function Text(c: Strconv, items: seq<Item>): string {
    if items == [] then "" else Text(c, items[..|items| - 1]) + ItemText(c, items[|items| - 1])
  }

  // ---------- what a manifest writes ----------

  function FloatItems(key: Key, f: Option<Float>): seq<Item> {
    match f case None => [] case Some(v) => [FloatItem(key, v)]
  }

  function IntItems(key: Key, n: Option<Int64>): seq<Item> {
    match n case None => [] case Some(v) => [IntItem(key, v)]
  }

  function CtxItems(n: Option<Int64>): seq<Item> {
    if n.Some? && n.value > 0 then [IntItem(NumCtx, n.value)] else []
  }

  /** The items with those of the parameters behind them. */
  function AddParameters(items: seq<Item>, p: Parameters): seq<Item> {
    items + FloatItems(Temperature, p.temperature) + FloatItems(TopP, p.topP) + IntItems(TopK, p.topK)
    + IntItems(NumPredict, p.maxTokens) + IntItems(RepeatLastN, p.repeatLastN)
    + FloatItems(RepeatPenalty, p.repeatPenalty) + IntItems(Seed, p.seed) + FloatItems(MinP, p.minP)
  }

  function StopItems(stop: seq<string>): seq<Item> {
    if stop == [] then [] else StopItems(stop[..|stop| - 1]) + [StopItem(stop[|stop| - 1])]
  }

  function TextItems(kind: Kind, text: string): seq<Item> {
    if TrimSpace(text) == "" then [] else [TextItem(kind, TrimSpace(text))]
  }

  function RoleOf(role: string): string {
    var r := TrimSpace(ToLower(role));
    if r == "" then "user" else r
  }

  function OneMessage(m: ModelMessage): seq<Item> {
    if TrimSpace(m.content) == "" then [] else [MessageItem(ModelMessage(RoleOf(m.role), m.content))]
  }

  function MessageItems(ms: seq<ModelMessage>): seq<Item> {
    if ms == [] then [] else MessageItems(ms[..|ms| - 1]) + OneMessage(ms[|ms| - 1])
  }

  function HeadItems(cfg: ModelYaml, from: string): seq<Item> {
    var items := [FromItem(from)] + CtxItems(cfg.numCtx);
    match cfg.parameter case None => items case Some(p) => AddParameters(items, p)
  }

  function Items(cfg: ModelYaml, from: string): seq<Item> {
    HeadItems(cfg, from) + StopItems(cfg.stop) + TextItems(System, cfg.system) + TextItems(Template, cfg.template)
    + MessageItems(cfg.messages)
  }

  /** The FROM value: the manifest's, or else the name of the weights. */
  function FromOf(cfg: ModelYaml, weights: string): string {
    if TrimSpace(cfg.from) != "" then TrimSpace(cfg.from) else TrimSpace(weights)
  }

  function Encoded(c: Strconv, cfg: ModelYaml, weights: string): Option<string> {
    var from := FromOf(cfg, weights);
    if from == "" then None else Some(Text(c, Items(cfg, from)))
  }

  // ---------- the encoder ----------

  lemma TextLast(c: Strconv, items: seq<Item>, item: Item)
    ensures Text(c, items + [item]) == Text(c, items) + ItemText(c, item)
  {
    assert (items + [item])[..|items|] == items;
  }

  method WriteFloat(c: Strconv, b: string, ghost items: seq<Item>, key: Key, f: Option<Float>) returns (b': string)
    requires b == Text(c, items)
    ensures b' == Text(c, items + FloatItems(key, f))
  {
    b' := b;
    if f.Some? {
      TextLast(c, items, FloatItem(key, f.value));
      b' := b' + ParameterText(key, c.formatFloat(f.value));
    } else {
      assert items + [] == items;
    }
  }

  method WriteInt(c: Strconv, b: string, ghost items: seq<Item>, key: Key, n: Option<Int64>) returns (b': string)
    requires b == Text(c, items)
    ensures b' == Text(c, items + IntItems(key, n))
  {
    b' := b;
    if n.Some? {
      TextLast(c, items, IntItem(key, n.value));
      b' := b' + ParameterText(key, Itoa(n.value));
    } else {
      assert items + [] == items;
    }
  }

  method WriteParameters(c: Strconv, b: string, ghost items: seq<Item>, p: Parameters) returns (b': string)
    requires b == Text(c, items)
    ensures b' == Text(c, AddParameters(items, p))
  {
    ghost var i := items;
    b' := WriteFloat(c, b, i, Temperature, p.temperature);
    i := i + FloatItems(Temperature, p.temperature);
    b' := WriteFloat(c, b', i, TopP, p.topP);
    i := i + FloatItems(TopP, p.topP);
    b' := WriteInt(c, b', i, TopK, p.topK);
    i := i + IntItems(TopK, p.topK);
    b' := WriteInt(c, b', i, NumPredict, p.maxTokens);
    i := i + IntItems(NumPredict, p.maxTokens);
    b' := WriteInt(c, b', i, RepeatLastN, p.repeatLastN);
    i := i + IntItems(RepeatLastN, p.repeatLastN);
    b' := WriteFloat(c, b', i, RepeatPenalty, p.repeatPenalty);
    i := i + FloatItems(RepeatPenalty, p.repeatPenalty);
    b' := WriteInt(c, b', i, Seed, p.seed);
    i := i + IntItems(Seed, p.seed);
    b' := WriteFloat(c, b', i, MinP, p.minP);
  }

  method WriteBody(b: string, kind: Kind, front: string, body: string) returns (b': string)
    ensures b' == b + BodyText(kind, front, body)
  {
    if NeedsBlock(body) {
      b' := b + (Line(kind, front + TQ) + (body + "\n" + TQ + "\n"));
    } else {
      b' := b + Line(kind, front + body);
    }
  }

  method WriteStop(c: Strconv, b: string, ghost items: seq<Item>, token: string) returns (b': string)
    requires b == Text(c, items)
    ensures b' == Text(c, items + [StopItem(token)])
  {
    TextLast(c, items, StopItem(token));
    b' := b + ParameterText(Stop, QuoteToken(c, token));
  }

  lemma StopStep(items: seq<Item>, stop: seq<string>, i: nat)
    requires i < |stop|
    ensures items + StopItems(stop[..i + 1]) == items + StopItems(stop[..i]) + [StopItem(stop[i])]
  {
    assert stop[..i + 1][..i] == stop[..i];
    Assoc(items, StopItems(stop[..i]), [StopItem(stop[i])]);
  }

  method WriteStops(c: Strconv, b: string, ghost items: seq<Item>, stop: seq<string>) returns (b': string)
    requires b == Text(c, items)
    ensures b' == Text(c, items + StopItems(stop))
  {
    b' := b;
    assert stop[..0] == [] && items + [] == items;
    for i := 0 to |stop|
      invariant b' == Text(c, items + StopItems(stop[..i]))
    {
      StopStep(items, stop, i);
      b' := WriteStop(c, b', items + StopItems(stop[..i]), stop[i]);
    }
    assert stop[..|stop|] == stop;
  }

  method WriteText(c: Strconv, b: string, ghost items: seq<Item>, kind: Kind, text: string) returns (b': string)
    requires b == Text(c, items)
    ensures b' == Text(c, items + TextItems(kind, text))
  {
    b' := b;
    var t := TrimSpace(text);
    if t != "" {
      TextLast(c, items, TextItem(kind, t));
      b' := WriteBody(b', kind, "", t);
    } else {
      assert items + [] == items;
    }
  }

  method EffectiveRole(role: string) returns (r: string)
    ensures r == RoleOf(role)
  {
    r := TrimSpace(ToLower(role));
    if r == "" { r := "user"; }
  }

  method WriteMessage(c: Strconv, b: string, ghost items: seq<Item>, m: ModelMessage) returns (b': string)
    requires b == Text(c, items)
    ensures b' == Text(c, items + OneMessage(m))
  {
    if TrimSpace(m.content) == "" {
      assert items + [] == items;
      return b;
    }
    var role := EffectiveRole(m.role);
    TextLast(c, items, MessageItem(ModelMessage(role, m.content)));
    b' := WriteBody(b, Message, role + " ", m.content);
  }

  lemma MessageStep(items: seq<Item>, ms: seq<ModelMessage>, i: nat)
    requires i < |ms|
    ensures items + MessageItems(ms[..i + 1]) == items + MessageItems(ms[..i]) + OneMessage(ms[i])
  {
    assert ms[..i + 1][..i] == ms[..i];
    Assoc(items, MessageItems(ms[..i]), OneMessage(ms[i]));
  }

  method WriteMessages(c: Strconv, b: string, ghost items: seq<Item>, ms: seq<ModelMessage>) returns (b': string)
    requires b == Text(c, items)
    ensures b' == Text(c, items + MessageItems(ms))
  {
    b' := b;
    assert ms[..0] == [] && items + [] == items;
    for i := 0 to |ms|
      invariant b' == Text(c, items + MessageItems(ms[..i]))
    {
      MessageStep(items, ms, i);
      b' := WriteMessage(c, b', items + MessageItems(ms[..i]), ms[i]);
    }
    assert ms[..|ms|] == ms;
  }

  method EncodeModelfile(c: Strconv, cfg: ModelYaml, weights: string) returns (r: Option<string>)
    ensures r == Encoded(c, cfg, weights)
  {
    var from := TrimSpace(cfg.from);
    if from == "" { from := TrimSpace(weights); }
    if from == "" { return None; }
    var b := Line(From, from);
    ghost var items := [FromItem(from)];
    TextLast(c, [], FromItem(from));
    assert [] + items == items;
    if cfg.numCtx.Some? && cfg.numCtx.value > 0 {
      b := WriteInt(c, b, items, NumCtx, cfg.numCtx);
    } else {
      assert items + [] == items;
    }
    items := items + CtxItems(cfg.numCtx);
    if cfg.parameter.Some? { b := WriteParameters(c, b, items, cfg.parameter.value); }
    items := HeadItems(cfg, from);
    b := WriteStops(c, b, items, cfg.stop);
    items := items + StopItems(cfg.stop);
    b := WriteText(c, b, items, System, cfg.system);
    items := items + TextItems(System, cfg.system);
    b := WriteText(c, b, items, Template, cfg.template);
    items := items + TextItems(Template, cfg.template);
    b := WriteMessages(c, b, items, cfg.messages);
    return Some(b);
  }
}
