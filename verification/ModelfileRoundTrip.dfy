/** Encoded manifests read back: llm-runner/service/modelfile_encode.go through llm-runner/service/modelfile.go. */
module ModelfileRoundTrip {
  import opened Strings
  import opened Lines
  import opened TripleQuoted
  import opened Modelfile
  import opened ModelfileEncode
  import opened ModelfileItems
  import opened ModelfileShape
  import opened ModelfileRefused

  // ---------- manifests ----------

  function MeaningAll(c: Strconv, st: State, items: seq<Item>): State {
    if items == [] then st else Meaning(c, MeaningAll(c, st, items[..|items| - 1]), items[|items| - 1])
  }

  /** Every item is safe and comes at a state that has no value for it yet. */
  predicate Follows(c: Strconv, st: State, items: seq<Item>) {
    items == [] || (Follows(c, st, items[..|items| - 1]) && ItemReadable(c, items[|items| - 1])
                    && IsFirst(MeaningAll(c, st, items[..|items| - 1]), items[|items| - 1]))
  }

  lemma {:induction false} ItemsParse(c: Strconv, items: seq<Item>, rest: string, st: State)
    requires Lawful(c) && Follows(c, st, items)
    ensures ParseLines(c, Split(Text(c, items) + rest), st) == ParseLines(c, Split(rest), MeaningAll(c, st, items))
  {
    if items == [] {
      assert "" + rest == rest;
    } else {
      var front, item := items[..|items| - 1], items[|items| - 1];
      ItemsParse(c, front, ItemText(c, item) + rest, st);
      Assoc(Text(c, front), ItemText(c, item), rest);
      ItemParses(c, item, rest, MeaningAll(c, st, front));
    }
  }

  /** One more item. */
  lemma Extend(c: Strconv, st: State, items: seq<Item>, item: Item)
    requires Follows(c, st, items) && ItemReadable(c, item) && IsFirst(MeaningAll(c, st, items), item)
    ensures Follows(c, st, items + [item])
    ensures MeaningAll(c, st, items + [item]) == Meaning(c, MeaningAll(c, st, items), item)
  {
    assert (items + [item])[..|items|] == items;
  }

  /** The items lead from the start to st. */
  predicate LeadTo(c: Strconv, items: seq<Item>, st: State) {
    Follows(c, START, items) && MeaningAll(c, START, items) == st
  }

  function PutFloat(p: Parameters, key: Key, f: Option<Float>): Parameters {
    match f case None => p case Some(v) => SetFloat(p, key, v)
  }

  function PutInt(p: Parameters, key: Key, n: Option<Int64>): Parameters {
    match n case None => p case Some(v) => SetInt(p, key, v)
  }

  /** The items lead to these parameters. */
  predicate LeadToParameters(c: Strconv, items: seq<Item>, out: ModelYaml, p: Parameters) {
    LeadTo(c, items, State(out, p, p != NO_PARAMETERS))
  }

  function ReadFloatOf(c: Strconv, f: Option<Float>): Option<Float> {
    match f case None => None case Some(v) => Some(ReadFloat(c, v))
  }

  /** The settings with the floats that are read for them. */
  function ReadSettings(c: Strconv, p: Parameters): Parameters {
    p.(temperature := ReadFloatOf(c, p.temperature), topP := ReadFloatOf(c, p.topP),
       repeatPenalty := ReadFloatOf(c, p.repeatPenalty), minP := ReadFloatOf(c, p.minP))
  }

  lemma AddFloat(c: Strconv, items: seq<Item>, out: ModelYaml, p: Parameters, key: Key, f: Option<Float>)
    requires LeadToParameters(c, items, out, p) && IsFloatKey(key)
    ensures LeadToParameters(c, items + FloatItems(key, f), out, PutFloat(p, key, ReadFloatOf(c, f)))
  {
    if f.Some? { Extend(c, START, items, FloatItem(key, f.value)); } else { assert items + [] == items; }
  }

  lemma AddInt(c: Strconv, items: seq<Item>, out: ModelYaml, p: Parameters, key: Key, n: Option<Int64>)
    requires LeadToParameters(c, items, out, p) && IsIntKey(key)
    ensures LeadToParameters(c, items + IntItems(key, n), out, PutInt(p, key, n))
  {
    if n.Some? { Extend(c, START, items, IntItem(key, n.value)); } else { assert items + [] == items; }
  }

  /** Putting two settings that were not there sets these two fields. */
  lemma PutTwo(q: Parameters, p: Parameters)
    ensures q.temperature == None && q.topP == None
            ==> PutFloat(PutFloat(q, Temperature, p.temperature), TopP, p.topP)
                == q.(temperature := p.temperature, topP := p.topP)
    ensures q.topK == None && q.maxTokens == None
            ==> PutInt(PutInt(q, TopK, p.topK), NumPredict, p.maxTokens) == q.(topK := p.topK, maxTokens := p.maxTokens)
    ensures q.repeatLastN == None && q.repeatPenalty == None
            ==> PutFloat(PutInt(q, RepeatLastN, p.repeatLastN), RepeatPenalty, p.repeatPenalty)
                == q.(repeatLastN := p.repeatLastN, repeatPenalty := p.repeatPenalty)
    ensures q.seed == None && q.minP == None
            ==> PutFloat(PutInt(q, Seed, p.seed), MinP, p.minP) == q.(seed := p.seed, minP := p.minP)
  {
  }

  lemma AddInts(c: Strconv, items: seq<Item>, out: ModelYaml, q: Parameters, k1: Key, n1: Option<Int64>, k2: Key,
                n2: Option<Int64>)
    requires LeadToParameters(c, items, out, q) && IsIntKey(k1) && IsIntKey(k2)
    ensures LeadToParameters(c, items + IntItems(k1, n1) + IntItems(k2, n2), out, PutInt(PutInt(q, k1, n1), k2, n2))
  {
    AddInt(c, items, out, q, k1, n1);
    AddInt(c, items + IntItems(k1, n1), out, PutInt(q, k1, n1), k2, n2);
  }

  lemma AddFloats(c: Strconv, items: seq<Item>, out: ModelYaml, q: Parameters, k1: Key, f1: Option<Float>, k2: Key,
                  f2: Option<Float>)
    requires LeadToParameters(c, items, out, q) && IsFloatKey(k1) && IsFloatKey(k2)
    ensures LeadToParameters(c, items + FloatItems(k1, f1) + FloatItems(k2, f2), out,
                             PutFloat(PutFloat(q, k1, ReadFloatOf(c, f1)), k2, ReadFloatOf(c, f2)))
  {
    AddFloat(c, items, out, q, k1, f1);
    AddFloat(c, items + FloatItems(k1, f1), out, PutFloat(q, k1, ReadFloatOf(c, f1)), k2, f2);
  }

  lemma AddIntAndFloat(c: Strconv, items: seq<Item>, out: ModelYaml, q: Parameters, k1: Key, n: Option<Int64>, k2: Key,
                       f: Option<Float>)
    requires LeadToParameters(c, items, out, q) && IsIntKey(k1) && IsFloatKey(k2)
    ensures LeadToParameters(c, items + IntItems(k1, n) + FloatItems(k2, f), out,
                             PutFloat(PutInt(q, k1, n), k2, ReadFloatOf(c, f)))
  {
    AddInt(c, items, out, q, k1, n);
    AddFloat(c, items + IntItems(k1, n), out, PutInt(q, k1, n), k2, f);
  }

  lemma AddAll(c: Strconv, items: seq<Item>, out: ModelYaml, p: Parameters)
    requires LeadToParameters(c, items, out, NO_PARAMETERS)
    ensures LeadToParameters(c, AddParameters(items, p), out, ReadSettings(c, p))
  {
    var i, q, r := items, NO_PARAMETERS, ReadSettings(c, p);
    PutTwo(q, r);
    AddFloats(c, i, out, q, Temperature, p.temperature, TopP, p.topP);
    i := i + FloatItems(Temperature, p.temperature) + FloatItems(TopP, p.topP);
    q := q.(temperature := r.temperature, topP := r.topP);
    PutTwo(q, r);
    AddInts(c, i, out, q, TopK, p.topK, NumPredict, p.maxTokens);
    i := i + IntItems(TopK, p.topK) + IntItems(NumPredict, p.maxTokens);
    q := q.(topK := p.topK, maxTokens := p.maxTokens);
    PutTwo(q, r);
    AddIntAndFloat(c, i, out, q, RepeatLastN, p.repeatLastN, RepeatPenalty, p.repeatPenalty);
    i := i + IntItems(RepeatLastN, p.repeatLastN) + FloatItems(RepeatPenalty, p.repeatPenalty);
    q := r.(seed := None, minP := None);
    PutTwo(q, r);
    AddIntAndFloat(c, i, out, q, Seed, p.seed, MinP, p.minP);
  }

  function ReadStops(c: Strconv, stop: seq<string>): seq<string> {
    if stop == [] then [] else ReadStops(c, stop[..|stop| - 1]) + [ReadStop(c, stop[|stop| - 1])]
  }

  predicate StopsReadable(c: Strconv, stop: seq<string>) {
    forall i :: 0 <= i < |stop| ==> TrimSpace(ReadStop(c, stop[i])) != ""
  }

  lemma {:induction false} AddStops(c: Strconv, items: seq<Item>, st: State, stop: seq<string>)
    requires LeadTo(c, items, st) && StopsReadable(c, stop)
    ensures LeadTo(c, items + StopItems(stop), st.(out := st.out.(stop := st.out.stop + ReadStops(c, stop))))
  {
    if stop == [] {
      assert items + [] == items && st.out.stop + [] == st.out.stop;
    } else {
      var front, t := stop[..|stop| - 1], stop[|stop| - 1];
      AddStops(c, items, st, front);
      Extend(c, START, items + StopItems(front), StopItem(t));
      Assoc(items, StopItems(front), [StopItem(t)]);
      Assoc(st.out.stop, ReadStops(c, front), [ReadStop(c, t)]);
    }
  }

  /** What is read for one message; a blank one is not written. */
  function ReadOne(m: ModelMessage): seq<ModelMessage> {
    if TrimSpace(m.content) == "" then [] else [ModelMessage(RoleOf(m.role), ReadBody(m.content))]
  }

  function ReadMessages(ms: seq<ModelMessage>): seq<ModelMessage> {
    if ms == [] then [] else ReadMessages(ms[..|ms| - 1]) + ReadOne(ms[|ms| - 1])
  }

  predicate MessageReadable(m: ModelMessage) {
    TrimSpace(m.content) != "" ==> IsRole(RoleOf(m.role)) && BodyReadable(m.content)
  }

  function WithMessages(st: State, ms: seq<ModelMessage>): State {
    st.(out := st.out.(messages := st.out.messages + ms))
  }

  lemma AddMessage(c: Strconv, items: seq<Item>, st: State, m: ModelMessage)
    requires LeadTo(c, items, st) && MessageReadable(m)
    ensures LeadTo(c, items + OneMessage(m), WithMessages(st, ReadOne(m)))
  {
    if TrimSpace(m.content) == "" {
      assert items + [] == items && st.out.messages + [] == st.out.messages;
    } else {
      Extend(c, START, items, MessageItem(ModelMessage(RoleOf(m.role), m.content)));
    }
  }

  lemma WithMore(st: State, a: seq<ModelMessage>, b: seq<ModelMessage>)
    ensures WithMessages(WithMessages(st, a), b) == WithMessages(st, a + b)
  {
    Assoc(st.out.messages, a, b);
  }

  lemma {:induction false} AddMessages(c: Strconv, items: seq<Item>, st: State, ms: seq<ModelMessage>)
    requires LeadTo(c, items, st) && forall m :: m in ms ==> MessageReadable(m)
    ensures LeadTo(c, items + MessageItems(ms), WithMessages(st, ReadMessages(ms)))
  {
    if ms == [] {
      assert items + [] == items && st.out.messages + [] == st.out.messages;
    } else {
      var front, m := ms[..|ms| - 1], ms[|ms| - 1];
      assert ms == front + [m] && forall u :: u in front ==> u in ms;
      AddMessages(c, items, st, front);
      AddMessage(c, items + MessageItems(front), WithMessages(st, ReadMessages(front)), m);
      WithMore(st, ReadMessages(front), ReadOne(m));
      Assoc(items, MessageItems(front), OneMessage(m));
    }
  }

  /** What is read for SYSTEM or TEMPLATE; the body is trimmed before it is written. */
  function ReadText(text: string): string {
    if TrimSpace(text) == "" then "" else ReadBody(TrimSpace(text))
  }

  predicate TextReadable(text: string) {
    TrimSpace(text) != "" ==> BodyReadable(TrimSpace(text))
  }

  lemma AddText(c: Strconv, items: seq<Item>, st: State, kind: Kind, text: string)
    requires LeadTo(c, items, st) && TextReadable(text) && (kind.System? || kind.Template?)
    requires IsFirst(st, TextItem(kind, text))
    ensures var out := if kind.System? then st.out.(system := ReadText(text)) else st.out.(template := ReadText(text));
            LeadTo(c, items + TextItems(kind, text), st.(out := out))
  {
    if TrimSpace(text) != "" {
      Extend(c, START, items, TextItem(kind, TrimSpace(text)));
    } else {
      assert items + [] == items;
    }
  }

  function ReadCtx(n: Option<Int64>): Option<Int64> {
    if n.Some? && n.value > 0 then n else None
  }

  function ReadParameter(c: Strconv, p: Option<Parameters>): Option<Parameters> {
    if p.None? || p.value == NO_PARAMETERS then None else Some(ReadSettings(c, p.value))
  }

  /** What the parser reads of the encoded manifest. */
  function ReadBack(c: Strconv, cfg: ModelYaml, weights: string): ModelYaml {
    ModelYaml(UnquotePath(FromOf(cfg, weights)), ReadText(cfg.system), ReadText(cfg.template), "",
              ReadParameter(c, cfg.parameter), ReadCtx(cfg.numCtx), ReadStops(c, cfg.stop), ReadMessages(cfg.messages))
  }

  /** A manifest every directive of which is accepted, with every block read to its end. */
  predicate Readable(c: Strconv, cfg: ModelYaml, weights: string) {
    && FromOf(cfg, weights) != "" && OneLine(FromOf(cfg, weights))
    && TextReadable(cfg.system) && TextReadable(cfg.template)
    && StopsReadable(c, cfg.stop) && forall m :: m in cfg.messages ==> MessageReadable(m)
  }

  lemma AddFrom(c: Strconv, from: string)
    requires IsArg(from)
    ensures LeadTo(c, [FromItem(from)], State(EMPTY.(from := UnquotePath(from)), NO_PARAMETERS, false))
  {
    Extend(c, START, [], FromItem(from));
    assert [] + [FromItem(from)] == [FromItem(from)];
  }

  lemma AddCtx(c: Strconv, items: seq<Item>, st: State, n: Option<Int64>)
    requires LeadTo(c, items, st) && st.out.numCtx == None
    ensures LeadTo(c, items + CtxItems(n), st.(out := st.out.(numCtx := ReadCtx(n))))
  {
    if ReadCtx(n).Some? {
      Extend(c, START, items, IntItem(NumCtx, n.value));
    } else {
      assert items + [] == items;
    }
  }

  lemma AddHead(c: Strconv, cfg: ModelYaml, from: string)
    requires IsArg(from)
    ensures LeadTo(c, HeadItems(cfg, from),
                   State(EMPTY.(from := UnquotePath(from), numCtx := ReadCtx(cfg.numCtx)),
                         if cfg.parameter.None? then NO_PARAMETERS else ReadSettings(c, cfg.parameter.value),
                         ReadParameter(c, cfg.parameter).Some?))
  {
    AddFrom(c, from);
    var st := State(EMPTY.(from := UnquotePath(from)), NO_PARAMETERS, false);
    AddCtx(c, [FromItem(from)], st, cfg.numCtx);
    var out := st.out.(numCtx := ReadCtx(cfg.numCtx));
    assert LeadToParameters(c, [FromItem(from)] + CtxItems(cfg.numCtx), out, NO_PARAMETERS);
    if cfg.parameter.Some? { AddAll(c, [FromItem(from)] + CtxItems(cfg.numCtx), out, cfg.parameter.value); }
  }

  lemma AddRest(c: Strconv, cfg: ModelYaml, weights: string, st: State)
    requires Readable(c, cfg, weights) && LeadTo(c, HeadItems(cfg, FromOf(cfg, weights)), st)
    requires st.out == EMPTY.(from := UnquotePath(FromOf(cfg, weights)), numCtx := ReadCtx(cfg.numCtx))
    ensures LeadTo(c, Items(cfg, FromOf(cfg, weights)), st.(out := ReadBack(c, cfg, weights).(parameter := None)))
  {
    var i, s := HeadItems(cfg, FromOf(cfg, weights)), st;
    AddStops(c, i, s, cfg.stop);
    assert [] + ReadStops(c, cfg.stop) == ReadStops(c, cfg.stop);
    i, s := i + StopItems(cfg.stop), s.(out := s.out.(stop := ReadStops(c, cfg.stop)));
    AddText(c, i, s, System, cfg.system);
    i, s := i + TextItems(System, cfg.system), s.(out := s.out.(system := ReadText(cfg.system)));
    AddText(c, i, s, Template, cfg.template);
    i, s := i + TextItems(Template, cfg.template), s.(out := s.out.(template := ReadText(cfg.template)));
    AddMessages(c, i, s, cfg.messages);
    assert [] + ReadMessages(cfg.messages) == ReadMessages(cfg.messages);
  }

  /** What the parser makes of an encoded manifest: only a FROM with nothing between its quotes is missed. */
  lemma EncodedIsRead(c: Strconv, cfg: ModelYaml, weights: string)
    requires Lawful(c) && Readable(c, cfg, weights)
    ensures Encoded(c, cfg, weights).Some?
    ensures Parse(c, Encoded(c, cfg, weights).value)
            == if TrimSpace(UnquotePath(FromOf(cfg, weights))) == "" then Err(MissingFrom)
               else Ok(ReadBack(c, cfg, weights))
  {
    var from := FromOf(cfg, weights);
    TrimTwice(cfg.from);
    TrimTwice(weights);
    AddHead(c, cfg, from);
    var items := Items(cfg, from);
    AddRest(c, cfg, weights, MeaningAll(c, START, HeadItems(cfg, from)));
    ItemsParse(c, items, "", START);
    assert Text(c, items) + "" == Text(c, items);
    LastLineIsBlank(c, MeaningAll(c, START, items));
  }

  lemma LastLineIsBlank(c: Strconv, st: State)
    ensures ParseLines(c, Split(""), st) == Finished(st)
  {
    BlankIff("");
    assert Split("") == [""] && TrimRight("", IsCr) == "";
    assert Directive(c, [""], st) == Step(st, 1) && [""][1..] == [];
  }

  // ---------- the manifests that are read back ----------

  predicate PathSafe(path: string) {
    path != "" && OneLine(path) && Tight(path, IsSpace) && !(|path| >= 2 && path[0] == '"' && path[|path| - 1] == '"')
  }

  lemma TrimShorter(s: string)
    ensures |TrimSpace(s)| <= |s| && (TrimSpace(s) == s <==> |TrimSpace(s)| == |s|)
  {
    var l, r := TrimParts(s, IsSpace);
  }

  lemma FromExact(cfg: ModelYaml, weights: string)
    requires OneLine(FromOf(cfg, weights)) && TrimSpace(UnquotePath(FromOf(cfg, weights))) != ""
    ensures UnquotePath(FromOf(cfg, weights)) == cfg.from <==> PathSafe(cfg.from)
  {
    var t := TrimSpace(cfg.from);
    TrimTwice(cfg.from);
    TrimTight(cfg.from, IsSpace);
    TrimShorter(cfg.from);
    if |t| >= 2 { TrimShorter(t[1..|t| - 1]); }
  }

  /** A stop token that is read back: it is written as a quoted literal, or is not itself one. */
  predicate StopSafe(c: Strconv, token: string) {
    token != "" && Tight(token, IsSpace) && (NeedsQuoting(token) || c.unquote(token) == None)
  }

  /** The value read for a stop token is the token exactly when it is trimmed and quoted in the file or no literal. */
  lemma StopExact(c: Strconv, token: string)
    requires LawfulQuotes(c) && TrimSpace(ReadStop(c, token)) != ""
    ensures ReadStop(c, token) == token <==> StopSafe(c, token)
  {
    var t, q := TrimSpace(token), QuoteToken(c, token);
    TrimTwice(token);
    TrimTight(token, IsSpace);
    TrimShorter(token);
    if NeedsQuoting(t) { assert IsQuoted(c.quote(t)); }
    if t == "" || NeedsQuoting(t) { TrimTight(q, IsSpace); }
  }

  predicate StopsSafe(c: Strconv, stop: seq<string>) {
    forall i :: 0 <= i < |stop| ==> StopSafe(c, stop[i])
  }

  lemma StopsExact(c: Strconv, stop: seq<string>)
    requires LawfulQuotes(c) && StopsReadable(c, stop)
    ensures ReadStops(c, stop) == stop <==> StopsSafe(c, stop)
  {
    forall i | 0 <= i < |stop| ensures ReadStop(c, stop[i]) == stop[i] <==> StopSafe(c, stop[i]) {
      StopExact(c, stop[i]);
    }
    ReadStopsAre(c, stop);
  }

  lemma {:induction false} ReadStopsAre(c: Strconv, stop: seq<string>)
    ensures |ReadStops(c, stop)| == |stop|
    ensures forall i :: 0 <= i < |stop| ==> ReadStops(c, stop)[i] == ReadStop(c, stop[i])
  {
    if stop != [] { ReadStopsAre(c, stop[..|stop| - 1]); }
  }

  predicate MessageSafe(m: ModelMessage) {
    IsRole(m.role) && TrimSpace(m.content) != "" && BodySafe(m.content)
  }

  lemma MessageExact(m: ModelMessage)
    requires MessageReadable(m)
    ensures ReadOne(m) == [m] <==> MessageSafe(m)
  {
    if TrimSpace(m.content) != "" {
      BodyExact(m.content);
      if IsRole(m.role) { RoleNames(m.role); }
    }
  }

  lemma {:induction false} MessagesExact(ms: seq<ModelMessage>)
    requires forall m :: m in ms ==> MessageReadable(m)
    ensures |ReadMessages(ms)| <= |ms|
    ensures ReadMessages(ms) == ms <==> forall m :: m in ms ==> MessageSafe(m)
  {
    if ms != [] {
      var front, m := ms[..|ms| - 1], ms[|ms| - 1];
      assert ms == front + [m] && m in ms;
      MessagesExact(front);
      MessageExact(m);
      LastMatters(ReadMessages(front), ReadOne(m), front, m);
    }
  }

  lemma LastMatters<T>(a: seq<T>, b: seq<T>, front: seq<T>, last: T)
    requires |a| <= |front| && |b| <= 1
    ensures a + b == front + [last] <==> a == front && b == [last]
  {
    if a + b == front + [last] {
      assert |b| == 1;
      assert a == (a + b)[..|front|] && b == (a + b)[|front|..];
    }
  }

  predicate TextSafe(text: string) {
    text != "" ==> Tight(text, IsSpace) && BodySafe(text)
  }

  lemma TextExact(text: string)
    requires TextReadable(text)
    ensures ReadText(text) == text <==> TextSafe(text)
  {
    TrimTight(text, IsSpace);
    TrimShorter(text);
    if TrimSpace(text) != "" { BodyExact(TrimSpace(text)); }
  }

  predicate FloatSafe(c: Strconv, f: Option<Float>) {
    f.Some? ==> c.parseFloat(c.formatFloat(f.value)) == f
  }

  /** Some setting is there, and every float is read back: a NaN need not be. */
  predicate SettingsSafe(c: Strconv, p: Parameters) {
    p != NO_PARAMETERS
    && FloatSafe(c, p.temperature) && FloatSafe(c, p.topP) && FloatSafe(c, p.repeatPenalty) && FloatSafe(c, p.minP)
  }

  lemma ParameterExact(c: Strconv, p: Option<Parameters>)
    requires LawfulFloats(c)
    ensures ReadParameter(c, p) == p <==> (p.Some? ==> SettingsSafe(c, p.value))
  {
  }

  /** A manifest every part of which is read back as it is written. */
  predicate IsNormal(c: Strconv, cfg: ModelYaml) {
    && PathSafe(cfg.from) && TextSafe(cfg.system) && TextSafe(cfg.template) && cfg.mmproj == ""
    && (cfg.parameter.Some? ==> SettingsSafe(c, cfg.parameter.value)) && (cfg.numCtx.Some? ==> cfg.numCtx.value > 0)
    && StopsSafe(c, cfg.stop)
    && (forall m :: m in cfg.messages ==> MessageSafe(m))
  }

  lemma ReadBackExact(c: Strconv, cfg: ModelYaml, weights: string)
    requires Lawful(c) && Readable(c, cfg, weights) && TrimSpace(UnquotePath(FromOf(cfg, weights))) != ""
    ensures ReadBack(c, cfg, weights) == cfg <==> IsNormal(c, cfg)
  {
    FromExact(cfg, weights);
    TextExact(cfg.system);
    TextExact(cfg.template);
    ParameterExact(c, cfg.parameter);
    StopsExact(c, cfg.stop);
    MessagesExact(cfg.messages);
  }

  lemma NormalIsReadable(c: Strconv, cfg: ModelYaml, weights: string)
    requires Lawful(c) && IsNormal(c, cfg)
    ensures Readable(c, cfg, weights) && TrimSpace(UnquotePath(FromOf(cfg, weights))) != ""
  {
    TrimTight(cfg.from, IsSpace);
    TrimTight(cfg.system, IsSpace);
    TrimTight(cfg.template, IsSpace);
    forall i | 0 <= i < |cfg.stop| ensures TrimSpace(ReadStop(c, cfg.stop[i])) != "" {
      SafeIsRead(c, cfg.stop[i]);
    }
    forall m | m in cfg.messages ensures MessageReadable(m) {
      RoleNames(m.role);
    }
  }

  lemma SafeIsRead(c: Strconv, token: string)
    requires LawfulQuotes(c) && StopSafe(c, token)
    ensures TrimSpace(ReadStop(c, token)) != ""
  {
    TrimTight(token, IsSpace);
    if NeedsQuoting(token) {
      assert IsQuoted(c.quote(token));
      TrimTight(c.quote(token), IsSpace);
    }
  }

  // ---------- the manifests that are not ----------

  ghost predicate AllGood(items: seq<Item>) {
    forall i :: 0 <= i < |items| ==> ItemGood(items[i])
  }

  /** The parser gets past the items only if it can read each. */
  lemma {:induction false} ItemsPassed(c: Strconv, items: seq<Item>, rest: string, st: State)
    requires Lawful(c) && AllGood(items)
    ensures ParseLines(c, Split(Text(c, items) + rest), st).Ok? ==> Follows(c, st, items)
  {
    if items != [] && ParseLines(c, Split(Text(c, items) + rest), st).Ok? {
      var front, item := items[..|items| - 1], items[|items| - 1];
      Assoc(Text(c, front), ItemText(c, item), rest);
      ItemsPassed(c, front, ItemText(c, item) + rest, st);
      ItemsParse(c, front, ItemText(c, item) + rest, st);
      ItemPassed(c, item, rest, MeaningAll(c, st, front));
    }
  }

  lemma GoodBehind(a: seq<Item>, b: seq<Item>)
    requires AllGood(a) && AllGood(b)
    ensures AllGood(a + b)
  {
  }

  lemma GoodSettings(items: seq<Item>, p: Parameters)
    requires AllGood(items)
    ensures AllGood(AddParameters(items, p))
  {
    var i := items + FloatItems(Temperature, p.temperature) + FloatItems(TopP, p.topP);
    var j := i + IntItems(TopK, p.topK) + IntItems(NumPredict, p.maxTokens);
    var k := j + IntItems(RepeatLastN, p.repeatLastN) + FloatItems(RepeatPenalty, p.repeatPenalty);
    GoodBehind(items, FloatItems(Temperature, p.temperature));
    GoodBehind(items + FloatItems(Temperature, p.temperature), FloatItems(TopP, p.topP));
    GoodBehind(i, IntItems(TopK, p.topK));
    GoodBehind(i + IntItems(TopK, p.topK), IntItems(NumPredict, p.maxTokens));
    GoodBehind(j, IntItems(RepeatLastN, p.repeatLastN));
    GoodBehind(j + IntItems(RepeatLastN, p.repeatLastN), FloatItems(RepeatPenalty, p.repeatPenalty));
    GoodBehind(k, IntItems(Seed, p.seed));
    GoodBehind(k + IntItems(Seed, p.seed), FloatItems(MinP, p.minP));
  }

  lemma {:induction false} GoodStops(stop: seq<string>)
    ensures AllGood(StopItems(stop))
  {
    if stop != [] {
      GoodStops(stop[..|stop| - 1]);
      GoodBehind(StopItems(stop[..|stop| - 1]), [StopItem(stop[|stop| - 1])]);
    }
  }

  lemma GoodText(kind: Kind, text: string)
    requires (kind.System? || kind.Template?) && !ClosesInside(text)
    ensures AllGood(TextItems(kind, text))
  {
    TrimOpen(text, IsSpace);
    TrimTwice(text);
  }

  lemma {:induction false} GoodMessages(ms: seq<ModelMessage>)
    requires AllShaped(ms)
    ensures AllGood(MessageItems(ms))
  {
    if ms != [] {
      var front, m := ms[..|ms| - 1], ms[|ms| - 1];
      GoodMessages(front);
      assert ShapedMessage(m);
      RoleNames(m.role);
      GoodBehind(MessageItems(front), OneMessage(m));
    }
  }

  lemma GoodItems(cfg: ModelYaml, from: string)
    requires IsArg(from) && Shaped(cfg)
    ensures AllGood(Items(cfg, from))
  {
    var head := [FromItem(from)] + CtxItems(cfg.numCtx);
    GoodBehind([FromItem(from)], CtxItems(cfg.numCtx));
    if cfg.parameter.Some? { GoodSettings(head, cfg.parameter.value); }
    var i := HeadItems(cfg, from);
    GoodStops(cfg.stop);
    GoodBehind(i, StopItems(cfg.stop));
    i := i + StopItems(cfg.stop);
    GoodText(System, cfg.system);
    GoodBehind(i, TextItems(System, cfg.system));
    i := i + TextItems(System, cfg.system);
    GoodText(Template, cfg.template);
    GoodBehind(i, TextItems(Template, cfg.template));
    i := i + TextItems(Template, cfg.template);
    GoodMessages(cfg.messages);
    GoodBehind(i, MessageItems(cfg.messages));
  }

  lemma {:induction false} FollowsReads(c: Strconv, st: State, items: seq<Item>, item: Item)
    requires Follows(c, st, items) && item in items
    ensures ItemReadable(c, item)
  {
    if item != items[|items| - 1] { FollowsReads(c, st, items[..|items| - 1], item); }
  }

  lemma {:induction false} StopIn(stop: seq<string>, t: string)
    requires t in stop
    ensures StopItem(t) in StopItems(stop)
  {
    if t != stop[|stop| - 1] { StopIn(stop[..|stop| - 1], t); }
  }

  lemma {:induction false} MessageIn(ms: seq<ModelMessage>, m: ModelMessage)
    requires m in ms && TrimSpace(m.content) != ""
    ensures MessageItem(ModelMessage(RoleOf(m.role), m.content)) in MessageItems(ms)
  {
    if m != ms[|ms| - 1] { MessageIn(ms[..|ms| - 1], m); }
  }

  /** A manifest whose items can all be read is readable. */
  lemma FollowsReadable(c: Strconv, cfg: ModelYaml, weights: string)
    requires FromOf(cfg, weights) != "" && OneLine(FromOf(cfg, weights))
    requires Follows(c, START, Items(cfg, FromOf(cfg, weights)))
    ensures Readable(c, cfg, weights)
  {
    var items := Items(cfg, FromOf(cfg, weights));
    if TrimSpace(cfg.system) != "" { FollowsReads(c, START, items, TextItem(System, TrimSpace(cfg.system))); }
    if TrimSpace(cfg.template) != "" { FollowsReads(c, START, items, TextItem(Template, TrimSpace(cfg.template))); }
    forall i | 0 <= i < |cfg.stop| ensures TrimSpace(ReadStop(c, cfg.stop[i])) != "" {
      StopIn(cfg.stop, cfg.stop[i]);
      FollowsReads(c, START, items, StopItem(cfg.stop[i]));
    }
    forall m | m in cfg.messages ensures MessageReadable(m) {
      if TrimSpace(m.content) != "" {
        MessageIn(cfg.messages, m);
        FollowsReads(c, START, items, MessageItem(ModelMessage(RoleOf(m.role), m.content)));
      }
    }
  }

  /** A manifest that is given back is readable: it has the shape of every parsed manifest. */
  lemma GivenBackIsReadable(c: Strconv, cfg: ModelYaml, weights: string)
    requires Lawful(c) && Encoded(c, cfg, weights).Some? && Parse(c, Encoded(c, cfg, weights).value) == Ok(cfg)
    ensures Readable(c, cfg, weights)
  {
    var from := FromOf(cfg, weights);
    ParsedIsShaped(c, Encoded(c, cfg, weights).value);
    ParsedHasFrom(c, Encoded(c, cfg, weights).value);
    TrimmedArg(cfg.from);
    TrimTwice(cfg.from);
    GoodItems(cfg, from);
    assert Text(c, Items(cfg, from)) + "" == Text(c, Items(cfg, from));
    ItemsPassed(c, Items(cfg, from), "", START);
    FollowsReadable(c, cfg, weights);
  }

  lemma {:induction false} LinesHaveFrom(c: Strconv, lines: seq<string>, st: State)
    ensures var r := ParseLines(c, lines, st); r.Ok? ==> TrimSpace(r.value.from) != ""
    decreases |lines|
  {
    if lines != [] {
      var d := Directive(c, lines, st);
      if d.Step? { LinesHaveFrom(c, lines[d.next..], d.st); }
    }
  }

  lemma ParsedHasFrom(c: Strconv, data: string)
    ensures var r := Parse(c, data); r.Ok? ==> TrimSpace(r.value.from) != ""
  {
    LinesHaveFrom(c, Split(data), START);
  }

  /** The parser gives back an encoded manifest exactly when the manifest is normal. */
  lemma RoundTripIff(c: Strconv, cfg: ModelYaml, weights: string)
    requires Lawful(c) && Encoded(c, cfg, weights).Some?
    ensures Parse(c, Encoded(c, cfg, weights).value) == Ok(cfg) <==> IsNormal(c, cfg)
  {
    if IsNormal(c, cfg) { NormalIsReadable(c, cfg, weights); }
    if Parse(c, Encoded(c, cfg, weights).value) == Ok(cfg) { GivenBackIsReadable(c, cfg, weights); }
    if Readable(c, cfg, weights) {
      EncodedIsRead(c, cfg, weights);
      if TrimSpace(UnquotePath(FromOf(cfg, weights))) != "" { ReadBackExact(c, cfg, weights); }
    }
  }

  /** The parser gives back every normal manifest the encoder writes. */
  lemma RoundTrip(c: Strconv, cfg: ModelYaml, weights: string)
    requires Lawful(c) && IsNormal(c, cfg)
    ensures Encoded(c, cfg, weights).Some? && Parse(c, Encoded(c, cfg, weights).value) == Ok(cfg)
  {
    NormalIsReadable(c, cfg, weights);
    RoundTripIff(c, cfg, weights);
  }
}
