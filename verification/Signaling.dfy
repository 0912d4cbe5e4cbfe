/** signaling/signaling_message.cc: the printer and the parser. */
module Signaling {
  import opened Wrappers
  import opened Decimal
  import opened SignalSearch
  import opened SignalLayout

  datatype Type = UNKNOWN | JOIN | LEAVE | OFFER | ANSWER | CANDIDATE

  datatype SignalMessage = SignalMessage(
    kind: Type,
    from: string,
    to: string,
    sdp: Option<string>,
    candidate: Option<string>,
    sdpMid: Option<string>,
    sdpMlineIndex: Option<int32>,
    reason: Option<string>)

  const TYPE_TO_STRING: map<Type, string> :=
    map[UNKNOWN := "unknown", JOIN := "join", LEAVE := "leave",
        OFFER := "offer", ANSWER := "answer", CANDIDATE := "candidate"]

  const STRING_TO_TYPE: map<string, Type> :=
    map["unknown" := UNKNOWN, "join" := JOIN, "leave" := LEAVE,
        "offer" := OFFER, "answer" := ANSWER, "candidate" := CANDIDATE]

  function TypeToString(kind: Type): string {
    if kind in TYPE_TO_STRING then TYPE_TO_STRING[kind] else "unknown"
  }

  function StringToType(name: string): Type {
    if name in STRING_TO_TYPE then STRING_TO_TYPE[name] else UNKNOWN
  }

  /** The names are read back, and only the six names are read as anything but UNKNOWN. */
  lemma TypeNamesRoundTrip(kind: Type, name: string)
    ensures TypeToString(UNKNOWN) == "unknown" && TypeToString(JOIN) == "join" && TypeToString(LEAVE) == "leave"
    ensures TypeToString(OFFER) == "offer" && TypeToString(ANSWER) == "answer" && TypeToString(CANDIDATE) == "candidate"
    ensures StringToType(TypeToString(kind)) == kind
    ensures StringToType(name) != UNKNOWN ==> TypeToString(StringToType(name)) == name
  {
    assert "leave"[0] != "offer"[0] && "offer"[0] != "answer"[0] && "leave"[0] != "answer"[0];
    assert |"unknown"| == 7 && |"join"| == 4 && |"answer"| == 6 && |"candidate"| == 9;
  }

  // ----- printing -----

  function Optional(key: string, text: Option<string>): seq<Field> {
    if text.Some? then [Quoted(key, text.value)] else []
  }

  /** The m-line index is printed under both spellings. */
  function MlineFields(index: Option<int32>): seq<Field> {
    if index.Some? then [Number("sdpMlineIndex", index.value), Number("sdpMLineIndex", index.value)] else []
  }

  function CandidateFields(m: SignalMessage): seq<Field> {
    if m.candidate.Some? then
      [Object("candidate",
        [Quoted("candidate", m.candidate.value)] + Optional("sdpMid", m.sdpMid) + MlineFields(m.sdpMlineIndex))]
    else []
  }

  /** The fields of the printed text, in order. */
  function MessageFields(m: SignalMessage): seq<Field> {
    [Quoted("type", TypeToString(m.kind)), Quoted("from", m.from), Quoted("to", m.to)]
    + Optional("sdp", m.sdp) + CandidateFields(m) + Optional("reason", m.reason)
  }

  lemma Regroup(a: string, x: string, y: string)
    ensures a + "," + (x + "," + y) == a + "," + x + "," + y
    ensures a + (x + y) == a + x + y
  {
  }

  lemma {:induction false} RenderSnoc(fs: seq<Field>, f: Field)
    requires fs != []
    ensures RenderFields(fs + [f]) == RenderFields(fs) + "," + RenderField(f)
  {
    assert (fs + [f])[1..] == fs[1..] + [f];
    if |fs| > 1 {
      RenderSnoc(fs[1..], f);
      Regroup(RenderField(fs[0]), RenderFields(fs[1..]), RenderField(f));
    }
  }

  /** Printing one more field after a comma. */
  lemma Append(a: string, fs: seq<Field>, f: Field)
    requires fs != []
    ensures a + RenderFields(fs) + ("," + RenderField(f)) == a + RenderFields(fs + [f])
  {
    RenderSnoc(fs, f);
    Regroup(RenderFields(fs), ",", RenderField(f));
    Regroup(a, RenderFields(fs), "," + RenderField(f));
  }

  lemma QuotedAfterComma(key: string, text: string)
    ensures ",\"" + key + "\":\"" + text + "\"" == "," + RenderField(Quoted(key, text))
  {
    assert ",\"" == "," + "\"";
  }

  lemma NumberAfterComma(key: string, number: int)
    ensures ",\"" + key + "\":" + ToString(number) == "," + RenderField(Number(key, number))
  {
    assert ",\"" == "," + "\"";
  }

  lemma OpeningFields(f: Field, g: Field, h: Field)
    ensures "{" + (RenderField(f) + ",") + (RenderField(g) + ",") + RenderField(h) == "{" + RenderFields([f, g, h])
  {
    assert [f, g, h] == [f] + [g] + [h] && [f, g] == [f] + [g];
    RenderSnoc([f], g);
    RenderSnoc([f, g], h);
    Regroup("{", RenderField(f), ",");
    Regroup("{", RenderField(f) + ",", RenderField(g) + ",");
    Regroup(RenderField(f) + ",", RenderField(g), ",");
    Regroup("{", RenderField(f) + "," + RenderField(g) + ",", RenderField(h));
  }

  lemma QuotedBeforeComma(key: string, text: string)
    ensures "\"" + key + "\":\"" + text + "\"," == RenderField(Quoted(key, text)) + ","
  {
    assert "\"," == "\"" + ",";
  }

  /** Appends an optional string member after a comma. */
  method AppendOptional(json: string, key: string, text: Option<string>, ghost a: string, ghost fs: seq<Field>)
    returns (longer: string)
    requires fs != [] && json == a + RenderFields(fs)
    ensures longer == a + RenderFields(fs + Optional(key, text))
  {
    longer := json;
    if text.Some? {
      QuotedAfterComma(key, text.value);
      Append(a, fs, Quoted(key, text.value));
      longer := longer + (",\"" + key + "\":\"" + text.value + "\"");
    } else {
      assert fs + [] == fs;
    }
  }

  method AppendMline(json: string, index: Option<int32>, ghost a: string, ghost fs: seq<Field>) returns (longer: string)
    requires fs != [] && json == a + RenderFields(fs)
    ensures longer == a + RenderFields(fs + MlineFields(index))
  {
    longer := json;
    if index.Some? {
      NumberAfterComma("sdpMlineIndex", index.value);
      Append(a, fs, Number("sdpMlineIndex", index.value));
      longer := longer + (",\"" + "sdpMlineIndex" + "\":" + ToString(index.value));
      NumberAfterComma("sdpMLineIndex", index.value);
      ghost var gs := fs + [Number("sdpMlineIndex", index.value)];
      Append(a, gs, Number("sdpMLineIndex", index.value));
      longer := longer + (",\"" + "sdpMLineIndex" + "\":" + ToString(index.value));
      assert gs + [Number("sdpMLineIndex", index.value)] == fs + MlineFields(index);
    } else {
      assert fs + [] == fs;
    }
  }

  lemma ObjectAfterComma(key: string, fs: seq<Field>)
    ensures ",\"" + key + "\":{" + RenderFields(fs) + "}" == "," + RenderField(Object(key, fs))
  {
    assert ",\"" == "," + "\"";
  }

  /** The candidate object, from its leading comma to its closing brace. */
  method AppendCandidate(json: string, message: SignalMessage, ghost a: string, ghost fs: seq<Field>)
    returns (longer: string)
    requires message.candidate.Some? && fs != [] && json == a + RenderFields(fs)
    ensures longer == a + RenderFields(fs + CandidateFields(message))
  {
    var nested := ",\"" + "candidate" + "\":{";
    ghost var opening := nested;
    nested := nested + ("\"" + "candidate" + "\":\"" + message.candidate.value + "\"");
    ghost var gs := [Quoted("candidate", message.candidate.value)];
    nested := AppendOptional(nested, "sdpMid", message.sdpMid, opening, gs);
    nested := AppendMline(nested, message.sdpMlineIndex, opening, gs + Optional("sdpMid", message.sdpMid));
    nested := nested + "}";
    ObjectAfterComma("candidate", gs + Optional("sdpMid", message.sdpMid) + MlineFields(message.sdpMlineIndex));
    Append(a, fs, CandidateFields(message)[0]);
    longer := json + nested;
  }

  method SerializeSignalMessage(message: SignalMessage) returns (json: string)
    ensures json == Render(MessageFields(message))
  {
    json := "{";
    json := json + ("\"" + "type" + "\":\"" + TypeToString(message.kind) + "\",");
    json := json + ("\"" + "from" + "\":\"" + message.from + "\",");
    json := json + ("\"" + "to" + "\":\"" + message.to + "\"");
    ghost var fs := [Quoted("type", TypeToString(message.kind)), Quoted("from", message.from),
                    Quoted("to", message.to)];
    QuotedBeforeComma("type", TypeToString(message.kind));
    QuotedBeforeComma("from", message.from);
    OpeningFields(fs[0], fs[1], fs[2]);
    json := AppendOptional(json, "sdp", message.sdp, "{", fs);
    fs := fs + Optional("sdp", message.sdp);
    if message.candidate.Some? {
      json := AppendCandidate(json, message, "{", fs);
    } else {
      assert fs + [] == fs;
    }
    json := AppendOptional(json, "reason", message.reason, "{", fs + CandidateFields(message));
    json := json + "}";
  }

  // ----- parsing -----

  /** What the parser is to return for a text: one search per member, the m-line index under either
      spelling with `sdpMlineIndex` preferred. */
  function Parse(data: string): SignalMessage {
    var kind := FindQuotedValue(data, "type");
    var index := FindIntValue(data, "sdpMlineIndex");
    SignalMessage(
      if kind.Some? then StringToType(kind.value) else UNKNOWN,
      FindQuotedValue(data, "from").GetOr(""),
      FindQuotedValue(data, "to").GetOr(""),
      FindQuotedValue(data, "sdp"),
      FindQuotedValue(data, "candidate"),
      FindQuotedValue(data, "sdpMid"),
      if index.Some? then index else FindIntValue(data, "sdpMLineIndex"),
      FindQuotedValue(data, "reason"))
  }

  /** Returns a message whatever the text: the branches that return nullopt are never taken. */
  method DeserializeSignalMessage(data: string) returns (message: Option<SignalMessage>)
    ensures message == Some(Parse(data))
  {
    var msg := SignalMessage(UNKNOWN, "", "", None, None, None, None, None);
    var found := FindQuotedValue(data, "type");
    if found.Some? { msg := msg.(kind := StringToType(found.value)); }
    found := FindQuotedValue(data, "from");
    if found.Some? { msg := msg.(from := found.value); }
    found := FindQuotedValue(data, "to");
    if found.Some? { msg := msg.(to := found.value); }
    found := FindQuotedValue(data, "sdp");
    if found.Some? { msg := msg.(sdp := Some(found.value)); }
    found := FindQuotedValue(data, "reason");
    if found.Some? { msg := msg.(reason := Some(found.value)); }
    found := FindQuotedValue(data, "candidate");
    if found.Some? { msg := msg.(candidate := Some(found.value)); }
    found := FindQuotedValue(data, "sdpMid");
    if found.Some? { msg := msg.(sdpMid := Some(found.value)); }
    var index := FindIntValue(data, "sdpMlineIndex");
    if index.Some? {
      msg := msg.(sdpMlineIndex := Some(index.value));
    } else {
      var compat := FindIntValue(data, "sdpMLineIndex");
      if compat.Some? { msg := msg.(sdpMlineIndex := Some(compat.value)); }
    }
    message := Some(msg);
  }
}
