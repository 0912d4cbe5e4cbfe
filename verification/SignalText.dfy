/** The printed text itself, spelled out, and what searches other than this parser's own choice find in it. */
module SignalText {
  import opened Wrappers
  import opened Text
  import opened Decimal
  import opened SignalSearch
  import opened SignalLayout
  import opened Signaling
  import opened SignalRoundTrip
  import opened SignalQuotes

  /** `text` between its surroundings, or nothing. */
  function Around(before: string, text: Option<string>, after: string): string {
    if text.Some? then before + text.value + after else ""
  }

  lemma OptionalText(a: string, fs: seq<Field>, key: string, text: Option<string>)
    requires fs != []
    ensures a + RenderFields(fs + Optional(key, text)) ==
            a + RenderFields(fs) + Around(",\"" + key + "\":\"", text, "\"")
  {
    if text.Some? {
      QuotedAfterComma(key, text.value);
      Append(a, fs, Quoted(key, text.value));
    } else {
      assert fs + [] == fs;
    }
  }

  function IndexText(index: Option<int32>): string {
    if index.Some? then ",\"sdpMlineIndex\":" + ToString(index.value) + ",\"sdpMLineIndex\":" + ToString(index.value)
    else ""
  }

  lemma OptionalMlineText(a: string, fs: seq<Field>, index: Option<int32>)
    requires fs != []
    ensures a + RenderFields(fs + MlineFields(index)) == a + RenderFields(fs) + IndexText(index)
  {
    hide ToString, RenderFields;
    if index.Some? {
      MlineText(a, fs, index.value);
    } else {
      assert fs + [] == fs;
    }
  }

  lemma CandidateText(m: SignalMessage)
    requires m.candidate.Some?
    ensures "," + RenderField(CandidateFields(m)[0]) ==
            ",\"candidate\":{\"candidate\":\"" + m.candidate.value + "\""
            + Around(",\"sdpMid\":\"", m.sdpMid, "\"") + IndexText(m.sdpMlineIndex) + "}"
  {
    hide RenderFields, IndexText, Around;
    var opening, first := ",\"candidate\":{", [Quoted("candidate", m.candidate.value)];
    var mid := Optional("sdpMid", m.sdpMid);
    OptionalText(opening, first, "sdpMid", m.sdpMid);
    assert ",\"" + "sdpMid" + "\":\"" == ",\"sdpMid\":\"";
    FirstText(m.candidate.value);
    OptionalMlineText(opening, first + mid, m.sdpMlineIndex);
    ObjectAfterComma("candidate", first + mid + MlineFields(m.sdpMlineIndex));
    assert ",\"" + "candidate" + "\":{" == opening;
  }

  lemma FirstText(candidate: string)
    ensures ",\"candidate\":{" + RenderFields([Quoted("candidate", candidate)]) ==
            ",\"candidate\":{\"candidate\":\"" + candidate + "\""
  {
  }

  lemma NumberText(a: string, fs: seq<Field>, key: string, token: string, k: int)
    requires fs != [] && token == ",\"" + key + "\":"
    ensures a + RenderFields(fs + [Number(key, k)]) == a + RenderFields(fs) + (token + ToString(k))
  {
    hide ToString, RenderFields;
    NumberAfterComma(key, k);
    Append(a, fs, Number(key, k));
  }

  lemma MlineText(a: string, fs: seq<Field>, k: int32)
    requires fs != []
    ensures a + RenderFields(fs + MlineFields(Some(k))) ==
            a + RenderFields(fs) + (",\"sdpMlineIndex\":" + ToString(k) + ",\"sdpMLineIndex\":" + ToString(k))
  {
    hide ToString, RenderFields;
    var lower, upper := Number("sdpMlineIndex", k), Number("sdpMLineIndex", k);
    NumberText(a, fs, "sdpMlineIndex", ",\"sdpMlineIndex\":", k);
    NumberText(a, fs + [lower], "sdpMLineIndex", ",\"sdpMLineIndex\":", k);
    assert fs + [lower] + [upper] == fs + MlineFields(Some(k));
    Signaling.Regroup(a + RenderFields(fs), ",\"sdpMlineIndex\":" + ToString(k), ",\"sdpMLineIndex\":" + ToString(k));
    Signaling.Regroup(",\"sdpMlineIndex\":" + ToString(k), ",\"sdpMLineIndex\":", ToString(k));
  }

  lemma HeadText(m: SignalMessage)
    ensures "{" + RenderFields(HeadFields(m)) ==
            "{\"type\":\"" + TypeToString(m.kind) + "\",\"from\":\"" + m.from + "\",\"to\":\"" + m.to + "\""
  {
    hide TypeToString;
    var fs := HeadFields(m);
    RenderSnoc([fs[0]], fs[1]);
    RenderSnoc([fs[0], fs[1]], fs[2]);
    assert [fs[0]] + [fs[1]] == [fs[0], fs[1]] && [fs[0], fs[1]] + [fs[2]] == fs;
  }

  /** The text of every message, character by character: which keys it carries, in which order, and that the
      mid and both spellings of the index stand inside the candidate object. */
  lemma PrintedText(m: SignalMessage)
    ensures Render(MessageFields(m)) ==
            "{\"type\":\"" + TypeToString(m.kind) + "\",\"from\":\"" + m.from + "\",\"to\":\"" + m.to + "\""
            + Around(",\"sdp\":\"", m.sdp, "\"")
            + (if m.candidate.Some? then
                 ",\"candidate\":{\"candidate\":\"" + m.candidate.value + "\""
                 + Around(",\"sdpMid\":\"", m.sdpMid, "\"")
                 + (if m.sdpMlineIndex.Some? then
                      ",\"sdpMlineIndex\":" + ToString(m.sdpMlineIndex.value)
                      + ",\"sdpMLineIndex\":" + ToString(m.sdpMlineIndex.value)
                    else "")
                 + "}"
               else "")
            + Around(",\"reason\":\"", m.reason, "\"")
            + "}"
  {
    hide TypeToString, RenderFields, ToString;
    var head, c := HeadFields(m), CandidateFields(m);
    var withSdp := head + Optional("sdp", m.sdp);
    HeadText(m);
    OptionalText("{", head, "sdp", m.sdp);
    OptionalText("{", withSdp + c, "reason", m.reason);
    assert ",\"" + "sdp" + "\":\"" == ",\"sdp\":\"" && ",\"" + "reason" + "\":\"" == ",\"reason\":\"";
    if m.candidate.Some? {
      CandidateText(m);
      Append("{", withSdp, c[0]);
      assert c == [c[0]];
    } else {
      assert withSdp + c == withSdp;
    }
  }

  /** A reader of either spelling finds the index. */
  lemma BothSpellings(m: SignalMessage)
    requires QuoteFreeMessage(Printed(m)) && m.candidate.Some? && m.sdpMlineIndex.Some?
    ensures FindIntValue(Render(MessageFields(m)), "sdpMlineIndex") == m.sdpMlineIndex
    ensures FindIntValue(Render(MessageFields(m)), "sdpMLineIndex") == m.sdpMlineIndex
  {
    hide FindIntValue;
    PrintedIsPrintable(m);
    KeysAreSearchKeys();
    KeysDiffer();
    IntSearchOfRender(MessageFields(m), "sdpMlineIndex");
    IntSearchOfRender(MessageFields(m), "sdpMLineIndex");
    IndexEntry(m, "sdpMlineIndex");
    IndexEntry(m, "sdpMLineIndex");
  }

  /** Each member of the parsed message is what is found under its key; without a find, a required string is
      empty and an optional one absent. When a text carries both spellings of the index, `sdpMlineIndex`
      decides, and the other only if it holds no int. */
  lemma MembersAreFound(data: string)
    ensures var r := Parse(data);
            && (FindQuotedValue(data, "from") == Some(r.from) || (FindQuotedValue(data, "from").None? && r.from == ""))
            && (FindQuotedValue(data, "to") == Some(r.to) || (FindQuotedValue(data, "to").None? && r.to == ""))
            && r.sdp == FindQuotedValue(data, "sdp") && r.candidate == FindQuotedValue(data, "candidate")
            && r.sdpMid == FindQuotedValue(data, "sdpMid") && r.reason == FindQuotedValue(data, "reason")
    ensures FindIntValue(data, "sdpMlineIndex").Some? ==>
              Parse(data).sdpMlineIndex == FindIntValue(data, "sdpMlineIndex")
    ensures FindIntValue(data, "sdpMlineIndex").None? ==>
              Parse(data).sdpMlineIndex == FindIntValue(data, "sdpMLineIndex")
  {
    hide FindIntValue, FindQuotedValue;
  }
}
