/** What the parser makes of any rendered field list, and the round trip of the printer. */
module SignalRoundTrip {
  import opened Wrappers
  import opened Text
  import opened Decimal
  import opened SignalSearch
  import opened SignalLayout
  import opened Signaling

  /** The m-line index under either spelling, `sdpMlineIndex` preferred. */
  function MlineIndex(es: seq<Field>): Option<int32> {
    var index := FirstInt(es, "sdpMlineIndex");
    if index.Some? then index else FirstInt(es, "sdpMLineIndex")
  }

  /** The message held by a list of entries: for each member, the first entry that carries its key. */
  function MessageOf(es: seq<Field>): SignalMessage {
    var kind := FirstQuoted(es, "type");
    SignalMessage(
      if kind.Some? then StringToType(kind.value) else UNKNOWN,
      FirstQuoted(es, "from").GetOr(""),
      FirstQuoted(es, "to").GetOr(""),
      FirstQuoted(es, "sdp"),
      FirstQuoted(es, "candidate"),
      FirstQuoted(es, "sdpMid"),
      MlineIndex(es),
      FirstQuoted(es, "reason"))
  }

  lemma KeysAreSearchKeys()
    ensures SearchKey("type") && SearchKey("from") && SearchKey("to") && SearchKey("sdp") && SearchKey("candidate")
    ensures SearchKey("sdpMid") && SearchKey("sdpMlineIndex") && SearchKey("sdpMLineIndex") && SearchKey("reason")
  {
  }

  /** Layout independence: on a printable text, of any order and nesting, the parser sees the entries. */
  lemma ParseOfRender(fs: seq<Field>)
    requires Printable(fs)
    ensures Parse(Render(fs)) == MessageOf(Entries(fs))
  {
    KeysAreSearchKeys();
    QuotedSearchOfRender(fs, "type");
    QuotedSearchOfRender(fs, "from");
    QuotedSearchOfRender(fs, "to");
    QuotedSearchOfRender(fs, "sdp");
    QuotedSearchOfRender(fs, "candidate");
    QuotedSearchOfRender(fs, "sdpMid");
    QuotedSearchOfRender(fs, "reason");
    IntSearchOfRender(fs, "sdpMlineIndex");
    IntSearchOfRender(fs, "sdpMLineIndex");
  }

  lemma {:induction false} EntriesAppend(fs: seq<Field>, gs: seq<Field>)
    ensures Entries(fs + gs) == Entries(fs) + Entries(gs)
  {
    if fs == [] {
      assert fs + gs == gs;
    } else {
      EntriesAppend(fs[1..], gs);
      assert (fs + gs)[1..] == fs[1..] + gs;
    }
  }

  // ----- nesting, order and spelling do not matter -----

  ghost predicate MlineKey(key: string) {
    key == "sdpMlineIndex" || key == "sdpMLineIndex"
  }

  /** The two lists answer every search of the parser alike. */
  ghost predicate SameAnswers(es: seq<Field>, gs: seq<Field>) {
    && (forall key: string :: FirstQuoted(es, key) == FirstQuoted(gs, key))
    && MlineIndex(es) == MlineIndex(gs)
  }

  lemma SameMessage(es: seq<Field>, gs: seq<Field>)
    requires SameAnswers(es, gs)
    ensures MessageOf(es) == MessageOf(gs)
  {
  }

  lemma SameAnswersParse(fs: seq<Field>, gs: seq<Field>)
    requires Printable(fs) && Printable(gs) && SameAnswers(Entries(fs), Entries(gs))
    ensures Parse(Render(fs)) == Parse(Render(gs))
  {
    ParseOfRender(fs);
    ParseOfRender(gs);
    SameMessage(Entries(fs), Entries(gs));
  }

  lemma PrintableAppend(fs: seq<Field>, gs: seq<Field>)
    ensures Entries(fs + gs) == Entries(fs) + Entries(gs)
    ensures Printable(fs + gs) <==> Printable(fs) && Printable(gs)
  {
    EntriesAppend(fs, gs);
    if Printable(fs + gs) {
      assert forall f | f in Entries(fs) || f in Entries(gs) :: f in Entries(fs + gs);
    }
  }

  lemma EntriesOne(f: Field)
    ensures Entries([f]) == FieldEntries(f)
  {
    assert FieldEntries(f) + Entries([f][1..]) == FieldEntries(f);
  }

  /** An entry that is no answer to a search can be dropped. */
  lemma DropEntry(a: seq<Field>, f: Field, c: seq<Field>, key: string)
    ensures !(f.Quoted? && f.key == key) ==> FirstQuoted(a + [f] + c, key) == FirstQuoted(a + c, key)
    ensures f.key != key ==> FirstInt(a + [f] + c, key) == FirstInt(a + c, key)
  {
    assert a + [f] + c == a + ([f] + c);
    assert ([f] + c)[1..] == c;
    FirstQuotedAppend(a, [f] + c, key);
    FirstQuotedAppend(a, c, key);
    FirstIntAppend(a, [f] + c, key);
    FirstIntAppend(a, c, key);
  }

  lemma DropObject(a: seq<Field>, f: Field, c: seq<Field>)
    requires f.Object? && !MlineKey(f.key)
    ensures SameAnswers(a + [f] + c, a + c)
  {
    forall key: string {
      DropEntry(a, f, c, key);
    }
  }

  lemma Spliced(before: seq<Field>, middle: seq<Field>, after: seq<Field>)
    requires Printable(before) && Printable(middle) && Printable(after)
    ensures Printable(before + middle + after)
    ensures Entries(before + middle + after) == Entries(before) + Entries(middle) + Entries(after)
  {
    PrintableAppend(before, middle);
    PrintableAppend(before + middle, after);
  }

  lemma OpenedEntries(a: seq<Field>, o: Field, b: seq<Field>, c: seq<Field>)
    requires o.Object? && !MlineKey(o.key)
    ensures SameAnswers(a + ([o] + b) + c, a + b + c)
  {
    DropObject(a, o, b + c);
    assert a + ([o] + b) + c == a + [o] + (b + c) && a + b + c == a + (b + c);
  }

  /** Opening an object in place, nested against flat candidates for one, parses to the same message. */
  lemma NestedParsesAsFlat(before: seq<Field>, key: string, inner: seq<Field>, after: seq<Field>)
    requires Printable(before) && Printable(inner) && Printable(after) && QuoteFree(key) && !MlineKey(key)
    ensures Parse(Render(before + [Object(key, inner)] + after)) == Parse(Render(before + inner + after))
  {
    var o := Object(key, inner);
    EntriesOne(o);
    Spliced(before, [o], after);
    Spliced(before, inner, after);
    OpenedEntries(Entries(before), o, Entries(inner), Entries(after));
    SameAnswersParse(before + [o] + after, before + inner + after);
  }

  /** No key is given two answers. */
  ghost predicate Unambiguous(es: seq<Field>) {
    forall f, g | f in es && g in es && f.key == g.key && ((f.Quoted? && g.Quoted?) || MlineKey(f.key)) :: f == g
  }

  lemma {:induction false} FirstQuotedIsMember(es: seq<Field>, key: string)
    ensures match FirstQuoted(es, key)
            case Some(text) => Quoted(key, text) in es
            case None => forall f | f in es :: !(f.Quoted? && f.key == key)
  {
    if es != [] {
      FirstQuotedIsMember(es[1..], key);
    }
  }

  lemma {:induction false} FirstIntIsMember(es: seq<Field>, key: string)
    ensures match FirstInt(es, key)
            case Some(n) => Number(key, n) in es
            case None =>
              || (forall f | f in es :: f.key != key)
              || exists f | f in es :: f.key == key && (f.Number? ==> !(INT_MIN <= f.number <= INT_MAX))
  {
    if es != [] {
      FirstIntIsMember(es[1..], key);
    }
  }

  lemma SameFirstQuoted(es: seq<Field>, gs: seq<Field>, key: string)
    requires Unambiguous(es) && forall f :: f in es <==> f in gs
    ensures FirstQuoted(es, key) == FirstQuoted(gs, key)
  {
    FirstQuotedIsMember(es, key);
    FirstQuotedIsMember(gs, key);
    assert FirstQuoted(es, key).Some? && FirstQuoted(gs, key).Some? ==>
        Quoted(key, FirstQuoted(es, key).value) in es && Quoted(key, FirstQuoted(gs, key).value) in es;
  }

  lemma SameFirstInt(es: seq<Field>, gs: seq<Field>, key: string)
    requires Unambiguous(es) && MlineKey(key) && forall f :: f in es <==> f in gs
    ensures FirstInt(es, key) == FirstInt(gs, key)
  {
    hide FirstInt;
    FirstIntIsMember(es, key);
    FirstIntIsMember(gs, key);
  }

  lemma SetDecides(es: seq<Field>, gs: seq<Field>)
    requires Unambiguous(es) && forall f :: f in es <==> f in gs
    ensures SameAnswers(es, gs)
  {
    forall key: string {
      SameFirstQuoted(es, gs, key);
    }
    SameFirstInt(es, gs, "sdpMlineIndex");
    SameFirstInt(es, gs, "sdpMLineIndex");
  }

  /** Field order does not matter: two layouts of the same unambiguous entries parse alike. */
  lemma OrderIsFree(fs: seq<Field>, gs: seq<Field>)
    requires Printable(fs) && Unambiguous(Entries(fs))
    requires forall f :: f in Entries(fs) <==> f in Entries(gs)
    ensures Parse(Render(fs)) == Parse(Render(gs))
  {
    SetDecides(Entries(fs), Entries(gs));
    SameAnswersParse(fs, gs);
  }

  lemma {:induction false} AbsentKey(es: seq<Field>, key: string)
    requires MlineKey(key) && forall g | g in es :: !MlineKey(g.key)
    ensures !HasKey(es, key) && FirstInt(es, key) == None
  {
    if es != [] {
      AbsentKey(es[1..], key);
    }
  }

  lemma LoneIndex(a: seq<Field>, f: Field, c: seq<Field>, key: string)
    requires f.Number? && MlineKey(f.key) && MlineKey(key)
    requires forall g | g in a || g in c :: !MlineKey(g.key)
    ensures FirstInt(a + [f] + c, key) == if key == f.key then FirstInt([f], key) else None
  {
    AbsentKey(a, key);
    AbsentKey(c, key);
    FirstIntAppend(a, [f], key);
    FirstIntAppend(a + [f], c, key);
  }

  lemma Respelled(a: seq<Field>, number: int, c: seq<Field>)
    requires forall g | g in a || g in c :: !MlineKey(g.key)
    ensures SameAnswers(a + [Number("sdpMlineIndex", number)] + c, a + [Number("sdpMLineIndex", number)] + c)
  {
    var lower, upper := Number("sdpMlineIndex", number), Number("sdpMLineIndex", number);
    assert "sdpMlineIndex"[4] != "sdpMLineIndex"[4];
    LoneIndex(a, lower, c, "sdpMlineIndex");
    LoneIndex(a, upper, c, "sdpMlineIndex");
    LoneIndex(a, lower, c, "sdpMLineIndex");
    LoneIndex(a, upper, c, "sdpMLineIndex");
    forall key: string
      ensures FirstQuoted(a + [lower] + c, key) == FirstQuoted(a + [upper] + c, key)
    {
      DropEntry(a, lower, c, key);
      DropEntry(a, upper, c, key);
    }
  }

  lemma NumberEntry(f: Field)
    requires f.Number? && QuoteFree(f.key)
    ensures Entries([f]) == [f] && Printable([f])
  {
    EntriesOne(f);
    assert FieldEntries(f) == [f];
  }

  lemma SwapNumber(before: seq<Field>, f: Field, g: Field, after: seq<Field>)
    requires Printable(before) && Printable(after) && f.Number? && g.Number? && QuoteFree(f.key) && QuoteFree(g.key)
    requires SameAnswers(Entries(before) + [f] + Entries(after), Entries(before) + [g] + Entries(after))
    ensures Parse(Render(before + [f] + after)) == Parse(Render(before + [g] + after))
  {
    NumberEntry(f);
    NumberEntry(g);
    Spliced(before, [f], after);
    Spliced(before, [g], after);
    SameAnswersParse(before + [f] + after, before + [g] + after);
  }

  /** A lone m-line index is read the same under either spelling. */
  lemma SpellingIsFree(before: seq<Field>, lower: Field, upper: Field, after: seq<Field>)
    requires Printable(before) && Printable(after)
    requires lower.Number? && lower.key == "sdpMlineIndex" && upper == Number("sdpMLineIndex", lower.number)
    requires forall f | f in Entries(before) || f in Entries(after) :: !MlineKey(f.key)
    ensures Parse(Render(before + [lower] + after)) == Parse(Render(before + [upper] + after))
  {
    KeysAreSearchKeys();
    Respelled(Entries(before), lower.number, Entries(after));
    SwapNumber(before, lower, upper, after);
  }

  // ----- the round trip -----

  /** The printer writes the two m-line members only inside a candidate object. */
  function Printed(m: SignalMessage): SignalMessage {
    if m.candidate.Some? then m else m.(sdpMid := None, sdpMlineIndex := None)
  }

  ghost predicate QuoteFreeOptional(text: Option<string>) {
    text.Some? ==> QuoteFree(text.value)
  }

  ghost predicate QuoteFreeMessage(m: SignalMessage) {
    QuoteFree(m.from) && QuoteFree(m.to) && QuoteFreeOptional(m.sdp) && QuoteFreeOptional(m.candidate)
    && QuoteFreeOptional(m.sdpMid) && QuoteFreeOptional(m.reason)
  }

  function CandidateEntries(m: SignalMessage): seq<Field> {
    if m.candidate.Some? then
      CandidateFields(m)
      + ([Quoted("candidate", m.candidate.value)] + Optional("sdpMid", m.sdpMid) + MlineFields(m.sdpMlineIndex))
    else []
  }

  function HeadFields(m: SignalMessage): seq<Field> {
    [Quoted("type", TypeToString(m.kind)), Quoted("from", m.from), Quoted("to", m.to)]
  }

  lemma {:induction false} FlatEntries(fs: seq<Field>)
    requires forall f | f in fs :: !f.Object?
    ensures Entries(fs) == fs
  {
    if fs != [] {
      assert !fs[0].Object? by { assert fs[0] in fs; }
      FlatEntries(fs[1..]);
      assert FieldEntries(fs[0]) == [fs[0]];
    }
  }

  lemma MessageEntries(m: SignalMessage)
    ensures Entries(MessageFields(m)) ==
            HeadFields(m) + Optional("sdp", m.sdp) + CandidateEntries(m) + Optional("reason", m.reason)
  {
    var head, sdp, c, reason := HeadFields(m), Optional("sdp", m.sdp), CandidateFields(m), Optional("reason", m.reason);
    EntriesAppend(head + sdp + c, reason);
    EntriesAppend(head + sdp, c);
    EntriesAppend(head, sdp);
    FlatEntries(head);
    FlatEntries(sdp);
    FlatEntries(reason);
    if m.candidate.Some? {
      FlatEntries(c[0].fields);
      assert c == [c[0]] && c[1..] == [];
      assert FieldEntries(c[0]) + [] == FieldEntries(c[0]);
    }
  }

  lemma {:induction false} NoQuotedKey(es: seq<Field>, key: string)
    requires forall f | f in es :: !(f.Quoted? && f.key == key)
    ensures FirstQuoted(es, key) == None
  {
    if es != [] {
      assert es[0] in es;
      NoQuotedKey(es[1..], key);
    }
  }

  /** Keys of the printer, told apart. */
  lemma KeysDiffer()
    ensures "type" != "from" && "type" != "to" && "type" != "sdp" && "type" != "candidate"
            && "type" != "sdpMid" && "type" != "reason"
    ensures "from" != "to" && "from" != "sdp" && "from" != "candidate" && "from" != "sdpMid" && "from" != "reason"
    ensures "to" != "sdp" && "to" != "candidate" && "to" != "sdpMid" && "to" != "reason"
    ensures "sdp" != "candidate" && "sdp" != "sdpMid" && "sdp" != "reason"
    ensures "candidate" != "sdpMid" && "candidate" != "reason" && "sdpMid" != "reason"
    ensures !MlineKey("type") && !MlineKey("from") && !MlineKey("to") && !MlineKey("sdp") && !MlineKey("candidate")
    ensures !MlineKey("sdpMid") && !MlineKey("reason") && "sdpMlineIndex" != "sdpMLineIndex"
  {
    assert "type"[0] != "from"[0] && "sdpMid"[0] != "reason"[0] && "sdpMlineIndex"[4] != "sdpMLineIndex"[4];
  }

  /** The answers to a search, part by part. */
  lemma FourParts(a: seq<Field>, b: seq<Field>, c: seq<Field>, d: seq<Field>, key: string)
    ensures FirstQuoted(a + b + c + d, key) ==
            if FirstQuoted(a, key).Some? then FirstQuoted(a, key)
            else if FirstQuoted(b, key).Some? then FirstQuoted(b, key)
            else if FirstQuoted(c, key).Some? then FirstQuoted(c, key)
            else FirstQuoted(d, key)
  {
    FirstQuotedAppend(a + b + c, d, key);
    FirstQuotedAppend(a + b, c, key);
    FirstQuotedAppend(a, b, key);
  }

  lemma QuotedAnswers(m: SignalMessage, key: string)
    ensures FirstQuoted(Entries(MessageFields(m)), key) ==
            if key == "type" then Some(TypeToString(m.kind)) else if key == "from" then Some(m.from)
            else if key == "to" then Some(m.to) else if key == "sdp" then m.sdp
            else if key == "candidate" then m.candidate else if key == "sdpMid" then Printed(m).sdpMid
            else if key == "reason" then m.reason else None
  {
    KeysDiffer();
    MessageEntries(m);
    FourParts(HeadFields(m), Optional("sdp", m.sdp), CandidateEntries(m), Optional("reason", m.reason), key);
    HeadAnswers(m, key);
    CandidateAnswers(m, key);
  }

  lemma HeadAnswers(m: SignalMessage, key: string)
    ensures FirstQuoted(HeadFields(m), key) ==
            if key == "type" then Some(TypeToString(m.kind)) else if key == "from" then Some(m.from)
            else if key == "to" then Some(m.to) else None
  {
    var es := HeadFields(m);
    FourParts([es[0]], [es[1]], [es[2]], [], key);
    assert es == [es[0]] + [es[1]] + [es[2]] + [];
  }

  lemma CandidateAnswers(m: SignalMessage, key: string)
    ensures FirstQuoted(CandidateEntries(m), key) ==
            if key == "candidate" then m.candidate else if key == "sdpMid" then Printed(m).sdpMid else None
  {
    KeysDiffer();
    if m.candidate.Some? {
      var c := [Quoted("candidate", m.candidate.value)];
      FourParts(CandidateFields(m), c, Optional("sdpMid", m.sdpMid), MlineFields(m.sdpMlineIndex), key);
      NoQuotedKey(CandidateFields(m), key);
      NoQuotedKey(MlineFields(m.sdpMlineIndex), key);
      assert CandidateEntries(m)
          == CandidateFields(m) + c + Optional("sdpMid", m.sdpMid) + MlineFields(m.sdpMlineIndex);
    }
  }

  lemma NoMline(before: seq<Field>, mline: seq<Field>, after: seq<Field>)
    requires forall f | f in before || f in after :: !MlineKey(f.key)
    ensures MlineIndex(before + mline + after) == MlineIndex(mline)
  {
    Skips(before, mline, after, "sdpMlineIndex");
    Skips(before, mline, after, "sdpMLineIndex");
  }

  lemma Skips(before: seq<Field>, mline: seq<Field>, after: seq<Field>, key: string)
    requires MlineKey(key) && forall f | f in before || f in after :: !MlineKey(f.key)
    ensures FirstInt(before + mline + after, key) == FirstInt(mline, key)
  {
    AbsentKey(before, key);
    AbsentKey(after, key);
    FirstIntAppend(before, mline, key);
    FirstIntAppend(before + mline, after, key);
    NoKeyNoInt(mline, key);
  }

  lemma CandidateIndex(m: SignalMessage)
    ensures MlineIndex(CandidateEntries(m)) == Printed(m).sdpMlineIndex
  {
    KeysDiffer();
    if m.candidate.Some? {
      var before := CandidateFields(m) + [Quoted("candidate", m.candidate.value)] + Optional("sdpMid", m.sdpMid);
      var mline := MlineFields(m.sdpMlineIndex);
      NoMline(before, mline, []);
      assert CandidateEntries(m) == before + mline + [];
    }
  }

  lemma IndexAnswer(m: SignalMessage)
    ensures MlineIndex(Entries(MessageFields(m))) == Printed(m).sdpMlineIndex
  {
    KeysDiffer();
    MessageEntries(m);
    CandidateIndex(m);
    NoMline(HeadFields(m) + Optional("sdp", m.sdp), CandidateEntries(m), Optional("reason", m.reason));
  }

  /** Reading the entries of a printed message gives back its printed members. */
  lemma PrintedIsRead(m: SignalMessage)
    ensures MessageOf(Entries(MessageFields(m))) == Printed(m)
  {
    KeysDiffer();
    QuotedAnswers(m, "type");
    QuotedAnswers(m, "from");
    QuotedAnswers(m, "to");
    QuotedAnswers(m, "sdp");
    QuotedAnswers(m, "candidate");
    QuotedAnswers(m, "sdpMid");
    QuotedAnswers(m, "reason");
    IndexAnswer(m);
    TypeNamesRoundTrip(m.kind, "");
  }

  lemma CandidateIsQuoteFree(m: SignalMessage)
    requires QuoteFreeMessage(Printed(m))
    ensures QuoteFreeEntries(CandidateEntries(m))
  {
    KeysAreSearchKeys();
  }

  lemma PrintedIsPrintable(m: SignalMessage)
    requires QuoteFreeMessage(Printed(m))
    ensures Printable(MessageFields(m))
  {
    MessageEntries(m);
    KeysAreSearchKeys();
    CandidateIsQuoteFree(m);
    TypeNameIsQuoteFree(m.kind);
    assert QuoteFreeEntries(HeadFields(m));
  }

  lemma TypeNameIsQuoteFree(kind: Type)
    ensures QuoteFree(TypeToString(kind))
  {
  }

  /** For every message whose printed members carry no double quote, whatever its m-line index, parsing
      the printed text gives back exactly the printed members; no absent member is found by accident. */
  lemma RoundTrip(m: SignalMessage)
    requires QuoteFreeMessage(Printed(m))
    ensures Parse(Render(MessageFields(m))) == Printed(m)
  {
    PrintedIsPrintable(m);
    ParseOfRender(MessageFields(m));
    PrintedIsRead(m);
  }

  /** Whatever the text, a value the parser finds has no double quote in it. */
  lemma FoundIsQuoteFree(data: string, key: string)
    ensures QuoteFreeOptional(FindQuotedValue(data, key))
  {
    var token := QUOTE + key + "\":\"";
    var pos := Find(data, token, 0);
    if pos.Some? {
      var start := pos.value + |token|;
      FindIsLeast(data, QUOTE, start);
      var end := Find(data, QUOTE, start);
      if end.Some? {
        forall i | start <= i < end.value
          ensures data[i] != '\"'
        {
          assert !At(data, QUOTE, i);
          assert data[i..i + 1] == [data[i]];
        }
      }
    }
  }

  lemma ParsedIsQuoteFree(data: string)
    ensures QuoteFreeMessage(Parse(data))
  {
    FoundIsQuoteFree(data, "from");
    FoundIsQuoteFree(data, "to");
    FoundIsQuoteFree(data, "sdp");
    FoundIsQuoteFree(data, "candidate");
    FoundIsQuoteFree(data, "sdpMid");
    FoundIsQuoteFree(data, "reason");
  }

  /** The parser always returns a message; it has type UNKNOWN exactly when no string is found for the type,
      or one that names no other type. */
  lemma UnknownExactlyWhen(data: string)
    ensures Parse(data).kind == UNKNOWN <==>
            match FindQuotedValue(data, "type")
            case None => true
            case Some(name) =>
              name != "join" && name != "leave" && name != "offer" && name != "answer" && name != "candidate"
  {
    hide FindQuotedValue, FindIntValue;
    NamesDiffer();
  }

  lemma NamesDiffer()
    ensures StringToType("join") == JOIN && StringToType("leave") == LEAVE && StringToType("offer") == OFFER
    ensures StringToType("answer") == ANSWER && StringToType("candidate") == CANDIDATE
  {
    TypeNamesRoundTrip(JOIN, "");
    TypeNamesRoundTrip(LEAVE, "");
    TypeNamesRoundTrip(OFFER, "");
    TypeNamesRoundTrip(ANSWER, "");
    TypeNamesRoundTrip(CANDIDATE, "");
  }

  /** A message survives printing and parsing exactly when no member carries a double quote and, without
      a candidate, there is no m-line member that would be dropped. */
  lemma RoundTripsExactlyWhen(m: SignalMessage)
    ensures Parse(Render(MessageFields(m))) == m <==>
            QuoteFreeMessage(m) && (m.candidate.None? ==> m.sdpMid.None? && m.sdpMlineIndex.None?)
  {
    ParsedIsQuoteFree(Render(MessageFields(m)));
    if QuoteFreeMessage(m) {
      RoundTrip(m);
    }
  }
}
