/** What the parser makes of messages that do hold double quotes: everything printed before the first
    double quote of a value is read back, and that value is read up to the quote. */
module SignalQuotes {
  import opened Wrappers
  import opened Text
  import opened Decimal
  import opened SignalSearch
  import opened SignalLayout
  import opened Signaling
  import opened SignalRoundTrip

  /** A value up to its first double quote. */
  function BeforeQuote(s: string): string {
    UpToQuote(s).GetOr(s)
  }

  lemma BeforeQuoteSplits(s: string)
    ensures QuoteFree(BeforeQuote(s)) && BeforeQuote(s) <= s
    ensures QuoteFree(s) <==> BeforeQuote(s) == s
    ensures !QuoteFree(s) ==> BeforeQuote(s) + QUOTE <= s
  {
    FindIsLeast(s, QUOTE, 0);
    var end := Find(s, QUOTE, 0);
    forall i | 0 <= i < |s| && (end.Some? ==> i < end.value)
      ensures s[i] != '\"'
    {
      assert !At(s, QUOTE, i);
      assert s[i..i + 1] == [s[i]];
    }
    if end.Some? {
      assert s[..end.value + 1] == s[..end.value] + QUOTE;
      assert s[end.value] == '\"';
    }
  }

  // ----- the search in a text and in its start -----

  lemma AtStart(p: string, x: string, token: string, i: int)
    requires i + |token| <= |p|
    ensures At(p + x, token, i) <==> At(p, token, i)
  {
    if 0 <= i {
      assert (p + x)[i..i + |token|] == p[i..i + |token|];
    }
  }

  /** What is found within the start of a text is found in the whole text. */
  lemma FindInStart(p: string, x: string, token: string, from: nat)
    ensures Find(p, token, from).Some? ==> Find(p + x, token, from) == Find(p, token, from)
  {
    var r := Find(p, token, from);
    FindIsLeast(p, token, from);
    if r.Some? {
      AtStart(p, x, token, r.value);
      forall j | from <= j < r.value
        ensures !At(p + x, token, j)
      {
        AtStart(p, x, token, j);
      }
      FindAt(p + x, token, from, r.value);
    }
  }

  lemma QuotedInStart(p: string, x: string, key: string)
    ensures FindQuotedValue(p, key).Some? ==> FindQuotedValue(p + x, key) == FindQuotedValue(p, key)
  {
    hide Find;
    var token := QUOTE + key + "\":\"";
    FindInStart(p, x, token, 0);
    var pos := Find(p, token, 0);
    if pos.Some? {
      var start := pos.value + |token|;
      FindInStart(p, x, QUOTE, start);
      var end := Find(p, QUOTE, start);
      assert end.Some? ==> (p + x)[start..end.value] == p[start..end.value];
    }
  }

  /** A token is not found across or in an end that lacks the token's last character. */
  lemma FindBeforeEnd(p: string, x: string, token: string, from: nat)
    requires token != "" && token[|token| - 1] !in x
    ensures Find(p + x, token, from) == Find(p, token, from)
  {
    var r := Find(p + x, token, from);
    FindIsLeast(p + x, token, from);
    FindInStart(p, x, token, from);
    if r.Some? {
      var last := r.value + |token| - 1;
      assert (p + x)[last] == (p + x)[r.value..r.value + |token|][|token| - 1];
      assert last < |p|;
      AtStart(p, x, token, r.value);
      FindIsLeast(p, token, from);
    }
  }

  lemma QuotedBeforeEnd(p: string, x: string, key: string)
    requires QuoteFree(x)
    ensures FindQuotedValue(p + x, key) == FindQuotedValue(p, key)
  {
    hide Find;
    var token := QUOTE + key + "\":\"";
    FindBeforeEnd(p, x, token, 0);
    var pos := Find(p, token, 0);
    if pos.Some? {
      var start := pos.value + |token|;
      FindBeforeEnd(p, x, QUOTE, start);
      var end := Find(p, QUOTE, start);
      assert end.Some? ==> (p + x)[start..end.value] == p[start..end.value];
    }
  }

  /** Two texts with the same start: what the first finds, if it ends without quotes, the other finds. */
  lemma SharedStart(p: string, x: string, y: string, key: string)
    requires QuoteFree(x)
    ensures FindQuotedValue(p + x, key).Some? ==> FindQuotedValue(p + y, key) == FindQuotedValue(p + x, key)
  {
    QuotedBeforeEnd(p, x, key);
    QuotedInStart(p, y, key);
  }

  // ----- cutting a field list at its first double quote -----

  ghost predicate QuoteFreeField(f: Field) {
    QuoteFreeEntries(FieldEntries(f))
  }

  /** The fields up to the first double quote in a value, the value and the objects around it cut there. */
  ghost function CutFields(fs: seq<Field>): seq<Field>
    decreases fs, 0
  {
    if fs == [] then []
    else if QuoteFreeField(fs[0]) then [fs[0]] + CutFields(fs[1..])
    else [CutField(fs[0])]
  }

  ghost function CutField(f: Field): Field
    decreases f, 1
  {
    match f
    case Quoted(key, text) => Quoted(key, BeforeQuote(text))
    case Number(_, _) => f
    case Object(key, fields) => Object(key, CutFields(fields))
  }

  ghost predicate QuoteFreeKeys(es: seq<Field>) {
    forall f | f in es :: QuoteFree(f.key)
  }

  lemma KeysOfHead(fs: seq<Field>)
    requires fs != [] && QuoteFreeKeys(Entries(fs))
    ensures QuoteFreeKeys(FieldEntries(fs[0])) && QuoteFreeKeys(Entries(fs[1..])) && QuoteFree(fs[0].key)
  {
    assert Entries(fs) == FieldEntries(fs[0]) + Entries(fs[1..]);
    assert fs[0] in FieldEntries(fs[0]);
  }

  lemma {:induction false} CutIsPrintable(fs: seq<Field>)
    requires QuoteFreeKeys(Entries(fs))
    ensures Printable(CutFields(fs))
    decreases fs, 0
  {
    if fs != [] {
      KeysOfHead(fs);
      if QuoteFreeField(fs[0]) {
        CutIsPrintable(fs[1..]);
        EntriesOne(fs[0]);
        PrintableAppend([fs[0]], CutFields(fs[1..]));
      } else {
        CutFieldIsPrintable(fs[0]);
        EntriesOne(CutField(fs[0]));
      }
    }
  }

  lemma {:induction false} CutFieldIsPrintable(f: Field)
    requires QuoteFreeKeys(FieldEntries(f))
    ensures QuoteFreeEntries(FieldEntries(CutField(f)))
    decreases f, 1
  {
    assert f in FieldEntries(f);
    match f
    case Quoted(_, text) => BeforeQuoteSplits(text);
    case Number(_, _) =>
    case Object(_, fields) =>
      assert forall g | g in Entries(fields) :: g in FieldEntries(f);
      CutIsPrintable(fields);
  }

  /** `cut` starts like `whole` and then goes on without quotes. */
  ghost predicate Agree(whole: string, cut: string, p: string, x: string, y: string) {
    whole == p + y && cut == p + x && QuoteFree(x)
  }

  lemma RenderHead(f: Field, fs: seq<Field>)
    requires fs != []
    ensures RenderFields([f] + fs) == RenderField(f) + "," + RenderFields(fs)
  {
    assert ([f] + fs)[1..] == fs;
  }

  lemma Agreed(head: string, p: string, x: string, y: string, tail: string)
    ensures head + (p + x) + tail == head + p + (x + tail)
    ensures head + (p + y) + tail == head + p + (y + tail)
  {
  }

  lemma RenderAlone(f: Field)
    ensures RenderFields([f]) == RenderField(f)
  {
  }

  lemma CutHead(fs: seq<Field>, cut: Field, p: string, x: string, y: string) returns (z: string)
    requires fs != [] && Agree(RenderField(fs[0]), RenderField(cut), p, x, y)
    ensures Agree(RenderFields(fs), RenderFields([cut]), p, x, z)
  {
    hide RenderFields, RenderField, QuoteFree;
    RenderAlone(cut);
    if |fs| == 1 {
      assert fs == [fs[0]];
      RenderAlone(fs[0]);
      z := y;
    } else {
      var rest := fs[1..];
      assert fs == [fs[0]] + rest;
      RenderHead(fs[0], rest);
      z := y + ("," + RenderFields(rest));
      assert p + y + "," + RenderFields(rest) == p + z;
    }
  }

  lemma CutTail(f: Field, rest: seq<Field>, cut: seq<Field>, p: string, x: string, y: string)
    requires rest != [] && cut != [] && Agree(RenderFields(rest), RenderFields(cut), p, x, y)
    ensures Agree(RenderFields([f] + rest), RenderFields([f] + cut), RenderField(f) + "," + p, x, y)
  {
    RenderHead(f, rest);
    RenderHead(f, cut);
    Agreed(RenderField(f) + ",", p, x, y, "");
    assert x + "" == x && y + "" == y;
  }

  lemma {:induction false} CutRenders(fs: seq<Field>) returns (p: string, x: string, y: string)
    ensures Agree(RenderFields(fs), RenderFields(CutFields(fs)), p, x, y)
    decreases fs, 0
  {
    hide RenderFields, RenderField, QuoteFreeField, CutField;
    if fs == [] {
      assert CutFields(fs) == fs;
      p, x, y := RenderFields(fs), "", "";
      assert p + "" == p;
    } else if !QuoteFreeField(fs[0]) {
      p, x, y := CutFieldRenders(fs[0]);
      y := CutHead(fs, CutField(fs[0]), p, x, y);
    } else if |fs| == 1 {
      assert CutFields(fs[1..]) == [] && CutFields(fs) == fs;
      p, x, y := RenderFields(fs), "", "";
      assert p + "" == p;
    } else {
      p, x, y := CutRenders(fs[1..]);
      CutTail(fs[0], fs[1..], CutFields(fs[1..]), p, x, y);
      assert fs == [fs[0]] + fs[1..];
      p := RenderField(fs[0]) + "," + p;
    }
  }

  lemma {:induction false} CutFieldRenders(f: Field) returns (p: string, x: string, y: string)
    ensures Agree(RenderField(f), RenderField(CutField(f)), p, x, y)
    decreases f, 1
  {
    match f
    case Number(_, _) =>
      p, x, y := RenderField(f), "", "";
      assert p + "" == p;
    case Quoted(key, text) =>
      p, x, y := QuotedRenders(key, text);
    case Object(key, fields) =>
      p, x, y := CutRenders(fields);
      var head := "\"" + key + "\":{";
      Agreed(head, p, x, y, "}");
      p, x, y := head + p, x + "}", y + "}";
  }

  lemma QuotedRenders(key: string, text: string) returns (p: string, x: string, y: string)
    ensures Agree(RenderField(Quoted(key, text)), RenderField(Quoted(key, BeforeQuote(text))), p, x, y)
  {
    BeforeQuoteSplits(text);
    var head := "\"" + key + "\":\"";
    var a := BeforeQuote(text);
    p, x := head + a + "\"", "";
    assert p + "" == p;
    if QuoteFree(text) {
      y := "";
    } else {
      y := text[|a| + 1..] + "\"";
      assert text == a + "\"" + text[|a| + 1..];
      assert head + (a + "\"" + text[|a| + 1..]) + "\"" == head + a + "\"" + (text[|a| + 1..] + "\"");
    }
  }

  // ----- what is read -----

  /** The first string field with the key, provided no double quote comes before it, up to its own. */
  ghost function FirstReadable(es: seq<Field>, key: string): Option<string> {
    if es == [] then None
    else if !es[0].Quoted? then FirstReadable(es[1..], key)
    else if es[0].key == key then Some(BeforeQuote(es[0].text))
    else if QuoteFree(es[0].text) then FirstReadable(es[1..], key)
    else None
  }

  ghost predicate QuoteFreeTexts(es: seq<Field>) {
    forall f | f in es && f.Quoted? :: QuoteFree(f.text)
  }

  lemma {:induction false} FirstReadableAppend(es: seq<Field>, gs: seq<Field>, key: string)
    ensures FirstReadable(es + gs, key) ==
            if FirstReadable(es, key).Some? then FirstReadable(es, key)
            else if QuoteFreeTexts(es) then FirstReadable(gs, key)
            else None
  {
    if es == [] {
      assert es + gs == gs;
    } else {
      assert (es + gs)[1..] == es[1..] + gs;
      FirstReadableAppend(es[1..], gs, key);
      assert QuoteFreeTexts(es) <==> (es[0].Quoted? ==> QuoteFree(es[0].text)) && QuoteFreeTexts(es[1..]) by {
        assert es == [es[0]] + es[1..];
      }
    }
  }

  lemma {:induction false} ReadableIfQuoteFree(es: seq<Field>, key: string)
    requires QuoteFreeTexts(es)
    ensures FirstReadable(es, key) == FirstQuoted(es, key)
  {
    if es != [] {
      assert es[0] in es;
      if es[0].Quoted? {
        BeforeQuoteSplits(es[0].text);
      }
      ReadableIfQuoteFree(es[1..], key);
    }
  }

  lemma {:induction false} CutIsReadable(fs: seq<Field>, key: string)
    requires QuoteFreeKeys(Entries(fs))
    ensures FirstQuoted(Entries(CutFields(fs)), key) == FirstReadable(Entries(fs), key)
    decreases fs, 0
  {
    if fs != [] {
      KeysOfHead(fs);
      var head, rest := FieldEntries(fs[0]), Entries(fs[1..]);
      FirstReadableAppend(head, rest, key);
      if QuoteFreeField(fs[0]) {
        var cut := CutFields(fs[1..]);
        CutIsReadable(fs[1..], key);
        EntriesAppend([fs[0]], cut);
        EntriesOne(fs[0]);
        FirstQuotedAppend(head, Entries(cut), key);
        ReadableIfQuoteFree(head, key);
      } else {
        CutFieldIsReadable(fs[0], key);
        EntriesOne(CutField(fs[0]));
      }
    }
  }

  lemma {:induction false} CutFieldIsReadable(f: Field, key: string)
    requires QuoteFreeKeys(FieldEntries(f))
    ensures FirstQuoted(FieldEntries(CutField(f)), key) == FirstReadable(FieldEntries(f), key)
    ensures !QuoteFreeField(f) ==> !QuoteFreeTexts(FieldEntries(f))
    decreases f, 1
  {
    match f
    case Quoted(_, _) => assert f in FieldEntries(f);
    case Number(_, _) =>
    case Object(k, fields) =>
      assert forall g | g in Entries(fields) :: g in FieldEntries(f);
      assert FieldEntries(f)[1..] == Entries(fields);
      assert FieldEntries(CutField(f))[1..] == Entries(CutFields(fields));
      CutIsReadable(fields, key);
  }

  /** On the text of any field list, of any order and nesting and whatever its strings hold: the string
      search returns the first field with the key, up to its first double quote, if no double quote comes
      before that field. */
  lemma QuotedSearchOfAnyRender(fs: seq<Field>, key: string)
    requires QuoteFreeKeys(Entries(fs)) && SearchKey(key)
    ensures FirstReadable(Entries(fs), key).Some? ==>
              FindQuotedValue(Render(fs), key) == FirstReadable(Entries(fs), key)
  {
    hide Find, RenderFields, CutFields;
    var p, x, y := CutRenders(fs);
    CutIsPrintable(fs);
    QuotedSearchOfRender(CutFields(fs), key);
    CutIsReadable(fs, key);
    Agreed("{", p, x, y, "}");
    SharedStart("{" + p, x + "}", y + "}", key);
  }

  // ----- messages -----

  lemma KeysAppend(es: seq<Field>, gs: seq<Field>)
    requires QuoteFreeKeys(es) && QuoteFreeKeys(gs)
    ensures QuoteFreeKeys(es + gs)
  {
    hide QuoteFree;
  }

  lemma CandidateKeys(m: SignalMessage)
    ensures QuoteFreeKeys(CandidateEntries(m))
  {
    hide QuoteFree;
    KeysAreQuoteFree();
  }

  lemma KeysAreQuoteFree()
    ensures QuoteFree("type") && QuoteFree("from") && QuoteFree("to") && QuoteFree("sdp") && QuoteFree("candidate")
    ensures QuoteFree("sdpMid") && QuoteFree("sdpMlineIndex") && QuoteFree("sdpMLineIndex") && QuoteFree("reason")
  {
    KeysAreSearchKeys();
  }

  lemma MessageKeys(m: SignalMessage)
    ensures QuoteFreeKeys(Entries(MessageFields(m)))
  {
    hide QuoteFree, CandidateEntries;
    var head, sdp, reason := HeadFields(m), Optional("sdp", m.sdp), Optional("reason", m.reason);
    MessageEntries(m);
    KeysAreQuoteFree();
    CandidateKeys(m);
    assert QuoteFreeKeys(head) && QuoteFreeKeys(sdp) && QuoteFreeKeys(reason);
    KeysAppend(head, sdp);
    KeysAppend(head + sdp, CandidateEntries(m));
    KeysAppend(head + sdp + CandidateEntries(m), reason);
  }

  lemma FourReadable(a: seq<Field>, b: seq<Field>, c: seq<Field>, d: seq<Field>, key: string)
    ensures FirstReadable(a + b + c + d, key) ==
            if FirstReadable(a, key).Some? then FirstReadable(a, key)
            else if !QuoteFreeTexts(a) then None
            else if FirstReadable(b, key).Some? then FirstReadable(b, key)
            else if !QuoteFreeTexts(b) then None
            else if FirstReadable(c, key).Some? then FirstReadable(c, key)
            else if !QuoteFreeTexts(c) then None
            else FirstReadable(d, key)
  {
    FirstReadableAppend(a + b + c, d, key);
    FirstReadableAppend(a + b, c, key);
    FirstReadableAppend(a, b, key);
  }

  lemma OneReadable(f: Field, key: string)
    ensures FirstReadable([f], key) == if f.Quoted? && f.key == key then Some(BeforeQuote(f.text)) else None
    ensures QuoteFreeTexts([f]) <==> (f.Quoted? ==> QuoteFree(f.text))
  {
    assert [f][1..] == [];
  }

  lemma OptionalReadable(name: string, text: Option<string>, key: string)
    ensures FirstReadable(Optional(name, text), key) ==
            if text.Some? && name == key then Some(BeforeQuote(text.value)) else None
    ensures QuoteFreeTexts(Optional(name, text)) <==> QuoteFreeOptional(text)
  {
    if text.Some? {
      OneReadable(Quoted(name, text.value), key);
    }
  }

  lemma HeadReadable(m: SignalMessage, key: string)
    ensures FirstReadable(HeadFields(m), key) ==
            if key == "type" then Some(TypeToString(m.kind))
            else if key == "from" then Some(BeforeQuote(m.from))
            else if key == "to" && QuoteFree(m.from) then Some(BeforeQuote(m.to))
            else None
    ensures QuoteFreeTexts(HeadFields(m)) <==> QuoteFree(m.from) && QuoteFree(m.to)
  {
    var es := HeadFields(m);
    KeysDiffer();
    TypeNameIsQuoteFree(m.kind);
    BeforeQuoteSplits(TypeToString(m.kind));
    OneReadable(es[0], key);
    OneReadable(es[1], key);
    OneReadable(es[2], key);
    FourReadable([es[0]], [es[1]], [es[2]], [], key);
    assert es == [es[0]] + [es[1]] + [es[2]] + [];
  }

  lemma NumbersReadable(fs: seq<Field>, key: string)
    requires forall f | f in fs :: !f.Quoted?
    ensures FirstReadable(fs, key) == None && QuoteFreeTexts(fs)
  {
    ReadableIfQuoteFree(fs, key);
    NoQuotedKey(fs, key);
  }

  lemma CandidateReadable(m: SignalMessage, key: string)
    ensures FirstReadable(CandidateEntries(m), key) ==
            if m.candidate.None? then None
            else if key == "candidate" then Some(BeforeQuote(m.candidate.value))
            else if key == "sdpMid" && QuoteFree(m.candidate.value) && m.sdpMid.Some? then
              Some(BeforeQuote(m.sdpMid.value))
            else None
    ensures QuoteFreeTexts(CandidateEntries(m)) <==>
            QuoteFreeOptional(m.candidate) && QuoteFreeOptional(Printed(m).sdpMid)
  {
    KeysDiffer();
    if m.candidate.Some? {
      var c := [Quoted("candidate", m.candidate.value)];
      var mid, mline := Optional("sdpMid", m.sdpMid), MlineFields(m.sdpMlineIndex);
      NumbersReadable(CandidateFields(m), key);
      OneReadable(c[0], key);
      OptionalReadable("sdpMid", m.sdpMid, key);
      NumbersReadable(mline, key);
      FourReadable(CandidateFields(m), c, mid, mline, key);
      var es := CandidateFields(m) + c + mid + mline;
      assert CandidateEntries(m) == es;
      assert QuoteFreeTexts(es) <==> QuoteFreeTexts(c) && QuoteFreeTexts(mid) by {
        assert forall f :: f in es <==> f in CandidateFields(m) || f in c || f in mid || f in mline;
      }
    }
  }

  /** The members printed before the candidate hold no double quote. */
  ghost predicate QuoteFreeToSdp(m: SignalMessage) {
    QuoteFree(m.from) && QuoteFree(m.to) && QuoteFreeOptional(m.sdp)
  }

  ghost predicate QuoteFreeToMid(m: SignalMessage) {
    QuoteFreeToSdp(m) && QuoteFreeOptional(m.candidate) && QuoteFreeOptional(Printed(m).sdpMid)
  }

  /** What the first readable entry of a printed message is, key by key. */
  ghost function ReadableMember(m: SignalMessage, key: string): Option<string> {
    if key == "type" then Some(TypeToString(m.kind))
    else if key == "from" then Some(BeforeQuote(m.from))
    else if key == "to" && QuoteFree(m.from) then Some(BeforeQuote(m.to))
    else if key == "sdp" && QuoteFree(m.from) && QuoteFree(m.to) && m.sdp.Some? then Some(BeforeQuote(m.sdp.value))
    else if key == "candidate" && QuoteFreeToSdp(m) && m.candidate.Some? then Some(BeforeQuote(m.candidate.value))
    else if key == "sdpMid" && QuoteFreeToSdp(m) && QuoteFreeOptional(m.candidate) && Printed(m).sdpMid.Some? then
      Some(BeforeQuote(m.sdpMid.value))
    else if key == "reason" && QuoteFreeToMid(m) && m.reason.Some? then Some(BeforeQuote(m.reason.value))
    else None
  }

  lemma MessageReadable(m: SignalMessage, key: string)
    ensures FirstReadable(Entries(MessageFields(m)), key) == ReadableMember(m, key)
  {
    hide FirstReadable, Optional, HeadFields, CandidateEntries, QuoteFreeTexts;
    KeysDiffer();
    MessageEntries(m);
    HeadReadable(m, key);
    OptionalReadable("sdp", m.sdp, key);
    CandidateReadable(m, key);
    OptionalReadable("reason", m.reason, key);
    FourReadable(HeadFields(m), Optional("sdp", m.sdp), CandidateEntries(m), Optional("reason", m.reason), key);
  }

  lemma MemberIsRead(m: SignalMessage, key: string)
    requires SearchKey(key)
    ensures ReadableMember(m, key).Some? ==> FindQuotedValue(Render(MessageFields(m)), key) == ReadableMember(m, key)
  {
    hide FindQuotedValue, ReadableMember, FirstReadable;
    MessageKeys(m);
    MessageReadable(m, key);
    QuotedSearchOfAnyRender(MessageFields(m), key);
  }

  // ----- the m-line index -----

  /** An integer found before a closing brace is found before a comma too, whatever follows. */
  lemma IntBeforeComma(p: string, y: string, key: string)
    ensures FindIntValue(p + "}", key).Some? ==> FindIntValue(p + ("," + y), key) == FindIntValue(p + "}", key)
  {
    hide Find, FindFirstOf, Stoi;
    var token := QUOTE + key + "\":";
    assert token[|token| - 1] == ':';
    FindBeforeEnd(p, "}", token, 0);
    FindInStart(p, "," + y, token, 0);
    var pos := Find(p, token, 0);
    if pos.Some? {
      EndsAlike(p, y, pos.value + |token|);
    }
  }

  lemma EndsAlike(p: string, y: string, start: nat)
    requires start <= |p|
    ensures var e := FindFirstOf(p + "}", ",}", start);
            && e.Some? && e.value <= |p| && FindFirstOf(p + ("," + y), ",}", start) == e
            && (p + "}")[start..e.value] == (p + ("," + y))[start..e.value]
  {
    var s, t := p + "}", p + ("," + y);
    FirstOfIsLeast(s, ",}", start);
    assert s[|p|] == '}' && t[|p|] == ',';
    var e := FindFirstOf(s, ",}", start);
    assert forall j | start <= j < |p| :: s[j] == p[j] && t[j] == p[j];
    FirstOfAt(t, ",}", start, e.value);
  }

  lemma MlineAnswer(k: int32, key: string)
    requires MlineKey(key)
    ensures FirstInt(MlineFields(Some(k)), key) == Some(k)
  {
    var mline := MlineFields(Some(k));
    assert mline == [mline[0], mline[1]] && mline[1..] == [mline[1]];
  }

  lemma CutAround<T>(h: seq<T>, a: seq<T>, x: seq<T>, l: seq<T>)
    ensures h + (a + (x + l)) == (h + (a + x)) + l
  {
  }

  /** The entries of a message before those of its index. */
  function BeforeIndex(m: SignalMessage): seq<Field>
    requires m.candidate.Some?
  {
    HeadFields(m) + Optional("sdp", m.sdp)
    + (CandidateFields(m) + ([Quoted("candidate", m.candidate.value)] + Optional("sdpMid", m.sdpMid)))
  }

  /** The entries of a message, cut around those of its index. */
  lemma EntriesAroundIndex(m: SignalMessage)
    requires m.candidate.Some?
    ensures Entries(MessageFields(m)) == BeforeIndex(m) + MlineFields(m.sdpMlineIndex) + Optional("reason", m.reason)
  {
    hide Entries, MessageFields, HeadFields, Optional, CandidateFields, MlineFields;
    MessageEntries(m);
    CutAround(HeadFields(m) + Optional("sdp", m.sdp), CandidateFields(m),
      [Quoted("candidate", m.candidate.value)] + Optional("sdpMid", m.sdpMid), MlineFields(m.sdpMlineIndex));
  }

  lemma NoMlineKeys(m: SignalMessage)
    requires m.candidate.Some?
    ensures forall f | f in BeforeIndex(m) :: !MlineKey(f.key)
  {
    hide MlineKey;
    KeysDiffer();
  }

  lemma IndexEntry(m: SignalMessage, key: string)
    requires m.candidate.Some? && m.sdpMlineIndex.Some? && MlineKey(key)
    ensures FirstInt(Entries(MessageFields(m)), key) == m.sdpMlineIndex
  {
    hide Entries, MessageFields, MlineFields, FirstInt, BeforeIndex;
    KeysDiffer();
    EntriesAroundIndex(m);
    NoMlineKeys(m);
    MlineAnswer(m.sdpMlineIndex.value, key);
    Skips(BeforeIndex(m), MlineFields(m.sdpMlineIndex), Optional("reason", m.reason), key);
  }

  lemma IndexIsRead(m: SignalMessage)
    requires QuoteFreeToMid(m) && Printed(m).sdpMlineIndex.Some?
    ensures FindIntValue(Render(MessageFields(m)), "sdpMlineIndex") == m.sdpMlineIndex
  {
    hide FindIntValue, RenderFields, RenderField, Entries;
    var short := m.(reason := None);
    var fs := MessageFields(short);
    PrintedIsPrintable(short);
    KeysAreSearchKeys();
    IntSearchOfRender(fs, "sdpMlineIndex");
    KeysDiffer();
    IndexEntry(short, "sdpMlineIndex");
    if m.reason.Some? {
      var reason := Quoted("reason", m.reason.value);
      RenderSnoc(fs, reason);
      assert MessageFields(m) == fs + [reason];
      IntBeforeComma("{" + RenderFields(fs), RenderField(reason) + "}", "sdpMlineIndex");
      assert "{" + RenderFields(fs) + ("," + (RenderField(reason) + "}")) == Render(MessageFields(m));
    } else {
      assert short == m;
    }
  }

  /** Whatever the strings of a message hold: its type is read back; in printing order, the members before
      the first that holds a double quote are read back, and that one is read up to its first double quote. */
  lemma ReadUpToFirstQuote(m: SignalMessage)
    ensures var r := Parse(Render(MessageFields(m)));
            && r.kind == m.kind
            && r.from == BeforeQuote(m.from)
            && (QuoteFree(m.from) ==> r.to == BeforeQuote(m.to))
            && (QuoteFree(m.from) && QuoteFree(m.to) && m.sdp.Some? ==> r.sdp == Some(BeforeQuote(m.sdp.value)))
            && (QuoteFreeToSdp(m) && m.candidate.Some? ==> r.candidate == Some(BeforeQuote(m.candidate.value)))
            && (QuoteFreeToSdp(m) && QuoteFreeOptional(m.candidate) && Printed(m).sdpMid.Some? ==>
                  r.sdpMid == Some(BeforeQuote(m.sdpMid.value)))
            && (QuoteFreeToMid(m) && Printed(m).sdpMlineIndex.Some? ==> r.sdpMlineIndex == m.sdpMlineIndex)
            && (QuoteFreeToMid(m) && m.reason.Some? ==> r.reason == Some(BeforeQuote(m.reason.value)))
  {
    hide FindQuotedValue, FindIntValue, Render, MessageFields, QuoteFree;
    KeysAreSearchKeys();
    KeysDiffer();
    TypeNamesRoundTrip(m.kind, "");
    MemberIsRead(m, "type");
    MemberIsRead(m, "from");
    MemberIsRead(m, "to");
    MemberIsRead(m, "sdp");
    MemberIsRead(m, "candidate");
    MemberIsRead(m, "sdpMid");
    MemberIsRead(m, "reason");
    if QuoteFreeToMid(m) && Printed(m).sdpMlineIndex.Some? {
      IndexIsRead(m);
    }
  }
}
