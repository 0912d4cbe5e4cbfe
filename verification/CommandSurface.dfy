/** cockpit_client/cockpit_client_app.cc: from a web-socket text to a cockpit command. */
module CommandSurface {
  import opened Wrappers
  import opened Text
  import Cockpit = CockpitRuntime

  const WS := " \t\r\n"

  function Trim(value: string): string {
    match FindFirstNotOf(value, WS, 0)
    case None => ""
    case Some(begin) =>
      match FindLastNotOf(value, WS, |value|)
      case None => ""
      case Some(end) =>
        LastNotOfIsGreatest(value, WS, |value|);
        value[begin..end + 1]
  }

  function UpTo(s: string, end: Option<nat>): string
    requires end.Some? ==> end.value <= |s|
  {
    if end.Some? then s[..end.value] else s
  }

  function ParseWebCommandName(raw: string): string {
    var keyPos := Find(raw, "cmd=", 0);
    if keyPos.Some? then
      var candidate := raw[keyPos.value + 4..];
      Trim(UpTo(candidate, FindFirstOf(candidate, ", }\"]", 0)))
    else
      match QuotedName(raw)
      case Some(name) => Trim(name)
      case None => Trim(raw)
  }

  /** The branch for a `"cmd"` key: what follows its colon, up to a separator. */
  function QuotedName(raw: string): Option<string> {
    match Find(raw, "\"cmd\"", 0)
    case None => None
    case Some(quoteKey) =>
      match Find(raw, ":", quoteKey)
      case None => None
      case Some(colon) =>
        match FindFirstNotOf(raw, " \t\r\n\"", colon + 1)
        case None => None
        case Some(start) =>
          var end := FindFirstOf(raw, "\" ,}\r\n\t", start);
          Some(raw[start..if end.Some? then end.value else |raw|])
  }

  // ----- trim -----

  predicate IsBlank(c: char) {
    c == ' ' || c == '\t' || c == '\r' || c == '\n'
  }

  ghost predicate Blank(s: string) {
    forall i | 0 <= i < |s| :: IsBlank(s[i])
  }

  ghost predicate Trimmed(s: string) {
    s != "" ==> !IsBlank(s[0]) && !IsBlank(s[|s| - 1])
  }

  lemma Cut(value: string, first: nat, last: nat)
    requires first <= last < |value| && value[first] !in WS && value[last] !in WS
    ensures value == value[..first] + value[first..last + 1] + value[last + 1..]
    ensures Trimmed(value[first..last + 1])
  {
    var s := value[first..last + 1];
    assert s[0] == value[first] && s[|s| - 1] == value[last];
  }

  lemma BlankEnds(value: string)
    ensures var first, last := FindFirstNotOf(value, WS, 0), FindLastNotOf(value, WS, |value|);
            if first.None? then Blank(value)
            else last.Some? && first.value <= last.value
                 && Blank(value[..first.value]) && Blank(value[last.value + 1..])
  {
    FirstNotOfIsLeast(value, WS, 0);
    LastNotOfIsGreatest(value, WS, |value|);
  }

  lemma TrimSplits(value: string) returns (before: string, after: string)
    ensures value == before + Trim(value) + after && Blank(before) && Blank(after) && Trimmed(Trim(value))
  {
    BlankEnds(value);
    var first, last := FindFirstNotOf(value, WS, 0), FindLastNotOf(value, WS, |value|);
    if first.None? {
      before, after := value, "";
      assert Trim(value) == "";
    } else {
      before, after := value[..first.value], value[last.value + 1..];
      assert Trim(value) == value[first.value..last.value + 1];
      Cut(value, first.value, last.value);
    }
  }

  /** Trim is the one substring that blanks surround and that no blank starts or ends. */
  lemma TrimExactly(before: string, s: string, after: string)
    requires Blank(before) && Blank(after) && Trimmed(s)
    ensures Trim(before + s + after) == s
  {
    var v := before + s + after;
    assert forall i | 0 <= i < |before| :: v[i] == before[i];
    assert forall i | |before| + |s| <= i < |v| :: v[i] == after[i - |before| - |s|];
    if s == "" {
      NoneNotOf(v, WS, 0);
    } else {
      assert v[|before|] == s[0] && v[|before| + |s| - 1] == s[|s| - 1];
      FirstNotOfAt(v, WS, 0, |before|);
      LastNotOfAt(v, WS, |v|, |before| + |s| - 1);
      assert v[|before|..|before| + |s|] == s;
    }
  }

  lemma TrimOfTrimmed(s: string)
    requires Trimmed(s)
    ensures Trim(s) == s
  {
    assert "" + s + "" == s;
    TrimExactly("", s, "");
  }

  lemma TrimIdempotent(value: string)
    ensures Trim(Trim(value)) == Trim(value)
  {
    var before, after := TrimSplits(value);
    TrimOfTrimmed(Trim(value));
  }

  // ----- the three forms of a command -----

  ghost predicate Free(s: string, chars: string) {
    forall i | 0 <= i < |s| :: s[i] !in chars
  }

  lemma AssignedName(name: string)
    ensures ParseWebCommandName("cmd=" + name) == Trim(UpTo(name, FindFirstOf(name, ", }\"]", 0)))
  {
    var raw := "cmd=" + name;
    assert raw[0..4] == "cmd=" && raw[4..] == name;
    assert Find(raw, "cmd=", 0) == Some(0);
  }

  lemma TrimNeverGrows(value: string)
    ensures Trimmed(Trim(value)) && |Trim(value)| <= |value|
  {
    var before, after := TrimSplits(value);
  }

  /** `cmd=NAME` is read as NAME exactly when NAME is trimmed and holds no separator of that form. */
  lemma AssignmentFormExactly(name: string)
    ensures ParseWebCommandName("cmd=" + name) == name <==> Trimmed(name) && Free(name, ", }\"]")
  {
    AssignedName(name);
    var sep := FindFirstOf(name, ", }\"]", 0);
    FirstOfIsLeast(name, ", }\"]", 0);
    TrimNeverGrows(UpTo(name, sep));
    if Trimmed(name) && sep.None? {
      TrimOfTrimmed(name);
    }
  }

  /** A command name as the surface is meant to carry it. */
  ghost predicate PlainName(name: string) {
    Free(name, " \t\r\n\",]}") && forall j :: !At(name, "cmd=", j)
  }

  lemma PlainIsTrimmed(name: string)
    requires PlainName(name)
    ensures Trimmed(name) && Free(name, ", }\"]") && Free(name, "\"") && Free(name, "\" ,}\r\n\t")
  {
  }

  /** A bare NAME is read as NAME exactly when it is trimmed, holds no `cmd=` and does not read as a `"cmd"` key
      followed by a colon and a value. */
  lemma BareFormExactly(name: string)
    ensures ParseWebCommandName(name) == name <==>
            Trimmed(name) && (forall j :: !At(name, "cmd=", j)) && QuotedName(name).None?
  {
    hide Find, FindFirstOf, QuotedName, Trim;
    FindIsLeast(name, "cmd=", 0);
    var keyPos := Find(name, "cmd=", 0);
    if keyPos.Some? {
      var candidate := name[keyPos.value + 4..];
      TrimNeverGrows(UpTo(candidate, FindFirstOf(candidate, ", }\"]", 0)));
      assert At(name, "cmd=", keyPos.value);
    } else if QuotedName(name).Some? {
      QuotedNameIsShorter(name);
      TrimNeverGrows(QuotedName(name).value);
    } else {
      TrimNeverGrows(name);
      if Trimmed(name) {
        TrimOfTrimmed(name);
      }
    }
  }

  lemma QuotedNameIsShorter(raw: string)
    ensures QuotedName(raw).Some? ==> |QuotedName(raw).value| < |raw|
  {
    hide Find, FindFirstOf, FindFirstNotOf;
  }

  lemma NoQuotedKey(name: string)
    requires Free(name, "\"")
    ensures QuotedName(name).None?
  {
    forall j
      ensures !At(name, "\"cmd\"", j)
    {
      if 0 <= j { AtHead(name, "\"cmd\"", j); }
    }
    FindNowhere(name, "\"cmd\"", 0);
  }

  const OPENING := "{\"cmd\":\""

  /** No `cmd=` can straddle the quotes around the name. */
  lemma AssignmentInside(name: string, j: int)
    ensures At(OPENING + name + "\"}", "cmd=", j) <==> At(name, "cmd=", j - 8)
  {
    var raw := OPENING + name + "\"}";
    if 0 <= j && j + 4 <= |raw| {
      var t := raw[j..j + 4];
      assert t[3] == raw[j + 3] && t[2] == raw[j + 2] && t[1] == raw[j + 1] && t[0] == raw[j];
      if 8 <= j && j + 4 <= 8 + |name| {
        assert t == name[j - 8..j - 4];
      } else if j < 8 {
        assert j + 3 < 8 ==> raw[j + 3] == OPENING[j + 3];
        assert j + 3 >= 8 ==> raw[7] == '\"';
      } else {
        assert raw[8 + |name|] == '\"' && j <= 8 + |name| <= j + 3;
      }
    }
  }

  /** Where the searches of the quoted branch find its key, and then where they find the name. */
  lemma JsonKey(rest: string)
    ensures Find(OPENING + rest, "\"cmd\"", 0) == Some(1) && Find(OPENING + rest, ":", 1) == Some(6)
  {
    var raw := OPENING + rest;
    assert raw[0] == '{' && raw[1..6] == "\"cmd\"" && raw[6..7] == ":";
    AtHead(raw, "\"cmd\"", 0);
    FindAt(raw, "\"cmd\"", 0, 1);
    assert raw[1] == '\"' && raw[2] == 'c' && raw[3] == 'm' && raw[4] == 'd' && raw[5] == '\"';
    forall i | 1 <= i < 6
      ensures !At(raw, ":", i)
    {
      AtHead(raw, ":", i);
    }
    FindAt(raw, ":", 1, 6);
  }

  /** What ends a name in the quoted form; blanks and quotes among them. */
  const SEPARATORS := "\" ,}\r\n\t"

  lemma JsonPositions(name: string)
    requires Free(name, SEPARATORS)
    ensures var raw, start := OPENING + (name + "\"}"), if name == "" then 9 else 8;
            && FindFirstNotOf(raw, " \t\r\n\"", 7) == Some(start)
            && FindFirstOf(raw, SEPARATORS, start) == Some(start + |name|)
  {
    var raw := OPENING + (name + "\"}");
    assert raw[7] == '\"';
    assert forall i | 0 <= i < |name| :: raw[8 + i] == name[i];
    assert raw[8 + |name|] == '\"' && raw[9 + |name|] == '}';
    if name == "" {
      FirstNotOfAt(raw, " \t\r\n\"", 7, 9);
      FirstOfAt(raw, SEPARATORS, 9, 9);
    } else {
      assert raw[8] == name[0];
      FirstNotOfAt(raw, " \t\r\n\"", 7, 8);
      FirstOfAt(raw, SEPARATORS, 8, 8 + |name|);
    }
  }

  lemma JsonQuotedName(name: string)
    requires Free(name, SEPARATORS)
    ensures QuotedName(OPENING + name + "\"}") == Some(name)
  {
    hide Find, FindFirstOf, FindFirstNotOf;
    var raw := OPENING + name + "\"}";
    assert raw == OPENING + (name + "\"}");
    JsonKey(name + "\"}");
    JsonPositions(name);
    var start := if name == "" then 9 else 8;
    assert raw[start..start + |name|] == name;
  }

  /** The quoted branch never returns a separator. */
  lemma QuotedNameIsFree(raw: string)
    ensures QuotedName(raw).Some? ==> Free(QuotedName(raw).value, SEPARATORS)
  {
    hide Find, FindFirstOf, FindFirstNotOf;
    var quoteKey := Find(raw, "\"cmd\"", 0);
    if quoteKey.Some? {
      var colon := Find(raw, ":", quoteKey.value);
      if colon.Some? {
        var start := FindFirstNotOf(raw, " \t\r\n\"", colon.value + 1);
        if start.Some? {
          FirstOfIsLeast(raw, SEPARATORS, start.value);
        }
      }
    }
  }

  lemma TrimIsFree(s: string, chars: string)
    requires Free(s, chars)
    ensures Free(Trim(s), chars)
  {
    var before, after := TrimSplits(s);
    assert forall i | 0 <= i < |Trim(s)| :: Trim(s)[i] == s[|before| + i];
  }

  lemma FreeIsTrimmed(name: string)
    requires Free(name, SEPARATORS)
    ensures Trimmed(name)
  {
  }

  /** A name that holds `cmd=` is cut short in the quoted form. */
  lemma JsonAssignment(name: string, j: int)
    requires At(name, "cmd=", j)
    ensures |ParseWebCommandName(OPENING + name + "\"}")| < |name|
  {
    hide Find, FindFirstOf, Trim;
    var raw := OPENING + name + "\"}";
    AssignmentInside(name, j + 8);
    FindIsLeast(raw, "cmd=", 0);
    var k := Find(raw, "cmd=", 0).value;
    AssignmentInside(name, k);
    var candidate := raw[k + 4..];
    var q := |name| + 8 - (k + 4);
    assert candidate[q] == '\"';
    FirstOfIsLeast(candidate, ", }\"]", 0);
    TrimNeverGrows(UpTo(candidate, FindFirstOf(candidate, ", }\"]", 0)));
  }

  /** `{"cmd":"NAME"}` is read as NAME exactly when NAME holds no `cmd=` and no separator of that form. */
  lemma JsonFormExactly(name: string)
    ensures ParseWebCommandName(OPENING + name + "\"}") == name <==>
            Free(name, SEPARATORS) && forall j :: !At(name, "cmd=", j)
  {
    hide Find, Trim, QuotedName, Free;
    var raw := OPENING + name + "\"}";
    if j :| At(name, "cmd=", j) {
      JsonAssignment(name, j);
    } else {
      forall j
        ensures !At(raw, "cmd=", j)
      {
        AssignmentInside(name, j);
      }
      FindNowhere(raw, "cmd=", 0);
      if Free(name, SEPARATORS) {
        JsonQuotedName(name);
        FreeIsTrimmed(name);
        TrimOfTrimmed(name);
      } else {
        JsonNames(name);
        QuotedNameIsFree(raw);
        TrimIsFree(QuotedName(raw).value, SEPARATORS);
      }
    }
  }

  lemma JsonNames(name: string)
    ensures QuotedName(OPENING + name + "\"}").Some?
  {
    hide Find, FindFirstOf, FindFirstNotOf;
    var raw := OPENING + name + "\"}";
    assert raw == OPENING + (name + "\"}") && raw[|raw| - 1] == '}';
    JsonKey(name + "\"}");
    FirstNotOfIsLeast(raw, " \t\r\n\"", 7);
  }

  /** The two texts cause the same step of the cockpit. */
  ghost predicate SameStep(s: Cockpit.State, raw: string, other: string) {
    Cockpit.Step(s, Cockpit.Command("web", ParseWebCommandName(raw)))
    == Cockpit.Step(s, Cockpit.Command("web", ParseWebCommandName(other)))
  }

  /** Exactly the plain names are carried by all three forms; for them the forms cause the same step of the
      cockpit. */
  lemma FormsAgree(s: Cockpit.State, name: string)
    ensures PlainName(name) <==>
            && ParseWebCommandName("cmd=" + name) == name
            && ParseWebCommandName(OPENING + name + "\"}") == name
            && ParseWebCommandName(name) == name
    ensures PlainName(name) ==>
              && SameStep(s, "cmd=" + name, name)
              && SameStep(s, OPENING + name + "\"}", name)
  {
    hide ParseWebCommandName, Cockpit.Step;
    AssignmentFormExactly(name);
    JsonFormExactly(name);
    BareFormExactly(name);
    if PlainName(name) {
      PlainIsTrimmed(name);
      NoQuotedKey(name);
    }
  }

  // ----- what is read from any other text -----

  /** The text up to the first of the characters. */
  ghost predicate StopsAt(name: string, rest: string, chars: string) {
    Free(name, chars) && (rest == "" || rest[0] in chars)
  }

  lemma FirstStopHere(name: string, rest: string, chars: string)
    requires StopsAt(name, rest, chars)
    ensures FindFirstOf(name + rest, chars, 0) == if rest == "" then None else Some(|name|)
  {
    var raw := name + rest;
    if rest == "" {
      assert raw == name;
      FirstOfIsLeast(raw, chars, 0);
    } else {
      assert raw[|name|] == rest[0];
      FirstOfAt(raw, chars, 0, |name|);
    }
  }

  lemma ShiftFirst(before: string, tail: string, chars: string)
    ensures FindFirstOf(before + tail, chars, |before|) ==
            match FindFirstOf(tail, chars, 0) case None => None case Some(p) => Some(|before| + p)
  {
    hide FindFirstOf;
    FindFirstOfShift(before, tail, chars, 0);
    assert |before| + 0 == |before|;
  }

  /** With `cmd=` anywhere, the name is what follows its first occurrence, up to a separator, trimmed. */
  lemma AssignmentAnywhere(before: string, name: string, rest: string)
    requires StopsAt(name, rest, ", }\"]")
    requires forall j | 0 <= j < |before| :: !At(before + "cmd=" + (name + rest), "cmd=", j)
    ensures ParseWebCommandName(before + "cmd=" + (name + rest)) == Trim(name)
  {
    hide Find, FindFirstOf, Trim, Free;
    var raw := before + "cmd=" + (name + rest);
    var k := |before|;
    assert raw[k..k + 4] == "cmd=" && raw[k + 4..] == name + rest;
    FindAt(raw, "cmd=", 0, k);
    FirstStopHere(name, rest, ", }\"]");
    assert (name + rest)[..|name|] == name;
    assert rest == "" ==> name + rest == name;
  }

  /** Where a `"cmd"` key with a colon and a value stands in a text: the key, anything but a colon, the colon,
      blanks and quotes, and the name up to a separator. */
  ghost predicate KeyedText(before: string, gap: string, skip: string, name: string, rest: string) {
    var raw := before + "\"cmd\"" + gap + ":" + skip + (name + rest);
    && (forall j | 0 <= j < |before| :: !At(raw, "\"cmd\"", j))
    && (forall j :: !At(raw, "cmd=", j))
    && Free(gap, ":")
    && (forall i | 0 <= i < |skip| :: skip[i] in " \t\r\n\"")
    && name + rest != "" && (name + rest)[0] !in " \t\r\n\""
    && StopsAt(name, rest, SEPARATORS)
  }

  lemma ColonHere(middle: string, tail: string)
    requires Free(middle, ":")
    ensures Find(middle + (":" + tail), ":", 0) == Some(|middle|)
  {
    hide Find;
    var raw, c := middle + (":" + tail), |middle|;
    assert raw[c..c + 1] == ":";
    forall j | 0 <= j < c
      ensures !At(raw, ":", j)
    {
      assert raw[j] == middle[j];
      AtHead(raw, ":", j);
    }
    FindAt(raw, ":", 0, c);
  }

  lemma ShiftFind(before: string, tail: string, token: string)
    ensures Find(before + tail, token, |before|) ==
            match Find(tail, token, 0) case None => None case Some(p) => Some(|before| + p)
  {
    hide Find;
    FindShift(before, tail, token, 0);
    assert |before| + 0 == |before|;
  }

  lemma Regroup(a: string, b: string, c: string, d: string, e: string)
    ensures a + b + c + d + e == a + (b + (c + (d + e)))
    ensures b + (c + (d + e)) == (b + c) + (d + e)
  {
  }

  lemma FreeBoth(a: string, b: string, chars: string)
    requires Free(a, chars) && Free(b, chars)
    ensures Free(a + b, chars)
  {
  }

  lemma KeyThere(before: string, key: string, rest: string)
    requires forall j | 0 <= j < |before| :: !At(before + (key + rest), key, j)
    ensures Find(before + (key + rest), key, 0) == Some(|before|)
  {
    hide Find;
    FindAt(before + (key + rest), key, 0, |before|);
  }

  lemma ColonThere(key: string, gap: string, tail: string)
    requires Free(key, ":") && Free(gap, ":")
    ensures Find(key + (gap + (":" + tail)), ":", 0) == Some(|key| + |gap|)
  {
    hide Find, Free;
    FreeBoth(key, gap, ":");
    ColonHere(key + gap, tail);
    Regroup("", key, gap, ":", tail);
  }

  /** The positions of the key and of the colon after it. */
  lemma KeyAndColon(before: string, key: string, gap: string, tail: string)
    requires Free(key, ":") && Free(gap, ":")
    requires forall j | 0 <= j < |before| :: !At(before + (key + (gap + (":" + tail))), key, j)
    ensures var raw := before + (key + (gap + (":" + tail)));
            Find(raw, key, 0) == Some(|before|) && Find(raw, ":", |before|) == Some(|before| + (|key| + |gap|))
  {
    hide Find, Free, At;
    KeyThere(before, key, gap + (":" + tail));
    ColonThere(key, gap, tail);
    ShiftFind(before, key + (gap + (":" + tail)), ":");
  }

  lemma SkipsTo(head: string, skip: string, tail: string)
    requires (forall i | 0 <= i < |skip| :: skip[i] in " \t\r\n\"") && tail != "" && tail[0] !in " \t\r\n\""
    ensures FindFirstNotOf(head + skip + tail, " \t\r\n\"", |head|) == Some(|head| + |skip|)
  {
    hide FindFirstNotOf;
    var raw, k := head + skip + tail, |head| + |skip|;
    forall i | |head| <= i < k
      ensures raw[i] in " \t\r\n\""
    {
      assert raw[i] == skip[i - |head|];
    }
    assert raw[k] == tail[0];
    FirstNotOfAt(raw, " \t\r\n\"", |head|, k);
  }

  /** The searches of the quoted branch on such a text. */
  lemma KeyedPositions(before: string, gap: string, skip: string, name: string, rest: string)
    requires KeyedText(before, gap, skip, name, rest)
    ensures var raw := before + "\"cmd\"" + gap + ":" + skip + (name + rest);
            var colon := |before| + 5 + |gap|;
            var start := colon + 1 + |skip|;
            && Find(raw, "\"cmd\"", 0) == Some(|before|) && Find(raw, ":", |before|) == Some(colon)
            && FindFirstNotOf(raw, " \t\r\n\"", colon + 1) == Some(start)
            && FindFirstOf(raw, SEPARATORS, start) == (if rest == "" then None else Some(start + |name|))
            && |raw| == start + |name| + |rest| && raw[start..start + |name|] == name
  {
    hide Find, FindFirstOf, FindFirstNotOf, At, StopsAt;
    var key, tail := "\"cmd\"", skip + (name + rest);
    var head := before + key + gap + ":";
    Regroup(before, key, gap, ":", tail);
    assert head + tail == head + skip + (name + rest);
    KeyAndColon(before, key, gap, tail);
    SkipsTo(head, skip, name + rest);
    FirstStopHere(name, rest, SEPARATORS);
    ShiftFirst(head + skip, name + rest, SEPARATORS);
  }

  /** Without `cmd=`, a quoted key is read with any spacing: the name is what follows its colon, past blanks
      and quotes, up to a separator. */
  lemma KeyAnywhere(before: string, gap: string, skip: string, name: string, rest: string)
    requires KeyedText(before, gap, skip, name, rest)
    ensures ParseWebCommandName(before + "\"cmd\"" + gap + ":" + skip + (name + rest)) == name
  {
    hide Find, FindFirstOf, FindFirstNotOf, Trim, At;
    var raw := before + "\"cmd\"" + gap + ":" + skip + (name + rest);
    KeyedPositions(before, gap, skip, name, rest);
    FindNowhere(raw, "cmd=", 0);
    FreeIsTrimmed(name);
    TrimOfTrimmed(name);
  }

  /** The key is the first `"cmd"` of the text. */
  ghost predicate FirstKey(raw: string, k: nat) {
    At(raw, "\"cmd\"", k) && forall j | 0 <= j < k :: !At(raw, "\"cmd\"", j)
  }

  /** The colon is the first at or after the position. */
  ghost predicate FirstColon(raw: string, k: nat, c: nat) {
    k <= c && At(raw, ":", c) && forall j | k <= j < c :: !At(raw, ":", j)
  }

  lemma NoKey(raw: string)
    requires forall j :: !At(raw, "\"cmd\"", j)
    ensures QuotedName(raw).None?
  {
    hide Find;
    FindNowhere(raw, "\"cmd\"", 0);
  }

  lemma NoColon(raw: string, k: nat)
    requires FirstKey(raw, k) && forall j | k <= j :: !At(raw, ":", j)
    ensures QuotedName(raw).None?
  {
    hide Find;
    FindAt(raw, "\"cmd\"", 0, k);
    FindNowhere(raw, ":", k);
  }

  lemma NoValue(raw: string, k: nat, c: nat)
    requires FirstKey(raw, k) && FirstColon(raw, k, c) && forall i | c < i < |raw| :: raw[i] in " \t\r\n\""
    ensures QuotedName(raw).None?
  {
    hide Find, FindFirstNotOf;
    FindAt(raw, "\"cmd\"", 0, k);
    FindAt(raw, ":", k, c);
    NoneNotOf(raw, " \t\r\n\"", c + 1);
  }

  /** Any other text is its own name, trimmed: one without `cmd=` and without a quoted key, or with no colon
      after the key, or nothing but blanks and quotes after the colon. */
  lemma OtherwiseTrimmed(raw: string)
    requires forall j :: !At(raw, "cmd=", j)
    requires || (forall j :: !At(raw, "\"cmd\"", j))
             || (exists k: nat :: FirstKey(raw, k) && forall j | k <= j :: !At(raw, ":", j))
             || (exists k: nat, c: nat ::
                   FirstKey(raw, k) && FirstColon(raw, k, c) && forall i | c < i < |raw| :: raw[i] in " \t\r\n\"")
    ensures ParseWebCommandName(raw) == Trim(raw)
  {
    hide Find, QuotedName, Trim, FirstKey, FirstColon;
    FindNowhere(raw, "cmd=", 0);
    if forall j :: !At(raw, "\"cmd\"", j) {
      NoKey(raw);
    } else if k: nat :| FirstKey(raw, k) && forall j | k <= j :: !At(raw, ":", j) {
      NoColon(raw, k);
    } else {
      var k: nat, c: nat :|
        FirstKey(raw, k) && FirstColon(raw, k, c) && forall i | c < i < |raw| :: raw[i] in " \t\r\n\"";
      NoValue(raw, k, c);
    }
  }

  /** handle_ws_message: the parsed name is applied as a web command and the command counter advances. */
  method HandleWsMessage(runtime: Cockpit.RuntimeState, raw: string, counter: int) returns (accepted: bool, next: int)
    modifies runtime
    ensures runtime.View() == Cockpit.Step(old(runtime.View()), Cockpit.Command("web", ParseWebCommandName(raw)))
    ensures accepted == Cockpit.Accepts(old(runtime.View()), ParseWebCommandName(raw))
    ensures next == counter + 1
  {
    var name := ParseWebCommandName(raw);
    next := counter + 1;
    accepted := runtime.ApplyCommand("web", name);
  }
}
