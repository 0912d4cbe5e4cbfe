/** The two text searches of the signalling parser, and what they find in an arbitrary text.

    The parser never tokenises: it looks for `"key":"` or `"key":` anywhere. Cutting a text at its
    double quotes gives pieces; QuotedSearchIsScan and IntSearchIsScan say, for every text, which
    pieces the searches look at. */
module SignalSearch {
  import opened Wrappers
  import opened Text
  import opened Decimal

  const QUOTE := "\""

  function FindQuotedValue(data: string, key: string): Option<string> {
    var token := QUOTE + key + "\":\"";
    match Find(data, token, 0)
    case None => None
    case Some(pos) =>
      var start := pos + |token|;
      match Find(data, QUOTE, start)
      case None => None
      case Some(end) => Some(data[start..end])
  }

  /** The text findIntValue hands to std::stoi. */
  function FindIntText(data: string, key: string): Option<string> {
    var token := QUOTE + key + "\":";
    match Find(data, token, 0)
    case None => None
    case Some(pos) =>
      var start := pos + |token|;
      match FindFirstOf(data, ",}", start)
      case None => None
      case Some(end) => Some(data[start..end])
  }

  function FindIntValue(data: string, key: string): Option<int32> {
    match FindIntText(data, key)
    case None => None
    case Some(number) => Stoi(number)
  }

  ghost predicate QuoteFree(s: string) {
    forall i | 0 <= i < |s| :: s[i] != '\"'
  }

  ghost predicate Pieces(ps: seq<string>) {
    ps != [] && forall i | 0 <= i < |ps| :: QuoteFree(ps[i])
  }

  function Join(ps: seq<string>): string
    requires ps != []
  {
    if |ps| == 1 then ps[0] else ps[0] + QUOTE + Join(ps[1..])
  }

  /** Cuts a text at its double quotes. */
  function Split(s: string): (ps: seq<string>)
    ensures ps != []
  {
    if s == [] then [""]
    else
      var ps := Split(s[1..]);
      if s[0] == '\"' then [""] + ps else [[s[0]] + ps[0]] + ps[1..]
  }

  /** Every text is its quote-free pieces joined by quotes, so the two results below cover all texts. */
  lemma {:induction false} SplitJoins(s: string)
    ensures Pieces(Split(s)) && Join(Split(s)) == s
  {
    if s != [] {
      SplitJoins(s[1..]);
      var ps := Split(s[1..]);
      if s[0] == '\"' {
        assert ([""] + ps)[1..] == ps;
      } else {
        assert ([[s[0]] + ps[0]] + ps[1..])[1..] == ps[1..];
        assert ps[0] in ps;
      }
    }
  }

  /** The piece after the first `key`, `:` pair, the last piece of the text excepted. */
  function QuotedScan(ps: seq<string>, key: string): Option<string> {
    if |ps| < 4 then None
    else if ps[1] == key && ps[2] == ":" then if |ps| > 4 then Some(ps[3]) else None
    else QuotedScan(ps[1..], key)
  }

  /** The text before the first comma or closing brace. */
  function NumberText(s: string): Option<string> {
    match FindFirstOf(s, ",}", 0)
    case None => None
    case Some(end) => Some(s[..end])
  }

  function IntAt(s: string): Option<int32> {
    match NumberText(s)
    case None => None
    case Some(number) => Stoi(number)
  }

  /** The text after the first `key` piece that is followed by a colon, and after that colon. */
  function TextAfterKey(ps: seq<string>, key: string): Option<string> {
    if |ps| < 3 then None
    else if ps[1] == key && ":" <= ps[2] then Some(Join(ps[2..])[1..])
    else TextAfterKey(ps[1..], key)
  }

  function IntScan(ps: seq<string>, key: string): Option<int32> {
    match TextAfterKey(ps, key)
    case None => None
    case Some(rest) => IntAt(rest)
  }

  function UpToQuote(s: string): Option<string> {
    match Find(s, QUOTE, 0)
    case None => None
    case Some(end) => Some(s[..end])
  }

  lemma QuotedCut(a: string, s: string)
    ensures UpToQuote(s) ==
            match Find(a + s, QUOTE, |a|) case None => None case Some(end) => Some((a + s)[|a|..end])
  {
    hide Find;
    FindShift(a, s, QUOTE, 0);
    assert |a| + 0 == |a|;
    var end := Find(s, QUOTE, 0);
    if end.Some? { CutShift(a, s, end.value); }
  }

  lemma NumberCut(a: string, s: string)
    ensures NumberText(s) ==
            match FindFirstOf(a + s, ",}", |a|) case None => None case Some(end) => Some((a + s)[|a|..end])
  {
    hide FindFirstOf;
    FindFirstOfShift(a, s, ",}", 0);
    var end := FindFirstOf(s, ",}", 0);
    if end.Some? { CutShift(a, s, end.value); }
  }

  lemma QuotedValueIsAfter(data: string, key: string)
    ensures FindQuotedValue(data, key) ==
            match After(data, QUOTE + key + "\":\"") case None => None case Some(rest) => UpToQuote(rest)
  {
    var token := QUOTE + key + "\":\"";
    var p := Find(data, token, 0);
    if p.Some? {
      var start := p.value + |token|;
      assert data[..start] + data[start..] == data;
      QuotedCut(data[..start], data[start..]);
    }
  }

  lemma IntTextIsAfter(data: string, key: string)
    ensures FindIntText(data, key) ==
            match After(data, QUOTE + key + "\":") case None => None case Some(rest) => NumberText(rest)
  {
    var token := QUOTE + key + "\":";
    var p := Find(data, token, 0);
    if p.Some? {
      var start := p.value + |token|;
      assert data[..start] + data[start..] == data;
      NumberCut(data[..start], data[start..]);
    }
  }

  /** No token that opens with a quote starts inside quote-free text. */
  lemma NoTokenInside(a: string, s: string, token: string)
    requires QuoteFree(a) && token != [] && token[0] == '\"'
    ensures forall i | 0 <= i < |a| :: !At(a + s, token, i)
  {
    forall i | 0 <= i < |a|
      ensures !At(a + s, token, i)
    {
      AtHead(a + s, token, i);
    }
  }

  lemma FirstQuoteMeets(word: string, tail: string, first: string, rest: string)
    requires QuoteFree(word) && QuoteFree(first)
    ensures word + QUOTE + tail <= first + QUOTE + rest <==> word == first && tail <= rest
  {
    var t, s := word + QUOTE + tail, first + QUOTE + rest;
    assert t[|word|] == s[|first|] == '\"';
    if |word| < |first| {
      assert s[|word|] == first[|word|];
    } else if |first| < |word| {
      assert t[|first|] == word[|first|];
    } else {
      PrefixSplit(word + QUOTE, tail, first + QUOTE, rest);
      PrefixSplit(word, QUOTE, first, QUOTE);
    }
  }

  /** A quote-free word and a quote stand at the head of joined pieces only as the whole first piece. */
  lemma HeadPiece(word: string, tail: string, ps: seq<string>)
    requires QuoteFree(word) && Pieces(ps)
    ensures word + QUOTE + tail <= Join(ps) <==> |ps| > 1 && ps[0] == word && tail <= Join(ps[1..])
  {
    assert QuoteFree(ps[0]);
    if |ps| == 1 {
      assert (word + QUOTE + tail)[|word|] == '\"';
    } else {
      FirstQuoteMeets(word, tail, ps[0], Join(ps[1..]));
    }
  }

  lemma AfterQuote(rest: string, body: string)
    ensures After(QUOTE + rest, QUOTE + body) ==
            if body <= rest then Some(rest[|body|..]) else After(rest, QUOTE + body)
  {
    var s, token := QUOTE + rest, QUOTE + body;
    PrefixSplit(QUOTE, body, QUOTE, rest);
    assert At(s, token, 0) <==> token <= s;
    if body <= rest {
      assert s[|token|..] == rest[|body|..];
    } else {
      AfterSkip(QUOTE, rest, token);
    }
  }

  lemma AfterQuoteFree(first: string, body: string)
    requires QuoteFree(first)
    ensures After(first, QUOTE + body) == None
  {
    NoTokenInside(first, "", QUOTE + body);
    AfterSkip(first, "", QUOTE + body);
    assert first + "" == first;
  }

  lemma AfterPastQuoteFree(first: string, s: string, body: string)
    requires QuoteFree(first)
    ensures After(first + s, QUOTE + body) == After(s, QUOTE + body)
  {
    NoTokenInside(first, s, QUOTE + body);
    AfterSkip(first, s, QUOTE + body);
  }

  /** A token that opens with a quote occurs first at the first quote, or after it. */
  lemma AfterFirstPiece(ps: seq<string>, body: string)
    requires Pieces(ps)
    ensures |ps| == 1 ==> After(Join(ps), QUOTE + body) == None
    ensures |ps| > 1 && body <= Join(ps[1..]) ==> After(Join(ps), QUOTE + body) == Some(Join(ps[1..])[|body|..])
    ensures |ps| > 1 && !(body <= Join(ps[1..])) ==> After(Join(ps), QUOTE + body) == After(Join(ps[1..]), QUOTE + body)
  {
    if |ps| == 1 {
      AfterQuoteFree(ps[0], body);
    } else {
      var rest := Join(ps[1..]);
      AfterPastQuoteFree(ps[0], QUOTE + rest, body);
      AfterQuote(rest, body);
      assert ps[0] + QUOTE + rest == ps[0] + (QUOTE + rest);
    }
  }

  lemma QuoteEnds(first: string, rest: string)
    requires QuoteFree(first)
    ensures UpToQuote(first + QUOTE + rest) == Some(first)
  {
    var s := first + QUOTE + rest;
    assert s == first + (QUOTE + rest);
    NoTokenInside(first, QUOTE + rest, QUOTE);
    FindSkip(s, QUOTE, 0, |first|);
    assert s[|first|..|first| + 1] == QUOTE;
  }

  lemma NoQuoteEnds(first: string)
    requires QuoteFree(first)
    ensures UpToQuote(first) == None
  {
    assert first + "" == first;
    NoTokenInside(first, "", QUOTE);
    FindSkip(first, QUOTE, 0, |first|);
  }

  lemma UpToQuoteOfJoin(ps: seq<string>)
    requires Pieces(ps)
    ensures UpToQuote(Join(ps)) == if |ps| > 1 then Some(ps[0]) else None
  {
    if |ps| == 1 {
      NoQuoteEnds(ps[0]);
    } else {
      QuoteEnds(ps[0], Join(ps[1..]));
    }
  }

  /** The quoted-value search, on every text: the value is the piece after the first piece that is
      exactly the key and is followed by exactly a colon. */
  lemma {:induction false} QuotedSearchIsScan(ps: seq<string>, key: string)
    requires Pieces(ps) && QuoteFree(key)
    ensures FindQuotedValue(Join(ps), key) == QuotedScan(ps, key)
    decreases |ps|
  {
    var body := key + "\":\"";
    QuotedValueIsAfter(Join(ps), key);
    assert QUOTE + key + "\":\"" == QUOTE + body;
    AfterFirstPiece(ps, body);
    if |ps| > 1 {
      assert body == key + QUOTE + ":\"";
      HeadPiece(key, ":\"", ps[1..]);
      if |ps| > 2 {
        assert ps[1..][1..] == ps[2..];
        assert ":\"" == ":" + QUOTE + "";
        HeadPiece(":", "", ps[2..]);
      }
      if body <= Join(ps[1..]) {
        assert ps[2..][1..] == ps[3..];
        assert Join(ps[1..])[|body|..] == Join(ps[3..]);
        UpToQuoteOfJoin(ps[3..]);
      } else {
        QuotedSearchIsScan(ps[1..], key);
        QuotedValueIsAfter(Join(ps[1..]), key);
      }
    }
  }

  lemma {:induction false} AfterKeyToken(ps: seq<string>, key: string)
    requires Pieces(ps) && QuoteFree(key)
    ensures After(Join(ps), QUOTE + key + "\":") == TextAfterKey(ps, key)
    decreases |ps|
  {
    var body := key + "\":";
    assert QUOTE + key + "\":" == QUOTE + body;
    AfterFirstPiece(ps, body);
    if |ps| > 1 {
      assert body == key + QUOTE + ":";
      HeadPiece(key, ":", ps[1..]);
      if |ps| > 2 {
        assert ps[1..][1..] == ps[2..];
        ColonLeads(ps[2..]);
      }
      if body <= Join(ps[1..]) {
        assert Join(ps[1..])[|body|..] == Join(ps[2..])[1..];
      } else {
        AfterKeyToken(ps[1..], key);
      }
    }
  }

  lemma ColonLeads(ps: seq<string>)
    requires ps != []
    ensures ":" <= Join(ps) <==> ":" <= ps[0]
  {
    if ps[0] == "" && |ps| > 1 {
      assert Join(ps)[0] == '\"';
    }
  }

  /** The integer search, on every text: the integer stands after the first piece that is exactly the
      key and is followed by a piece starting with a colon. */
  lemma IntSearchIsScan(ps: seq<string>, key: string)
    requires Pieces(ps) && QuoteFree(key)
    ensures FindIntValue(Join(ps), key) == IntScan(ps, key)
  {
    IntTextIsAfter(Join(ps), key);
    AfterKeyToken(ps, key);
  }
}
