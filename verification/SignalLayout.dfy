/** Rendered field lists, nested to any depth, and what the parser's searches find in them. */
module SignalLayout {
  import opened Wrappers
  import opened Text
  import opened Decimal
  import opened SignalSearch

  datatype Field =
    | Quoted(key: string, text: string)
    | Number(key: string, number: int)
    | Object(key: string, fields: seq<Field>)

  function RenderField(f: Field): string
    decreases f, 1
  {
    match f
    case Quoted(key, text) => "\"" + key + "\":\"" + text + "\""
    case Number(key, number) => "\"" + key + "\":" + ToString(number)
    case Object(key, fields) => "\"" + key + "\":{" + RenderFields(fields) + "}"
  }

  function RenderFields(fs: seq<Field>): string
    decreases fs, 0
  {
    if fs == [] then ""
    else if |fs| == 1 then RenderField(fs[0])
    else RenderField(fs[0]) + "," + RenderFields(fs[1..])
  }

  function Render(fs: seq<Field>): string {
    "{" + RenderFields(fs) + "}"
  }

  /** Every field in text order, an object before its own fields. */
  function Entries(fs: seq<Field>): seq<Field>
    decreases fs, 0
  {
    if fs == [] then [] else FieldEntries(fs[0]) + Entries(fs[1..])
  }

  function FieldEntries(f: Field): seq<Field>
    decreases f, 1
  {
    [f] + if f.Object? then Entries(f.fields) else []
  }

  ghost predicate QuoteFreeEntries(es: seq<Field>) {
    forall f | f in es :: QuoteFree(f.key) && (f.Quoted? ==> QuoteFree(f.text))
  }

  /** Keys and texts carry no double quote; this is all the parser needs of a text. */
  ghost predicate Printable(fs: seq<Field>) {
    QuoteFreeEntries(Entries(fs))
  }

  /** A key the parser may search for: quote-free, and without the punctuation between fields. */
  ghost predicate SearchKey(key: string) {
    QuoteFree(key) && forall i | 0 <= i < |key| :: key[i] != ':' && key[i] != ',' && key[i] != '}'
  }

  function FirstQuoted(es: seq<Field>, key: string): Option<string> {
    if es == [] then None
    else if es[0].Quoted? && es[0].key == key then Some(es[0].text)
    else FirstQuoted(es[1..], key)
  }

  /** The first field with the key decides, whatever it holds; only a number that fits an int is found. */
  function FirstInt(es: seq<Field>, key: string): Option<int32> {
    if es == [] then None
    else if es[0].key == key then
      if es[0].Number? && INT_MIN <= es[0].number <= INT_MAX then Some(es[0].number) else None
    else FirstInt(es[1..], key)
  }

  // ----- a rendered text, cut at its quotes -----

  function Lead(s: string, ps: seq<string>): seq<string>
    requires ps != []
  {
    [s + ps[0]] + ps[1..]
  }

  /** The pieces of a rendered field, followed by `ps`. */
  function FieldPieces(f: Field, ps: seq<string>): (r: seq<string>)
    requires ps != []
    ensures |r| > 1
    decreases f, 1
  {
    match f
    case Quoted(key, text) => ["", key, ":", text] + ps
    case Number(key, number) => ["", key] + Lead(":" + ToString(number), ps)
    case Object(key, fields) => ["", key] + Lead(":{", ListPieces(fields, Lead("}", ps)))
  }

  function ListPieces(fs: seq<Field>, ps: seq<string>): (r: seq<string>)
    requires ps != []
    ensures r != []
    decreases fs, 0
  {
    if fs == [] then ps
    else if |fs| == 1 then FieldPieces(fs[0], ps)
    else FieldPieces(fs[0], Lead(",", ListPieces(fs[1..], ps)))
  }

  lemma JoinLead(s: string, ps: seq<string>)
    requires ps != []
    ensures Join(Lead(s, ps)) == s + Join(ps)
  {
    assert Lead(s, ps)[1..] == ps[1..];
  }

  lemma JoinTwo(a: string, b: string, ps: seq<string>)
    requires ps != []
    ensures Join([a, b] + ps) == a + QUOTE + (b + QUOTE + Join(ps))
  {
    assert ([a, b] + ps)[1..] == [b] + ps;
    assert ([b] + ps)[1..] == ps;
  }

  lemma JoinQuoted(key: string, text: string, ps: seq<string>)
    requires ps != []
    ensures Join(["", key, ":", text] + ps) == "\"" + key + "\":\"" + text + "\"" + Join(ps)
  {
    JoinTwo("", key, [":", text] + ps);
    JoinTwo(":", text, ps);
    assert ["", key, ":", text] + ps == ["", key] + ([":", text] + ps);
  }

  lemma JoinKeyed(key: string, rest: string, ps: seq<string>)
    requires ps != []
    ensures Join(["", key] + Lead(":" + rest, ps)) == "\"" + key + "\":" + rest + Join(ps)
  {
    JoinLead(":" + rest, ps);
    JoinTwo("", key, Lead(":" + rest, ps));
    assert "\"" + key + "\":" == "" + QUOTE + key + QUOTE + ":";
  }

  lemma {:induction false} JoinField(f: Field, ps: seq<string>)
    requires ps != []
    ensures Join(FieldPieces(f, ps)) == RenderField(f) + Join(ps)
    decreases f, 1
  {
    match f
    case Quoted(key, text) =>
      JoinQuoted(key, text, ps);
    case Number(key, number) =>
      JoinKeyed(key, ToString(number), ps);
    case Object(key, fields) =>
      JoinLead("}", ps);
      JoinList(fields, Lead("}", ps));
      assert ":" + "{" == ":{";
      JoinKeyed(key, "{", ListPieces(fields, Lead("}", ps)));
      assert "\"" + key + "\":" + "{" == "\"" + key + "\":{";
  }

  lemma {:induction false} JoinList(fs: seq<Field>, ps: seq<string>)
    requires ps != []
    ensures Join(ListPieces(fs, ps)) == RenderFields(fs) + Join(ps)
    decreases fs, 0
  {
    if fs == [] {
      assert "" + Join(ps) == Join(ps);
    } else if |fs| == 1 {
      JoinField(fs[0], ps);
    } else {
      var rest := ListPieces(fs[1..], ps);
      JoinField(fs[0], Lead(",", rest));
      JoinLead(",", rest);
      JoinList(fs[1..], ps);
    }
  }

  lemma JoinRender(fs: seq<Field>)
    ensures Join(Lead("{", ListPieces(fs, ["}"]))) == Render(fs)
  {
    JoinLead("{", ListPieces(fs, ["}"]));
    JoinList(fs, ["}"]);
  }

  lemma EntryOf(fs: seq<Field>)
    requires fs != [] && Printable(fs)
    ensures QuoteFree(fs[0].key) && (fs[0].Quoted? ==> QuoteFree(fs[0].text))
    ensures fs[0].Object? ==> Printable(fs[0].fields)
    ensures Printable(fs[1..])
  {
    var es := FieldEntries(fs[0]);
    assert forall f | f in es || f in Entries(fs[1..]) :: f in Entries(fs);
    assert fs[0] in es;
    assert fs[0].Object? ==> forall f | f in Entries(fs[0].fields) :: f in es;
  }

  lemma NumberIsQuoteFree(n: int)
    ensures QuoteFree(ToString(n)) && forall i | 0 <= i < |ToString(n)| :: ToString(n)[i] !in ",}"
  {
    var s := ToString(n);
    assert forall i | 0 <= i < |s| :: s[i] in s;
  }

  lemma {:induction false} PiecesOfField(f: Field, ps: seq<string>)
    requires Pieces(ps) && QuoteFree(f.key) && (f.Quoted? ==> QuoteFree(f.text))
    requires f.Object? ==> Printable(f.fields)
    ensures Pieces(FieldPieces(f, ps))
    decreases f, 1
  {
    if f.Number? {
      NumberIsQuoteFree(f.number);
    } else if f.Object? {
      PiecesOfList(f.fields, Lead("}", ps));
    }
  }

  lemma {:induction false} PiecesOfList(fs: seq<Field>, ps: seq<string>)
    requires Pieces(ps) && Printable(fs)
    ensures Pieces(ListPieces(fs, ps))
    decreases fs, 0
  {
    if fs != [] {
      EntryOf(fs);
      if |fs| > 1 {
        PiecesOfList(fs[1..], ps);
        PiecesOfField(fs[0], Lead(",", ListPieces(fs[1..], ps)));
      } else {
        PiecesOfField(fs[0], ps);
      }
    }
  }

  // ----- scanning the pieces -----

  /** What stands after a field: a comma or a closing brace. */
  ghost predicate Closed(ps: seq<string>) {
    ps != [] && ps[0] != "" && (ps[0][0] == ',' || ps[0][0] == '}')
  }

  /** The scans ignore the first piece. */
  lemma ScanIgnoresLead(p: string, ps: seq<string>, key: string)
    requires ps != []
    ensures QuotedScan([p] + ps[1..], key) == QuotedScan(ps, key)
    ensures TextAfterKey([p] + ps[1..], key) == TextAfterKey(ps, key)
  {
    var qs := [p] + ps[1..];
    assert qs[1..] == ps[1..];
    if |ps| > 2 { assert qs[2..] == ps[2..]; }
  }

  /** Past two pieces whose second is no key followed by what the search wants. */
  lemma ScanStep(p: string, ps: seq<string>, key: string)
    requires ps != []
    ensures !(|ps| > 2 && ps[0] == key && ps[1] == ":") ==> QuotedScan([p] + ps, key) == QuotedScan(ps, key)
    ensures !(|ps| > 1 && ps[0] == key && ":" <= ps[1]) ==> TextAfterKey([p] + ps, key) == TextAfterKey(ps, key)
  {
    assert ([p] + ps)[1..] == ps;
  }

  lemma {:induction false} FirstQuotedAppend(es: seq<Field>, fs: seq<Field>, key: string)
    ensures FirstQuoted(es + fs, key) ==
            if FirstQuoted(es, key).Some? then FirstQuoted(es, key) else FirstQuoted(fs, key)
  {
    if es == [] {
      assert es + fs == fs;
    } else {
      FirstQuotedAppend(es[1..], fs, key);
      assert (es + fs)[1..] == es[1..] + fs;
    }
  }

  predicate HasKey(es: seq<Field>, key: string) {
    es != [] && (es[0].key == key || HasKey(es[1..], key))
  }

  lemma {:induction false} FirstIntAppend(es: seq<Field>, fs: seq<Field>, key: string)
    ensures HasKey(es + fs, key) <==> HasKey(es, key) || HasKey(fs, key)
    ensures FirstInt(es + fs, key) == if HasKey(es, key) then FirstInt(es, key) else FirstInt(fs, key)
  {
    if es == [] {
      assert es + fs == fs;
    } else {
      FirstIntAppend(es[1..], fs, key);
      assert (es + fs)[1..] == es[1..] + fs;
    }
  }

  lemma ScanSkipsQuoted(k: string, text: string, ps: seq<string>, key: string)
    requires SearchKey(key) && Closed(ps) && k != key
    ensures QuotedScan(["", k, ":", text] + ps, key) == QuotedScan(ps, key)
    ensures TextAfterKey(["", k, ":", text] + ps, key) == TextAfterKey(ps, key)
  {
    assert ["", k, ":", text] + ps == [""] + ([k] + ([":"] + ([text] + ps)));
    assert key != "" ==> key[0] != ':' && key[0] != ps[0][0];
    assert ps[0] != key && ps[0] != ":" && ":" != key && !(":" <= ps[0]);
    ScanStep("", [k] + ([":"] + ([text] + ps)), key);
    ScanStep(k, [":"] + ([text] + ps), key);
    ScanStep(":", [text] + ps, key);
    ScanStep(text, ps, key);
  }

  /** Past a key piece and a piece `:rest` that the search does not want. */
  lemma ScanSkipsOther(k: string, rest: string, ps: seq<string>, key: string)
    requires SearchKey(key) && ps != [] && rest != ""
    ensures QuotedScan(["", k] + Lead(":" + rest, ps), key) == QuotedScan(ps, key)
    ensures k != key ==> TextAfterKey(["", k] + Lead(":" + rest, ps), key) == TextAfterKey(ps, key)
  {
    var qs := Lead(":" + rest, ps);
    assert ["", k] + qs == [""] + ([k] + qs);
    assert key != "" ==> key[0] != qs[0][0];
    assert qs[0] != ":" && qs[0] != key;
    ScanStep("", [k] + qs, key);
    ScanStep(k, qs, key);
    ScanIgnoresLead(qs[0], ps, key);
  }

  lemma {:induction false} ScanField(f: Field, ps: seq<string>, key: string)
    requires SearchKey(key) && Closed(ps)
    ensures QuotedScan(FieldPieces(f, ps), key) ==
            if FirstQuoted(FieldEntries(f), key).Some? then FirstQuoted(FieldEntries(f), key) else QuotedScan(ps, key)
    decreases f, 1
  {
    var es := FieldEntries(f);
    match f
    case Quoted(k, text) =>
      assert es == [f];
      if k != key { ScanSkipsQuoted(k, text, ps, key); }
    case Number(k, number) =>
      assert es == [f];
      ScanSkipsOther(k, ToString(number), ps, key);
    case Object(k, fields) =>
      var inner := Lead("}", ps);
      assert ":" + "{" == ":{";
      ScanSkipsOther(k, "{", ListPieces(fields, inner), key);
      ScanList(fields, inner, key);
      ScanIgnoresLead(inner[0], ps, key);
      assert es[1..] == Entries(fields);
  }

  lemma {:induction false} ScanList(fs: seq<Field>, ps: seq<string>, key: string)
    requires SearchKey(key) && Closed(ps)
    ensures QuotedScan(ListPieces(fs, ps), key) ==
            if FirstQuoted(Entries(fs), key).Some? then FirstQuoted(Entries(fs), key) else QuotedScan(ps, key)
    decreases fs, 0
  {
    if |fs| == 1 {
      assert Entries(fs) == FieldEntries(fs[0]);
      ScanField(fs[0], ps, key);
    } else if |fs| > 1 {
      var rest := ListPieces(fs[1..], ps);
      ScanField(fs[0], Lead(",", rest), key);
      ScanIgnoresLead("," + rest[0], rest, key);
      ScanList(fs[1..], ps, key);
      FirstQuotedAppend(FieldEntries(fs[0]), Entries(fs[1..]), key);
    }
  }

  // ----- what the integer search reads -----

  /** No integer starts with a quote or a brace. */
  lemma NoIntAt(c: char, s: string)
    requires c == '\"' || c == '{'
    ensures IntAt([c] + s) == None
  {
    var t := NumberText([c] + s);
    if t.Some? {
      assert t.value[0] == c;
      assert SkipSpace(t.value) == t.value;
    }
  }

  lemma {:induction false} NumberTextEnds(number: string, rest: string)
    requires forall i | 0 <= i < |number| :: number[i] !in ",}"
    requires rest != "" && rest[0] in ",}"
    ensures NumberText(number + rest) == Some(number)
    decreases number
  {
    if number == "" {
      assert number + rest == rest;
    } else {
      var s := number[1..] + rest;
      NumberTextEnds(number[1..], rest);
      assert number + rest == number[..1] + s;
      FindFirstOfShift(number[..1], s, ",}", 0);
      assert FindFirstOf(s, ",}", 0) == Some(|number| - 1);
    }
  }

  lemma IntAtNumber(number: int, ps: seq<string>)
    requires Closed(ps)
    ensures IntAt(Join(Lead(":" + ToString(number), ps))[1..]) ==
            if INT_MIN <= number <= INT_MAX then Some(number) else None
  {
    var s := ToString(number);
    JoinLead(":" + s, ps);
    assert (":" + s + Join(ps))[1..] == s + Join(ps);
    NumberIsQuoteFree(number);
    NumberTextEnds(s, Join(ps));
    StoiOfToString(number);
  }

  lemma FoundKey(p: string, key: string, ps: seq<string>)
    requires ps != [] && ":" <= ps[0]
    ensures TextAfterKey([p, key] + ps, key) == Some(Join(ps)[1..])
  {
    assert ([p, key] + ps)[2..] == ps;
  }

  lemma QuotedIsNoInt(key: string, text: string, ps: seq<string>)
    requires ps != []
    ensures IntScan(["", key, ":", text] + ps, key) == None
  {
    assert ["", key, ":", text] + ps == ["", key] + ([":", text] + ps);
    FoundKey("", key, [":", text] + ps);
    JoinTwo(":", text, ps);
    assert Join([":", text] + ps)[1..] == ['\"'] + (text + QUOTE + Join(ps));
    NoIntAt('\"', text + QUOTE + Join(ps));
  }

  lemma ObjectIsNoInt(key: string, inner: seq<string>)
    requires inner != []
    ensures IntScan(["", key] + Lead(":{", inner), key) == None
  {
    FoundKey("", key, Lead(":{", inner));
    JoinLead(":{", inner);
    assert (":{" + Join(inner))[1..] == ['{'] + Join(inner);
    NoIntAt('{', Join(inner));
  }

  lemma {:induction false} IntScanField(f: Field, ps: seq<string>, key: string)
    requires SearchKey(key) && Closed(ps)
    ensures IntScan(FieldPieces(f, ps), key) ==
            if HasKey(FieldEntries(f), key) then FirstInt(FieldEntries(f), key) else IntScan(ps, key)
    decreases f, 1
  {
    var es := FieldEntries(f);
    match f
    case Quoted(k, text) =>
      assert es == [f];
      if k == key {
        QuotedIsNoInt(key, text, ps);
      } else {
        ScanSkipsQuoted(k, text, ps, key);
      }
    case Number(k, number) =>
      assert es == [f];
      if k == key {
        FoundKey("", key, Lead(":" + ToString(number), ps));
        IntAtNumber(number, ps);
      } else {
        ScanSkipsOther(k, ToString(number), ps, key);
      }
    case Object(k, fields) =>
      var inner := ListPieces(fields, Lead("}", ps));
      assert es[1..] == Entries(fields);
      if k == key {
        ObjectIsNoInt(key, inner);
      } else {
        assert ":" + "{" == ":{";
        ScanSkipsOther(k, "{", inner, key);
        IntScanList(fields, Lead("}", ps), key);
        ScanIgnoresLead("}" + ps[0], ps, key);
      }
  }

  lemma {:induction false} IntScanList(fs: seq<Field>, ps: seq<string>, key: string)
    requires SearchKey(key) && Closed(ps)
    ensures IntScan(ListPieces(fs, ps), key) ==
            if HasKey(Entries(fs), key) then FirstInt(Entries(fs), key) else IntScan(ps, key)
    decreases fs, 0
  {
    if |fs| == 1 {
      assert Entries(fs) == FieldEntries(fs[0]);
      IntScanField(fs[0], ps, key);
    } else if |fs| > 1 {
      var rest := ListPieces(fs[1..], ps);
      IntScanField(fs[0], Lead(",", rest), key);
      ScanIgnoresLead("," + rest[0], rest, key);
      IntScanList(fs[1..], ps, key);
      FirstIntAppend(FieldEntries(fs[0]), Entries(fs[1..]), key);
    }
  }

  // ----- the two searches on a rendered list -----

  /** In every printable text, findQuotedValue returns the first quoted field with the key, in text
      order and at any depth, and nothing else: no match starts inside a value, at a closing quote,
      or at an object that carries the key. */
  lemma QuotedSearchOfRender(fs: seq<Field>, key: string)
    requires Printable(fs) && SearchKey(key)
    ensures FindQuotedValue(Render(fs), key) == FirstQuoted(Entries(fs), key)
  {
    var ps := ListPieces(fs, ["}"]);
    JoinRender(fs);
    PiecesOfList(fs, ["}"]);
    QuotedSearchIsScan(Lead("{", ps), key);
    ScanIgnoresLead("{" + ps[0], ps, key);
    ScanList(fs, ["}"], key);
  }

  /** In every printable text, findIntValue returns the number held by the first field with the key,
      and nothing when that field is quoted, an object, or a number that fits no int. */
  lemma IntSearchOfRender(fs: seq<Field>, key: string)
    requires Printable(fs) && SearchKey(key)
    ensures FindIntValue(Render(fs), key) == FirstInt(Entries(fs), key)
  {
    var ps := ListPieces(fs, ["}"]);
    JoinRender(fs);
    PiecesOfList(fs, ["}"]);
    IntSearchIsScan(Lead("{", ps), key);
    ScanIgnoresLead("{" + ps[0], ps, key);
    IntScanList(fs, ["}"], key);
    NoKeyNoInt(Entries(fs), key);
  }

  lemma {:induction false} NoKeyNoInt(es: seq<Field>, key: string)
    ensures !HasKey(es, key) ==> FirstInt(es, key) == None
  {
    if es != [] {
      NoKeyNoInt(es[1..], key);
    }
  }
}
