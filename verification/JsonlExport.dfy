/** The bounded builder of the machine-readable session export: JSON strings, arrays and objects, and what a reader
    makes of them. */
module JsonlExport {
  import opened CText
  import opened JsonText
  import opened JsonLines
  import opened TextBuffer

  // ---- Strings

  function ExportChar(c: char): string {
    if c == '"' || c == '\\' then ['\\', c]
    else if c == '\n' then "\\n"
    else if c == '\r' then "\\r"
    else if c == '\t' then "\\t"
    else if c as int < 32 then "?"
    else [c]
  }

  function Content(text: string): string {
    if text == "" then "" else ExportChar(text[0]) + Content(text[1..])
  }

  function JsonString(text: string): string { "\"" + Content(text) + "\"" }

  /** What a reader gets: control characters other than line feed, return and TAB become `?`. */
  function SafeChar(c: char): char {
    if c as int < 32 && c != '\n' && c != '\r' && c != '\t' then '?' else c
  }

  function SafeText(text: string): string { seq(|text|, i requires 0 <= i < |text| => SafeChar(text[i])) }

  lemma {:induction false} ContentAppend(text: string, c: char)
    ensures Content(text + [c]) == Content(text) + ExportChar(c)
  {
    hide ExportChar;
    if text == "" {
      assert text + [c] == [c] && [c][1..] == "";
    } else {
      ContentAppend(text[1..], c);
      assert (text + [c])[1..] == text[1..] + [c];
      assert ExportChar(text[0]) + (Content(text[1..]) + ExportChar(c))
          == ExportChar(text[0]) + Content(text[1..]) + ExportChar(c);
    }
  }

  lemma {:induction false} ContentIsLegal(text: string)
    ensures LegalContent(Content(text)) && NoLineFeed(Content(text))
  {
    if text != "" {
      ContentIsLegal(text[1..]);
      var e, tail := ExportChar(text[0]), Content(text[1..]);
      if |e| == 2 {
        assert (e + tail)[2..] == tail;
      } else {
        assert (e + tail)[1..] == tail;
      }
    }
  }

  lemma {:induction false} ContentEncodes(text: string)
    ensures Encodes(Content(text), SafeText(text))
  {
    if text == "" {
      assert ("" + "\"")[1..] == "";
    } else {
      ContentEncodes(text[1..]);
      var e, rest := ExportChar(text[0]), Content(text[1..]) + "\"";
      assert Content(text) + "\"" == e + rest;
      assert SafeText(text) == [SafeChar(text[0])] + SafeText(text[1..]);
      if |e| == 2 {
        assert (e + rest)[2..] == rest;
      } else {
        assert (e + rest)[1..] == rest;
      }
    }
  }

  /** A written string is legal JSON for every text, and reading it gives the text with its stray control
      characters replaced. */
  lemma WrittenStringIsLegal(text: string)
    ensures LegalContent(Content(text)) && Encodes(Content(text), SafeText(text)) && NoLineFeed(Content(text))
  {
    ContentIsLegal(text);
    ContentEncodes(text);
  }

  lemma JsonStringIsLegal(text: string)
    ensures LegalString(JsonString(text))
    ensures ScanValue(JsonString(text)) == Some(Scan(SafeText(text), ""))
  {
    WrittenStringIsLegal(text);
    var s := JsonString(text);
    assert s[1..|s| - 1] == Content(text);
    assert s[1..] == Content(text) + "\"";
  }

  // ---- Arrays of strings

  function Strings(items: seq<string>): seq<string> {
    seq(|items|, i requires 0 <= i < |items| => JsonString(items[i]))
  }

  function SafeTexts(items: seq<string>): seq<string> {
    seq(|items|, i requires 0 <= i < |items| => SafeText(items[i]))
  }

  function ArrayText(items: seq<string>): string { "[" + JoinedBy(Strings(items), ',') + "]" }

  lemma ScanOneItem(item: string, rest: string)
    ensures ScanItems(JsonString(item) + "]" + rest) == Some(Items([SafeText(item)], rest))
    ensures ScanItems(rest).Some?
      ==> ScanItems(JsonString(item) + "," + rest)
          == Some(Items([SafeText(item)] + ScanItems(rest).value.texts, ScanItems(rest).value.rest))
  {
    hide ScanString, SafeText, Content, Encodes;
    ContentEncodes(item);
    EncodedThenQuote(Content(item), SafeText(item), "]" + rest);
    EncodedThenQuote(Content(item), SafeText(item), "," + rest);
    assert (JsonString(item) + "]" + rest)[1..] == Content(item) + "\"" + ("]" + rest);
    assert (JsonString(item) + "," + rest)[1..] == Content(item) + "\"" + ("," + rest);
    assert ("]" + rest)[1..] == rest && ("," + rest)[1..] == rest;
  }

  /** Reading past the items of a joined list to what follows them. */
  lemma {:induction false} ScanJoined(items: seq<string>, rest: string)
    requires items != [] && ScanItems(rest).Some?
    ensures ScanItems(JoinedBy(Strings(items), ',') + "," + rest)
         == Some(Items(SafeTexts(items) + ScanItems(rest).value.texts, ScanItems(rest).value.rest))
    decreases |items|
  {
    hide ScanItems, JsonString, SafeText;
    var n := |items| - 1;
    var front, last, tail := items[..n], JsonString(items[n]), ScanItems(rest).value;
    ScanOneItem(items[n], rest);
    assert SafeTexts(items) == SafeTexts(front) + [SafeText(items[n])];
    if n > 0 {
      ScanJoined(front, last + "," + rest);
      assert Strings(items)[..n] == Strings(front);
      var j := JoinedBy(Strings(front), ',');
      assert j + [','] + last + "," + rest == j + "," + (last + "," + rest);
      assert SafeTexts(front) + ([SafeText(items[n])] + tail.texts) == SafeTexts(items) + tail.texts;
    } else {
      JoinedOne(last, ',');
      assert Strings(items) == [last] && SafeTexts(items) == [SafeText(items[n])];
    }
  }

  /** Every array that is written reads back as its items, with their stray control characters replaced. */
  lemma ArrayReadsBack(items: seq<string>)
    requires items != []
    ensures ReadArray(ArrayText(items)) == Some(SafeTexts(items))
  {
    hide ScanItems, JsonString, SafeText;
    var n := |items| - 1;
    var front, last := items[..n], JsonString(items[n]);
    ScanOneItem(items[n], "");
    assert last + "]" + "" == last + "]";
    assert SafeTexts(items) == SafeTexts(front) + [SafeText(items[n])];
    assert ArrayText(items)[1..] == JoinedBy(Strings(items), ',') + "]";
    if n > 0 {
      ScanJoined(front, last + "]");
      assert Strings(items)[..n] == Strings(front);
      var j := JoinedBy(Strings(front), ',');
      assert j + [','] + last + "]" == j + "," + (last + "]");
    } else {
      JoinedOne(last, ',');
      assert Strings(items) == [last] && SafeTexts(items) == [SafeText(items[n])];
    }
  }

  lemma {:induction false} JoinedNoLineFeed(items: seq<string>)
    ensures NoLineFeed(JoinedBy(Strings(items), ','))
    decreases |items|
  {
    if items != [] {
      var n := |items| - 1;
      JoinedNoLineFeed(items[..n]);
      ContentIsLegal(items[n]);
      assert Strings(items)[..n] == Strings(items[..n]);
    }
  }

  // ---- Objects

  /** A property: text, a truth value, a number that is written as 0 when it is negative, or an array of texts. */
  datatype Value = Text(text: string) | Truth(truth: bool) | Count(count: int) | List(items: seq<string>)

  datatype Prop = Prop(name: string, value: Value)

  /** One line of the export. */
  datatype Object = Object(kind: string, props: seq<Prop>)

  function Natural(n: int): nat { if n < 0 then 0 else n }

  function FieldOf(p: Prop): Field {
    match p.value
    case Text(text) => Escaped(p.name, Content(text), SafeText(text))
    case Truth(truth) => Number(p.name, if truth then "true" else "false")
    case Count(n) => Number(p.name, Decimal(Natural(n)))
    case List(items) => Number(p.name, ArrayText(items))
  }

  function FieldsOf(props: seq<Prop>): (fs: seq<Field>)
    ensures |fs| == |props|
  {
    seq(|props|, i requires 0 <= i < |props| => FieldOf(props[i]))
  }

  function ObjectFields(o: Object): (fs: seq<Field>)
    ensures fs != []
  {
    [FieldOf(Prop("type", Text(o.kind)))] + FieldsOf(o.props)
  }

  function ObjectLine(o: Object): string { Line(ObjectFields(o)) }

  function ObjectLines(os: seq<Object>): seq<string> {
    seq(|os|, i requires 0 <= i < |os| => ObjectLine(os[i]))
  }

  function Document(os: seq<Object>): string { Concat(ObjectLines(os)) }

  /** The names the code uses, and no empty array. */
  predicate Proper(p: Prop) { Word(p.name) && p.value != List([]) }

  predicate AllProper(o: Object) { forall i :: 0 <= i < |o.props| ==> Proper(o.props[i]) }

  lemma FieldIsScannable(p: Prop)
    requires Proper(p)
    ensures Scannable(FieldOf(p))
  {
    match p.value
    case Text(text) => WrittenStringIsLegal(text);
    case Truth(truth) =>
    case Count(n) =>
      var d := Decimal(Natural(n));
      forall i | 0 <= i < |d| ensures BareChar(d[i]) && d[i] != '\n' { assert d[i] in d; }
    case List(items) =>
      ArrayReadsBack(items);
      JoinedNoLineFeed(items);
  }

  lemma ObjectIsScannable(o: Object)
    requires AllProper(o)
    ensures AllScannable(ObjectFields(o))
  {
    hide FieldOf, Scannable;
    FieldIsScannable(Prop("type", Text(o.kind)));
    forall i | 0 <= i < |o.props|
      ensures Scannable(FieldOf(o.props[i]))
    {
      FieldIsScannable(o.props[i]);
    }
  }

  /** Every line of a document that fits its buffer reads back as the properties that were put in. */
  lemma DocumentReadsBack(os: seq<Object>, max: nat)
    requires forall i :: 0 <= i < |os| ==> AllProper(os[i])
    requires |Document(os)| <= max
    ensures var lines := SplitLines(Clip(Document(os), max));
            |lines| == |os|
            && forall i :: 0 <= i < |os| ==> ReadLine(lines[i]) == Some(Members(ObjectFields(os[i])))
  {
    hide ObjectFields, Line, ReadLine, AllProper;
    var lines := ObjectLines(os);
    forall i | 0 <= i < |os|
      ensures IsLine(lines[i]) && ReadLine(lines[i]) == Some(Members(ObjectFields(os[i])))
    {
      ObjectIsScannable(os[i]);
      OneLineFeed(ObjectFields(os[i]));
      ReadBack(ObjectFields(os[i]));
    }
    SplitConcat(lines);
  }

  // ---- The builder

  method JbAppend(jb: Buffer, text: string)
    requires jb.Valid()
    modifies jb, jb.data
    ensures jb.Valid() && jb.Text() == Clip(old(jb.Text()) + text, jb.Max())
  {
    ghost var start := jb.Text();
    assert start + text[..0] == start;
    for i := 0 to |text|
      invariant jb.Valid() && jb.Text() == Clip(start + text[..i], jb.Max())
    {
      jb.Put(text[i]);
      ClipAppend(start + text[..i], [text[i]], jb.Max());
      assert start + text[..i + 1] == start + text[..i] + [text[i]];
    }
    assert text[..|text|] == text;
  }

  method JbJsonString(jb: Buffer, text: string)
    requires jb.Valid()
    modifies jb, jb.data
    ensures jb.Valid() && jb.Text() == Clip(old(jb.Text()) + JsonString(text), jb.Max())
  {
    hide Clip, ExportChar;
    ghost var start := jb.Text() + "\"";
    jb.Put('"');
    assert start + Content(text[..0]) == start;
    for i := 0 to |text|
      invariant jb.Valid() && jb.Text() == Clip(start + Content(text[..i]), jb.Max())
    {
      JbChar(jb, text[i]);
      ClipAppend(start + Content(text[..i]), ExportChar(text[i]), jb.Max());
      ContentAppend(text[..i], text[i]);
      assert text[..i + 1] == text[..i] + [text[i]];
      assert start + (Content(text[..i]) + ExportChar(text[i])) == start + Content(text[..i]) + ExportChar(text[i]);
    }
    assert text[..|text|] == text;
    jb.Put('"');
    ClipAppend(start + Content(text), ['"'], jb.Max());
    assert start + Content(text) + ['"'] == old(jb.Text()) + JsonString(text);
  }

  method JbChar(jb: Buffer, c: char)
    requires jb.Valid()
    modifies jb, jb.data
    ensures jb.Valid() && jb.Text() == Clip(old(jb.Text()) + ExportChar(c), jb.Max())
  {
    if c == '"' || c == '\\' {
      ghost var start := jb.Text();
      jb.Put('\\');
      jb.Put(c);
      ClipAppend(start + ['\\'], [c], jb.Max());
      assert start + ['\\'] + [c] == start + ['\\', c];
    } else if c == '\n' {
      JbAppend(jb, "\\n");
    } else if c == '\r' {
      JbAppend(jb, "\\r");
    } else if c == '\t' {
      JbAppend(jb, "\\t");
    } else if c as int < 32 {
      jb.Put('?');
    } else {
      jb.Put(c);
    }
  }

  lemma {:induction false} WordContent(s: string)
    requires forall i :: 0 <= i < |s| ==> WordChar(s[i])
    ensures Content(s) == s
  {
    if s != "" {
      WordContent(s[1..]);
      assert s == [s[0]] + s[1..];
    }
  }

  function ValueText(v: Value): string {
    match v
    case Text(text) => JsonString(text)
    case Truth(truth) => if truth then "true" else "false"
    case Count(n) => Decimal(Natural(n))
    case List(items) => ArrayText(items)
  }

  lemma NextItem(start: string, front: seq<string>, item: string)
    requires front != []
    ensures start + "[" + JoinedBy(Strings(front), ',') + [','] + JsonString(item)
         == start + "[" + JoinedBy(Strings(front + [item]), ',')
  {
    hide JsonString;
    var all := Strings(front + [item]);
    assert all[..|all| - 1] == Strings(front);
    var j := JoinedBy(Strings(front), ',');
    assert start + "[" + j + [','] + JsonString(item) == start + "[" + (j + [','] + JsonString(item));
  }

  lemma FirstItem(start: string, item: string)
    ensures start + "[" + JsonString(item) == start + "[" + JoinedBy(Strings([item]), ',')
  {
    hide JsonString;
    assert Strings([item]) == [JsonString(item)];
  }

  /** The bracketed list: a comma before each item but the first. */
  method JbArray(jb: Buffer, items: seq<string>)
    requires jb.Valid()
    modifies jb, jb.data
    ensures jb.Valid() && jb.Text() == Clip(old(jb.Text()) + ArrayText(items), jb.Max())
  {
    hide Clip, JsonString, JoinedBy;
    ghost var start, n := jb.Text(), jb.Max();
    jb.Put('[');
    NothingJoined(start);
    for i := 0 to |items|
      invariant jb.Valid() && jb.Text() == Clip(start + "[" + JoinedBy(Strings(items[..i]), ','), n)
    {
      ghost var before := start + "[" + JoinedBy(Strings(items[..i]), ',');
      assert items[..i + 1] == items[..i] + [items[i]];
      if i > 0 {
        jb.Put(',');
        ClipAppend(before, [','], n);
        JbJsonString(jb, items[i]);
        ClipAppend(before + [','], JsonString(items[i]), n);
        NextItem(start, items[..i], items[i]);
      } else {
        JbJsonString(jb, items[i]);
        NothingJoined(start);
        assert items[..0] == [] && items[..1] == [items[0]];
        ClipAppend(start + "[", JsonString(items[0]), n);
        FirstItem(start, items[0]);
      }
    }
    assert items[..|items|] == items;
    jb.Put(']');
    ClipAppend(start + "[" + JoinedBy(Strings(items), ','), "]", n);
    assert start + "[" + JoinedBy(Strings(items), ',') + "]" == start + ArrayText(items);
  }

  lemma NothingJoined(start: string)
    ensures start + ['['] == start + "[" + JoinedBy(Strings([]), ',')
  {
  }

  lemma RenderedProp(p: Prop)
    requires Word(p.name)
    ensures JsonString(p.name) + [':'] + ValueText(p.value) == Render(FieldOf(p))
  {
    WordContent(p.name);
    hide Content, Decimal, ArrayText, SafeText;
    var k := JsonString(p.name) + [':'];
    assert k == "\"" + p.name + "\":";
    match p.value
    case Text(text) => assert k + ("\"" + Content(text) + "\"") == k + "\"" + Content(text) + "\"";
    case Truth(truth) => RenderedBare(p, k, if truth then "true" else "false");
    case Count(n) => RenderedBare(p, k, Decimal(Natural(n)));
    case List(items) => RenderedBare(p, k, ArrayText(items));
  }

  lemma RenderedBare(p: Prop, k: string, bare: string)
    requires k == "\"" + p.name + "\":"
    ensures Render(Number(p.name, bare)) == k + bare
  {
  }

  /** A property without what precedes it: its quoted name, the colon and its value. */
  method JsonProp(jb: Buffer, p: Prop)
    requires jb.Valid() && Word(p.name)
    modifies jb, jb.data
    ensures jb.Valid() && jb.Text() == Clip(old(jb.Text()) + Render(FieldOf(p)), jb.Max())
  {
    hide Clip, JsonString, Decimal, ArrayText, Render, FieldOf;
    ghost var start, n := jb.Text(), jb.Max();
    JbJsonString(jb, p.name);
    jb.Put(':');
    ClipAppend(start + JsonString(p.name), [':'], n);
    match p.value {
      case Text(text) => JbJsonString(jb, text);
      case Truth(truth) => JbAppend(jb, if truth then "true" else "false");
      case Count(c) => JbAppend(jb, Decimal(Natural(c)));
      case List(items) => JbArray(jb, items);
    }
    ClipAppend(start + JsonString(p.name) + [':'], ValueText(p.value), n);
    RenderedProp(p);
    assert start + JsonString(p.name) + [':'] + ValueText(p.value)
        == start + (JsonString(p.name) + [':'] + ValueText(p.value));
  }

  lemma NextRendered(fs: seq<Field>, f: Field, start: string)
    requires fs != []
    ensures start + "{" + Renders(fs) + [','] + Render(f) == start + "{" + Renders(fs + [f])
  {
    hide Renders, Render;
    RendersAppend(fs, f);
    assert start + "{" + Renders(fs) + [','] + Render(f) == start + "{" + (Renders(fs) + "," + Render(f));
  }

  /** json_prop_*: a comma and the property. */
  method NextProp(jb: Buffer, p: Prop)
    requires jb.Valid() && Word(p.name)
    modifies jb, jb.data
    ensures jb.Valid() && jb.Text() == Clip(old(jb.Text()) + [','] + Render(FieldOf(p)), jb.Max())
  {
    hide Clip, FieldOf, Render;
    ghost var start := jb.Text();
    jb.Put(',');
    JsonProp(jb, p);
    ClipAppend(start + [','], Render(FieldOf(p)), jb.Max());
  }

  /** json_end. */
  method EndObject(jb: Buffer)
    requires jb.Valid()
    modifies jb, jb.data
    ensures jb.Valid() && jb.Text() == Clip(old(jb.Text()) + "}\n", jb.Max())
  {
    hide Clip;
    ghost var start := jb.Text();
    jb.Put('}');
    jb.Put('\n');
    ClipAppend(start + ['}'], ['\n'], jb.Max());
    assert start + ['}'] + ['\n'] == start + "}\n";
  }

  /** json_begin: the type comes first. */
  method BeginObject(jb: Buffer, kind: string)
    requires jb.Valid()
    modifies jb, jb.data
    ensures jb.Valid() && jb.Text() == Clip(old(jb.Text()) + "{" + Render(FieldOf(Prop("type", Text(kind)))), jb.Max())
  {
    hide Clip, FieldOf, Render;
    ghost var start := jb.Text();
    jb.Put('{');
    JsonProp(jb, Prop("type", Text(kind)));
    ClipAppend(start + ['{'], Render(FieldOf(Prop("type", Text(kind)))), jb.Max());
    assert start + ['{'] == start + "{";
  }

  lemma ObjectRendered(start: string, fs: seq<Field>)
    requires fs != []
    ensures start + "{" + Renders(fs) + "}\n" == start + Line(fs)
  {
    hide Renders;
    assert start + "{" + Renders(fs) + "}\n" == start + ("{" + Renders(fs) + "}\n");
  }

  /** json_begin, the properties in turn, and json_end. */
  method AppendObject(jb: Buffer, o: Object)
    requires jb.Valid() && AllProper(o)
    modifies jb, jb.data
    ensures jb.Valid() && jb.Text() == Clip(old(jb.Text()) + ObjectLine(o), jb.Max())
  {
    hide Clip, FieldOf, Render, Renders;
    ghost var start, n, fs := jb.Text(), jb.Max(), ObjectFields(o);
    BeginObject(jb, o.kind);
    FirstRendered(fs);
    for i := 0 to |o.props|
      invariant jb.Valid() && jb.Text() == Clip(start + "{" + Renders(fs[..i + 1]), n)
    {
      ghost var so := start + "{" + Renders(fs[..i + 1]);
      NextProp(jb, o.props[i]);
      ClipTwice(so, [','], Render(fs[i + 1]), n);
      NextRendered(fs[..i + 1], fs[i + 1], start);
      assert fs[..i + 2] == fs[..i + 1] + [fs[i + 1]];
    }
    assert fs[..|fs|] == fs;
    EndObject(jb);
    ClipAppend(start + "{" + Renders(fs), "}\n", n);
    ObjectRendered(start, fs);
  }

  lemma ClipTwice(a: string, b: string, c: string, n: nat)
    ensures Clip(Clip(a, n) + b + c, n) == Clip(a + b + c, n)
  {
    assert Clip(a, n) + b + c == Clip(a, n) + (b + c) && a + b + c == a + (b + c);
    ClipAppend(a, b + c, n);
  }

  lemma FirstRendered(fs: seq<Field>)
    requires fs != []
    ensures Renders(fs[..1]) == Render(fs[0])
  {
  }

  /** The whole export: the buffer always holds the beginning of the unbounded document. */
  method WriteDocument(jb: Buffer, os: seq<Object>)
    requires jb.Valid() && forall i :: 0 <= i < |os| ==> AllProper(os[i])
    modifies jb, jb.data
    ensures jb.Valid() && jb.Text() == Clip(Document(os), jb.Max())
  {
    hide ObjectLine, AllProper;
    jb.Reset();
    for i := 0 to |os|
      invariant jb.Valid() && jb.Text() == Clip(Document(os[..i]), jb.Max())
    {
      AppendObject(jb, os[i]);
      ClipAppend(Document(os[..i]), ObjectLine(os[i]), jb.Max());
      assert ObjectLines(os[..i + 1]) == ObjectLines(os[..i]) + [ObjectLine(os[i])];
      ConcatAppend(ObjectLines(os[..i]), ObjectLine(os[i]));
    }
    assert os[..|os|] == os;
  }
}
