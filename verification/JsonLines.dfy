/** Lines of JSON objects: one flat object per line.  What a line looks like, that reading it gives back its
    fields, and that a search for `"key":"value"` in a body of such lines is exact. */
module JsonLines {
  import opened CText
  import opened JsonText

  /** `content` is the text between the quotes, escapes included, or the bare characters of a number or a literal name,
      or a whole array. */
  datatype Field = Field(key: string, quoted: bool, content: string, value: string)

  function Quoted(key: string, value: string): Field { Field(key, true, value, value) }

  function Escaped(key: string, content: string, value: string): Field { Field(key, true, content, value) }

  function Number(key: string, bare: string): Field { Field(key, false, bare, bare) }

  predicate WordChar(c: char) { 'a' <= c <= 'z' || c == '_' }

  predicate Word(s: string) { s != "" && forall i :: 0 <= i < |s| ==> WordChar(s[i]) }

  predicate Bare(s: string) { s != "" && forall i :: 0 <= i < |s| ==> BareChar(s[i]) }

  predicate NoLineFeed(s: string) { '\n' !in s }

  predicate WellFormed(f: Field) {
    && Word(f.key)
    && NoLineFeed(f.content)
    && if f.quoted then Encodes(f.content, f.value) else Bare(f.content) && f.value == f.content
  }

  predicate AllWellFormed(fs: seq<Field>) { forall i :: 0 <= i < |fs| ==> WellFormed(fs[i]) }

  /** What the reader can take: also arrays, which the transcript never writes. */
  predicate Scannable(f: Field) {
    && Word(f.key)
    && NoLineFeed(f.content)
    && if f.quoted then Encodes(f.content, f.value)
       else (Bare(f.content) || ReadArray(f.content).Some?) && f.value == f.content
  }

  predicate AllScannable(fs: seq<Field>) { forall i :: 0 <= i < |fs| ==> Scannable(fs[i]) }

  lemma WellFormedScans(fs: seq<Field>)
    requires AllWellFormed(fs)
    ensures AllScannable(fs)
  {
    hide Encodes, Bare, Word, NoLineFeed, ReadArray;
    forall i | 0 <= i < |fs| ensures Scannable(fs[i]) { assert WellFormed(fs[i]); }
  }

  // ---- Rendering

  function Quote(f: Field): string { if f.quoted then "\"" else "" }

  /** A field without the quote that closes its value. */
  function Open(f: Field): string { "\"" + f.key + "\":" + Quote(f) + f.content }

  function Render(f: Field): string { Open(f) + Quote(f) }

  function Renders(fs: seq<Field>): string
    requires fs != []
  {
    if |fs| == 1 then Render(fs[0]) else Render(fs[0]) + "," + Renders(fs[1..])
  }

  function Line(fs: seq<Field>): string
    requires fs != []
  {
    "{" + Renders(fs) + "}\n"
  }

  lemma RendersStep(fs: seq<Field>)
    requires fs != []
    ensures Renders(fs) == if |fs| == 1 then Render(fs[0]) else Render(fs[0]) + "," + Renders(fs[1..])
  {
  }

  lemma {:induction false} RendersAppend(fs: seq<Field>, f: Field)
    requires fs != []
    ensures Renders(fs + [f]) == Renders(fs) + "," + Render(f)
  {
    hide Renders, Render;
    var all, first := fs + [f], Render(fs[0]);
    assert all[1..] == fs[1..] + [f];
    RendersStep(all);
    RendersStep(fs);
    if |fs| == 1 {
      assert fs[1..] + [f] == [f];
      RendersStep([f]);
    } else {
      RendersAppend(fs[1..], f);
      assert first + "," + (Renders(fs[1..]) + "," + Render(f)) == (first + "," + Renders(fs[1..])) + "," + Render(f);
    }
  }

  /** How the C code writes a line: the quote that closes a value is part of the next literal. */
  function Opened(fs: seq<Field>): string
    requires fs != []
  {
    var n := |fs| - 1;
    if n == 0 then "{" + Open(fs[0]) else "{" + Renders(fs[..n]) + "," + Open(fs[n])
  }

  /** The literal between two values: it closes the one and opens the other. */
  function Between(f: Field, g: Field): string { Quote(f) + ",\"" + g.key + "\":" + Quote(g) }

  lemma OpenedThenClosed(fs: seq<Field>)
    requires fs != []
    ensures Opened(fs) + Quote(fs[|fs| - 1]) == "{" + Renders(fs)
  {
    hide Open, Quote, Renders, Opened;
    var n := |fs| - 1;
    if n == 0 {
      SingleOpened(fs[0]);
      assert fs == [fs[0]];
    } else {
      OpenedLast(fs[..n], fs[n]);
      assert fs == fs[..n] + [fs[n]];
    }
  }

  lemma SingleOpened(f: Field)
    ensures Opened([f]) + Quote(f) == "{" + Renders([f])
  {
    hide Open, Quote;
    SingleRender([f]);
  }

  lemma OpenedLast(front: seq<Field>, f: Field)
    requires front != []
    ensures Opened(front + [f]) + Quote(f) == "{" + Renders(front + [f])
  {
    hide Open, Quote, Renders;
    RendersAppend(front, f);
    assert (front + [f])[..|front|] == front;
    Regroup(Renders(front), Open(f), Quote(f));
  }

  lemma Regroup(r: string, o: string, q: string)
    ensures "{" + r + "," + o + q == "{" + (r + "," + (o + q))
  {
  }

  lemma SingleRender(fs: seq<Field>)
    requires |fs| == 1
    ensures Renders(fs) == Render(fs[0])
  {
  }

  lemma OpenedSnoc(fs: seq<Field>, g: Field)
    requires fs != []
    ensures Opened(fs + [g]) == "{" + Renders(fs) + "," + Open(g)
  {
    hide Renders, Open;
    assert (fs + [g])[..|fs|] == fs;
  }

  lemma BetweenAndOpen(o: string, f: Field, g: Field)
    ensures o + Quote(f) + "," + Open(g) == o + Between(f, g) + g.content
  {
    hide Quote;
    var q, k := Quote(f), "\"" + g.key + "\":" + Quote(g);
    assert Between(f, g) == q + "," + k && Open(g) == k + g.content;
    assert (o + q) + "," + (k + g.content) == o + (q + "," + k) + g.content;
  }

  lemma OpenedAppend(fs: seq<Field>, g: Field)
    requires fs != []
    ensures Opened(fs + [g]) == Opened(fs) + Between(fs[|fs| - 1], g) + g.content
  {
    hide Renders, Quote, Open, Between, Opened;
    OpenedThenClosed(fs);
    OpenedSnoc(fs, g);
    BetweenAndOpen(Opened(fs), fs[|fs| - 1], g);
  }

  // ---- Reading gives back the fields

  function Members(fs: seq<Field>): seq<Member> {
    seq(|fs|, i requires 0 <= i < |fs| => Member(fs[i].key, fs[i].value))
  }

  lemma WordIsPlain(s: string)
    requires Word(s)
    ensures Plain(s)
  {
  }

  lemma ScanContent(f: Field, rest: string)
    requires Scannable(f) && rest != "" && !BareChar(rest[0])
    ensures ScanValue(Quote(f) + f.content + Quote(f) + rest) == Some(Scan(f.value, rest))
  {
    hide Encodes, Bare, ScanValue, ReadArray;
    if f.quoted {
      ScanQuoted(f.content, f.value, rest);
      assert "\"" + f.content + "\"" + rest == "\"" + (f.content + "\"" + rest);
    } else {
      if Bare(f.content) {
        ScanUnquoted(f.content, rest);
      } else {
        ArrayStops(f.content, rest);
      }
      assert "" + f.content + "" + rest == f.content + rest;
    }
  }

  lemma ScanQuoted(content: string, value: string, rest: string)
    requires Encodes(content, value)
    ensures ScanValue("\"" + (content + "\"" + rest)) == Some(Scan(value, rest))
  {
    hide Encodes, ScanString;
    EncodedThenQuote(content, value, rest);
    assert ("\"" + (content + "\"" + rest))[1..] == content + "\"" + rest;
  }

  lemma ScanUnquoted(content: string, rest: string)
    requires Bare(content) && rest != "" && !BareChar(rest[0])
    ensures ScanValue(content + rest) == Some(Scan(content, rest))
  {
    ScanBareStops(content, rest);
  }

  /** Reading a member whose key and value are read. */
  lemma ReadStep(s: string, key: string, after: string, value: string, rest: string)
    requires s != "" && s[0] == '"' && ScanString(s[1..]) == Some(Scan(key, ":" + after))
    requires ScanValue(after) == Some(Scan(value, rest)) && rest != ""
    ensures rest == "}\n" ==> ReadMembers(s) == Some([Member(key, value)])
    ensures rest != "}\n" && rest[0] == ',' && ReadMembers(rest[1..]).Some?
      ==> ReadMembers(s) == Some([Member(key, value)] + ReadMembers(rest[1..]).value)
  {
    hide ScanString, ScanValue;
    assert (":" + after)[1..] == after;
  }

  lemma ReadOneMember(f: Field, rest: string)
    requires Scannable(f) && rest != "" && !BareChar(rest[0])
    ensures rest == "}\n" ==> ReadMembers(Render(f) + rest) == Some([Member(f.key, f.value)])
    ensures rest != "}\n" && rest[0] == ',' && ReadMembers(rest[1..]).Some?
      ==> ReadMembers(Render(f) + rest) == Some([Member(f.key, f.value)] + ReadMembers(rest[1..]).value)
  {
    hide ScanString, ScanValue, Encodes, ReadMembers, ReadArray, Bare;
    var s := Render(f) + rest;
    var after := Quote(f) + f.content + Quote(f) + rest;
    WordIsPlain(f.key);
    PlainEncodesItself(f.key);
    EncodedThenQuote(f.key, f.key, ":" + after);
    ScanContent(f, rest);
    assert s[1..] == f.key + "\"" + (":" + after);
    ReadStep(s, f.key, after, f.value, rest);
  }

  lemma {:induction false} ReadRenders(fs: seq<Field>)
    requires fs != [] && AllScannable(fs)
    ensures ReadMembers(Renders(fs) + "}\n") == Some(Members(fs))
  {
    hide Scannable, Render, ReadMembers;
    if |fs| == 1 {
      ReadOneMember(fs[0], "}\n");
      assert Members(fs) == [Member(fs[0].key, fs[0].value)];
    } else {
      var rest := "," + Renders(fs[1..]) + "}\n";
      ReadRenders(fs[1..]);
      assert rest[1..] == Renders(fs[1..]) + "}\n";
      ReadOneMember(fs[0], rest);
      assert Renders(fs) + "}\n" == Render(fs[0]) + rest;
      assert Members(fs) == [Member(fs[0].key, fs[0].value)] + Members(fs[1..]);
    }
  }

  /** Reading a line gives back every key and value. */
  lemma ReadBack(fs: seq<Field>)
    requires fs != [] && AllScannable(fs)
    ensures ReadLine(Line(fs)) == Some(Members(fs))
  {
    ReadRenders(fs);
    assert Line(fs)[1..] == Renders(fs) + "}\n";
  }

  // ---- A line holds one line feed, at its end

  predicate IsLine(s: string) { s != "" && s[|s| - 1] == '\n' && NoLineFeed(s[..|s| - 1]) }

  lemma {:induction false} RendersNoLineFeed(fs: seq<Field>)
    requires fs != [] && AllScannable(fs)
    ensures NoLineFeed(Renders(fs))
  {
    assert NoLineFeed(Render(fs[0]));
    if |fs| > 1 {
      RendersNoLineFeed(fs[1..]);
    }
  }

  lemma OneLineFeed(fs: seq<Field>)
    requires fs != [] && AllScannable(fs)
    ensures IsLine(Line(fs))
  {
    RendersNoLineFeed(fs);
    assert Line(fs)[..|Line(fs)| - 1] == "{" + Renders(fs) + "}";
  }

  // ---- Splitting a body at its line feeds

  function Concat(lines: seq<string>): string {
    if lines == [] then "" else lines[0] + Concat(lines[1..])
  }

  /** The lines of a body, each with its line feed; what follows the last line feed comes last. */
  function SplitLines(s: string, from: nat := 0): seq<string>
    requires from <= |s|
    decreases |s|, |s| - from
  {
    if from == |s| then (if s == "" then [] else [s])
    else if s[from] == '\n' then [s[..from + 1]] + SplitLines(s[from + 1..])
    else SplitLines(s, from + 1)
  }

  lemma {:induction false} SplitFirstLine(line: string, rest: string, from: nat)
    requires IsLine(line) && from < |line|
    ensures SplitLines(line + rest, from) == [line] + SplitLines(rest)
    decreases |line| - from
  {
    var s := line + rest;
    if from == |line| - 1 {
      assert s[..from + 1] == line && s[from + 1..] == rest;
    } else {
      assert s[from] == line[..|line| - 1][from];
      SplitFirstLine(line, rest, from + 1);
    }
  }

  /** Splitting undoes concatenation. */
  lemma {:induction false} SplitConcat(lines: seq<string>)
    requires forall i :: 0 <= i < |lines| ==> IsLine(lines[i])
    ensures SplitLines(Concat(lines)) == lines
  {
    if lines != [] {
      SplitConcat(lines[1..]);
      SplitFirstLine(lines[0], Concat(lines[1..]), 0);
    }
  }

  lemma {:induction false} ConcatAppend(lines: seq<string>, line: string)
    ensures Concat(lines + [line]) == Concat(lines) + line
  {
    if lines == [] {
      assert [line][1..] == [];
    } else {
      ConcatAppend(lines[1..], line);
      assert (lines + [line])[1..] == lines[1..] + [line];
    }
  }
}
