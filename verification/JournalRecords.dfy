/** What the journal keeps: which characters of a summary survive, and that reading the journal's lines gives back
    what was recorded. */
module JournalRecords {
  import opened CText
  import opened JsonText
  import opened JsonLines
  import opened Search
  import opened TextStore
  import opened Journal

  // ---- The nine words

  /** The sensitive words, written out. */
  lemma SensitiveIsTheNineWords(text: string)
    ensures Sensitive(text) <==>
      Occurs(text, "password") || Occurs(text, "passwd") || Occurs(text, "token") || Occurs(text, "secret")
      || Occurs(text, "api_key") || Occurs(text, "apikey") || Occurs(text, "key=") || Occurs(text, "clave")
      || Occurs(text, "contrasena")
  {
    hide Occurs;
    WordsInOrder();
    if Sensitive(text) {
      var k :| 0 <= k < |WORDS| && Occurs(text, WORDS[k]);
      assert k == 0 || k == 1 || k == 2 || k == 3 || k == 4 || k == 5 || k == 6 || k == 7 || k == 8;
    }
  }

  lemma WordsInOrder()
    ensures |WORDS| == 9 && WORDS[0] == "password" && WORDS[1] == "passwd" && WORDS[2] == "token"
    ensures WORDS[3] == "secret" && WORDS[4] == "api_key" && WORDS[5] == "apikey" && WORDS[6] == "key="
    ensures WORDS[7] == "clave" && WORDS[8] == "contrasena"
  {
  }

  // ---- What a summary keeps

  predicate Printable(s: string) { forall i :: 0 <= i < |s| ==> ' ' <= s[i] <= '~' }

  lemma {:induction false} MappedByCharacter(s: string)
    ensures |MapText(SanitizeChar, s)| == |s|
    ensures forall i :: 0 <= i < |s| ==>
      MapText(SanitizeChar, s)[i] == (if s[i] == '\r' || s[i] == '\n' || s[i] == '\t' then ' '
                                      else if ' ' <= s[i] <= '~' then s[i] else '?')
  {
    if s != "" {
      MappedByCharacter(s[1..]);
    }
  }

  /** A sensitive text is replaced as a whole; of any other the first 159 characters are kept, line breaks and TABs
      blanked and other unprintable characters replaced. */
  lemma SanitizedByCharacter(src: string)
    ensures Sensitive(src) ==> Sanitized(src) == "[redacted " + "sensitive " + "command]"
    ensures !Sensitive(src) ==>
      |Sanitized(src)| == (if |src| <= 159 then |src| else 159)
      && forall i :: 0 <= i < |Sanitized(src)| ==>
           Sanitized(src)[i] == (if src[i] == '\r' || src[i] == '\n' || src[i] == '\t' then ' '
                                 else if ' ' <= src[i] <= '~' then src[i] else '?')
  {
    hide Sensitive;
    MappedByCharacter(src);
    RedactionInPieces();
  }

  lemma RedactionInPieces()
    ensures REDACTION == "[redacted " + "sensitive " + "command]"
  {
  }

  /** A harmless printable command that fits is kept as it is. */
  lemma HarmlessIsKept(src: string)
    requires !Sensitive(src) && Printable(src) && |src| <= 159
    ensures Sanitized(src) == src
  {
    hide Sensitive, Sanitized;
    SanitizedByCharacter(src);
  }

  lemma SanitizedIsPrintable(src: string)
    ensures Printable(Sanitized(src)) && |Sanitized(src)| <= 159
  {
    hide Sensitive, Sanitized;
    SanitizedByCharacter(src);
    assert Printable("[redacted ") && Printable("sensitive ") && Printable("command]");
  }

  // ---- Reading a JSON record

  lemma {:induction false} EscapeEncodes(s: string)
    requires Printable(s)
    ensures Encodes(MapText(EscapeChar, s), s) && NoLineFeed(MapText(EscapeChar, s))
  {
    if s == "" {
      assert ("" + "\"")[1..] == "";
    } else {
      EscapeEncodes(s[1..]);
      var e, rest := EscapeChar(s[0]), MapText(EscapeChar, s[1..]) + "\"";
      assert MapText(EscapeChar, s) + "\"" == e + rest;
      assert s == [s[0]] + s[1..];
      if |e| == 2 {
        assert (e + rest)[2..] == rest;
      } else {
        assert (e + rest)[1..] == rest;
      }
    }
  }

  function RecordFields(n: nat, kind: string, summary: string, redacted: bool): seq<Field> {
    [Number("seq", Decimal(n)), Escaped("type", MapText(EscapeChar, kind), kind),
     Escaped("summary", MapText(EscapeChar, summary), summary),
     Number("redacted", if redacted then "true" else "false")]
  }

  lemma FourRenders(a: Field, b: Field, c: Field, d: Field)
    ensures Renders([a, b, c, d]) == Render(a) + "," + (Render(b) + "," + (Render(c) + "," + Render(d)))
  {
    hide Renders, Render;
    RendersStep([a, b, c, d]);
    RendersStep([b, c, d]);
    RendersStep([c, d]);
    RendersStep([d]);
    assert [a, b, c, d][1..] == [b, c, d] && [b, c, d][1..] == [c, d] && [c, d][1..] == [d];
  }

  lemma RecordIsLine(n: nat, kind: string, summary: string, redacted: bool)
    ensures JsonRecord(n, kind, summary, redacted) == Line(RecordFields(n, kind, summary, redacted))
  {
    hide Decimal, MapText, EscapeChar, Renders, Render;
    var fs := RecordFields(n, kind, summary, redacted);
    FourRenders(fs[0], fs[1], fs[2], fs[3]);
    assert fs == [fs[0], fs[1], fs[2], fs[3]];
    PiecesRegrouped(Decimal(n), MapText(EscapeChar, kind), MapText(EscapeChar, summary),
                    if redacted then "true" else "false");
    NumberRendered("seq", Decimal(n));
    NumberRendered("redacted", if redacted then "true" else "false");
    EscapedRendered("type", MapText(EscapeChar, kind), kind);
    EscapedRendered("summary", MapText(EscapeChar, summary), summary);
  }

  lemma NumberRendered(key: string, bare: string)
    ensures Render(Number(key, bare)) == "\"" + key + "\":" + bare
  {
  }

  lemma EscapedRendered(key: string, content: string, value: string)
    ensures Render(Escaped(key, content, value)) == "\"" + key + "\":\"" + content + "\""
  {
    assert "\":" + "\"" == "\":\"";
  }

  lemma PiecesRegrouped(d: string, k: string, s: string, flag: string)
    ensures "{\"seq\":" + d + ",\"type\":\"" + k + "\",\"summary\":\"" + s + "\",\"redacted\":" + flag + "}\n"
         == "{" + (("\"" + "seq" + "\":" + d) + "," + (("\"" + "type" + "\":\"" + k + "\"") + ","
            + (("\"" + "summary" + "\":\"" + s + "\"") + "," + ("\"" + "redacted" + "\":" + flag)))) + "}\n"
  {
    KeysSpelled();
    Regrouped(d, k, s, flag, "\"seq\":", "\"type\":\"", "\"summary\":\"", "\"redacted\":");
  }

  lemma KeysSpelled()
    ensures "\"" + "seq" + "\":" == "\"seq\":" && "\"" + "type" + "\":\"" == "\"type\":\""
    ensures "\"" + "summary" + "\":\"" == "\"summary\":\"" && "\"" + "redacted" + "\":" == "\"redacted\":"
    ensures "{" + "\"seq\":" == "{\"seq\":" && "," + "\"type\":\"" == ",\"type\":\""
    ensures "\"" + "," + "\"summary\":\"" == "\",\"summary\":\""
    ensures "\"" + "," + "\"redacted\":" == "\",\"redacted\":"
  {
  }

  lemma Regrouped(d: string, k: string, s: string, flag: string, a: string, b: string, c: string, e: string)
    ensures ("{" + a) + d + ("," + b) + k + ("\"" + "," + c) + s + ("\"" + "," + e) + flag + "}\n"
         == "{" + ((a + d) + "," + ((b + k + "\"") + "," + ((c + s + "\"") + "," + (e + flag)))) + "}\n"
  {
  }

  /** What a reader gets from one record. */
  function RecordMembers(n: nat, kind: string, summary: string, redacted: bool): seq<Member> {
    [Member("seq", Decimal(n)), Member("type", kind), Member("summary", summary),
     Member("redacted", if redacted then "true" else "false")]
  }

  lemma FieldsAreScannable(n: nat, kind: string, summary: string, redacted: bool)
    requires Printable(kind) && Printable(summary)
    ensures AllScannable(RecordFields(n, kind, summary, redacted))
  {
    hide Encodes, ReadArray, MapText, EscapeChar, Decimal;
    EscapeEncodes(kind);
    EscapeEncodes(summary);
    var d := Decimal(n);
    forall i | 0 <= i < |d| ensures BareChar(d[i]) && d[i] != '\n' { assert d[i] in d; }
    assert Word("seq") && Word("type") && Word("summary") && Word("redacted");
    assert Bare("true") && Bare("false");
  }

  /** Reading a record gives its number, its type, its summary and whether it was redacted. */
  lemma RecordReadsBack(n: nat, kind: string, summary: string, redacted: bool)
    requires Printable(kind) && Printable(summary)
    ensures IsLine(JsonRecord(n, kind, summary, redacted))
    ensures ReadLine(JsonRecord(n, kind, summary, redacted)) == Some(RecordMembers(n, kind, summary, redacted))
  {
    hide JsonRecord, Line, ReadLine, MapText, Scannable, Decimal;
    FieldsAreScannable(n, kind, summary, redacted);
    RecordIsLine(n, kind, summary, redacted);
    var fs := RecordFields(n, kind, summary, redacted);
    OneLineFeed(fs);
    ReadBack(fs);
    assert Members(fs) == RecordMembers(n, kind, summary, redacted);
  }

  // ---- Reading a text line

  datatype TextSeen = TextSeen(number: string, kind: string, rest: string)

  /** A line of the text journal: a number between `#` and a blank, a type up to a colon, and what follows. */
  function SeenInText(line: string): TextSeen {
    var number := Until(Rest(line, 1), ' ');
    var tail := Rest(line, |number| + 2);
    var kind := Until(tail, ':');
    TextSeen(number, kind, Rest(tail, |kind| + 2))
  }

  /** A text line gives its number, its type, and its summary with the mark of a redaction. */
  lemma TextLineReadsBack(n: nat, kind: string, summary: string, redacted: bool)
    requires ':' !in kind
    ensures SeenInText(FullTextLine(n, kind, summary, redacted))
         == TextSeen(Decimal(n), kind, summary + if redacted then " [redacted]" else "")
  {
    hide Decimal, SeenInText;
    DecimalHasNoBlank(n);
    TextLineIsRead(Decimal(n), kind, summary, if redacted then " [redacted]" else "");
  }

  lemma TextLineIsRead(number: string, kind: string, summary: string, flag: string)
    requires ' ' !in number && ':' !in kind
    ensures SeenInText("#" + number + " " + kind + ": " + summary + flag) == TextSeen(number, kind, summary + flag)
  {
    hide Until;
    var line := "#" + number + " " + kind + ": " + summary + flag;
    var tail := kind + [':'] + ([' '] + (summary + flag));
    LineRegrouped(number, kind, summary, flag);
    assert Rest(line, 1) == number + [' '] + tail;
    UntilStops(number, ' ', tail);
    assert Rest(line, |number| + 2) == tail;
    UntilStops(kind, ':', [' '] + (summary + flag));
    assert Rest(tail, |kind| + 2) == summary + flag;
  }

  lemma LineRegrouped(number: string, kind: string, summary: string, flag: string)
    ensures "#" + number + " " + kind + ": " + summary + flag
         == ['#'] + (number + [' '] + (kind + [':'] + ([' '] + (summary + flag))))
  {
  }

  /** A line is stored whole up to 223 characters. */
  lemma TextLineIsWhole(n: nat, kind: string, summary: string, redacted: bool)
    requires |FullTextLine(n, kind, summary, redacted)| <= 223
    ensures TextLine(n, kind, summary, redacted) == FullTextLine(n, kind, summary, redacted)
  {
    hide FullTextLine;
  }

  lemma DecimalHasNoBlank(n: nat)
    ensures ' ' !in Decimal(n)
  {
  }

  // ---- The whole journal

  /** The records of a journal: its start, and then the calls. */
  function CallAt(calls: seq<Call>, i: nat): Call
    requires i <= |calls|
  {
    if i == 0 then Call("journal_started", "persistent session journal active", false) else calls[i - 1]
  }

  ghost predicate Marked(c: Call) { c.redactCheck && Sensitive(c.summary) }

  ghost function Records(calls: seq<Call>): seq<string> {
    seq(|calls| + 1, i requires 0 <= i <= |calls| =>
      var c := CallAt(calls, i); JsonRecord(i + 1, c.kind, Sanitized(c.summary), Marked(c)))
  }

  ghost function TextLines(calls: seq<Call>): seq<string> {
    seq(|calls| + 1, i requires 0 <= i <= |calls| =>
      var c := CallAt(calls, i); FullTextLine(i + 1, c.kind, Sanitized(c.summary), Marked(c)) + "\n")
  }

  /** Nothing was cut off: both texts are whole. */
  ghost predicate IsWhole(t: Texts, calls: seq<Call>) {
    && t.seqNo == |calls| + 1
    && t.jsonl == Concat(Records(calls)) && t.text == HEADER + Concat(TextLines(calls))
  }

  lemma RecordedWhole(t: Texts, c: Call)
    requires !Recorded(t, c).truncated
    ensures var u, n := Recorded(t, c), t.seqNo + 1;
            && !t.truncated && u.seqNo == n
            && u.jsonl == t.jsonl + JsonRecord(n, c.kind, Sanitized(c.summary), Marked(c))
            && u.text == t.text + (FullTextLine(n, c.kind, Sanitized(c.summary), Marked(c)) + "\n")
  {
    hide JsonRecord, FullTextLine, Sanitized, Sensitive;
    var line := FullTextLine(t.seqNo + 1, c.kind, Sanitized(c.summary), Marked(c));
    assert t.text + line + "\n" == t.text + (line + "\n");
  }

  lemma OneMoreCall(calls: seq<Call>, c: Call)
    ensures Records(calls + [c])
         == Records(calls) + [JsonRecord(|calls| + 2, c.kind, Sanitized(c.summary), Marked(c))]
    ensures TextLines(calls + [c])
         == TextLines(calls) + [FullTextLine(|calls| + 2, c.kind, Sanitized(c.summary), Marked(c)) + "\n"]
  {
    hide JsonRecord, FullTextLine, Sanitized, Sensitive;
    assert forall i: nat :: i <= |calls| ==> CallAt(calls + [c], i) == CallAt(calls, i);
    assert CallAt(calls + [c], |calls| + 1) == c;
  }

  lemma FirstRecordWhole(io: Io)
    requires var t := Started(true, io); t.active && !t.truncated
    ensures IsWhole(Started(true, io), [])
  {
    hide JsonRecord, FullTextLine, Sanitized, Sensitive, Recorded, HEADER;
    RecordedWhole(Texts("", HEADER, 0, false, true), STARTED);
    assert Records([])[1..] == [] && TextLines([])[1..] == [];
  }

  lemma {:induction false} JournalIsWhole(io: Io, calls: seq<Call>)
    requires var t := After(Started(true, io), calls); t.active && !t.truncated
    ensures IsWhole(After(Started(true, io), calls), calls)
    decreases |calls|
  {
    hide JsonRecord, FullTextLine, Sanitized, Sensitive, Recorded, Started, HEADER;
    if calls == [] {
      FirstRecordWhole(io);
    } else {
      var front, c := calls[..|calls| - 1], calls[|calls| - 1];
      var t := After(Started(true, io), front);
      assert calls == front + [c];
      StaysActive(t, c);
      RecordedWhole(t, c);
      JournalIsWhole(io, front);
      OneMoreCall(front, c);
      ConcatAppend(Records(front), JsonRecord(|front| + 2, c.kind, Sanitized(c.summary), Marked(c)));
      ConcatAppend(TextLines(front), FullTextLine(|front| + 2, c.kind, Sanitized(c.summary), Marked(c)) + "\n");
    }
  }

  lemma StaysActive(t: Texts, c: Call)
    ensures Added(t, c).active ==> t.active && Added(t, c) == Recorded(t, c)
  {
    hide Sanitized, Sensitive, JsonRecord, TextLine, FullTextLine;
  }

  /** Over every start and every sequence of calls: as long as the journal is active and nothing was cut off, reading
      its JSON lines gives one record for the start and one for each call, numbered in order, with the call's type,
      its sanitised summary and the truth of the redaction. */
  lemma JournalReadsBack(io: Io, calls: seq<Call>)
    requires forall i :: 0 <= i < |calls| ==> Printable(calls[i].kind)
    requires var t := After(Started(true, io), calls); t.active && !t.truncated
    ensures var lines := SplitLines(After(Started(true, io), calls).jsonl);
            |lines| == |calls| + 1
            && forall i :: 0 <= i <= |calls| ==>
                 var c := CallAt(calls, i);
                 ReadLine(lines[i]) == Some(RecordMembers(i + 1, c.kind, Sanitized(c.summary), Marked(c)))
  {
    hide JsonRecord, FullTextLine, Sanitized, Sensitive, Started, ReadLine, RecordMembers;
    JournalIsWhole(io, calls);
    var lines := Records(calls);
    forall i | 0 <= i <= |calls|
      ensures IsLine(lines[i])
      ensures var c := CallAt(calls, i);
              ReadLine(lines[i]) == Some(RecordMembers(i + 1, c.kind, Sanitized(c.summary), Marked(c)))
    {
      var c := CallAt(calls, i);
      StartIsPrintable();
      SanitizedIsPrintable(c.summary);
      RecordReadsBack(i + 1, c.kind, Sanitized(c.summary), Marked(c));
    }
    SplitConcat(lines);
  }

  lemma StartIsPrintable()
    ensures Printable("journal_started")
  {
  }
}
