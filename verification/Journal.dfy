/** The session journal: submitted commands are sanitised before they are stored, and neither of the two
    journal texts ever holds one of the sensitive words. */
module Journal {
  import opened CText
  import opened TextBuffer
  import opened TextStore
  import opened Search

  const BUFFER_MAX: nat := 8191
  const SUMMARY_MAX: nat := 159
  const LINE_MAX: nat := 223
  const JSONL_PATH := "/vita/audit/session-journal.jsonl"
  const TEXT_PATH := "/vita/audit/session-journal.txt"
  const REDACTION := "[redacted sensitive command]"

  const WORDS: seq<string> :=
    ["password", "passwd", "token", "secret", "api_key", "apikey", "key=", "clave", "contrasena"]

  /** Some sensitive word occurs in the text. */
  ghost predicate Sensitive(text: string) {
    exists k :: 0 <= k < |WORDS| && Occurs(text, WORDS[k])
  }

  // ---- Mapping characters cannot create a match

  /** The characters of the sensitive words. */
  predicate WordSymbol(c: char) { 'a' <= c <= 'z' || c == '_' || c == '=' }

  predicate Symbols(w: string) { w != "" && forall i :: 0 <= i < |w| ==> WordSymbol(w[i]) }

  function MapText(f: char -> string, s: string): string {
    if s == "" then "" else f(s[0]) + MapText(f, s[1..])
  }

  /** Word symbols stay as they are; anything else becomes something without word symbols. */
  ghost predicate Respects(f: char -> string) {
    && (forall c :: WordSymbol(c) ==> f(c) == [c])
    && (forall c, i :: !WordSymbol(c) && 0 <= i < |f(c)| ==> !WordSymbol(f(c)[i]))
    && (forall c :: f(c) != "")
  }

  lemma {:induction false} MappedPrefix(f: char -> string, s: string, w: string)
    requires Respects(f) && forall i :: 0 <= i < |w| ==> WordSymbol(w[i])
    requires w <= MapText(f, s)
    ensures w <= s
  {
    if w != "" && s != "" {
      assert MapText(f, s)[0] == f(s[0])[0] == w[0];
      var rest := MapText(f, s[1..]);
      assert MapText(f, s) == [s[0]] + rest;
      assert w[1..] <= rest by {
        assert rest == MapText(f, s)[1..];
      }
      MappedPrefix(f, s[1..], w[1..]);
      assert s == [s[0]] + s[1..] && w == [w[0]] + w[1..];
    }
  }

  /** An occurrence in a concatenation lies in one of the two texts or straddles their border. */
  lemma WhereItOccurs(a: string, b: string, w: string, i: int)
    requires OccursAt(a + b, w, i)
    ensures OccursAt(a, w, i) || OccursAt(b, w, i - |a|)
            || (0 <= i < |a| < i + |w| <= |a| + |b| && w[|a| - 1 - i] == a[|a| - 1] && w[|a| - i] == b[0])
  {
    var s := a + b;
    assert w == s[i..i + |w|];
    if i + |w| <= |a| {
      assert s[i..i + |w|] == a[i..i + |w|];
    } else if i >= |a| {
      assert s[i..i + |w|] == b[i - |a|..i - |a| + |w|];
    }
  }

  /** Joining at a character that is no word symbol creates no match. */
  lemma OccursInConcatenation(a: string, b: string, w: string)
    requires Symbols(w) && a != "" && b != "" && (!WordSymbol(a[|a| - 1]) || !WordSymbol(b[0]))
    ensures Occurs(a + b, w) ==> Occurs(a, w) || Occurs(b, w)
  {
    if Occurs(a + b, w) {
      var i :| OccursAt(a + b, w, i);
      WhereItOccurs(a, b, w, i);
    }
  }

  lemma NoSymbolsNoMatch(a: string, w: string)
    requires Symbols(w) && forall i :: 0 <= i < |a| ==> !WordSymbol(a[i])
    ensures !Occurs(a, w)
  {
    forall i ensures !OccursAt(a, w, i) {
      if 0 <= i <= i + |w| <= |a| {
        assert a[i..i + |w|][0] == a[i];
      }
    }
  }

  lemma OccursLater(s: string, w: string)
    requires s != ""
    ensures Occurs(s[1..], w) ==> Occurs(s, w)
  {
    if Occurs(s[1..], w) {
      var i :| OccursAt(s[1..], w, i);
      assert s[i + 1..i + 1 + |w|] == s[1..][i..i + |w|];
      assert OccursAt(s, w, i + 1);
    }
  }

  lemma OccursFirstOrLater(s: string, w: string)
    requires s != ""
    ensures Occurs(s, w) ==> w <= s || Occurs(s[1..], w)
  {
    if Occurs(s, w) {
      var i :| OccursAt(s, w, i);
      if i == 0 {
        assert s[..|w|] == s[0..0 + |w|];
      } else {
        assert s[1..][i - 1..i - 1 + |w|] == s[i..i + |w|];
        assert OccursAt(s[1..], w, i - 1);
      }
    }
  }

  /** A match in the mapped text is a match in the text. */
  lemma {:induction false} MappingCreatesNoMatch(f: char -> string, s: string, w: string)
    requires Respects(f) && Symbols(w)
    ensures Occurs(MapText(f, s), w) ==> Occurs(s, w)
  {
    hide Occurs, Symbols;
    if s == "" {
      MapNothing(f);
    } else {
      MappingCreatesNoMatch(f, s[1..], w);
      OccursLater(s, w);
      var rest := MapText(f, s[1..]);
      if WordSymbol(s[0]) {
        assert MapText(f, s)[1..] == rest;
        OccursFirstOrLater(MapText(f, s), w);
        if w <= MapText(f, s) {
          WordPrefix(f, s, w);
        }
      } else {
        NoSymbolsNoMatch(f(s[0]), w);
        if rest == "" {
          assert MapText(f, s) == f(s[0]);
        } else {
          OccursInConcatenation(f(s[0]), rest, w);
        }
      }
    }
  }

  lemma WordPrefix(f: char -> string, s: string, w: string)
    requires Respects(f) && Symbols(w) && w <= MapText(f, s)
    ensures Occurs(s, w)
  {
    MappedPrefix(f, s, w);
    assert OccursAt(s, w, 0);
  }

  lemma PrefixHasNoNewMatch(s: string, n: nat, w: string)
    requires n <= |s|
    ensures Occurs(s[..n], w) ==> Occurs(s, w)
  {
    if Occurs(s[..n], w) {
      var i :| OccursAt(s[..n], w, i);
      assert s[i..i + |w|] == s[..n][i..i + |w|];
      assert OccursAt(s, w, i);
    }
  }

  // ---- Texts free of sensitive words

  lemma WordsAreSymbols(k: nat)
    requires k < |WORDS|
    ensures Symbols(WORDS[k])
  {
    assert Symbols("password") && Symbols("passwd") && Symbols("token");
    assert Symbols("secret") && Symbols("api_key") && Symbols("apikey");
    assert Symbols("key=") && Symbols("clave") && Symbols("contrasena");
  }

  lemma FreeMapped(f: char -> string, s: string)
    requires Respects(f) && !Sensitive(s)
    ensures !Sensitive(MapText(f, s))
  {
    hide Occurs, Symbols;
    forall k | 0 <= k < |WORDS|
      ensures !Occurs(MapText(f, s), WORDS[k])
    {
      WordsAreSymbols(k);
      MappingCreatesNoMatch(f, s, WORDS[k]);
    }
  }

  lemma FreeClipped(s: string, n: nat)
    requires !Sensitive(s)
    ensures !Sensitive(Clip(s, n))
  {
    hide Occurs;
    forall k | 0 <= k < |WORDS|
      ensures !Occurs(Clip(s, n), WORDS[k])
    {
      if |s| > n { PrefixHasNoNewMatch(s, n, WORDS[k]); }
    }
  }

  /** Joining at a character that is no word symbol creates no match. */
  lemma FreeJoined(a: string, b: string)
    requires !Sensitive(a) && !Sensitive(b)
    requires a == "" || b == "" || !WordSymbol(a[|a| - 1]) || !WordSymbol(b[0])
    ensures !Sensitive(a + b)
  {
    hide Occurs, Symbols;
    if a == "" {
      assert a + b == b;
    } else if b == "" {
      assert a + b == a;
    } else {
      forall k | 0 <= k < |WORDS|
        ensures !Occurs(a + b, WORDS[k])
      {
        WordsAreSymbols(k);
        OccursInConcatenation(a, b, WORDS[k]);
      }
    }
  }

  lemma OccurringLetter(s: string, w: string, j: nat)
    requires j < |w| && w[j] !in s
    ensures !Occurs(s, w)
  {
    forall i ensures !OccursAt(s, w, i) {
      if 0 <= i <= i + |w| <= |s| {
        assert s[i..i + |w|][j] == s[i + j];
      }
    }
  }

  /** A text in which every sensitive word misses one of its letters. */
  predicate FreeBySight(s: string) {
    ('w' !in s || 'p' !in s) && 'k' !in s && ('v' !in s || 'c' !in s) && ('s' !in s || 'c' !in s || 't' !in s)
  }

  lemma FreeSight(s: string)
    requires FreeBySight(s)
    ensures !Sensitive(s)
  {
    hide Occurs;
    assert !Occurs(s, "password") by {
      if 'p' !in s { OccurringLetter(s, "password", 0); } else { OccurringLetter(s, "password", 4); }
    }
    assert !Occurs(s, "passwd") by {
      if 'p' !in s { OccurringLetter(s, "passwd", 0); } else { OccurringLetter(s, "passwd", 4); }
    }
    OccurringLetter(s, "token", 2);
    OccurringLetter(s, "api_key", 4);
    OccurringLetter(s, "apikey", 3);
    OccurringLetter(s, "key=", 0);
    assert !Occurs(s, "clave") by {
      if 'v' !in s { OccurringLetter(s, "clave", 3); } else { OccurringLetter(s, "clave", 0); }
    }
    assert !Occurs(s, "secret") by {
      if 's' !in s { OccurringLetter(s, "secret", 0); }
      else if 'c' !in s { OccurringLetter(s, "secret", 2); }
      else { OccurringLetter(s, "secret", 5); }
    }
    assert !Occurs(s, "contrasena") by {
      if 's' !in s { OccurringLetter(s, "contrasena", 6); }
      else if 'c' !in s { OccurringLetter(s, "contrasena", 0); }
      else { OccurringLetter(s, "contrasena", 3); }
    }
  }

  predicate EndsApart(s: string) { s != "" && !WordSymbol(s[|s| - 1]) }

  lemma FreeThree(a: string, b: string, c: string)
    requires !Sensitive(a) && !Sensitive(b) && !Sensitive(c) && EndsApart(a) && EndsApart(b)
    ensures !Sensitive(a + b + c)
  {
    hide Sensitive;
    FreeJoined(a, b);
    FreeJoined(a + b, c);
  }

  lemma FreeFive(a: string, b: string, c: string, d: string, e: string)
    requires !Sensitive(a) && !Sensitive(b) && !Sensitive(c) && !Sensitive(d) && !Sensitive(e)
    requires EndsApart(a) && EndsApart(b) && EndsApart(c) && EndsApart(d)
    ensures !Sensitive(a + b + c + d + e)
  {
    hide Sensitive;
    FreeThree(a, b, c);
    FreeThree(a + b + c, d, e);
  }

  /** The pieces of the fixed texts, one lemma each to keep the letter checks small: the header's three lines,
      the redaction, and the punctuation of a record and of a text line. */
  lemma VitaOsPersistentIsFree() ensures !Sensitive("VitaOS persistent ") { FreeSight("VitaOS persistent "); }
  lemma SessionJournalIsFree() ensures !Sensitive("session journal / ") { FreeSight("session journal / "); }
  lemma BitacoraIsFree() ensures !Sensitive("Bitacora ") { FreeSight("Bitacora "); }
  lemma PersistenteDeIsFree() ensures !Sensitive("persistente de ") { FreeSight("persistente de "); }
  lemma SesionVitaOsIsFree() ensures !Sensitive("sesion VitaOS") { FreeSight("sesion VitaOS"); }
  lemma VisibleAuditIsFree() ensures !Sensitive("Visible audit ") { FreeSight("Visible audit "); }
  lemma NoteSubmittedIsFree() ensures !Sensitive("note: submitted ") { FreeSight("note: submitted "); }
  lemma CommandsIsFree() ensures !Sensitive("commands ") { FreeSight("commands "); }
  lemma AndSummarizedIsFree() ensures !Sensitive("and summarized ") { FreeSight("and summarized "); }
  lemma SystemResponsesIsFree() ensures !Sensitive("system responses ") { FreeSight("system responses "); }
  lemma AreRecordedIsFree() ensures !Sensitive("are recorded.") { FreeSight("are recorded."); }
  lemma NotaVisibleIsFree() ensures !Sensitive("Nota visible: se ") { FreeSight("Nota visible: se "); }
  lemma RegistranIsFree() ensures !Sensitive("registran ") { FreeSight("registran "); }
  lemma ComandosIsFree() ensures !Sensitive("comandos ") { FreeSight("comandos "); }
  lemma EnviadosYIsFree() ensures !Sensitive("enviados y ") { FreeSight("enviados y "); }
  lemma RespuestasResumidasIsFree() ensures !Sensitive("respuestas resumidas ") { FreeSight("respuestas resumidas "); }
  lemma DelSistemaIsFree() ensures !Sensitive("del sistema.") { FreeSight("del sistema."); }
  lemma RedactedMarkIsFree() ensures !Sensitive("[redacted ") { FreeSight("[redacted "); }
  lemma SensitiveMarkIsFree() ensures !Sensitive("sensitive ") { FreeSight("sensitive "); }
  lemma CommandMarkIsFree() ensures !Sensitive("command]") { FreeSight("command]"); }
  lemma RecordStartIsFree() ensures !Sensitive("{\"seq\":") { FreeSight("{\"seq\":"); }
  lemma TypeKeyIsFree() ensures !Sensitive(",\"type\":\"") { FreeSight(",\"type\":\""); }
  lemma SummaryKeyIsFree() ensures !Sensitive("\",\"summary\":\"") { FreeSight("\",\"summary\":\""); }
  lemma RedactedKeyIsFree() ensures !Sensitive("\",\"redacted\":") { FreeSight("\",\"redacted\":"); }
  lemma TrueAndEndIsFree() ensures !Sensitive("true}\n") { FreeSight("true}\n"); }
  lemma FalseAndEndIsFree() ensures !Sensitive("false}\n") { FreeSight("false}\n"); }
  lemma RedactedTagIsFree() ensures !Sensitive(" [redacted]") { FreeSight(" [redacted]"); }
  lemma NumberSignIsFree() ensures !Sensitive("#") && !Sensitive(" ") { FreeSight("#"); FreeSight(" "); }
  lemma StartedKindIsFree() ensures !Sensitive("journal_started") { FreeSight("journal_started"); }
  lemma ColonAndNothingIsFree() ensures !Sensitive(": ") && !Sensitive("") { FreeSight(": "); FreeSight(""); }

  // ---- Sanitising

  function SanitizeChar(c: char): string {
    if c == '\r' || c == '\n' || c == '\t' then " "
    else if 32 <= c as int < 127 then [c]
    else "?"
  }

  /** What is stored for a command or a summary. */
  ghost function Sanitized(src: string): string {
    if Sensitive(src) then REDACTION else Clip(MapText(SanitizeChar, src), SUMMARY_MAX)
  }

  lemma SanitizeRespects()
    ensures Respects(SanitizeChar)
  {
  }

  lemma RedactionIsFree()
    ensures !Sensitive(REDACTION)
  {
    hide Sensitive;
    RedactedMarkIsFree(); SensitiveMarkIsFree(); CommandMarkIsFree();
    FreeThree("[redacted ", "sensitive ", "command]");
    assert REDACTION == "[redacted " + "sensitive " + "command]";
  }

  /** Whatever the command says, the summary that is stored holds no sensitive word. */
  lemma SanitizedIsFree(src: string)
    ensures !Sensitive(Sanitized(src))
  {
    if Sensitive(src) {
      RedactionIsFree();
    } else {
      SanitizeRespects();
      FreeMapped(SanitizeChar, src);
      FreeClipped(MapText(SanitizeChar, src), SUMMARY_MAX);
    }
  }

  // ---- Records

  function EscapeChar(c: char): string {
    if c == '"' then "\\\"" else if c == '\\' then "\\\\"
    else if c == '\n' || c == '\r' then " "
    else if c as int < 32 then "?"
    else [c]
  }

  function JsonRecord(n: nat, kind: string, summary: string, redacted: bool): string {
    "{\"seq\":" + Decimal(n) + ",\"type\":\"" + MapText(EscapeChar, kind) + "\",\"summary\":\""
    + MapText(EscapeChar, summary) + "\",\"redacted\":" + (if redacted then "true" else "false") + "}\n"
  }

  function FullTextLine(n: nat, kind: string, summary: string, redacted: bool): string {
    "#" + Decimal(n) + " " + kind + ": " + summary + (if redacted then " [redacted]" else "")
  }

  function TextLine(n: nat, kind: string, summary: string, redacted: bool): string {
    Clip(FullTextLine(n, kind, summary, redacted), LINE_MAX)
  }

  datatype Texts = Texts(jsonl: string, text: string, seqNo: nat, truncated: bool, active: bool)

  /** One call to the journal: an event type, what it says, and whether the record shows the redaction. */
  datatype Call = Call(kind: string, summary: string, redactCheck: bool)

  ghost function Recorded(t: Texts, c: Call): Texts {
    var n, safe, redacted := t.seqNo + 1, Sanitized(c.summary), c.redactCheck && Sensitive(c.summary);
    var json, line := JsonRecord(n, c.kind, safe, redacted), TextLine(n, c.kind, safe, redacted);
    t.(jsonl := Clip(t.jsonl + json, BUFFER_MAX), text := Clip(t.text + line + "\n", BUFFER_MAX), seqNo := n,
       truncated := t.truncated || |t.jsonl + json| > BUFFER_MAX || |FullTextLine(n, c.kind, safe, redacted)| > LINE_MAX
         || |t.text + line| >= BUFFER_MAX)
  }

  /** A journal that is not active ignores the call. */
  ghost function Added(t: Texts, c: Call): Texts { if t.active then Recorded(t, c) else t }

  // The header's lines, cut where the absence of the sensitive words can be judged piece by piece.
  const HEADER1 := "VitaOS persistent " + "session journal / " + "Bitacora " + "persistente de " + "sesion VitaOS"
  const HEADER2 :=
    "Visible audit " + "note: submitted " + "commands " + "and summarized " + "system responses are recorded."
  const HEADER3 :=
    "Nota visible: se " + "registran " + "comandos " + "enviados y " + "respuestas resumidas del sistema."
  const HEADER := HEADER1 + "\n" + HEADER2 + "\n" + HEADER3 + "\n" + "" + "\n"

  const STARTED := Call("journal_started", "persistent session journal active", false)

  const NoJournal := Texts("", "", 0, false, false)

  /** How a flush goes: two writes and, if both succeed, two reads. */
  datatype Io = Io(jsonl: WriteResult, text: WriteResult, readable: bool)

  /** A flush succeeds when both texts were stored and read back whole: texts of 2048 bytes or more never are. */
  predicate FlushOk(t: Texts, io: Io) {
    t.active && io.jsonl.Written? && io.text.Written? && io.readable && |t.jsonl| < READ_MAX && |t.text| < READ_MAX
  }

  /** Starting the journal: storage must be verified, and the first flush must succeed. */
  ghost function Started(verified: bool, io: Io): Texts {
    if !verified then NoJournal
    else
      var t := Recorded(Texts("", HEADER, 0, false, true), STARTED);
      t.(active := FlushOk(t, io))
  }

  ghost function After(start: Texts, calls: seq<Call>): Texts {
    if calls == [] then start else Added(After(start, calls[..|calls| - 1]), calls[|calls| - 1])
  }

  // ---- No sensitive word is ever stored

  lemma EscapeRespects()
    ensures Respects(EscapeChar)
  {
  }

  lemma DecimalIsFree(n: nat)
    ensures !Sensitive(Decimal(n))
  {
    FreeSight(Decimal(n));
  }

  lemma FlagIsFree(redacted: bool)
    ensures !Sensitive((if redacted then "true" else "false") + "}\n")
    ensures !Sensitive(if redacted then " [redacted]" else "")
  {
    hide Sensitive;
    TrueAndEndIsFree(); FalseAndEndIsFree(); RedactedTagIsFree(); ColonAndNothingIsFree();
    assert "true" + "}\n" == "true}\n" && "false" + "}\n" == "false}\n";
  }

  lemma JsonRecordIsFree(n: nat, kind: string, summary: string, redacted: bool)
    requires !Sensitive(kind) && !Sensitive(summary)
    ensures !Sensitive(JsonRecord(n, kind, summary, redacted)) && JsonRecord(n, kind, summary, redacted)[0] == '{'
  {
    hide Sensitive, MapText, EscapeChar, Decimal;
    var k, s := MapText(EscapeChar, kind), MapText(EscapeChar, summary);
    var flag := (if redacted then "true" else "false") + "}\n";
    EscapeRespects();
    FreeMapped(EscapeChar, kind);
    FreeMapped(EscapeChar, summary);
    DecimalIsFree(n);
    FlagIsFree(redacted);
    RecordStartIsFree(); TypeKeyIsFree(); SummaryKeyIsFree(); RedactedKeyIsFree();
    FreeJoined("\",\"redacted\":", flag);
    var r1 := "\",\"redacted\":" + flag;
    FreeJoined(s, r1);
    FreeJoined("\",\"summary\":\"", s + r1);
    var r2 := "\",\"summary\":\"" + (s + r1);
    FreeJoined(k, r2);
    FreeJoined(",\"type\":\"", k + r2);
    var r3 := ",\"type\":\"" + (k + r2);
    FreeJoined(Decimal(n), r3);
    FreeJoined("{\"seq\":", Decimal(n) + r3);
    JsonRecordGroups(Decimal(n), k, s, if redacted then "true" else "false");
  }

  lemma JsonRecordGroups(d: string, k: string, s: string, flag: string)
    ensures "{\"seq\":" + d + ",\"type\":\"" + k + "\",\"summary\":\"" + s + "\",\"redacted\":" + flag + "}\n"
         == "{\"seq\":" + (d + (",\"type\":\"" + (k + ("\",\"summary\":\""
            + (s + ("\",\"redacted\":" + (flag + "}\n")))))))
  {
  }

  lemma FullLineIsFree(d: string, kind: string, summary: string, flag: string)
    requires !Sensitive(d) && !Sensitive(kind) && !Sensitive(summary) && !Sensitive(flag)
      && (flag == "" || flag[0] == ' ')
    ensures !Sensitive("#" + (d + (" " + (kind + (": " + (summary + flag))))))
  {
    hide Sensitive;
    NumberSignIsFree(); ColonAndNothingIsFree();
    FreeJoined(summary, flag);
    FreeJoined(": ", summary + flag);
    FreeJoined(kind, ": " + (summary + flag));
    FreeJoined(" ", kind + (": " + (summary + flag)));
    FreeJoined(d, " " + (kind + (": " + (summary + flag))));
    FreeJoined("#", d + (" " + (kind + (": " + (summary + flag)))));
  }

  lemma FullLineGroups(d: string, kind: string, summary: string, flag: string)
    ensures "#" + d + " " + kind + ": " + summary + flag == "#" + (d + (" " + (kind + (": " + (summary + flag)))))
  {
  }

  lemma TextLineIsFree(n: nat, kind: string, summary: string, redacted: bool)
    requires !Sensitive(kind) && !Sensitive(summary)
    ensures !Sensitive(TextLine(n, kind, summary, redacted))
    ensures var line := TextLine(n, kind, summary, redacted); line != "" && line[0] == '#'
  {
    hide Sensitive, Decimal;
    var flag := if redacted then " [redacted]" else "";
    DecimalIsFree(n);
    FlagIsFree(redacted);
    FullLineIsFree(Decimal(n), kind, summary, flag);
    FullLineGroups(Decimal(n), kind, summary, flag);
    FreeClipped(FullTextLine(n, kind, summary, redacted), LINE_MAX);
  }

  lemma RecordedIsFree(t: Texts, c: Call)
    requires !Sensitive(t.jsonl) && !Sensitive(t.text) && !Sensitive(c.kind)
    ensures !Sensitive(Recorded(t, c).jsonl) && !Sensitive(Recorded(t, c).text)
  {
    hide Sensitive, Sanitized, JsonRecord, TextLine, FullTextLine, Clip;
    var n, safe, redacted := t.seqNo + 1, Sanitized(c.summary), c.redactCheck && Sensitive(c.summary);
    SanitizedIsFree(c.summary);
    var json, line := JsonRecord(n, c.kind, safe, redacted), TextLine(n, c.kind, safe, redacted);
    JsonRecordIsFree(n, c.kind, safe, redacted);
    FreeJoined(t.jsonl, json);
    FreeClipped(t.jsonl + json, BUFFER_MAX);
    TextLineIsFree(n, c.kind, safe, redacted);
    FreeJoined(t.text, line);
    NewlineIsFree();
    FreeJoined(t.text + line, "\n");
    FreeClipped(t.text + line + "\n", BUFFER_MAX);
  }

  lemma Header1IsFree()
    ensures !Sensitive(HEADER1)
  {
    hide Sensitive;
    VitaOsPersistentIsFree(); SessionJournalIsFree(); BitacoraIsFree(); PersistenteDeIsFree(); SesionVitaOsIsFree();
    FreeFive("VitaOS persistent ", "session journal / ", "Bitacora ", "persistente de ", "sesion VitaOS");
  }

  lemma Header2IsFree()
    ensures !Sensitive(HEADER2)
  {
    hide Sensitive;
    VisibleAuditIsFree(); NoteSubmittedIsFree(); CommandsIsFree();
    AndSummarizedIsFree(); SystemResponsesIsFree(); AreRecordedIsFree();
    FreeJoined("system responses ", "are recorded.");
    assert "system responses " + "are recorded." == "system responses are recorded.";
    FreeFive("Visible audit ", "note: submitted ", "commands ", "and summarized ", "system responses are recorded.");
  }

  lemma Header3IsFree()
    ensures !Sensitive(HEADER3)
  {
    hide Sensitive;
    NotaVisibleIsFree(); RegistranIsFree(); ComandosIsFree();
    EnviadosYIsFree(); RespuestasResumidasIsFree(); DelSistemaIsFree();
    FreeJoined("respuestas resumidas ", "del sistema.");
    assert "respuestas resumidas " + "del sistema." == "respuestas resumidas del sistema.";
    FreeFive("Nota visible: se ", "registran ", "comandos ", "enviados y ", "respuestas resumidas del sistema.");
  }

  lemma NewlineIsFree()
    ensures !Sensitive("\n") && !Sensitive("")
  {
    FreeSight("\n");
    FreeSight("");
  }

  lemma HeaderIsFree()
    ensures !Sensitive(HEADER)
  {
    hide Sensitive, HEADER1, HEADER2, HEADER3;
    Header1IsFree();
    Header2IsFree();
    Header3IsFree();
    NewlineIsFree();
    FreeJoined(HEADER1, "\n");
    FreeJoined(HEADER1 + "\n", HEADER2);
    FreeJoined(HEADER1 + "\n" + HEADER2, "\n");
    FreeJoined(HEADER1 + "\n" + HEADER2 + "\n", HEADER3);
    FreeJoined(HEADER1 + "\n" + HEADER2 + "\n" + HEADER3, "\n");
    FreeJoined(HEADER1 + "\n" + HEADER2 + "\n" + HEADER3 + "\n", "");
    FreeJoined(HEADER1 + "\n" + HEADER2 + "\n" + HEADER3 + "\n" + "", "\n");
  }

  lemma StartedIsFree(verified: bool, io: Io)
    ensures !Sensitive(Started(verified, io).jsonl) && !Sensitive(Started(verified, io).text)
  {
    hide Sensitive, Recorded, HEADER;
    HeaderIsFree();
    NewlineIsFree();
    StartedKindIsFree();
    RecordedIsFree(Texts("", HEADER, 0, false, true), STARTED);
  }

  /** Over every start of the journal and every sequence of calls, whatever their texts, neither journal text
      ever holds one of the nine sensitive words. */
  lemma {:induction false} NothingSensitiveIsStored(verified: bool, io: Io, calls: seq<Call>)
    requires forall i :: 0 <= i < |calls| ==> !Sensitive(calls[i].kind)
    ensures var t := After(Started(verified, io), calls); !Sensitive(t.jsonl) && !Sensitive(t.text)
    decreases |calls|
  {
    hide Sensitive, Recorded, Started;
    if calls == [] {
      StartedIsFree(verified, io);
    } else {
      NothingSensitiveIsStored(verified, io, calls[..|calls| - 1]);
      RecordedIsFree(After(Started(verified, io), calls[..|calls| - 1]), calls[|calls| - 1]);
    }
  }

  /** An inactive journal never comes back to life: nothing is added to it. */
  lemma {:induction false} InactiveStays(start: Texts, calls: seq<Call>)
    requires !start.active
    ensures After(start, calls) == start
    decreases |calls|
  {
    if calls != [] {
      InactiveStays(start, calls[..|calls| - 1]);
    }
  }

  lemma ClipLength(s: string, n: nat)
    ensures |Clip(s, n)| == if |s| <= n then |s| else n
  {
  }

  class Log {
    const jsonl: Buffer
    const text: Buffer
    const store: Store
    var initialized: bool
    var active: bool
    var seqNo: nat
    var truncated: bool
    var lastFlushOk: bool

    ghost predicate Valid()
      reads this, jsonl, jsonl.data, text, text.data
    {
      && jsonl != text && jsonl.data != text.data
      && jsonl.Valid() && text.Valid() && jsonl.Max() == BUFFER_MAX == text.Max()
    }

    ghost function View(): Texts
      requires Valid()
      reads this, jsonl, jsonl.data, text, text.data
    {
      Texts(jsonl.Text(), text.Text(), seqNo, truncated, initialized && active)
    }

    constructor (storage: Store)
      ensures Valid() && View() == NoJournal && store == storage
      ensures fresh(jsonl) && fresh(jsonl.data) && fresh(text) && fresh(text.data)
    {
      jsonl := new Buffer(BUFFER_MAX + 1);
      text := new Buffer(BUFFER_MAX + 1);
      store := storage;
      initialized, active, seqNo, truncated, lastFlushOk := false, false, 0, false, false;
    }

    method Init(verified: bool, io: Io) returns (ok: bool)
      requires Valid()
      modifies this, jsonl, jsonl.data, text, text.data, store
      ensures Valid() && View() == Started(verified, io) && (ok <==> View().active)
    {
      hide Recorded, HEADER;
      initialized, active, truncated, lastFlushOk, seqNo := true, verified, false, false, 0;
      jsonl.Reset();
      text.Reset();
      if !active {
        return false;
      }
      AppendHeader();
      AddEvent(STARTED, io);
      if !lastFlushOk {
        active := false;
        return false;
      }
      return true;
    }

    method AppendHeader()
      requires Valid() && text.Text() == "" && !truncated
      modifies text, text.data, this`truncated
      ensures Valid() && text.Text() == HEADER && !truncated && jsonl.Text() == old(jsonl.Text())
    {
      hide Clip, HEADER, HEADER1, HEADER2, HEADER3;
      HeaderFits();
      AppendTextLine(HEADER1);
      AppendTextLine(HEADER2);
      AppendTextLine(HEADER3);
      AppendTextLine("");
    }

    /** Clips what does not fit and remembers that it did. */
    method AppendToBuffer(buf: Buffer, s: string)
      requires buf.Valid()
      modifies buf, buf.data, this`truncated
      ensures buf.Valid() && buf.Text() == Clip(old(buf.Text()) + s, buf.Max())
      ensures truncated == (old(truncated) || |old(buf.Text())| + |s| > buf.Max())
    {
      var whole := buf.Append(s);
      if !whole {
        truncated := true;
      }
    }

    method AppendTextLine(line: string)
      requires Valid()
      modifies text, text.data, this`truncated
      ensures Valid() && jsonl.Text() == old(jsonl.Text())
      ensures text.Text() == Clip(old(text.Text()) + line + "\n", BUFFER_MAX)
      ensures truncated == (old(truncated) || |old(text.Text()) + line| >= BUFFER_MAX)
    {
      ghost var start := text.Text();
      AppendToBuffer(text, line);
      AppendToBuffer(text, "\n");
      ClipAppend(start + line, "\n", BUFFER_MAX);
    }

    method AppendJson(s: string)
      requires Valid()
      modifies jsonl, jsonl.data, this`truncated
      ensures Valid() && text.Text() == old(text.Text())
      ensures jsonl.Text() == Clip(old(jsonl.Text()) + s, BUFFER_MAX)
      ensures truncated == (old(truncated) || |old(jsonl.Text())| + |s| > BUFFER_MAX)
    {
      AppendToBuffer(jsonl, s);
    }

    method AppendJsonEscaped(s: string)
      requires Valid()
      modifies jsonl, jsonl.data, this`truncated
      ensures Valid() && text.Text() == old(text.Text())
      ensures jsonl.Text() == Clip(old(jsonl.Text()) + MapText(EscapeChar, s), BUFFER_MAX)
      ensures truncated == (old(truncated) || |old(jsonl.Text())| + |MapText(EscapeChar, s)| > BUFFER_MAX)
    {
      hide EscapeChar;
      ghost var start := jsonl.Text();
      MapNothing(EscapeChar);
      assert s[..0] == "" && start + "" == start;
      for i := 0 to |s|
        invariant Valid() && text.Text() == old(text.Text())
        invariant jsonl.Text() == Clip(start + MapText(EscapeChar, s[..i]), BUFFER_MAX)
        invariant truncated == (old(truncated) || |start| + |MapText(EscapeChar, s[..i])| > BUFFER_MAX)
      {
        hide MapText, Clip;
        ghost var so := start + MapText(EscapeChar, s[..i]);
        ClipLength(so, BUFFER_MAX);
        AppendJson(EscapeChar(s[i]));
        ClipAppend(so, EscapeChar(s[i]), BUFFER_MAX);
        MapAppend(EscapeChar, s[..i], s[i]);
        assert s[..i + 1] == s[..i] + [s[i]];
        assert so + EscapeChar(s[i]) == start + (MapText(EscapeChar, s[..i]) + EscapeChar(s[i]));
      }
      assert s[..|s|] == s;
    }

    method AppendJsonRecord(kind: string, summary: string, redacted: bool)
      requires Valid()
      modifies jsonl, jsonl.data, this`truncated
      ensures Valid() && text.Text() == old(text.Text())
      ensures jsonl.Text() == Clip(old(jsonl.Text()) + JsonRecord(seqNo, kind, summary, redacted), BUFFER_MAX)
      ensures truncated == (old(truncated)
        || |old(jsonl.Text()) + JsonRecord(seqNo, kind, summary, redacted)| > BUFFER_MAX)
    {
      hide MapText, EscapeChar, Decimal, Clip;
      ghost var was, start := truncated, jsonl.Text();
      ghost var head := AppendHead(kind, start, was);
      ghost var all := AppendTail(summary, redacted, head, was);
      RecordAppended(start, Decimal(seqNo), MapText(EscapeChar, kind), MapText(EscapeChar, summary),
                     if redacted then "true" else "false");
    }

    /** The record up to its type. */
    method AppendHead(kind: string, ghost soFar: string, ghost was: bool) returns (ghost extended: string)
      requires Valid() && jsonl.Text() == Clip(soFar, BUFFER_MAX) && truncated == (was || |soFar| > BUFFER_MAX)
      modifies jsonl, jsonl.data, this`truncated
      ensures Valid() && text.Text() == old(text.Text())
      ensures extended == soFar + "{\"seq\":" + Decimal(seqNo) + ",\"type\":\"" + MapText(EscapeChar, kind)
      ensures jsonl.Text() == Clip(extended, BUFFER_MAX) && truncated == (was || |extended| > BUFFER_MAX)
    {
      hide MapText, EscapeChar, Decimal, Clip;
      ghost var a0 := Extend("{\"seq\":", soFar, was);
      ghost var a1 := Extend(Decimal(seqNo), a0, was);
      ghost var a2 := Extend(",\"type\":\"", a1, was);
      extended := ExtendEscaped(kind, a2, was);
    }

    /** The record from its summary on. */
    method AppendTail(summary: string, redacted: bool, ghost soFar: string, ghost was: bool)
      returns (ghost extended: string)
      requires Valid() && jsonl.Text() == Clip(soFar, BUFFER_MAX) && truncated == (was || |soFar| > BUFFER_MAX)
      modifies jsonl, jsonl.data, this`truncated
      ensures Valid() && text.Text() == old(text.Text())
      ensures extended == soFar + "\",\"summary\":\"" + MapText(EscapeChar, summary) + "\",\"redacted\":"
                          + (if redacted then "true" else "false") + "}\n"
      ensures jsonl.Text() == Clip(extended, BUFFER_MAX) && truncated == (was || |extended| > BUFFER_MAX)
    {
      hide MapText, EscapeChar, Clip;
      ghost var a4 := Extend("\",\"summary\":\"", soFar, was);
      ghost var a5 := ExtendEscaped(summary, a4, was);
      ghost var a6 := Extend("\",\"redacted\":", a5, was);
      ghost var a7 := Extend(if redacted then "true" else "false", a6, was);
      extended := Extend("}\n", a7, was);
    }

    /** Appends a piece to the clipped form of `soFar`. */
    method Extend(s: string, ghost soFar: string, ghost was: bool) returns (ghost extended: string)
      requires Valid() && jsonl.Text() == Clip(soFar, BUFFER_MAX) && truncated == (was || |soFar| > BUFFER_MAX)
      modifies jsonl, jsonl.data, this`truncated
      ensures Valid() && text.Text() == old(text.Text()) && extended == soFar + s
      ensures jsonl.Text() == Clip(extended, BUFFER_MAX) && truncated == (was || |extended| > BUFFER_MAX)
    {
      AppendJson(s);
      ClipAppend(soFar, s, BUFFER_MAX);
      extended := soFar + s;
    }

    method ExtendEscaped(s: string, ghost soFar: string, ghost was: bool) returns (ghost extended: string)
      requires Valid() && jsonl.Text() == Clip(soFar, BUFFER_MAX) && truncated == (was || |soFar| > BUFFER_MAX)
      modifies jsonl, jsonl.data, this`truncated
      ensures Valid() && text.Text() == old(text.Text()) && extended == soFar + MapText(EscapeChar, s)
      ensures jsonl.Text() == Clip(extended, BUFFER_MAX) && truncated == (was || |extended| > BUFFER_MAX)
    {
      hide MapText, EscapeChar;
      AppendJsonEscaped(s);
      ClipAppend(soFar, MapText(EscapeChar, s), BUFFER_MAX);
      extended := soFar + MapText(EscapeChar, s);
    }

    method AppendTextRecord(kind: string, summary: string, redacted: bool)
      requires Valid()
      modifies text, text.data, this`truncated
      ensures Valid() && jsonl.Text() == old(jsonl.Text())
      ensures text.Text() == Clip(old(text.Text()) + TextLine(seqNo, kind, summary, redacted) + "\n", BUFFER_MAX)
      ensures truncated == (old(truncated) || |FullTextLine(seqNo, kind, summary, redacted)| > LINE_MAX
                            || |old(text.Text()) + TextLine(seqNo, kind, summary, redacted)| >= BUFFER_MAX)
    {
      hide Decimal;
      var line := new Buffer(LINE_MAX + 1);
      AppendToBuffer(line, "#" + Decimal(seqNo) + " " + kind + ": " + summary + if redacted then " [redacted]" else "");
      assert "" + FullTextLine(seqNo, kind, summary, redacted) == FullTextLine(seqNo, kind, summary, redacted);
      AppendTextLine(line.data[..line.len]);
    }

    /** Whether any of the nine words occurs in the text. */
    method LooksSensitive(s: string) returns (found: bool)
      ensures found <==> Sensitive(s)
    {
      hide Occurs;
      found := false;
      for k := 0 to |WORDS|
        invariant found <==> exists j :: 0 <= j < k && Occurs(s, WORDS[j])
      {
        WordsAreSymbols(k);
        var hit := Contains(s, WORDS[k]);
        found := found || hit;
      }
    }

    method SanitizeText(src: string) returns (safe: string, redacted: bool)
      ensures safe == Sanitized(src) && (redacted <==> Sensitive(src))
    {
      hide Sensitive, SanitizeChar;
      redacted := LooksSensitive(src);
      if redacted {
        return REDACTION, true;
      }
      safe := "";
      MapNothing(SanitizeChar);
      var i := 0;
      while i < |src| && |safe| < SUMMARY_MAX
        invariant i <= |src| && |safe| == i <= SUMMARY_MAX
        invariant safe == MapText(SanitizeChar, src[..i])
      {
        MapAppend(SanitizeChar, src[..i], src[i]);
        assert src[..i + 1] == src[..i] + [src[i]];
        OneCharacter(src[i]);
        safe := safe + SanitizeChar(src[i]);
        i := i + 1;
      }
      MapTake(src, i);
    }

    /** One call to the journal, and the flush it ends with. */
    method AddEvent(c: Call, io: Io)
      requires Valid()
      modifies this, jsonl, jsonl.data, text, text.data, store
      ensures Valid() && View() == Added(old(View()), c)
      ensures initialized == old(initialized) && active == old(active)
      ensures old(View()).active ==> (lastFlushOk <==> FlushOk(View(), io))
      ensures !old(View()).active ==> store.files == old(store.files)
      ensures View().active && io.jsonl.Written? ==>
        JSONL_PATH in store.files && store.files[JSONL_PATH] == jsonl.Text()
      ensures View().active && io.text.Written? ==> TEXT_PATH in store.files && store.files[TEXT_PATH] == text.Text()
    {
      hide Sanitized, Sensitive, JsonRecord, TextLine, FullTextLine, Clip;
      if !initialized || !active {
        return;
      }
      var safe, redacted := SanitizeText(c.summary);
      if !c.redactCheck {
        redacted := false;
      }
      seqNo := seqNo + 1;
      AppendJsonRecord(c.kind, safe, redacted);
      AppendTextRecord(c.kind, safe, redacted);
      var _ := Flush(io);
    }

    method Flush(io: Io) returns (ok: bool)
      requires Valid()
      modifies this`lastFlushOk, store
      ensures Valid() && View() == old(View())
      ensures ok <==> FlushOk(View(), io)
      ensures View().active ==> lastFlushOk == ok
      ensures !View().active ==> store.files == old(store.files) && lastFlushOk == old(lastFlushOk)
      ensures View().active ==>
        store.files == AfterWrite(AfterWrite(old(store.files), JSONL_PATH, jsonl.Text(), io.jsonl), TEXT_PATH,
                                  text.Text(), io.text)
      ensures View().active && io.jsonl.Written? ==>
        JSONL_PATH in store.files && store.files[JSONL_PATH] == jsonl.Text()
      ensures View().active && io.text.Written? ==> TEXT_PATH in store.files && store.files[TEXT_PATH] == text.Text()
    {
      if !initialized || !active {
        return false;
      }
      assert JSONL_PATH[|JSONL_PATH| - 1] == 'l' && TEXT_PATH[|TEXT_PATH| - 1] == 't';
      var okJsonl := store.WriteText(JSONL_PATH, jsonl.data[..jsonl.len], io.jsonl);
      var okText := store.WriteText(TEXT_PATH, text.data[..text.len], io.text);
      lastFlushOk := false;
      if okJsonl && okText {
        var a := store.ReadText(JSONL_PATH, READ_MAX, io.readable);
        var b := store.ReadText(TEXT_PATH, READ_MAX, io.readable);
        lastFlushOk := a == Some(jsonl.data[..jsonl.len]) && b == Some(text.data[..text.len]);
      }
      return lastFlushOk;
    }
  }

  lemma RecordAppended(start: string, d: string, k: string, s: string, flag: string)
    ensures start + "{\"seq\":" + d + ",\"type\":\"" + k + "\",\"summary\":\"" + s + "\",\"redacted\":" + flag + "}\n"
         == start + ("{\"seq\":" + d + ",\"type\":\"" + k + "\",\"summary\":\"" + s + "\",\"redacted\":" + flag + "}\n")
  {
  }

  lemma OneCharacter(c: char)
    ensures |SanitizeChar(c)| == 1
  {
  }

  lemma {:induction false} MapLength(s: string)
    ensures |MapText(SanitizeChar, s)| == |s|
  {
    if s != "" {
      MapLength(s[1..]);
    }
  }

  lemma MapTake(s: string, n: nat)
    requires n == |s| || (n == SUMMARY_MAX && n <= |s|)
    ensures n <= SUMMARY_MAX ==> MapText(SanitizeChar, s[..n]) == Clip(MapText(SanitizeChar, s), SUMMARY_MAX)
  {
    MapLength(s);
    MapSplit(s, n);
    MapLength(s[..n]);
    assert n == |s| ==> s[..n] == s;
  }

  lemma {:induction false} MapSplit(s: string, n: nat)
    requires n <= |s|
    ensures MapText(SanitizeChar, s) == MapText(SanitizeChar, s[..n]) + MapText(SanitizeChar, s[n..])
  {
    if n == 0 {
      assert s[..0] == "" && s[0..] == s;
      assert "" + MapText(SanitizeChar, s) == MapText(SanitizeChar, s);
    } else {
      MapSplit(s[1..], n - 1);
      assert s[..n][1..] == s[1..][..n - 1] && s[1..][n - 1..] == s[n..];
      assert SanitizeChar(s[0]) + (MapText(SanitizeChar, s[1..][..n - 1]) + MapText(SanitizeChar, s[n..]))
          == SanitizeChar(s[0]) + MapText(SanitizeChar, s[1..][..n - 1]) + MapText(SanitizeChar, s[n..]);
    }
  }

  lemma HeaderFits()
    ensures var a := "" + HEADER1 + "\n"; var b := a + HEADER2 + "\n";
            var c := b + HEADER3 + "\n"; var d := c + "" + "\n";
            (d == HEADER && |HEADER| < 1000
             && Clip(a, BUFFER_MAX) == a && Clip(b, BUFFER_MAX) == b
             && Clip(c, BUFFER_MAX) == c && Clip(d, BUFFER_MAX) == d)
  {
    assert "" + HEADER1 == HEADER1;
  }

  lemma MapNothing(f: char -> string)
    ensures MapText(f, "") == ""
  {
  }

  lemma {:induction false} MapAppend(f: char -> string, s: string, c: char)
    ensures MapText(f, s + [c]) == MapText(f, s) + f(c)
  {
    if s == "" {
      assert s + [c] == [c] && [c][1..] == "";
    } else {
      MapAppend(f, s[1..], c);
      assert (s + [c])[1..] == s[1..] + [c];
      assert f(s[0]) + (MapText(f, s[1..]) + f(c)) == f(s[0]) + MapText(f, s[1..]) + f(c);
    }
  }
}
