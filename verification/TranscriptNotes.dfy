/** Reading the TXT transcript: its lines give back the number, the type and the text of the events. */
module TranscriptNotes {
  import opened CText
  import opened JsonLines
  import opened TranscriptRecord
  import opened TranscriptPaths
  import opened TextStore
  import opened Transcript
  import opened TranscriptRuns

  datatype Note = Note(number: string, kind: string, text: string)

  /** A line of the TXT transcript, its line feed included: a number in brackets, a type up to a colon, and the text. */
  function ReadNote(line: string): Note {
    var number := Until(Rest(line, 1), ']');
    var tail := Rest(line, |number| + 3);
    var kind := Until(tail, ':');
    var text := Rest(tail, |kind| + 2);
    Note(number, kind, if text == "" then "" else text[..|text| - 1])
  }

  /** What of an event's text its line has room for. */
  function Room(kind: string): nat { if |kind| <= 244 then 244 - |kind| else 0 }

  lemma SixHasNoBracket(n: nat)
    ensures ']' !in Six(n)
  {
  }

  /** A bracketed number, a type, and a text, read from the line. */
  lemma NoteIsRead(number: string, kind: string, text: string)
    requires ']' !in number && ':' !in kind
    ensures ReadNote("[" + number + "] " + kind + ": " + text + "\n") == Note(number, kind, text)
  {
    hide Until;
    var line := "[" + number + "] " + kind + ": " + text + "\n";
    var tail := kind + [':'] + ([' '] + text + ['\n']);
    assert line == ['['] + (number + [']'] + ([' '] + tail));
    UntilStops(number, ']', [' '] + tail);
    assert Rest(line, 1) == number + [']'] + ([' '] + tail);
    assert Rest(line, |number| + 3) == tail;
    UntilStops(kind, ':', [' '] + text + ['\n']);
    assert Rest(tail, |kind| + 2) == text + ['\n'];
    assert (text + ['\n'])[..|text|] == text;
  }

  /** The line of an event gives its number, its type, and as much of its text as the line holds. */
  lemma EventLineReadsBack(n: nat, kind: string, text: string)
    requires ':' !in kind && |kind| <= 244
    ensures ReadNote(TxtLine(n, kind, text)) == NoteOf(n, kind, text)
  {
    hide Six, ReadNote;
    SixHasNoBracket(n);
    var cut := Clip(text, Room(kind));
    var head := "[" + Six(n) + "] " + kind + ": ";
    assert head + text == head + cut + text[|cut|..];
    assert Clip(head + text, 255) == head + cut;
    NoteIsRead(Six(n), kind, cut);
  }

  /** So does the line that reports a truncation. */
  lemma TruncationReadsBack(n: nat)
    ensures ReadNote(TruncationNotice(n)) == Note(Six(n), "transcript_truncated", "jsonl capacity reached")
  {
    hide Six, ReadNote;
    SixHasNoBracket(n);
    NoteIsRead(Six(n), "transcript_truncated", "jsonl capacity reached");
    NoticeInPieces();
    var a, b, c, d := "transcript_truncated", ": ", "jsonl capacity reached", "\n";
    assert "[" + Six(n) + "] " + (a + b + c + d) == "[" + Six(n) + "] " + a + b + c + d;
  }

  lemma NoticeInPieces()
    ensures "transcript_truncated" + ": " + "jsonl capacity reached" + "\n"
         == "transcript_truncated: jsonl capacity reached\n"
  {
    assert "transcript_truncated" + ": " == "transcript_truncated: ";
    assert "jsonl capacity reached" + "\n" == "jsonl capacity reached\n";
    assert "transcript_truncated: " + "jsonl capacity reached\n" == "transcript_truncated: jsonl capacity reached\n";
  }

  // ---- All notes of a run

  function EntriesOf(rs: seq<Record>): seq<Record> {
    if rs == [] then []
    else EntriesOf(rs[..|rs| - 1]) + if rs[|rs| - 1].Entry? then [rs[|rs| - 1]] else []
  }

  /** What a reader should get of an entry. */
  function NoteOf(n: nat, kind: string, text: string): Note { Note(Six(n), kind, Clip(text, Room(kind))) }

  predicate OneLine(kind: string, text: string) {
    ':' !in kind && |kind| <= 244 && NoLineFeed(kind) && NoLineFeed(text)
  }

  predicate NotesAreLines(rs: seq<Record>) {
    forall i :: 0 <= i < |rs| && rs[i].Entry? ==> OneLine(rs[i].kind, rs[i].text)
  }

  function NoteLines(rs: seq<Record>): seq<string> {
    seq(|EntriesOf(rs)|, i requires 0 <= i < |EntriesOf(rs)| =>
      var r := EntriesOf(rs)[i]; if r.Entry? then TxtLine(r.seqNo, r.kind, r.text) else "")
  }

  lemma {:induction false} EntriesAreEntries(rs: seq<Record>)
    ensures forall i :: 0 <= i < |EntriesOf(rs)| ==> EntriesOf(rs)[i].Entry? && EntriesOf(rs)[i] in rs
    decreases |rs|
  {
    if rs != [] {
      EntriesAreEntries(rs[..|rs| - 1]);
    }
  }

  lemma {:induction false} NotesAreConcatenated(rs: seq<Record>)
    ensures Notes(rs) == Concat(NoteLines(rs))
    decreases |rs|
  {
    hide TxtLine;
    if rs != [] {
      var front, r := rs[..|rs| - 1], rs[|rs| - 1];
      NotesAreConcatenated(front);
      if r.Entry? {
        assert NoteLines(rs) == NoteLines(front) + [TxtLine(r.seqNo, r.kind, r.text)];
        ConcatAppend(NoteLines(front), TxtLine(r.seqNo, r.kind, r.text));
      } else {
        assert NoteLines(rs) == NoteLines(front);
      }
    }
  }

  lemma TxtLineIsLine(n: nat, kind: string, text: string)
    requires OneLine(kind, text)
    ensures IsLine(TxtLine(n, kind, text))
  {
    var line := "[" + Six(n) + "] " + kind + ": " + text;
    assert TxtLine(n, kind, text)[..|TxtLine(n, kind, text)| - 1] == Clip(line, 255);
  }

  /** Splitting the notes of some records at their line feeds and reading each line gives their entries. */
  lemma NotesReadBack(rs: seq<Record>)
    requires NotesAreLines(rs)
    ensures var lines, entries := SplitLines(Notes(rs)), EntriesOf(rs);
            |lines| == |entries|
            && forall i :: 0 <= i < |lines| ==>
                 entries[i].Entry?
                 && ReadNote(lines[i]) == NoteOf(entries[i].seqNo, entries[i].kind, entries[i].text)
  {
    hide TxtLine, ReadNote, Six, OneLine, Notes;
    EntriesAreEntries(rs);
    NotesAreConcatenated(rs);
    var lines, entries := NoteLines(rs), EntriesOf(rs);
    forall i | 0 <= i < |lines|
      ensures IsLine(lines[i])
      ensures ReadNote(lines[i]) == NoteOf(entries[i].seqNo, entries[i].kind, entries[i].text)
    {
      var r := entries[i];
      assert OneLine(r.kind, r.text);
      assert ':' !in r.kind && |r.kind| <= 244 by { OneLineMeans(r.kind, r.text); }
      TxtLineIsLine(r.seqNo, r.kind, r.text);
      EventLineReadsBack(r.seqNo, r.kind, r.text);
    }
    SplitConcat(lines);
  }

  lemma OneLineMeans(kind: string, text: string)
    requires OneLine(kind, text)
    ensures ':' !in kind && |kind| <= 244
  {
  }

  lemma {:induction false} EventsAreEntries(rs: seq<Record>)
    ensures |EventsOf(rs)| == |EntriesOf(rs)|
    ensures forall i :: 0 <= i < |EventsOf(rs)| ==>
      var r := EntriesOf(rs)[i]; r.Entry? && EventsOf(rs)[i] == Event(r.kind, r.actor, r.text)
    decreases |rs|
  {
    if rs != [] {
      EventsAreEntries(rs[..|rs| - 1]);
    }
  }

  lemma {:induction false} EntriesInclude(rs: seq<Record>, k: nat)
    requires k < |rs| && rs[k].Entry?
    ensures exists i :: 0 <= i < |EntriesOf(rs)| && EntriesOf(rs)[i] == rs[k]
    decreases |rs|
  {
    var n := |rs| - 1;
    if k < n {
      EntriesInclude(rs[..n], k);
      var i :| 0 <= i < |EntriesOf(rs[..n])| && EntriesOf(rs[..n])[i] == rs[k];
      assert EntriesOf(rs)[i] == rs[k];
    } else {
      assert EntriesOf(rs)[|EntriesOf(rs[..n])|] == rs[k];
    }
  }

  /** One line per event, in order: it gives the event's type, as much of its text as a line holds, and the number
      of its entry. */
  predicate NotesShow(lines: seq<string>, entries: seq<Record>, inputs: seq<Input>) {
    |lines| == |entries| == |inputs|
    && forall i :: 0 <= i < |inputs| ==> ReadNote(lines[i]) == NoteOf(entries[i].seqNo, inputs[i].kind, inputs[i].text)
  }

  lemma EntriesAreInputs(rs: seq<Record>, inputs: seq<Input>)
    requires EventsOf(rs) == Requested(inputs)
    ensures |EntriesOf(rs)| == |inputs|
    ensures forall i :: 0 <= i < |inputs| ==>
      var r := EntriesOf(rs)[i]; r.Entry? && r.kind == inputs[i].kind && r.text == inputs[i].text
  {
    hide EventsOf, EntriesOf;
    EventsAreEntries(rs);
    forall i | 0 <= i < |inputs|
      ensures var r := EntriesOf(rs)[i]; r.Entry? && r.kind == inputs[i].kind && r.text == inputs[i].text
    {
      assert EventsOf(rs)[i] == Requested(inputs)[i];
    }
  }

  lemma InputsMakeLines(rs: seq<Record>, inputs: seq<Input>)
    requires EventsOf(rs) == Requested(inputs)
    requires forall i :: 0 <= i < |inputs| ==> OneLine(inputs[i].kind, inputs[i].text)
    ensures NotesAreLines(rs)
  {
    hide EventsOf, EntriesOf, OneLine;
    EntriesAreInputs(rs, inputs);
    forall k | 0 <= k < |rs| && rs[k].Entry?
      ensures OneLine(rs[k].kind, rs[k].text)
    {
      EntriesInclude(rs, k);
      var i :| 0 <= i < |EntriesOf(rs)| && EntriesOf(rs)[i] == rs[k];
      assert OneLine(inputs[i].kind, inputs[i].text);
    }
  }

  /** Over every run that leaves the transcript active, not truncated and its TXT text whole: behind the header stand
      the lines of the events, each with the number its JSONL record has. */
  lemma TxtReadsBack(s: Session, header: string, files: Files, inputs: seq<Input>)
    requires |s.id| <= SESSION_ID_MAX && forall i :: 0 <= i < |inputs| ==> OneLine(inputs[i].kind, inputs[i].text)
    requires var st := Run(s, Opening(header, files), inputs);
             st.active && !st.locked && |header + Notes(All(st))| <= 65535
    ensures var st := Run(s, Opening(header, files), inputs);
            header <= st.txt && NotesShow(SplitLines(st.txt[|header|..]), EntriesOf(All(st)), inputs)
  {
    hide Run, All, ReadNote, Six, OneLine, Notes, EntriesOf, EventsOf, NoteOf, NotesAreLines, SplitLines;
    var st := Run(s, Opening(header, files), inputs);
    TxtTellsTheSame(s, header, files, inputs);
    NothingIsLost(s, header, files, inputs);
    EntriesAreInputs(All(st), inputs);
    InputsMakeLines(All(st), inputs);
    assert st.txt[|header|..] == Notes(All(st));
    NotesReadBack(All(st));
  }
}
