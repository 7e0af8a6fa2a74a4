/** The session transcript as a machine: bounded buffers, whole records, rotation to a new part file, and
    writes that may fail at any point. */
module Transcript {
  import opened CText
  import opened TranscriptRecord
  import opened TranscriptPaths
  import opened TextBuffer
  import opened TextStore

  const BUFFER_MAX: nat := 65535
  const LINE_MAX: nat := 255

  /** How one flush goes: two writes and, for short texts, two reads. */
  datatype Faults = Faults(txt: WriteResult, jsonl: WriteResult, readTxt: bool, readJsonl: bool)

  /** One event with the outcomes of the flush a rotation makes and of the flush at the end. */
  datatype Input = Input(kind: string, actor: string, text: string, rotation: Faults, last: Faults)

  datatype State = State(active: bool, locked: bool, truncated: bool, errorReported: bool, seqNo: nat,
                         txt: string, jsonl: string, part: nat, rotations: nat,
                         closed: seq<seq<Record>>, current: seq<Record>, files: Files)

  /** A session whose names are chosen and whose TXT header is written, before its first event. */
  function Opening(header: string, files: Files): State {
    State(true, false, false, false, 0, Clip(header, BUFFER_MAX), "", 1, 0, [], [], files)
  }

  datatype Outcome<S> = Outcome(state: S, ok: bool)

  function JsonlPath(s: Session, st: State): string { PartPath(s.id, st.part) }

  predicate LongText(text: string) { |text| >= 2047 }

  function Flushed(s: Session, st: State, f: Faults): Outcome<State> {
    var files := AfterWrite(st.files, TxtPath(s.id), st.txt, f.txt);
    if !f.txt.Written? then Outcome(st.(files := files), false)
    else
      var all := AfterWrite(files, JsonlPath(s, st), st.jsonl, f.jsonl);
      Outcome(st.(files := all),
              f.jsonl.Written? && (LongText(st.txt) || LongText(st.jsonl) || (f.readTxt && f.readJsonl)))
  }

  function WithRecord(s: Session, st: State, r: Record): State {
    st.(jsonl := st.jsonl + Stored(s, r), current := st.current + [r])
  }

  predicate HasRoom(s: Session, st: State, r: Record) { |st.jsonl| + |Stored(s, r)| <= BUFFER_MAX }

  function PartMessage(part: nat): string { "part=" + Four(part) }

  function FreshPart(st: State): State {
    st.(part := st.part + 1, rotations := st.rotations + 1, jsonl := "",
        closed := st.closed + [st.current], current := [])
  }

  /** A fresh part, opened by its two control records. */
  function NewPart(s: Session, st: State): State {
    var n := st.seqNo;
    var first := WithRecord(s, FreshPart(st),
                           Control("transcript_rotated", "jsonl part rotated", n + 1)).(seqNo := n + 1);
    WithRecord(s, first, Control("transcript_part_start", PartMessage(first.part), n + 2)).(seqNo := n + 2)
  }

  function Rotated(s: Session, st: State, f: Faults): Outcome<State> {
    var flush := Flushed(s, st, f);
    if !flush.ok then flush else Outcome(NewPart(s, flush.state), true)
  }

  function TruncationNotice(n: nat): string { "[" + Six(n) + "] " + "transcript_truncated: jsonl capacity reached\n" }

  function Marked(st: State): State {
    st.(truncated := true, locked := true, seqNo := st.seqNo + 1,
        txt := Clip(st.txt + TruncationNotice(st.seqNo + 1), BUFFER_MAX))
  }

  /** What remains of the JSONL text once a rotation has failed: at most one last record. */
  function Reported(s: Session, st: State): State {
    if st.truncated then st
    else
      var marked := Marked(st);
      var r := Truncation(marked.seqNo);
      if HasRoom(s, marked, r) then WithRecord(s, marked, r) else marked
  }

  function TxtLine(n: nat, kind: string, text: string): string {
    Clip("[" + Six(n) + "] " + kind + ": " + text, LINE_MAX) + "\n"
  }

  /** The event appended to the JSONL text, in this part or the next, or the truncation reported. */
  function Recorded(s: Session, st: State, e: Input): State {
    var r := Entry(e.kind, e.actor, e.text, st.seqNo + 1);
    if st.locked then st.(seqNo := st.seqNo + 1)
    else if HasRoom(s, st, r) then WithRecord(s, st, r).(seqNo := st.seqNo + 1)
    else
      var rotation := Rotated(s, st, e.rotation);
      if !rotation.ok then Reported(s, rotation.state).(seqNo := st.seqNo + 1)
      else
        var n := rotation.state.seqNo + 1;
        WithRecord(s, rotation.state, Entry(e.kind, e.actor, e.text, n)).(seqNo := n)
  }

  function Step(s: Session, st: State, e: Input): State {
    if !st.active then st
    else
      var recorded := Recorded(s, st, e);
      var noted := recorded.(txt := Clip(recorded.txt + TxtLine(recorded.seqNo, e.kind, e.text), BUFFER_MAX));
      var flush := Flushed(s, noted, e.last);
      if flush.ok then flush.state else flush.state.(active := false, errorReported := true)
  }

  function Run(s: Session, st: State, inputs: seq<Input>): State {
    if inputs == [] then st else Step(s, Run(s, st, inputs[..|inputs| - 1]), inputs[|inputs| - 1])
  }

  // ---- The code

  class Log {
    const session: Session
    const txt: Buffer
    const jsonl: Buffer
    const store: Store
    var active: bool
    var errorReported: bool
    var seqNo: nat
    var txtPath: string
    var jsonlPath: string
    var currentPart: nat
    var rotations: nat
    var truncatedReported: bool
    var jsonlLocked: bool
    ghost var closed: seq<seq<Record>>
    ghost var current: seq<Record>

    ghost predicate Valid()
      reads this, txt, txt.data, jsonl, jsonl.data, store
    {
      && txt != jsonl && txt.data != jsonl.data
      && txt.Valid() && jsonl.Valid()
      && txt.Max() == BUFFER_MAX && jsonl.Max() == BUFFER_MAX
      && |session.id| <= SESSION_ID_MAX
      && txtPath == TxtPath(session.id)
      && jsonlPath == PartPath(session.id, currentPart)
    }

    ghost function View(): State
      requires Valid()
      reads this, txt, txt.data, jsonl, jsonl.data, store
    {
      State(active, jsonlLocked, truncatedReported, errorReported, seqNo, txt.Text(), jsonl.Text(),
            currentPart, rotations, closed, current, store.files)
    }

    constructor (s: Session, header: string, storage: Store)
      requires |s.id| <= SESSION_ID_MAX
      ensures Valid() && View() == Opening(header, storage.files)
      ensures session == s && store == storage
      ensures fresh(this) && fresh(txt) && fresh(txt.data) && fresh(jsonl) && fresh(jsonl.data)
    {
      session, store := s, storage;
      txt := new Buffer(BUFFER_MAX + 1);
      jsonl := new Buffer(BUFFER_MAX + 1);
      active, errorReported, truncatedReported, jsonlLocked := true, false, false, false;
      seqNo, currentPart, rotations := 0, 1, 0;
      txtPath, jsonlPath := TxtPath(s.id), PartPath(s.id, 1);
      closed, current := [], [];
      new;
      var _ := txt.Append(header);
      assert "" + header == header;
    }

    method Flush(f: Faults) returns (ok: bool)
      requires Valid()
      modifies store
      ensures Valid() && Outcome(View(), ok) == Flushed(session, old(View()), f)
    {
      var text, lines := txt.data[..txt.len], jsonl.data[..jsonl.len];
      TxtIsNoPart(session.id, session.id, currentPart);
      var written := store.WriteText(txtPath, text, f.txt);
      if !written {
        return false;
      }
      written := store.WriteText(jsonlPath, lines, f.jsonl);
      if !written {
        return false;
      }
      if txt.len >= READ_MAX - 1 || jsonl.len >= READ_MAX - 1 {
        return true;
      }
      var a := store.ReadText(txtPath, READ_MAX, f.readTxt);
      var b := store.ReadText(jsonlPath, READ_MAX, f.readJsonl);
      return a == Some(text) && b == Some(lines);
    }

    /** Appends a built line to the JSONL text, whole or not at all. */
    method AppendRecord(line: Buffer, ghost r: Record) returns (ok: bool)
      requires Valid() && line.Valid() && line.Text() == Stored(session, r)
      requires line != txt && line != jsonl && line.data != txt.data && line.data != jsonl.data
      modifies jsonl, jsonl.data, this`current
      ensures Valid()
      ensures ok <==> HasRoom(session, old(View()), r)
      ensures View() == if ok then WithRecord(session, old(View()), r) else old(View())
    {
      hide Stored, PartPath, TxtPath;
      var text := line.data[..line.len];
      ok := jsonl.AppendWhole(text);
      if ok {
        current := current + [r];
      }
    }

    /** Numbers and appends one of the transcript's own records to a part that has just begun. */
    method AppendControl(kind: string, text: string)
      requires Valid() && !jsonlLocked && |jsonl.Text()| <= 1000
      modifies this`seqNo, this`current, jsonl, jsonl.data
      ensures Valid()
      ensures View() == WithRecord(session, old(View()), Control(kind, text, old(seqNo) + 1)).(seqNo := old(seqNo) + 1)
      ensures seqNo == old(seqNo) + 1
    {
      hide Stored, Log.Valid, Log.View;
      Shows();
      SetSeq(seqNo + 1);
      StoredBound(session, Control(kind, text, seqNo));
      var ok := AppendBuilt(512, Control(kind, text, seqNo));
      assert ok; // so the failure branches of the rotation are never taken
    }

    /** Empties the JSONL text and moves on to the next part's name. */
    method BeginPart()
      requires Valid()
      modifies this`current, this`closed, this`currentPart, this`rotations, this`jsonlPath, jsonl, jsonl.data
      ensures Valid() && View() == FreshPart(old(View()))
    {
      hide PartPath, TxtPath;
      currentPart := currentPart + 1;
      rotations := rotations + 1;
      jsonl.Reset();
      closed, current := closed + [current], [];
      jsonlPath := PartPath(session.id, currentPart);
    }

    /** What the view shows of the fields. */
    lemma Shows()
      requires Valid()
      ensures var v := View();
              v.active == active && v.locked == jsonlLocked && v.seqNo == seqNo && v.part == currentPart
              && v.truncated == truncatedReported && v.jsonl == jsonl.Text() && v.txt == txt.Text()
    {
    }

    method RotateJsonlPart(f: Faults) returns (ok: bool)
      requires Valid() && !jsonlLocked
      modifies this`seqNo, this`current, this`closed, this`currentPart, this`rotations, this`jsonlPath
      modifies jsonl, jsonl.data, store
      ensures Valid() && Outcome(View(), ok) == Rotated(session, old(View()), f)
      ensures !ok ==> seqNo == old(seqNo)
      ensures ok ==> seqNo == old(seqNo) + 2
    {
      hide Stored, Flushed, Log.Valid, Log.View, PartPath;
      Shows();
      ok := Flush(f);
      if !ok {
        return;
      }
      BeginPart();
      Shows();
      AppendControl("transcript_rotated", "jsonl part rotated");
      Shows();
      StoredBound(session, Control("transcript_rotated", "jsonl part rotated", seqNo));
      AppendControl("transcript_part_start", PartMessage(currentPart));
    }

    /** The TXT half of the truncation report. */
    method MarkTruncated()
      requires Valid()
      modifies this`truncatedReported, this`jsonlLocked, this`seqNo, txt, txt.data
      ensures Valid() && View() == Marked(old(View())) && seqNo == old(seqNo) + 1
    {
      hide TruncationNotice, Clip, PartPath, TxtPath;
      truncatedReported := true;
      jsonlLocked := true;
      seqNo := seqNo + 1;
      var _ := txt.Append(TruncationNotice(seqNo));
    }

    method ReportTruncatedOnce()
      requires Valid()
      modifies this`truncatedReported, this`jsonlLocked, this`seqNo, this`current, txt, txt.data, jsonl, jsonl.data
      ensures Valid() && View() == Reported(session, old(View()))
    {
      hide Stored, Log.Valid, Log.View, TruncationNotice;
      Shows();
      if truncatedReported {
        return;
      }
      MarkTruncated();
      var _ := AppendBuilt(256, Truncation(seqNo));
    }

    /** Builds the line of a record in a local buffer of `cap` bytes and appends it. */
    method AppendBuilt(cap: nat, r: Record) returns (ok: bool)
      requires Valid() && cap == LineMax(r) + 1
      modifies jsonl, jsonl.data, this`current
      ensures Valid()
      ensures ok <==> HasRoom(session, old(View()), r)
      ensures View() == if ok then WithRecord(session, old(View()), r) else old(View())
    {
      hide Stored, Log.View, TxtPath, PartPath;
      ghost var before := View();
      var line := new Buffer(cap);
      BuildLine(line, session, r);
      assert Valid() && View() == before;
      ok := AppendRecord(line, r);
    }

    method SetSeq(n: nat)
      requires Valid()
      modifies this`seqNo
      ensures Valid() && View() == old(View()).(seqNo := n) && seqNo == n
    {
      seqNo := n;
    }

    /** The JSONL half of an event: the record, a rotation before it, or the truncation notice. */
    method RecordEvent(e: Input)
      requires Valid()
      modifies this, txt, txt.data, jsonl, jsonl.data, store
      ensures Valid() && View() == Recorded(session, old(View()), e)
    {
      hide Stored, NewPart, Reported, Flushed, HasRoom, Log.Valid, Log.View;
      Shows();
      ghost var before := View();
      var eventSeq := seqNo + 1;
      if !jsonlLocked {
        var ok := AppendBuilt(1024, Entry(e.kind, e.actor, e.text, eventSeq));
        if !ok {
          ok := RotateJsonlPart(e.rotation);
          if !ok {
            ReportTruncatedOnce();
          } else {
            Shows();
            eventSeq := seqNo + 1;
            RoomAfterRotation(session, Flushed(session, before, e.rotation).state,
                              Entry(e.kind, e.actor, e.text, eventSeq));
            ok := AppendBuilt(1024, Entry(e.kind, e.actor, e.text, eventSeq));
            assert ok; // so the second truncation branch is never taken
          }
        }
      }
      SetSeq(eventSeq);
    }

    /** The TXT half of an event. */
    method NoteInTxt(kind: string, text: string)
      requires Valid()
      modifies txt, txt.data
      ensures Valid()
      ensures View() == old(View()).(txt := Clip(old(txt.Text()) + TxtLine(seqNo, kind, text), BUFFER_MAX))
    {
      hide Six, Clip, TxtPath, PartPath;
      var line := new Buffer(LINE_MAX + 1);
      ghost var before := txt.Text();
      var _ := line.Append("[" + Six(seqNo) + "] " + kind + ": " + text);
      var _ := txt.Append(line.data[..line.len]);
      var _ := txt.Append("\n");
      ClipAppend(before + line.Text(), "\n", BUFFER_MAX);
      TxtLineAppended(before, seqNo, kind, text, line.Text());
    }

    method Event(e: Input)
      requires Valid()
      modifies this, txt, txt.data, jsonl, jsonl.data, store
      ensures Valid() && View() == Step(session, old(View()), e)
    {
      hide Recorded, Flushed, TxtLine, Log.Valid, Log.View;
      Shows();
      if !active {
        return;
      }
      RecordEvent(e);
      Shows();
      NoteInTxt(e.kind, e.text);
      var ok := Flush(e.last);
      if !ok {
        Deactivate();
      }
    }

    method Deactivate()
      requires Valid()
      modifies this`active, this`errorReported
      ensures Valid() && View() == old(View()).(active := false, errorReported := true)
    {
      active := false;
      errorReported := true;
    }
  }

  lemma TxtLineAppended(txt: string, n: nat, kind: string, text: string, line: string)
    requires line == Clip("" + ("[" + Six(n) + "] " + kind + ": " + text), LINE_MAX)
    ensures (txt + line) + "\n" == txt + TxtLine(n, kind, text)
  {
    hide Six, Clip;
    assert "" + ("[" + Six(n) + "] " + kind + ": " + text) == "[" + Six(n) + "] " + kind + ": " + text;
  }

  lemma StoredBound(s: Session, r: Record)
    ensures |Stored(s, r)| <= LineMax(r)
  {
  }

  lemma RoomAfterRotation(s: Session, st: State, r: Record)
    ensures HasRoom(s, NewPart(s, st), r)
  {
    hide Stored;
    StoredBound(s, r);
    StoredBound(s, Control("transcript_rotated", "jsonl part rotated", st.seqNo + 1));
    StoredBound(s, Control("transcript_part_start", PartMessage(st.part + 1), st.seqNo + 2));
  }
}
