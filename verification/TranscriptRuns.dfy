/** What every run of the transcript keeps, under any pattern of failing writes: the parts joined in order
    are whole records numbered 1, 2, 3, ..., and parts that were rotated out never change. */
module TranscriptRuns {
  import opened CText
  import opened JsonText
  import opened JsonLines
  import opened TranscriptRecord
  import opened TranscriptPaths
  import opened TextStore
  import opened Transcript

  function Flatten(parts: seq<seq<Record>>): seq<Record> {
    if parts == [] then [] else Flatten(parts[..|parts| - 1]) + parts[|parts| - 1]
  }

  /** Every record of the run, part after part. */
  function All(st: State): seq<Record> { Flatten(st.closed) + st.current }

  predicate Numbered(rs: seq<Record>) { forall i :: 0 <= i < |rs| ==> rs[i].seqNo == i + 1 }

  predicate Counted(st: State) {
    && Numbered(All(st))
    && |All(st)| <= st.seqNo
    && (!st.locked ==> |All(st)| == st.seqNo)
    && st.truncated == st.locked
    && st.part == |st.closed| + 1
    && st.rotations == |st.closed|
  }

  predicate Holds(files: Files, path: string, text: string) { path in files && files[path] == text }

  function ClosedPath(s: Session, i: nat): string { PartPath(s.id, i + 1) }

  /** Each part that was rotated out is still in storage as it was. */
  predicate ClosedStored(s: Session, st: State) {
    forall i :: 0 <= i < |st.closed| ==> Holds(st.files, ClosedPath(s, i), Body(s, st.closed[i]))
  }

  predicate Invariant(s: Session, st: State) {
    && Counted(st)
    && st.jsonl == Body(s, st.current)
    && (st.part <= PARTS_DISTINCT ==> ClosedStored(s, st))
  }

  /** Storage holds exactly the two texts in memory. */
  predicate Synced(s: Session, st: State) {
    Holds(st.files, TxtPath(s.id), st.txt) && Holds(st.files, JsonlPath(s, st), st.jsonl)
  }

  // ---- One step at a time

  lemma FlushKeeps(s: Session, st: State, f: Faults)
    requires |s.id| <= SESSION_ID_MAX && Invariant(s, st)
    ensures var o := Flushed(s, st, f);
            Invariant(s, o.state) && o.state == st.(files := o.state.files) && (o.ok ==> Synced(s, o.state))
  {
    hide Body, PartPath, TxtPath, Flatten;
    TxtIsNoPart(s.id, s.id, st.part);
    forall i | 0 <= i < |st.closed| && st.part <= PARTS_DISTINCT
      ensures ClosedPath(s, i) != PartPath(s.id, st.part) && ClosedPath(s, i) != TxtPath(s.id)
    {
      PartNamesDistinct(s.id, i + 1, st.part);
      TxtIsNoPart(s.id, s.id, i + 1);
    }
  }

  lemma RecordKeeps(s: Session, st: State, r: Record)
    requires Invariant(s, st) && !st.locked && r.seqNo == st.seqNo + 1
    ensures var t := WithRecord(s, st, r).(seqNo := st.seqNo + 1);
            Invariant(s, t) && All(t) == All(st) + [r]
  {
    hide Body, PartPath, Stored, Flatten;
    BodyAppend(s, st.current, r);
    assert All(WithRecord(s, st, r)) == All(st) + [r];
  }

  lemma FreshPartKeeps(s: Session, st: State)
    requires Invariant(s, st) && Synced(s, st)
    ensures Invariant(s, FreshPart(st)) && All(FreshPart(st)) == All(st)
  {
    hide PartPath, TxtPath, Stored;
    var t := FreshPart(st);
    assert t.closed[..|st.closed|] == st.closed;
    assert Flatten(t.closed) == Flatten(st.closed) + st.current;
    assert Body(s, []) == "";
    forall i | 0 <= i < |t.closed| && t.part <= PARTS_DISTINCT
      ensures Holds(t.files, ClosedPath(s, i), Body(s, t.closed[i]))
    {
      assert i < |st.closed| ==> t.closed[i] == st.closed[i];
    }
  }

  function FirstControl(st: State): Record { Control("transcript_rotated", "jsonl part rotated", st.seqNo + 1) }

  function SecondControl(st: State): Record {
    Control("transcript_part_start", "part=" + Four(st.part + 1), st.seqNo + 2)
  }

  lemma NewPartKeeps(s: Session, st: State)
    requires Invariant(s, st) && Synced(s, st) && !st.locked
    ensures var t := NewPart(s, st);
            && Invariant(s, t) && All(t) == All(st) + [FirstControl(st), SecondControl(st)] && t.locked == st.locked
            && st.closed <= t.closed && t.active == st.active && t.seqNo == st.seqNo + 2
  {
    hide Invariant, All, Stored, Synced;
    var t := FreshPart(st);
    FreshPartKeeps(s, st);
    RecordKeeps(s, t, FirstControl(st));
    var u := WithRecord(s, t, FirstControl(st)).(seqNo := t.seqNo + 1);
    RecordKeeps(s, u, SecondControl(st));
    assert All(st) + [FirstControl(st)] + [SecondControl(st)] == All(st) + [FirstControl(st), SecondControl(st)];
  }

  /** The records that one event adds. */
  function Added(s: Session, st: State, e: Input): seq<Record> {
    var n := st.seqNo;
    if st.locked then []
    else if HasRoom(s, st, Entry(e.kind, e.actor, e.text, n + 1)) then [Entry(e.kind, e.actor, e.text, n + 1)]
    else if Rotated(s, st, e.rotation).ok then
      [FirstControl(st), SecondControl(st), Entry(e.kind, e.actor, e.text, n + 3)]
    else if HasRoom(s, st, Truncation(n + 1)) then [Truncation(n + 1)]
    else []
  }

  lemma ReportKeeps(s: Session, st: State)
    requires Invariant(s, st) && !st.locked
    ensures var t := Reported(s, st).(seqNo := st.seqNo + 1);
            Invariant(s, t) && t.locked
            && All(t) == All(st) + if HasRoom(s, st, Truncation(st.seqNo + 1)) then [Truncation(st.seqNo + 1)] else []
  {
    hide Body, PartPath, Stored, Flatten, TruncationNotice;
    BodyAppend(s, st.current, Truncation(st.seqNo + 1));
    assert Flatten(st.closed) + (st.current + [Truncation(st.seqNo + 1)]) == All(st) + [Truncation(st.seqNo + 1)];
  }

  lemma RecordedKeeps(s: Session, st: State, e: Input)
    requires |s.id| <= SESSION_ID_MAX && Invariant(s, st)
    ensures var t := Recorded(s, st, e);
            Invariant(s, t) && All(t) == All(st) + Added(s, st, e)
            && st.closed <= t.closed && t.active == st.active
  {
    hide All, Stored, Synced, ClosedStored, Flushed, Reported, Body;
    if st.locked {
      LockedCounts(s, st);
    } else if HasRoom(s, st, Entry(e.kind, e.actor, e.text, st.seqNo + 1)) {
      RecordKeeps(s, st, Entry(e.kind, e.actor, e.text, st.seqNo + 1));
    } else {
      FullPartKeeps(s, st, e);
    }
  }

  /** The case in which the current part has no room left. */
  lemma FullPartKeeps(s: Session, st: State, e: Input)
    requires |s.id| <= SESSION_ID_MAX && Invariant(s, st) && !st.locked
    requires !HasRoom(s, st, Entry(e.kind, e.actor, e.text, st.seqNo + 1))
    ensures var t := Recorded(s, st, e);
            Invariant(s, t) && All(t) == All(st) + Added(s, st, e)
            && st.closed <= t.closed && t.active == st.active
  {
    hide All, Stored, Synced, Invariant, Flushed, Reported, HasRoom, NewPart, Four;
    var n, flush := st.seqNo, Flushed(s, st, e.rotation);
    FlushKeeps(s, st, e.rotation);
    FlushChangesFilesOnly(s, st, flush.state);
    if flush.ok {
      NewPartKeeps(s, flush.state);
      var p := NewPart(s, flush.state);
      RecordKeeps(s, p, Entry(e.kind, e.actor, e.text, p.seqNo + 1));
      assert All(st) + [FirstControl(st), SecondControl(st)] + [Entry(e.kind, e.actor, e.text, n + 3)]
          == All(st) + [FirstControl(st), SecondControl(st), Entry(e.kind, e.actor, e.text, n + 3)];
    } else {
      ReportKeeps(s, flush.state);
      ReportKeepsClosed(s, flush.state);
    }
  }

  lemma LockedCounts(s: Session, st: State)
    requires Invariant(s, st) && st.locked
    ensures var t := st.(seqNo := st.seqNo + 1); Invariant(s, t) && All(t) == All(st) + []
  {
    hide Body, PartPath, Flatten;
  }

  lemma FlushChangesFilesOnly(s: Session, st: State, t: State)
    requires t == st.(files := t.files)
    ensures All(t) == All(st) && forall r :: HasRoom(s, t, r) == HasRoom(s, st, r)
  {
  }

  lemma ReportKeepsClosed(s: Session, st: State)
    ensures var t := Reported(s, st); t.closed == st.closed && t.active == st.active && (t.locked || st.truncated)
  {
    hide Stored, TruncationNotice;
  }

  lemma StepKeeps(s: Session, st: State, e: Input)
    requires |s.id| <= SESSION_ID_MAX && Invariant(s, st)
    ensures var t := Step(s, st, e);
            Invariant(s, t) && st.closed <= t.closed && (t.active ==> st.active && Synced(s, t))
            && All(t) == All(st) + if st.active then Added(s, st, e) else []
  {
    if st.active {
      ActiveStepKeeps(s, st, e);
    } else {
      assert All(st) + [] == All(st);
    }
  }

  lemma ActiveStepKeeps(s: Session, st: State, e: Input)
    requires |s.id| <= SESSION_ID_MAX && Invariant(s, st) && st.active
    ensures var t := Step(s, st, e);
            Invariant(s, t) && st.closed <= t.closed && (t.active ==> Synced(s, t))
            && All(t) == All(st) + Added(s, st, e)
            && t.locked == Recorded(s, st, e).locked && t.seqNo == Recorded(s, st, e).seqNo
  {
    hide Flushed, Recorded, ClosedStored, Counted, Body, Clip, TxtLine;
    RecordedKeeps(s, st, e);
    var r := Recorded(s, st, e);
    var noted := r.(txt := Clip(r.txt + TxtLine(r.seqNo, e.kind, e.text), BUFFER_MAX));
    TextDoesNotMatter(s, r, noted);
    FlushKeeps(s, noted, e.last);
    TextDoesNotMatter(s, Flushed(s, noted, e.last).state, Step(s, st, e));
    FlushChangesFilesOnly(s, noted, Flushed(s, noted, e.last).state);
  }

  lemma TextDoesNotMatter(s: Session, st: State, t: State)
    requires t == st.(txt := t.txt, active := t.active, errorReported := t.errorReported) && Invariant(s, st)
    ensures Invariant(s, t) && All(t) == All(st)
  {
    hide Body, PartPath, Flatten;
  }

  lemma OpeningInvariant(s: Session, header: string, files: Files)
    ensures Invariant(s, Opening(header, files)) && All(Opening(header, files)) == []
  {
    hide PartPath, Stored;
    assert Body(s, []) == "";
  }

  lemma {:induction false} RunKeeps(s: Session, header: string, files: Files, inputs: seq<Input>)
    requires |s.id| <= SESSION_ID_MAX
    ensures var st := Run(s, Opening(header, files), inputs);
            Invariant(s, st) && (st.active && inputs != [] ==> Synced(s, st))
    decreases |inputs|
  {
    hide Invariant, Synced, Step;
    if inputs == [] {
      OpeningInvariant(s, header, files);
    } else {
      RunKeeps(s, header, files, inputs[..|inputs| - 1]);
      StepKeeps(s, Run(s, Opening(header, files), inputs[..|inputs| - 1]), inputs[|inputs| - 1]);
    }
  }

  // ---- The parts joined

  lemma {:induction false} BodyConcat(s: Session, xs: seq<Record>, ys: seq<Record>)
    ensures Body(s, xs + ys) == Body(s, xs) + Body(s, ys)
    decreases |ys|
  {
    hide Body, Stored;
    if ys == [] {
      assert xs + ys == xs;
      EmptyBody(s);
    } else {
      var front, y := ys[..|ys| - 1], ys[|ys| - 1];
      BodyConcat(s, xs, front);
      BodyAppend(s, xs + front, y);
      BodyAppend(s, front, y);
      assert ys == front + [y];
      assert xs + (front + [y]) == (xs + front) + [y];
    }
  }

  lemma EmptyBody(s: Session)
    ensures Body(s, []) == ""
  {
  }

  /** The stored parts 1 to `n`, joined in order. */
  function JoinedFiles(s: Session, files: Files, n: nat): string
    requires forall i :: 1 <= i <= n ==> PartPath(s.id, i) in files
  {
    if n == 0 then "" else JoinedFiles(s, files, n - 1) + files[PartPath(s.id, n)]
  }

  lemma {:induction false} JoinedClosed(s: Session, st: State, n: nat)
    requires n <= |st.closed| && ClosedStored(s, st)
    ensures forall i :: 1 <= i <= n ==> PartPath(s.id, i) in st.files
    ensures JoinedFiles(s, st.files, n) == Body(s, Flatten(st.closed[..n]))
  {
    hide Body, PartPath;
    forall i | 1 <= i <= n
      ensures PartPath(s.id, i) in st.files
    {
      assert Holds(st.files, ClosedPath(s, i - 1), Body(s, st.closed[i - 1]));
    }
    if n == 0 {
      EmptyBody(s);
    } else {
      JoinedClosed(s, st, n - 1);
      assert Holds(st.files, ClosedPath(s, n - 1), Body(s, st.closed[n - 1]));
      assert st.closed[..n][..n - 1] == st.closed[..n - 1];
      BodyConcat(s, Flatten(st.closed[..n - 1]), st.closed[n - 1]);
    }
  }

  /** After every run that leaves the transcript active, and whatever failed on the way, the stored parts
      joined in order are the records of the run, whole and numbered 1, 2, 3, .... */
  lemma StoredPartsAreTheRecords(s: Session, header: string, files: Files, inputs: seq<Input>)
    requires |s.id| <= SESSION_ID_MAX
    ensures var st := Run(s, Opening(header, files), inputs);
            Numbered(All(st))
            && (st.active && inputs != [] && st.part <= PARTS_DISTINCT ==>
                  Holds(st.files, TxtPath(s.id), st.txt)
                  && (forall i :: 1 <= i <= st.part ==> PartPath(s.id, i) in st.files)
                  && JoinedFiles(s, st.files, st.part) == Body(s, All(st)))
  {
    hide Body, PartPath, TxtPath, Run, Flatten;
    RunKeeps(s, header, files, inputs);
    var st := Run(s, Opening(header, files), inputs);
    if st.active && inputs != [] && st.part <= PARTS_DISTINCT {
      JoinedClosed(s, st, |st.closed|);
      assert st.closed[..|st.closed|] == st.closed;
      BodyConcat(s, Flatten(st.closed), st.current);
    }
  }

  /** What a run has rotated out stays at the front of the list of closed parts. */
  lemma {:induction false} ClosedGrow(s: Session, header: string, files: Files, inputs: seq<Input>, more: seq<Input>)
    requires |s.id| <= SESSION_ID_MAX
    ensures Run(s, Opening(header, files), inputs).closed <= Run(s, Opening(header, files), inputs + more).closed
    decreases |more|
  {
    hide Invariant, Step;
    var start := Opening(header, files);
    if more == [] {
      assert inputs + more == inputs;
    } else {
      var front, e := more[..|more| - 1], more[|more| - 1];
      ClosedGrow(s, header, files, inputs, front);
      RunKeeps(s, header, files, inputs + front);
      StepKeeps(s, Run(s, start, inputs + front), e);
      assert inputs + more == inputs + front + [e];
      RunSnoc(s, start, inputs + front, e);
    }
  }

  lemma RunSnoc(s: Session, start: State, front: seq<Input>, e: Input)
    ensures Run(s, start, front + [e]) == Step(s, Run(s, start, front), e)
  {
    hide Step;
    assert (front + [e])[..|front|] == front;
  }

  /** A part that was rotated out has the same text after any further events, whatever fails. */
  lemma EarlierPartsNeverChange(s: Session, header: string, files: Files, inputs: seq<Input>, more: seq<Input>, i: nat)
    requires |s.id| <= SESSION_ID_MAX
    requires i < |Run(s, Opening(header, files), inputs).closed|
    requires Run(s, Opening(header, files), inputs + more).part <= PARTS_DISTINCT
    ensures var before := Run(s, Opening(header, files), inputs).files;
            var after := Run(s, Opening(header, files), inputs + more).files;
            var path := ClosedPath(s, i);
            path in before && Holds(after, path, before[path])
  {
    hide Body, PartPath, TxtPath, Run, Flatten, Step;
    RunKeeps(s, header, files, inputs);
    RunKeeps(s, header, files, inputs + more);
    ClosedGrow(s, header, files, inputs, more);
    var st, t := Run(s, Opening(header, files), inputs), Run(s, Opening(header, files), inputs + more);
    var path := ClosedPath(s, i);
    assert Holds(st.files, path, Body(s, st.closed[i])) && Holds(t.files, path, Body(s, t.closed[i]));
  }

  // ---- Nothing is lost, and everything can be read back

  datatype Event = Event(kind: string, actor: string, text: string)

  /** The events among the records, without the transcript's own. */
  function EventsOf(rs: seq<Record>): seq<Event> {
    if rs == [] then []
    else
      var r := rs[|rs| - 1];
      EventsOf(rs[..|rs| - 1]) + if r.Entry? then [Event(r.kind, r.actor, r.text)] else []
  }

  function Requested(inputs: seq<Input>): seq<Event> {
    seq(|inputs|, i requires 0 <= i < |inputs| => Event(inputs[i].kind, inputs[i].actor, inputs[i].text))
  }

  lemma EventsAppend(rs: seq<Record>, r: Record)
    ensures EventsOf(rs + [r]) == EventsOf(rs) + if r.Entry? then [Event(r.kind, r.actor, r.text)] else []
  {
    assert (rs + [r])[..|rs|] == rs;
  }

  lemma AddedEvents(s: Session, st: State, e: Input)
    requires !st.locked && (HasRoom(s, st, Entry(e.kind, e.actor, e.text, st.seqNo + 1))
      || Rotated(s, st, e.rotation).ok)
    ensures EventsOf(All(st) + Added(s, st, e)) == EventsOf(All(st)) + [Event(e.kind, e.actor, e.text)]
  {
    hide HasRoom, Rotated, All, EventsOf;
    var n := st.seqNo;
    if HasRoom(s, st, Entry(e.kind, e.actor, e.text, n + 1)) {
      EventsAppend(All(st), Entry(e.kind, e.actor, e.text, n + 1));
    } else {
      var a, b, c := FirstControl(st), SecondControl(st), Entry(e.kind, e.actor, e.text, n + 3);
      EventsAppend(All(st), a);
      EventsAppend(All(st) + [a], b);
      EventsAppend(All(st) + [a] + [b], c);
      assert All(st) + [a, b, c] == All(st) + [a] + [b] + [c];
    }
  }

  lemma UnlockedMeansRecorded(s: Session, st: State, e: Input)
    requires Invariant(s, st) && !Recorded(s, st, e).locked
    ensures !st.locked && (HasRoom(s, st, Entry(e.kind, e.actor, e.text, st.seqNo + 1))
      || Rotated(s, st, e.rotation).ok)
  {
    hide Stored, Body, TruncationNotice, All;
    if !st.locked && !HasRoom(s, st, Entry(e.kind, e.actor, e.text, st.seqNo + 1)) && !Rotated(s, st, e.rotation).ok {
      ReportKeepsClosed(s, Rotated(s, st, e.rotation).state);
    }
  }

  /** As long as the transcript is active and no truncation was reported, every event is among the records,
      in order. */
  lemma {:induction false} NothingIsLost(s: Session, header: string, files: Files, inputs: seq<Input>)
    requires |s.id| <= SESSION_ID_MAX
    ensures var st := Run(s, Opening(header, files), inputs);
            st.active && !st.locked ==> EventsOf(All(st)) == Requested(inputs)
    decreases |inputs|
  {
    hide Invariant, All, Step, EventsOf;
    if inputs == [] {
      OpeningInvariant(s, header, files);
      assert EventsOf([]) == [] by { NoEvents(); }
    } else {
      var front, e := inputs[..|inputs| - 1], inputs[|inputs| - 1];
      NothingIsLost(s, header, files, front);
      RunKeeps(s, header, files, front);
      StepLosesNothing(s, Run(s, Opening(header, files), front), e);
      assert Requested(inputs) == Requested(front) + [Event(e.kind, e.actor, e.text)];
    }
  }

  lemma NoEvents()
    ensures EventsOf([]) == []
  {
  }

  lemma StepLosesNothing(s: Session, st: State, e: Input)
    requires |s.id| <= SESSION_ID_MAX && Invariant(s, st)
    ensures var t := Step(s, st, e);
            t.active && !t.locked ==>
              st.active && !st.locked && EventsOf(All(t)) == EventsOf(All(st)) + [Event(e.kind, e.actor, e.text)]
  {
    hide Invariant, All, Recorded, Rotated, HasRoom, Step, EventsOf, Added;
    StepKeeps(s, st, e);
    if Step(s, st, e).active && !Step(s, st, e).locked {
      ActiveStepKeeps(s, st, e);
      UnlockedMeansRecorded(s, st, e);
      AddedEvents(s, st, e);
    }
  }

  /** The TXT lines of the events among the records. */
  function Notes(rs: seq<Record>): string {
    if rs == [] then ""
    else
      var r := rs[|rs| - 1];
      Notes(rs[..|rs| - 1]) + if r.Entry? then TxtLine(r.seqNo, r.kind, r.text) else ""
  }

  lemma NotesAppend(rs: seq<Record>, r: Record)
    ensures Notes(rs + [r]) == Notes(rs) + if r.Entry? then TxtLine(r.seqNo, r.kind, r.text) else ""
  {
    hide TxtLine;
    assert (rs + [r])[..|rs|] == rs;
  }

  lemma AddedNotes(s: Session, st: State, e: Input)
    requires !st.locked && (HasRoom(s, st, Entry(e.kind, e.actor, e.text, st.seqNo + 1))
      || Rotated(s, st, e.rotation).ok)
    ensures Notes(All(st) + Added(s, st, e)) == Notes(All(st)) + TxtLine(Recorded(s, st, e).seqNo, e.kind, e.text)
    ensures Recorded(s, st, e).txt == st.txt
  {
    hide HasRoom, All, Notes, TxtLine, Stored, Flushed;
    var n := st.seqNo;
    if HasRoom(s, st, Entry(e.kind, e.actor, e.text, n + 1)) {
      NotesAppend(All(st), Entry(e.kind, e.actor, e.text, n + 1));
    } else {
      var a, b, c := FirstControl(st), SecondControl(st), Entry(e.kind, e.actor, e.text, n + 3);
      NotesAppend(All(st), a);
      NotesAppend(All(st) + [a], b);
      NotesAppend(All(st) + [a] + [b], c);
      assert All(st) + [a, b, c] == All(st) + [a] + [b] + [c];
      FlushChangesTextsNot(s, st, e.rotation);
    }
  }

  lemma FlushChangesTextsNot(s: Session, st: State, f: Faults)
    ensures var t := Flushed(s, st, f).state; t == st.(files := t.files)
  {
  }

  lemma StepNotes(s: Session, st: State, e: Input)
    requires |s.id| <= SESSION_ID_MAX && Invariant(s, st)
    ensures var t := Step(s, st, e);
            t.active && !t.locked ==>
              (st.active && !st.locked
               && exists line :: t.txt == Clip(st.txt + line, BUFFER_MAX) && Notes(All(t)) == Notes(All(st)) + line)
  {
    hide Invariant, All, Recorded, Rotated, HasRoom, Notes, Added, TxtLine;
    StepKeeps(s, st, e);
    if Step(s, st, e).active && !Step(s, st, e).locked {
      ActiveStepKeeps(s, st, e);
      UnlockedMeansRecorded(s, st, e);
      AddedNotes(s, st, e);
    }
  }

  /** The TXT transcript tells the same story: while the transcript is active and not truncated, it is the
      header and one line per event, each with the number its JSONL record has, cut at the buffer's end. */
  lemma {:induction false} TxtTellsTheSame(s: Session, header: string, files: Files, inputs: seq<Input>)
    requires |s.id| <= SESSION_ID_MAX
    ensures var st := Run(s, Opening(header, files), inputs);
            st.active && !st.locked ==> st.txt == Clip(header + Notes(All(st)), 65535)
    decreases |inputs|
  {
    hide Invariant, All, Step, Notes, Clip;
    if inputs == [] {
      OpeningInvariant(s, header, files);
      NoNotes(header);
    } else {
      var front, e := inputs[..|inputs| - 1], inputs[|inputs| - 1];
      TxtTellsTheSame(s, header, files, front);
      RunKeeps(s, header, files, front);
      var st := Run(s, Opening(header, files), front);
      StepNotes(s, st, e);
      var t := Step(s, st, e);
      if t.active && !t.locked {
        var line :| t.txt == Clip(st.txt + line, BUFFER_MAX) && Notes(All(t)) == Notes(All(st)) + line;
        ClipAppend(header + Notes(All(st)), line, BUFFER_MAX);
        assert header + Notes(All(st)) + line == header + (Notes(All(st)) + line);
      }
    }
  }

  lemma NoNotes(header: string)
    ensures header + Notes([]) == header
  {
  }

  /** Identity fields, event types and actors that keep every line readable. */
  predicate GoodSession(s: Session) { PlainSession(s) && |s.id| <= SESSION_ID_MAX && IdentityLength(s) <= 255 }

  predicate GoodInput(s: Session, e: Input) {
    Plain(e.kind) && Plain(e.actor) && IdentityLength(s) + |e.kind| + |e.actor| <= 449
  }

  predicate AllNarrow(s: Session, rs: seq<Record>) {
    forall i :: 0 <= i < |rs| ==> PlainRecord(rs[i]) && Narrow(s, rs[i])
  }

  lemma PartMessagePlain(part: nat)
    ensures Plain(PartMessage(part)) && |PartMessage(part)| == 9
  {
  }

  lemma AddedNarrow(s: Session, st: State, e: Input)
    requires GoodSession(s) && GoodInput(s, e)
    ensures AllNarrow(s, Added(s, st, e))
  {
    hide HasRoom, Rotated, PlainSession, IdentityLength;
    PartMessagePlain(st.part + 1);
    assert Plain("transcript_rotated") && Plain("jsonl part rotated") && Plain("transcript_part_start");
  }

  lemma {:induction false} RunNarrow(s: Session, header: string, files: Files, inputs: seq<Input>)
    requires GoodSession(s) && forall i :: 0 <= i < |inputs| ==> GoodInput(s, inputs[i])
    ensures AllNarrow(s, All(Run(s, Opening(header, files), inputs)))
    decreases |inputs|
  {
    hide Invariant, All, Step, GoodInput, Added, PlainRecord, Narrow;
    if inputs == [] {
      OpeningInvariant(s, header, files);
    } else {
      var front, e := inputs[..|inputs| - 1], inputs[|inputs| - 1];
      RunNarrow(s, header, files, front);
      RunKeeps(s, header, files, front);
      StepKeeps(s, Run(s, Opening(header, files), front), e);
      AddedNarrow(s, Run(s, Opening(header, files), front), e);
    }
  }

  /** Reading the stored parts back line by line gives the records of the run, each with its number, the
      first 180 bytes of its text, its type and its actor. */
  lemma StoredPartsReadBack(s: Session, header: string, files: Files, inputs: seq<Input>)
    requires GoodSession(s) && inputs != [] && forall i :: 0 <= i < |inputs| ==> GoodInput(s, inputs[i])
    requires var st := Run(s, Opening(header, files), inputs); st.active && st.part <= PARTS_DISTINCT
    ensures var st := Run(s, Opening(header, files), inputs);
            (forall i :: 1 <= i <= st.part ==> PartPath(s.id, i) in st.files)
            && var lines := SplitLines(JoinedFiles(s, st.files, st.part));
               |lines| == |All(st)|
               && forall i :: 0 <= i < |lines| ==>
                    SeenIn(lines[i]) == Some(Shown(All(st)[i]).(number := SeqText(i + 1)))
                    && WhoIn(lines[i]) == Some(WhoOf(s, All(st)[i]))
  {
    hide Body, All, Run, SeenIn, WhoIn, WhoOf, Fits, PlainSession, PlainRecord, SeqText, IdentityLength, Narrow;
    var st := Run(s, Opening(header, files), inputs);
    StoredPartsAreTheRecords(s, header, files, inputs);
    RunNarrow(s, header, files, inputs);
    forall i | 0 <= i < |All(st)|
      ensures PlainRecord(All(st)[i]) && Fits(s, All(st)[i])
    {
      NarrowFits(s, All(st)[i]);
    }
    BodyReadsBack(s, All(st));
  }
}
