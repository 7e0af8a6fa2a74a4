/** Session names across boots: how a boot picks its number when answers and writes may fail, which files it can
    touch, and exactly when a boot takes up a name that is already in use. */
module Sessions {
  import opened CText
  import opened TranscriptRecord
  import opened TranscriptPaths
  import opened TextStore
  import opened Transcript

  const NUMBER_LIMIT: nat := 999999
  const UNKNOWN_ID := "session-boot-unknown"

  function TxtOf(n: nat): string { TxtPath(SessionName(n)) }

  function PartOf(n: nat, k: nat): string { PartPath(SessionName(n), k) }

  /** For each number whether storage answers the read of its TXT file. */
  type Answers = nat -> bool

  /** The least number from `i` on whose TXT file is not stored or not read; the limit when there is none. */
  function Pick(files: Files, answers: Answers, i: nat): (n: nat)
    requires i <= NUMBER_LIMIT
    ensures i <= n <= NUMBER_LIMIT
    ensures n < NUMBER_LIMIT ==> TxtOf(n) !in files || !answers(n)
    ensures forall k :: i <= k < n ==> TxtOf(k) in files && answers(k)
    decreases NUMBER_LIMIT - i
  {
    if i == NUMBER_LIMIT || TxtOf(i) !in files || !answers(i) then i else Pick(files, answers, i + 1)
  }

  function Chosen(files: Files, answers: Answers): nat { Pick(files, answers, 1) }

  /** The least number whose TXT file is not stored. */
  function FirstFree(files: Files): nat { Pick(files, (_: nat) => true, 1) }

  /** Every TXT file before the first free number is read. */
  ghost predicate AllAnswered(files: Files, answers: Answers) {
    forall k: nat :: 1 <= k < FirstFree(files) ==> answers(k)
  }

  /** The chosen number is free exactly when storage answered for every number before it that is taken; a read
      that fails makes the boot take a name in use. */
  lemma ChosenIsFreeExactly(files: Files, answers: Answers)
    requires FirstFree(files) < NUMBER_LIMIT
    ensures Chosen(files, answers) <= FirstFree(files) && TxtOf(FirstFree(files)) !in files
    ensures TxtOf(Chosen(files, answers)) !in files <==> AllAnswered(files, answers)
    ensures AllAnswered(files, answers) ==> Chosen(files, answers) == FirstFree(files)
  {
    hide TxtPath, SessionName, Pick;
    var c, f := Chosen(files, answers), FirstFree(files);
    assert AllAnswered(files, answers) && c < f ==> answers(c);
  }

  function SessionId(n: nat): string { if n < NUMBER_LIMIT then SessionName(n) else UNKNOWN_ID }

  /** The id of a session is its number in six digits; without a free number it is a fixed one. */
  lemma SessionIdsAreNamed(n: nat)
    ensures SessionId(n) == if n < 999999 then "session-" + Six(n) else "session-boot-unknown"
  {
    hide Six;
  }

  method ChooseSession(store: Store, answers: Answers) returns (i: nat, id: string)
    ensures i == Chosen(store.files, answers) && id == SessionId(i)
  {
    hide TxtPath, SessionName;
    i := 1;
    id := "";
    while i < NUMBER_LIMIT
      invariant 1 <= i <= NUMBER_LIMIT && id == ""
      invariant Pick(store.files, answers, i) == Chosen(store.files, answers)
    {
      var text := store.ReadText(TxtPath(SessionName(i)), 8, answers(i));
      if text.None? {
        id := SessionName(i);
        break;
      }
      i := i + 1;
    }
    if id == "" {
      NameIsNotEmpty(i);
      id := UNKNOWN_ID;
    } else {
      assert TxtOf(i) !in store.files || !answers(i);
    }
  }

  lemma NameIsNotEmpty(n: nat)
    ensures SessionName(n) != "" && |SessionName(n)| == 14
  {
  }

  // ---- A boot

  datatype Boot = Boot(identity: Identity, header: string, answers: Answers, inputs: seq<Input>)

  function NumberOf(files: Files, b: Boot): nat { Chosen(files, b.answers) }

  function SessionOf(files: Files, b: Boot): Session { Session(SessionId(NumberOf(files, b)), b.identity) }

  function AfterBoot(files: Files, b: Boot): Files {
    Run(SessionOf(files, b), Opening(b.header, files), b.inputs).files
  }

  function AfterBoots(files: Files, boots: seq<Boot>): Files {
    if boots == [] then files else AfterBoot(AfterBoots(files, boots[..|boots| - 1]), boots[|boots| - 1])
  }

  /** Wherever a JSONL part is stored, the TXT file of its session is stored too. */
  ghost predicate Guarded(files: Files) {
    forall n: nat, k: nat :: n < NUMBER_LIMIT && PartOf(n, k) in files ==> TxtOf(n) in files
  }

  ghost predicate SomePart(files: Files, n: nat) { exists k: nat :: PartOf(n, k) in files }

  /** No file of the session is stored. */
  ghost predicate Fresh(files: Files, n: nat) { TxtOf(n) !in files && !SomePart(files, n) }

  // ---- A session touches only its own files

  predicate Same(a: Files, b: Files, path: string) { (path in a <==> path in b) && (path in a ==> a[path] == b[path]) }

  ghost predicate Own(n: nat, path: string) { path == TxtOf(n) || exists k: nat :: path == PartOf(n, k) }

  /** Everything but the files of session `n` is as it was. */
  ghost predicate OthersSame(a: Files, b: Files, n: nat) {
    forall path :: !Own(n, path) ==> Same(a, b, path)
  }

  lemma Owns(n: nat, k: nat)
    ensures Own(n, TxtOf(n)) && Own(n, PartOf(n, k)) && TxtOf(n) != PartOf(n, k)
  {
    hide PartPath, TxtPath, SessionName;
    NameIsNotEmpty(n);
    TxtIsNoPart(SessionName(n), SessionName(n), k);
  }

  lemma WriteKept(a: Files, b: Files, n: nat, path: string, text: string, w: WriteResult)
    requires OthersSame(a, b, n) && Own(n, path)
    ensures OthersSame(a, AfterWrite(b, path, text, w), n)
  {
    hide Own;
    forall p | !Own(n, p)
      ensures Same(a, AfterWrite(b, path, text, w), p)
    {
      assert Same(a, b, p);
    }
  }

  lemma FlushKept(files: Files, n: nat, identity: Identity, st: State, f: Faults)
    requires OthersSame(files, st.files, n)
    ensures OthersSame(files, Flushed(Session(SessionName(n), identity), st, f).state.files, n)
  {
    hide PartPath, TxtPath, SessionName, OthersSame, AfterWrite, Own;
    var s := Session(SessionName(n), identity);
    Owns(n, st.part);
    var files1 := AfterWrite(st.files, TxtPath(s.id), st.txt, f.txt);
    WriteKept(files, st.files, n, TxtOf(n), st.txt, f.txt);
    WriteKept(files, files1, n, PartOf(n, st.part), st.jsonl, f.jsonl);
  }

  /** The event does not fit and rotates the part first. */
  predicate Rotates(s: Session, st: State, e: Input) {
    !st.locked && !HasRoom(s, st, Entry(e.kind, e.actor, e.text, st.seqNo + 1))
  }

  lemma RecordedFiles(s: Session, st: State, e: Input)
    ensures var t := Recorded(s, st, e);
            t.active == st.active
            && (if !Rotates(s, st, e) then t.files == st.files && t.part == st.part
                else var o := Flushed(s, st, e.rotation);
                     t.files == o.state.files && t.part == if o.ok then o.state.part + 1 else o.state.part)
    ensures Flushed(s, st, e.rotation).state.active == st.active
  {
    hide Stored, HasRoom, NewPart, Reported, Flushed;
    var flush := Flushed(s, st, e.rotation);
    FlushTouchesFiles(s, st, e.rotation);
    NewPartCounts(s, flush.state);
    ReportCounts(s, flush.state);
  }

  lemma FlushTouchesFiles(s: Session, st: State, f: Faults)
    ensures var t := Flushed(s, st, f).state; t == st.(files := t.files)
  {
  }

  lemma NewPartCounts(s: Session, st: State)
    ensures var t := NewPart(s, st); t.files == st.files && t.part == st.part + 1 && t.active == st.active
  {
    hide Stored;
  }

  lemma ReportCounts(s: Session, st: State)
    ensures var t := Reported(s, st); t.files == st.files && t.part == st.part && t.active == st.active
  {
    hide Stored, TruncationNotice, Clip;
  }

  lemma StepKept(files: Files, n: nat, identity: Identity, st: State, e: Input)
    requires OthersSame(files, st.files, n)
    ensures OthersSame(files, Step(Session(SessionName(n), identity), st, e).files, n)
  {
    hide Recorded, Flushed, TxtLine, OthersSame;
    var s := Session(SessionName(n), identity);
    if st.active {
      RecordedFiles(s, st, e);
      FlushKept(files, n, identity, st, e.rotation);
      var recorded := Recorded(s, st, e);
      var noted := recorded.(txt := Clip(recorded.txt + TxtLine(recorded.seqNo, e.kind, e.text), BUFFER_MAX));
      FlushKept(files, n, identity, noted, e.last);
    }
  }

  lemma {:induction false} RunKept(files: Files, n: nat, identity: Identity, header: string, inputs: seq<Input>)
    ensures OthersSame(files, Run(Session(SessionName(n), identity), Opening(header, files), inputs).files, n)
    decreases |inputs|
  {
    hide Step, PartPath, TxtPath, SessionName, Clip;
    if inputs != [] {
      RunKept(files, n, identity, header, inputs[..|inputs| - 1]);
      StepKept(files, n, identity, Run(Session(SessionName(n), identity), Opening(header, files),
               inputs[..|inputs| - 1]),
               inputs[|inputs| - 1]);
    }
  }

  lemma BootKept(files: Files, b: Boot)
    requires NumberOf(files, b) < NUMBER_LIMIT
    ensures OthersSame(files, AfterBoot(files, b), NumberOf(files, b))
  {
    hide Run, Opening, SessionName, Pick;
    RunKept(files, NumberOf(files, b), b.identity, b.header, b.inputs);
  }

  lemma OtherNames(m: nat, n: nat)
    requires m < NUMBER_LIMIT && n < NUMBER_LIMIT && m != n
    ensures TxtOf(m) != TxtOf(n)
    ensures forall j: nat, k: nat :: PartOf(m, j) != PartOf(n, k)
    ensures forall k: nat :: TxtOf(m) != PartOf(n, k)
    ensures forall k: nat :: PartOf(m, k) != TxtOf(n)
    ensures !Own(n, TxtOf(m)) && forall k: nat :: !Own(n, PartOf(m, k))
  {
    hide PartPath, TxtPath, SessionName;
    NameIsNotEmpty(m);
    NameIsNotEmpty(n);
    SessionNamesDistinct(m, n, 0, 0);
    forall j: nat, k: nat
      ensures PartOf(m, j) != PartOf(n, k)
    {
      SessionNamesDistinct(m, n, j, k);
    }
    forall k: nat
      ensures TxtOf(m) != PartOf(n, k) && PartOf(m, k) != TxtOf(n)
    {
      TxtIsNoPart(SessionName(m), SessionName(n), k);
      TxtIsNoPart(SessionName(n), SessionName(m), k);
    }
  }

  /** The boot starts a session of which no file is stored. */
  ghost predicate StartsFresh(files: Files, b: Boot) {
    NumberOf(files, b) < NUMBER_LIMIT && Fresh(files, NumberOf(files, b))
  }

  /** A boot that starts fresh changes no file that existed when it started. */
  lemma BootChangesNoOldFile(files: Files, b: Boot)
    requires StartsFresh(files, b)
    ensures forall path :: path in files ==> path in AfterBoot(files, b) && AfterBoot(files, b)[path] == files[path]
  {
    hide Run, SessionName, PartPath, TxtPath, Pick, AfterBoot;
    var n, after := NumberOf(files, b), AfterBoot(files, b);
    BootKept(files, b);
    forall path | path in files
      ensures path in after && after[path] == files[path]
    {
      assert !Own(n, path);
      assert Same(files, after, path);
    }
  }

  // ---- How a boot can lose its name

  /** The event's writes of the TXT file end with the file lost. */
  predicate TxtEndsLost(s: Session, st: State, e: Input) {
    e.last.txt.Lost? || (e.last.txt.Untouched? && Rotates(s, st, e) && e.rotation.txt.Lost?)
  }

  /** The rotation does not lose the only part. */
  predicate SomePartStays(s: Session, st: State, e: Input) {
    !(st.part == 1 && Rotates(s, st, e) && e.rotation.txt.Written? && e.rotation.jsonl.Lost?)
  }

  lemma PartNames(n: nat, k: nat)
    ensures TxtOf(n) != PartOf(n, k) && (k >= 2 ==> PartOf(n, 1) != PartOf(n, k))
  {
    hide PartPath, TxtPath, SessionName;
    NameIsNotEmpty(n);
    Owns(n, k);
    if k >= 2 { PartNamesClash(SessionName(n), 1, k); }
  }

  /** Whether a file is there after a write, given whether it was there before. */
  predicate Present(w: WriteResult, was: bool) { w.Written? || w.Garbled? || (w.Untouched? && was) }

  /** While the first part is the current one no other is stored; later the first one is. */
  ghost predicate PartsStand(n: nat, files: Files, part: nat) {
    && part >= 1 && (part >= 2 ==> PartOf(n, 1) in files)
    && (part == 1 ==> forall k: nat :: PartOf(n, k) in files ==> PartOf(n, k) == PartOf(n, 1))
  }

  /** What an event that leaves the transcript active has stored: the TXT file, the current part, the first part. */
  ghost predicate Stands(n: nat, st: State) {
    PartsStand(n, st.files, st.part) && TxtOf(n) in st.files && PartOf(n, st.part) in st.files
  }

  lemma SomePartIsTheFirst(n: nat, files: Files, part: nat)
    requires PartsStand(n, files, part)
    ensures SomePart(files, n) <==> PartOf(n, 1) in files
  {
    hide PartPath, SessionName;
  }

  lemma FlushPresence(n: nat, identity: Identity, st: State, f: Faults)
    requires PartsStand(n, st.files, st.part)
    ensures var o := Flushed(Session(SessionName(n), identity), st, f);
            var files := o.state.files;
            && o.state == st.(files := files) && PartsStand(n, files, st.part)
            && (TxtOf(n) in files <==> Present(f.txt, TxtOf(n) in st.files))
            && (PartOf(n, 1) in files <==>
                  if st.part == 1 && f.txt.Written? then Present(f.jsonl, PartOf(n, 1) in st.files)
                                           else PartOf(n, 1) in st.files)
            && (o.ok ==> f.txt.Written? && f.jsonl.Written? && PartOf(n, st.part) in files)
  {
    hide PartPath, TxtPath, SessionName, LongText, AfterWrite, Present;
    PartNames(n, st.part);
    PartNames(n, 1);
    var files1 := AfterWrite(st.files, TxtOf(n), st.txt, f.txt);
    WritePresence(st.files, TxtOf(n), st.txt, f.txt);
    WritePresence(files1, PartOf(n, st.part), st.jsonl, f.jsonl);
    WrittenIsPresent(f);
    var files := Flushed(Session(SessionName(n), identity), st, f).state.files;
    forall k: nat | st.part == 1 && PartOf(n, k) in files
      ensures PartOf(n, k) == PartOf(n, 1)
    {
      PartNames(n, k);
    }
  }

  lemma WritePresence(files: Files, path: string, text: string, w: WriteResult)
    ensures var after := AfterWrite(files, path, text, w);
            (path in after <==> Present(w, path in files)) && forall p :: p != path ==> (p in after <==> p in files)
  {
  }

  lemma WrittenIsPresent(f: Faults)
    ensures f.txt.Written? ==> forall was :: Present(f.txt, was)
    ensures f.jsonl.Written? ==> forall was :: Present(f.jsonl, was)
  {
  }

  /** What the JSONL half of an event leaves in storage. */
  lemma RecordedPresence(n: nat, identity: Identity, st: State, e: Input)
    requires Stands(n, st)
    ensures var s := Session(SessionName(n), identity); var t := Recorded(s, st, e);
            && PartsStand(n, t.files, t.part) && t.active == st.active
            && (TxtOf(n) in t.files <==> (Rotates(s, st, e) ==> Present(e.rotation.txt, true)))
            && (PartOf(n, 1) in t.files <==> SomePartStays(s, st, e))
  {
    hide PartPath, TxtPath, SessionName, Flushed, Recorded, Rotates;
    var s := Session(SessionName(n), identity);
    RecordedFiles(s, st, e);
    SomePartIsTheFirst(n, st.files, st.part);
    FlushPresence(n, identity, st, e.rotation);
    var o := Flushed(s, st, e.rotation);
    SomePartIsTheFirst(n, o.state.files, st.part);
  }

  /** The last half: the TXT line and the final flush. */
  lemma NotedPresence(n: nat, identity: Identity, st: State, e: Input)
    requires var t := Recorded(Session(SessionName(n), identity), st, e);
             st.active && t.active && PartsStand(n, t.files, t.part)
    ensures var s := Session(SessionName(n), identity); var r := Recorded(s, st, e); var t := Step(s, st, e);
            && PartsStand(n, t.files, t.part) && t.part == r.part
            && (TxtOf(n) in t.files <==> Present(e.last.txt, TxtOf(n) in r.files))
            && (PartOf(n, 1) in t.files <==>
                  if r.part == 1 && e.last.txt.Written? then Present(e.last.jsonl, PartOf(n, 1) in r.files)
                                             else PartOf(n, 1) in r.files)
            && (t.active ==> e.last.txt.Written? && Stands(n, t))
  {
    hide PartPath, TxtPath, SessionName, Flushed, Recorded, TxtLine, Clip, PartsStand;
    var s := Session(SessionName(n), identity);
    var r := Recorded(s, st, e);
    var noted := r.(txt := Clip(r.txt + TxtLine(r.seqNo, e.kind, e.text), BUFFER_MAX));
    StandsWithout(n, r.files, r.part, noted);
    FlushPresence(n, identity, noted, e.last);
  }

  lemma StandsWithout(n: nat, files: Files, part: nat, st: State)
    requires PartsStand(n, files, part) && st.files == files && st.part == part
    ensures PartsStand(n, st.files, st.part)
  {
  }

  /** An event of a standing transcript leaves a part without its TXT file exactly when its writes of the TXT
      file end with the file lost and it does not lose the only part as well. */
  lemma StepFrees(n: nat, identity: Identity, st: State, e: Input)
    requires st.active && Stands(n, st)
    ensures var s := Session(SessionName(n), identity); var t := Step(s, st, e);
            && (t.active ==> Stands(n, t))
            && (TxtOf(n) !in t.files && SomePart(t.files, n) <==> TxtEndsLost(s, st, e) && SomePartStays(s, st, e))
  {
    hide PartPath, TxtPath, SessionName, Recorded, Step, Rotates, PartsStand;
    var s := Session(SessionName(n), identity);
    RecordedPresence(n, identity, st, e);
    NotedPresence(n, identity, st, e);
    var t := Step(s, st, e);
    SomePartIsTheFirst(n, t.files, t.part);
  }

  /** The first event of a fresh session never does: no part is written before the TXT file. */
  lemma FirstStepNeverFrees(n: nat, identity: Identity, header: string, files: Files, e: Input)
    requires Fresh(files, n)
    ensures var t := Step(Session(SessionName(n), identity), Opening(header, files), e);
            (t.active ==> Stands(n, t)) && !(TxtOf(n) !in t.files && SomePart(t.files, n))
  {
    hide PartPath, TxtPath, SessionName, Recorded, Step, Clip;
    var s := Session(SessionName(n), identity);
    var st := Opening(header, files);
    FirstEventStaysInPart(s, st, e);
    assert SomePart(files, n) || PartOf(n, 1) !in files;
    FreshPartsStand(n, files);
    NotedPresence(n, identity, st, e);
    var t := Step(s, st, e);
    SomePartIsTheFirst(n, t.files, t.part);
  }

  lemma FreshPartsStand(n: nat, files: Files)
    requires !SomePart(files, n)
    ensures PartsStand(n, files, 1)
  {
    hide PartPath, SessionName;
  }

  lemma FirstEventStaysInPart(s: Session, st: State, e: Input)
    requires !st.locked && |st.jsonl| <= 1023
    ensures var t := Recorded(s, st, e);
            t.files == st.files && t.part == st.part && t.active == st.active
            && !t.locked && |t.jsonl| <= |st.jsonl| + 1023
    ensures !Rotates(s, st, e)
  {
    hide Stored;
    StoredBound(s, Entry(e.kind, e.actor, e.text, st.seqNo + 1));
  }

  /** The event, one of a transcript that an earlier event left active, frees its session's name. */
  predicate Frees(s: Session, st: State, e: Input) { st.active && TxtEndsLost(s, st, e) && SomePartStays(s, st, e) }

  /** Some event of the run does. */
  predicate FreesAt(s: Session, st: State, inputs: seq<Input>, k: nat) {
    0 < k < |inputs| && Frees(s, Run(s, st, inputs[..k]), inputs[k])
  }

  ghost predicate RunFrees(s: Session, st: State, inputs: seq<Input>) { exists k: nat :: FreesAt(s, st, inputs, k) }

  lemma RunFreesSnoc(s: Session, st: State, front: seq<Input>, e: Input)
    ensures RunFrees(s, st, front + [e])
      <==> RunFrees(s, st, front) || (front != [] && Frees(s, Run(s, st, front), e))
  {
    hide Run, Frees;
    var all := front + [e];
    forall k: nat | k < |front|
      ensures FreesAt(s, st, all, k) <==> FreesAt(s, st, front, k)
    {
      assert all[..k] == front[..k];
    }
    assert all[..|front|] == front;
    if RunFrees(s, st, front) {
      var k: nat :| FreesAt(s, st, front, k);
      assert FreesAt(s, st, all, k);
    }
    if front != [] && Frees(s, Run(s, st, front), e) { assert FreesAt(s, st, all, |front|); }
  }

  lemma StoppedStays(s: Session, st: State, e: Input)
    requires !st.active
    ensures Step(s, st, e) == st && !Frees(s, st, e)
  {
  }

  lemma RunSnoc(s: Session, st: State, front: seq<Input>, e: Input)
    ensures Run(s, st, front + [e]) == Step(s, Run(s, st, front), e)
  {
    assert (front + [e])[..|front|] == front;
  }

  lemma NothingRun(s: Session, st: State)
    ensures Run(s, st, []) == st && !RunFrees(s, st, [])
  {
  }

  /** A run of a fresh session ends with a part stored and its TXT file gone exactly when some event frees it. */
  lemma {:induction false} RunFreesExactly(n: nat, identity: Identity, header: string, files: Files, inputs: seq<Input>)
    requires Fresh(files, n)
    ensures var s := Session(SessionName(n), identity); var st := Run(s, Opening(header, files), inputs);
            (st.active && inputs != [] ==> Stands(n, st))
            && (TxtOf(n) !in st.files && SomePart(st.files, n) <==> RunFrees(s, Opening(header, files), inputs))
    decreases |inputs|
  {
    hide Step, Run, PartPath, TxtPath, SessionName, Clip, Frees, RunFrees, PartsStand, SomePart;
    var s, start := Session(SessionName(n), identity), Opening(header, files);
    NothingRun(s, start);
    if inputs != [] {
      var front, e := inputs[..|inputs| - 1], inputs[|inputs| - 1];
      assert inputs == front + [e];
      RunFreesExactly(n, identity, header, files, front);
      SnocFrees(n, identity, header, files, front, e);
    } else {
      OpeningFiles(header, files);
    }
  }

  lemma OpeningFiles(header: string, files: Files)
    ensures Opening(header, files).files == files
  {
  }

  lemma SnocFrees(n: nat, identity: Identity, header: string, files: Files, front: seq<Input>, e: Input)
    requires Fresh(files, n)
    requires var s := Session(SessionName(n), identity); var st := Run(s, Opening(header, files), front);
             (st.active && front != [] ==> Stands(n, st))
             && (TxtOf(n) !in st.files && SomePart(st.files, n) <==> RunFrees(s, Opening(header, files), front))
    ensures var s := Session(SessionName(n), identity); var st := Run(s, Opening(header, files), front + [e]);
            (st.active ==> Stands(n, st))
            && (TxtOf(n) !in st.files && SomePart(st.files, n) <==> RunFrees(s, Opening(header, files), front + [e]))
  {
    hide Step, Run, PartPath, TxtPath, SessionName, Clip, RunFrees, PartsStand, SomePart, TxtEndsLost, SomePartStays;
    var s, start := Session(SessionName(n), identity), Opening(header, files);
    var st := Run(s, start, front);
    RunSnoc(s, start, front, e);
    RunFreesSnoc(s, start, front, e);
    NothingRun(s, start);
    if front == [] {
      FirstStepNeverFrees(n, identity, header, files, e);
    } else if st.active {
      StepFrees(n, identity, st, e);
    } else {
      StoppedStays(s, st, e);
    }
  }

  // ---- Exactly when a name is taken up again

  /** Some event of the boot frees the name of its session. */
  ghost predicate FreesName(files: Files, b: Boot) {
    RunFrees(SessionOf(files, b), Opening(b.header, files), b.inputs)
  }

  /** Some file of the session that the next boot starts, if its reads are answered, is stored already. */
  ghost predicate NextNameTaken(files: Files) { !Fresh(files, FirstFree(files)) }

  lemma GuardedIsFresh(files: Files)
    requires Guarded(files) && FirstFree(files) < NUMBER_LIMIT
    ensures Fresh(files, FirstFree(files))
  {
    hide PartPath, TxtPath, SessionName, Pick;
    ChosenIsFreeExactly(files, (_: nat) => true);
    assert forall k: nat :: PartOf(FirstFree(files), k) in files ==> TxtOf(FirstFree(files)) in files;
  }

  /** After a boot of session `n` from guarded storage, everything is guarded but for what became of `n`. */
  lemma BootGuards(files: Files, b: Boot)
    requires Guarded(files) && StartsFresh(files, b)
    ensures var n, after := NumberOf(files, b), AfterBoot(files, b);
            && (TxtOf(n) !in after && SomePart(after, n) <==> FreesName(files, b))
            && (Guarded(after) <==> !FreesName(files, b))
  {
    hide Run, Opening, PartPath, TxtPath, SessionName, Pick, RunFrees, Own;
    var n, after := NumberOf(files, b), AfterBoot(files, b);
    RunFreesExactly(n, b.identity, b.header, files, b.inputs);
    BootKept(files, b);
    forall m: nat, k: nat | m < NUMBER_LIMIT && m != n && PartOf(m, k) in after
      ensures TxtOf(m) in after
    {
      OtherNames(m, n);
      assert Same(files, after, PartOf(m, k)) && Same(files, after, TxtOf(m));
    }
    if SomePart(after, n) {
      var k: nat :| PartOf(n, k) in after;
      assert Guarded(after) ==> TxtOf(n) in after;
    }
    forall k: nat | PartOf(n, k) in after
      ensures SomePart(after, n)
    {
    }
  }

  /** The numbers below the boot's own stay taken. */
  lemma TakenStay(files: Files, b: Boot)
    requires StartsFresh(files, b) && NumberOf(files, b) == FirstFree(files)
    ensures var n, after := NumberOf(files, b), AfterBoot(files, b);
            FirstFree(after) >= n && (TxtOf(n) !in after ==> FirstFree(after) == n)
  {
    hide PartPath, TxtPath, SessionName, AfterBoot, Own;
    var n, after := NumberOf(files, b), AfterBoot(files, b);
    BootKept(files, b);
    forall i: nat | 1 <= i < n
      ensures TxtOf(i) in after
    {
      OtherNames(i, n);
      assert Same(files, after, TxtOf(i));
    }
  }

  /** From guarded storage and with every read answered, the next boot takes up a name in use exactly when, in
      this boot, an event of a transcript that an earlier event left active ends its TXT writes with the file
      lost: in the final write, or in the rotation's write with the final one leaving the file alone. */
  lemma NextNameTakenExactly(files: Files, b: Boot)
    requires Guarded(files) && FirstFree(files) + 1 < NUMBER_LIMIT && AllAnswered(files, b.answers)
    requires FirstFree(AfterBoot(files, b)) < NUMBER_LIMIT
    ensures NextNameTaken(AfterBoot(files, b)) <==> FreesName(files, b)
  {
    hide PartPath, TxtPath, SessionName, AfterBoot, Pick, FreesName, Own;
    var n, after := FirstFree(files), AfterBoot(files, b);
    ChosenIsFreeExactly(files, b.answers);
    GuardedIsFresh(files);
    BootGuards(files, b);
    if FreesName(files, b) {
      TakenStay(files, b);
    } else {
      GuardedIsFresh(after);
    }
  }

  // ---- Any number of boots

  /** Only numbers up to `count` are taken. */
  ghost predicate TakenUpTo(files: Files, count: nat) {
    forall n: nat :: count < n < NUMBER_LIMIT ==> TxtOf(n) !in files
  }

  lemma FirstFreeAtMost(files: Files, count: nat)
    requires TakenUpTo(files, count) && count + 1 < NUMBER_LIMIT
    ensures FirstFree(files) <= count + 1
  {
    hide TxtPath, SessionName, Pick;
    assert TxtOf(count + 1) !in files;
  }

  lemma BootTakesOne(files: Files, b: Boot, count: nat)
    requires NumberOf(files, b) <= count + 1 < NUMBER_LIMIT && TakenUpTo(files, count)
    ensures TakenUpTo(AfterBoot(files, b), count + 1)
  {
    hide Run, SessionName, PartPath, TxtPath, Pick, AfterBoot, Own;
    BootKept(files, b);
    forall m: nat | count + 1 < m < NUMBER_LIMIT
      ensures TxtOf(m) !in AfterBoot(files, b)
    {
      OtherNames(m, NumberOf(files, b));
      assert Same(files, AfterBoot(files, b), TxtOf(m));
    }
  }

  /** What storage holds when boot `i` of a sequence starts. */
  function Before(boots: seq<Boot>, i: nat): Files
    requires i <= |boots|
  {
    AfterBoots(map[], boots[..i])
  }

  lemma BeforeNext(boots: seq<Boot>, i: nat)
    requires i < |boots|
    ensures Before(boots, i + 1) == AfterBoot(Before(boots, i), boots[i])
  {
    hide AfterBoot;
    assert boots[..i + 1][..i] == boots[..i];
  }

  /** Up to boot `m` every read was answered and no boot freed its name. */
  ghost predicate CleanUpTo(boots: seq<Boot>, m: nat)
    requires m <= |boots|
  {
    forall i: nat :: i < m ==> AllAnswered(Before(boots, i), boots[i].answers) && !FreesName(Before(boots, i), boots[i])
  }

  lemma CleanBootIsFresh(files: Files, b: Boot, count: nat)
    requires Guarded(files) && TakenUpTo(files, count) && count + 1 < NUMBER_LIMIT
    ensures FirstFree(files) < NUMBER_LIMIT && NumberOf(files, b) <= count + 1
    ensures StartsFresh(files, b) <==> AllAnswered(files, b.answers)
    ensures AllAnswered(files, b.answers) ==> NumberOf(files, b) == FirstFree(files)
  {
    hide PartPath, TxtPath, SessionName, Pick, SomePart;
    FirstFreeAtMost(files, count);
    ChosenIsFreeExactly(files, b.answers);
    GuardedIsFresh(files);
  }

  lemma {:induction false} CleanKeeps(boots: seq<Boot>, m: nat)
    requires m <= |boots| < NUMBER_LIMIT && CleanUpTo(boots, m)
    ensures Guarded(Before(boots, m)) && TakenUpTo(Before(boots, m), m)
    decreases m
  {
    hide AfterBoot, PartPath, TxtPath, SessionName, FreesName, AllAnswered, StartsFresh, Before;
    if m > 0 {
      CleanKeeps(boots, m - 1);
      BeforeNext(boots, m - 1);
      CleanBootIsFresh(Before(boots, m - 1), boots[m - 1], m - 1);
      BootGuards(Before(boots, m - 1), boots[m - 1]);
      BootTakesOne(Before(boots, m - 1), boots[m - 1], m - 1);
    } else {
      NothingStored(boots);
    }
  }

  lemma NothingStored(boots: seq<Boot>)
    ensures Before(boots, 0) == map[]
  {
  }

  ghost predicate FreshUpTo(boots: seq<Boot>, m: nat)
    requires m <= |boots|
  {
    forall i: nat :: i < m ==> StartsFresh(Before(boots, i), boots[i])
  }

  /** A boot that frees its name makes the next one start a session in use, whatever its reads answer. */
  lemma FreedNameIsTaken(files: Files, b: Boot, next: Boot)
    requires Guarded(files) && StartsFresh(files, b) && NumberOf(files, b) == FirstFree(files) && FreesName(files, b)
    ensures !StartsFresh(AfterBoot(files, b), next)
  {
    hide PartPath, TxtPath, SessionName, AfterBoot, Pick, FreesName;
    var n, after := NumberOf(files, b), AfterBoot(files, b);
    BootGuards(files, b);
    TakenStay(files, b);
    assert FirstFree(after) == n;
    ChosenIsFreeExactly(after, next.answers);
  }

  lemma {:induction false} FreshMeansClean(boots: seq<Boot>, m: nat)
    requires m < |boots| < NUMBER_LIMIT && FreshUpTo(boots, m + 1)
    ensures CleanUpTo(boots, m) && AllAnswered(Before(boots, m), boots[m].answers)
    decreases m
  {
    hide AfterBoot, PartPath, TxtPath, SessionName, FreesName, AllAnswered, StartsFresh, Before, TakenUpTo;
    if m > 0 {
      FreshMeansClean(boots, m - 1);
      CleanKeeps(boots, m - 1);
      var files, b := Before(boots, m - 1), boots[m - 1];
      CleanBootIsFresh(files, b, m - 1);
      BeforeNext(boots, m - 1);
      if FreesName(files, b) { FreedNameIsTaken(files, b, boots[m]); }
    }
    CleanKeeps(boots, m);
    CleanBootIsFresh(Before(boots, m), boots[m], m);
  }

  /** Over any sequence of boots from empty storage, whatever fails: every boot starts a session of which no file
      is stored exactly when every boot's reads are answered and no boot before the last frees its name. */
  lemma AllStartFreshExactly(boots: seq<Boot>)
    requires 0 < |boots| < 999999
    ensures FreshUpTo(boots, |boots|)
      <==> CleanUpTo(boots, |boots| - 1) && AllAnswered(Before(boots, |boots| - 1), boots[|boots| - 1].answers)
  {
    hide AfterBoot, FreesName, AllAnswered, StartsFresh, Before, TakenUpTo;
    var m := |boots| - 1;
    if FreshUpTo(boots, |boots|) { FreshMeansClean(boots, m); }
    if CleanUpTo(boots, m) && AllAnswered(Before(boots, m), boots[m].answers) {
      forall i: nat | i < |boots|
        ensures StartsFresh(Before(boots, i), boots[i])
      {
        CleanKeeps(boots, i);
        CleanBootIsFresh(Before(boots, i), boots[i], i);
      }
    }
  }

  /** When all boots start fresh, no boot changes a file that an earlier one left. */
  lemma {:induction false} SessionsNeverOverwrite(boots: seq<Boot>, i: nat, j: nat)
    requires i <= j <= |boots| && FreshUpTo(boots, j)
    ensures forall path :: path in Before(boots, i) ==>
      path in Before(boots, j) && Before(boots, j)[path] == Before(boots, i)[path]
    decreases j
  {
    hide AfterBoot, StartsFresh, Before;
    if i < j {
      SessionsNeverOverwrite(boots, i, j - 1);
      BeforeNext(boots, j - 1);
      BootChangesNoOldFile(Before(boots, j - 1), boots[j - 1]);
    }
  }
}
