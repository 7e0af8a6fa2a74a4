/** What becomes of a session whose name is used again: the later boot overwrites its files.  And how the UEFI
    backend can bring that about. */
module NameReuse {
  import opened CText
  import opened TranscriptRecord
  import opened TranscriptPaths
  import opened TextStore
  import opened Transcript
  import opened Sessions
  import JsonLines
  import StorageTree

  const AllWell := Faults(Written, Written, true, true)

  /** What the TXT text becomes with the line of an event. */
  function Noted(st: State, kind: string, text: string): string {
    Clip(st.txt + TxtLine(st.seqNo + 1, kind, text), BUFFER_MAX)
  }

  function First(st: State, kind: string, actor: string, text: string): Record {
    Entry(kind, actor, text, st.seqNo + 1)
  }

  /** An event of a young transcript, whose flush goes as given. */
  lemma YoungStep(n: nat, identity: Identity, st: State, kind: string, actor: string, text: string, last: Faults)
    requires st.active && !st.locked && |st.jsonl| <= 1023
    ensures var s := Session(SessionName(n), identity);
            var t := Step(s, st, Input(kind, actor, text, AllWell, last));
            && !Rotates(s, st, Input(kind, actor, text, AllWell, last))
            && t.txt == Noted(st, kind, text) && t.jsonl == st.jsonl + Stored(s, First(st, kind, actor, text))
            && !t.locked && t.part == st.part && t.seqNo == st.seqNo + 1
            && (last == AllWell ==> t.active && t.files == st.files[TxtOf(n) := t.txt][PartOf(n, st.part) := t.jsonl])
            && (last.txt.Lost? ==> !t.active && t.files == st.files - {TxtOf(n)})
  {
    hide Stored, TxtLine, Clip, PartPath, TxtPath, SessionName;
    StoredBound(Session(SessionName(n), identity), First(st, kind, actor, text));
  }

  lemma StoredIsNotEmpty(s: Session, r: Record)
    ensures 0 < |Stored(s, r)| <= 1023
  {
    hide Fields;
    assert Fields(s, r) != [];
    LineIsNotEmpty(s, r);
  }

  lemma LineIsNotEmpty(s: Session, r: Record)
    ensures JsonLines.Line(Fields(s, r)) != ""
  {
    hide Fields;
  }

  lemma NotesGrow(st: State, kind: string, text: string)
    requires |st.txt| <= LINE_MAX + 1
    ensures |st.txt| < |Noted(st, kind, text)|
  {
  }

  lemma FirstNoteIsShort(st: State, kind: string, text: string)
    requires st.txt == ""
    ensures |Noted(st, kind, text)| <= LINE_MAX + 1
  {
  }

  function Once(kind: string): Input { Input(kind, "system", "", AllWell, AllWell) }

  lemma RunOnce(s: Session, st: State, e: Input)
    ensures Run(s, st, [e]) == Step(s, st, e)
  {
    assert [e][..0] == [];
  }

  lemma RunTwice(s: Session, st: State, e: Input, f: Input)
    ensures Run(s, st, [e, f]) == Step(s, Step(s, st, e), f)
  {
    hide Step;
    RunOnce(s, st, e);
    assert [e, f][..1] == [e];
  }

  /** Two boots that go well, of one event and of two, leave the first part and the TXT file different. */
  lemma TwoBootsDiffer(files: Files, identity: Identity, answers: Answers)
    requires Chosen(files, answers) < NUMBER_LIMIT
    ensures var n := Chosen(files, answers);
            var x := AfterBoot(files, Boot(identity, "", answers, [Once("a")]));
            var y := AfterBoot(files, Boot(identity, "", answers, [Once("a"), Once("a")]));
            && TxtOf(n) in x && TxtOf(n) in y && x[TxtOf(n)] != y[TxtOf(n)]
            && PartOf(n, 1) in x && PartOf(n, 1) in y && x[PartOf(n, 1)] != y[PartOf(n, 1)]
  {
    hide Stored, Noted, PartPath, TxtPath, SessionName, Step, Run, Clip, Pick;
    var n := Chosen(files, answers);
    var s := Session(SessionName(n), identity);
    var st := YoungState(files);
    var e := Once("a");
    YoungStep(n, identity, st, "a", "system", "", AllWell);
    var st1 := Step(s, st, e);
    StoredIsNotEmpty(s, First(st, "a", "system", ""));
    YoungStep(n, identity, st1, "a", "system", "", AllWell);
    var st2 := Step(s, st1, e);
    StoredIsNotEmpty(s, First(st1, "a", "system", ""));
    FirstNoteIsShort(st, "a", "");
    NotesGrow(st1, "a", "");
    RunOnce(s, st, e);
    RunTwice(s, st, e, e);
    PartNames(n, 1);
  }

  function YoungState(files: Files): (st: State)
    ensures st == Opening("", files) && st.txt == "" && st.jsonl == "" && st.active && !st.locked && st.part == 1
    ensures st.files == files
  {
    Opening("", files)
  }

  /** Whenever the answers of storage make a boot choose a number whose TXT file or first part is stored, there are
      events whose logging changes that file. */
  lemma StaleNameIsOverwritten(files: Files, identity: Identity, answers: Answers) returns (b: Boot, path: string)
    requires Chosen(files, answers) < NUMBER_LIMIT
    requires TxtOf(Chosen(files, answers)) in files || PartOf(Chosen(files, answers), 1) in files
    ensures b.answers == answers && b.identity == identity
    ensures path in files && path in AfterBoot(files, b) && AfterBoot(files, b)[path] != files[path]
  {
    hide PartPath, TxtPath, SessionName, AfterBoot, Pick;
    var n := Chosen(files, answers);
    TwoBootsDiffer(files, identity, answers);
    var x := Boot(identity, "", answers, [Once("a")]);
    var y := Boot(identity, "", answers, [Once("a"), Once("a")]);
    path := if TxtOf(n) in files then TxtOf(n) else PartOf(n, 1);
    b := if AfterBoot(files, x)[path] != files[path] then x else y;
  }

  // ---- How it comes about

  const AnyNumber: Answers := (_: nat) => true

  /** A boot of two events, the second of which loses the TXT file in its final write. */
  function LosingBoot(identity: Identity, header: string, text: string, last: Faults): Boot {
    Boot(identity, header, AnyNumber,
         [Input("session_start", "system", text, AllWell, AllWell), Input("user_input", "user", text, AllWell, last)])
  }

  lemma EmptyStorage()
    ensures Chosen(map[], AnyNumber) == 1 && FirstFree(map[]) == 1
  {
  }

  /** It frees its name and leaves the first part as the first event wrote it. */
  lemma LosingTheTxtFreesTheName(identity: Identity, header: string, text: string, last: Faults)
    requires last.txt.Lost?
    ensures var b := LosingBoot(identity, header, text, last); var after := AfterBoot(map[], b);
            && FreesName(map[], b) && TxtOf(1) !in after && FirstFree(after) == 1
            && PartOf(1, 1) in after
            && after[PartOf(1, 1)] == Stored(Session(SessionName(1), identity),
                                         Entry("session_start", "system", text, 1))
  {
    hide Stored, Noted, PartPath, TxtPath, SessionName, Step, Run, Clip, Rotates;
    var b := LosingBoot(identity, header, text, last);
    EmptyStorage();
    var s := Session(SessionName(1), identity);
    var st := Opening(header, map[]);
    var e1, e2 := b.inputs[0], b.inputs[1];
    OpeningIsYoung(header);
    YoungStep(1, identity, st, "session_start", "system", text, AllWell);
    var st1 := Step(s, st, e1);
    StoredIsNotEmpty(s, Entry("session_start", "system", text, 1));
    YoungStep(1, identity, st1, "user_input", "user", text, last);
    RunOnce(s, st, e1);
    RunTwice(s, st, e1, e2);
    PartNames(1, 1);
    assert b.inputs == [e1, e2] && b.inputs[..1] == [e1];
    assert FreesAt(s, st, b.inputs, 1);
    assert "" + Stored(s, Entry("session_start", "system", text, 1))
        == Stored(s, Entry("session_start", "system", text, 1));
    NoTxtMeansFree(AfterBoot(map[], b));
  }

  lemma OpeningIsYoung(header: string)
    ensures var st := Opening(header, map[]);
            st.active && !st.locked && st.jsonl == "" && st.part == 1 && st.seqNo == 0 && st.files == map[]
  {
  }

  lemma NoTxtMeansFree(files: Files)
    requires TxtOf(1) !in files
    ensures FirstFree(files) == 1
  {
  }

  /** The next boot, with every read and write going well, takes the name and overwrites the part. */
  lemma SecondBootOverwrites(identity: Identity, header: string, text: string, last: Faults)
    requires last.txt.Lost?
    ensures var files := AfterBoot(map[], LosingBoot(identity, header, text, last));
            var e := Input("session_start", "system", text, AllWell, AllWell);
            var after := AfterBoot(files, Boot(identity, header, AnyNumber, [e, e]));
            PartOf(1, 1) in files && PartOf(1, 1) in after && after[PartOf(1, 1)] != files[PartOf(1, 1)]
  {
    hide Stored, Noted, PartPath, TxtPath, SessionName, Step, Run, Clip, Rotates, FreesName;
    var files := AfterBoot(map[], LosingBoot(identity, header, text, last));
    LosingTheTxtFreesTheName(identity, header, text, last);
    var s := Session(SessionName(1), identity);
    var st := Opening(header, files);
    var e := Input("session_start", "system", text, AllWell, AllWell);
    AnyOpeningIsYoung(header, files);
    YoungStep(1, identity, st, "session_start", "system", text, AllWell);
    var st1 := Step(s, st, e);
    StoredIsNotEmpty(s, Entry("session_start", "system", text, 1));
    YoungStep(1, identity, st1, "session_start", "system", text, AllWell);
    StoredIsNotEmpty(s, Entry("session_start", "system", text, 2));
    RunTwice(s, st, e, e);
    PartNames(1, 1);
  }

  lemma AnyOpeningIsYoung(header: string, files: Files)
    ensures var st := Opening(header, files);
            st.active && !st.locked && st.jsonl == "" && st.part == 1 && st.seqNo == 0 && st.files == files
  {
  }

  // ---- The firmware's part in it

  lemma TxtIsAllowed(n: nat)
    ensures StorageTree.PathAllowed(TxtOf(n)) && StorageTree.VITA + "/" <= TxtOf(n)
  {
    hide Six;
    SixIsDigits(n);
    NameIsShort(n);
    PathShape(SessionName(n), 1);
    FolderIsAllowed();
    var p, k := TxtOf(n), |FOLDER| + 8;
    assert p == FOLDER + "session-" + Six(n) + ".txt";
    forall i | 0 <= i < |p|
      ensures p[i] != ':' && p[i] as int >= 32 && (p[i] == '.' ==> i == |p| - 4)
    {
      if i >= |p| - 4 { assert p[i] == ".txt"[i - (|p| - 4)]; }
      else if i >= k { assert p[i] == Six(n)[i - k]; }
      else if i >= |FOLDER| { assert p[i] == "session-"[i - |FOLDER|]; }
      else { assert p[i] == FOLDER[i]; }
    }
  }

  lemma SixIsDigits(n: nat)
    ensures forall i :: 0 <= i < 6 ==> '0' <= Six(n)[i] <= '9'
  {
  }

  lemma NameIsShort(n: nat)
    ensures |SessionName(n)| <= SESSION_ID_MAX
  {
  }

  lemma FolderIsAllowed()
    ensures forall i :: 0 <= i < |FOLDER| ==> FOLDER[i] != ':' && FOLDER[i] as int >= 32 && FOLDER[i] != '.'
    ensures StorageTree.VITA + "/" <= FOLDER
  {
  }

  /** The firmware finds every directory, deletes the old TXT file and refuses to create the new one: the rewrite
      is a lost one, the boot frees its name, and the next boot overwrites its part. */
  lemma RefusedCreationOverwrites(identity: Identity, header: string, text: string, tree: StorageTree.Tree,
                                  txt: string, io: StorageTree.WriteIo)
    requires StorageTree.Closed(tree) && StorageTree.FwName(TxtOf(1)) in StorageTree.Texts(tree)
    requires io.opens && io.deletes && !io.creates && forall k :: io.dirs(k).seen
    ensures var last := Faults(StorageTree.Seen(tree, TxtOf(1), txt, io), Written, true, true);
            var files := AfterBoot(map[], LosingBoot(identity, header, text, last));
            var e := Input("session_start", "system", text, AllWell, AllWell);
            var after := AfterBoot(files, Boot(identity, header, AnyNumber, [e, e]));
            && last.txt == Lost && FirstFree(files) == 1
            && PartOf(1, 1) in files && PartOf(1, 1) in after && after[PartOf(1, 1)] != files[PartOf(1, 1)]
  {
    hide AfterBoot, PartPath, TxtPath, SessionName, StorageTree.Closed, StorageTree.Seen,
      StorageTree.PathAllowed, FreesName;
    TxtIsAllowed(1);
    StorageTree.RefusedCreationLoses(tree, TxtOf(1), txt, io);
    var last := Faults(StorageTree.Seen(tree, TxtOf(1), txt, io), Written, true, true);
    LosingTheTxtFreesTheName(identity, header, text, last);
    SecondBootOverwrites(identity, header, text, last);
  }
}
