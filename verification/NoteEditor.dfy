/** The note editor: one command loop over a bounded text, with a guard against saving over an existing note
    after its text was thrown away. */
module NoteEditor {
  import opened CText
  import opened TextBuffer
  import opened TextStore
  import StorageTree

  const TEXT_MAX: nat := 1535
  const PATH_MAX: nat := 191
  const ROOT := "/vita/"

  // ---- Lines and commands

  predicate IsSpace(c: char) { c == ' ' || c == '\t' || c == '\r' || c == '\n' }

  function TrimRight(s: string): (r: string)
    ensures r <= s && (r != "" ==> !IsSpace(r[|r| - 1]))
    ensures forall i :: |r| <= i < |s| ==> IsSpace(s[i])
  {
    if s != "" && IsSpace(s[|s| - 1]) then TrimRight(s[..|s| - 1]) else s
  }

  function SkipSpaces(s: string): (r: string)
    ensures |r| <= |s| && r == s[|s| - |r|..]
    ensures forall i :: 0 <= i < |s| - |r| ==> IsSpace(s[i])
    ensures r != "" ==> !IsSpace(r[0])
  {
    if s != "" && IsSpace(s[0]) then SkipSpaces(s[1..]) else s
  }

  predicate PathAllowed(path: string) {
    && ROOT <= path
    && (forall i :: 0 <= i < |path| ==> path[i] != ':' && path[i] as int >= 32)
    && (forall i :: 0 <= i < |path| - 1 ==> !(path[i] == '.' && path[i + 1] == '.'))
  }

  /** The editor accepts the paths that storage accepts below /vita. */
  lemma StorageTakesThePath(path: string)
    ensures PathAllowed(path) <==> StorageTree.PathAllowed(path) && StorageTree.VITA + "/" <= path
  {
  }

  datatype Command =
    | Save | ForceSave | SaveAndQuit | Exit | SaveAs(path: string) | Confirm | Cancel
    | Show // .help, .show, .path and .status only print
    | AppendMode | Replace | Clear
    | Line(text: string)

  const SAVEAS := ".saveas "

  /** The path behind `.saveas `, cut to its buffer. */
  function Target(line: string): string
    requires SAVEAS <= line
  {
    TrimRight(Clip(SkipSpaces(line[|SAVEAS|..]), PATH_MAX))
  }

  /** What a submitted line means; anything that is no command is text. */
  function Parse(submitted: string): Command {
    var line := TrimRight(submitted);
    if line == ".save" then Save
    else if line == ".save!" then ForceSave
    else if line == ".wq" then SaveAndQuit
    else if line == ".exit" || line == ".quit" || line == "exit" then Exit
    else if SAVEAS <= line then SaveAs(Target(line))
    else if line == ".confirm" then Confirm
    else if line == ".cancel" then Cancel
    else if line == ".help" || line == ".show" || line == ".path" || line == ".status" then Show
    else if line == ".append" then AppendMode
    else if line == ".replace" then Replace
    else if line == ".clear" then Clear
    else Line(line)
  }

  /** A trimmed line never ends in the blank of `.saveas `, so a path always follows and the usage hint of
      `.saveas` is never reached: `.saveas` alone is text. */
  lemma SaveAsAlwaysHasAPath(submitted: string)
    requires SAVEAS <= TrimRight(submitted)
    ensures SkipSpaces(TrimRight(submitted)[|SAVEAS|..]) != ""
  {
    var line := TrimRight(submitted);
    assert line[|SAVEAS| - 1] == ' ';
    var rest := line[|SAVEAS|..];
    assert rest != "" && !IsSpace(rest[|rest| - 1]);
  }

  // ---- The words of the commands

  lemma SavesAreRead(submitted: string)
    ensures Parse(submitted).Save? <==> TrimRight(submitted) == ".save"
    ensures Parse(submitted).ForceSave? <==> TrimRight(submitted) == ".save!"
    ensures Parse(submitted).SaveAndQuit? <==> TrimRight(submitted) == ".wq"
    ensures Parse(submitted).SaveAs? <==> SAVEAS <= TrimRight(submitted)
    ensures SAVEAS <= TrimRight(submitted) ==> Parse(submitted) == SaveAs(Target(TrimRight(submitted)))
  {
    hide TrimRight, Target;
  }

  lemma EndsAreRead(submitted: string)
    ensures Parse(submitted).Exit? <==> TrimRight(submitted) in [".exit", ".quit", "exit"]
    ensures Parse(submitted).Cancel? <==> TrimRight(submitted) == ".cancel"
    ensures Parse(submitted).Show? <==> TrimRight(submitted) in [".help", ".show", ".path", ".status"]
  {
    hide TrimRight, Target;
  }

  lemma EditsAreRead(submitted: string)
    ensures Parse(submitted).Confirm? <==> TrimRight(submitted) == ".confirm"
    ensures Parse(submitted).AppendMode? <==> TrimRight(submitted) == ".append"
    ensures Parse(submitted).Replace? <==> TrimRight(submitted) == ".replace"
    ensures Parse(submitted).Clear? <==> TrimRight(submitted) == ".clear"
  {
    hide TrimRight, Target;
  }

  lemma TextIsRead(submitted: string)
    ensures Parse(submitted).Line? ==> Parse(submitted) == Line(TrimRight(submitted))
  {
    hide TrimRight, Target;
  }

  // ---- The session as a machine

  datatype Io = Io(write: WriteResult, readable: bool)

  /** A submitted line with the outcome of the storage calls it may cause. */
  datatype Input = Input(line: string, io: Io)

  datatype Write = Write(path: string, text: string, forced: bool)

  datatype Result = Running | Saved | Cancelled

  /** `base` is the text that was loaded or, after it was thrown away, nothing; `accepted` are the lines
      taken since; `log` is every write the session made. */
  datatype State = State(path: string, text: string, loaded: bool, destructive: bool, confirmed: bool, dirty: bool,
                         appending: bool, result: Result, files: Files,
                         base: string, accepted: seq<string>, log: seq<Write>)

  function WithNewline(text: string): string {
    if text == "" || text[|text| - 1] == '\n' || |text| + 2 > TEXT_MAX then text else text + "\n"
  }

  /** Opening a path; an unreadable file counts as missing. */
  function Opened(path: string, appending: bool, files: Files, readable: bool): State {
    var there := readable && path in files;
    var text := if there then Clip(files[path], TEXT_MAX) else "";
    State(path, if there && appending then WithNewline(text) else text, there, false, false, false, appending,
          Running, files, text, [], [])
  }

  predicate Blocked(st: State, forced: bool) { st.loaded && st.destructive && !st.confirmed && !forced }

  datatype Outcome = Outcome(state: State, ok: bool)

  function SavedTo(st: State, path: string, forced: bool, io: Io): Outcome {
    if !PathAllowed(path) || Blocked(st, forced) then Outcome(st, false)
    else
      var t := st.(files := AfterWrite(st.files, path, st.text, io.write),
                    log := st.log + [Write(path, st.text, forced)]);
      if io.write.Written? && io.readable then Outcome(t.(dirty := false), true) else Outcome(t, false)
  }

  predicate Accepts(text: string, line: string) { |text| + |line| + 2 <= TEXT_MAX }

  function Apply(st: State, c: Command, io: Io): State {
    match c
    case Save => SavedTo(st, st.path, false, io).state
    case ForceSave => SavedTo(st, st.path, true, io).state
    case SaveAndQuit =>
      var o := SavedTo(st, st.path, false, io);
      if o.ok then o.state.(result := Saved) else o.state
    case SaveAs(path) =>
      var o := SavedTo(st, path, true, io);
      if o.ok then o.state.(result := Saved) else o.state
    case Exit => st.(result := Cancelled)
    case Cancel => st.(result := Cancelled)
    case Confirm => st.(confirmed := true)
    case Show => st
    case AppendMode => st.(appending := true, text := WithNewline(st.text))
    case Replace =>
      st.(text := "", base := "", accepted := [], appending := false,
          destructive := true, confirmed := false, dirty := true)
    case Clear =>
      st.(text := "", base := "", accepted := [], destructive := true, confirmed := false, dirty := true)
    case Line(line) =>
      if Accepts(st.text, line) then
        st.(text := st.text + line + "\n", accepted := st.accepted + [line], dirty := true)
      else st
  }

  function Step(st: State, e: Input): State {
    if st.result == Running then Apply(st, Parse(e.line), e.io) else st
  }

  function Run(st: State, inputs: seq<Input>): State {
    if inputs == [] then st else Step(Run(st, inputs[..|inputs| - 1]), inputs[|inputs| - 1])
  }

  // ---- What a typed line does

  /** Blanks behind a line do not matter. */
  lemma {:induction false} BlanksAreCut(line: string, blanks: string)
    requires line == "" || line[|line| - 1] !in [' ', '\t', '\r', '\n']
    requires forall i :: 0 <= i < |blanks| ==> blanks[i] in [' ', '\t', '\r', '\n']
    ensures TrimRight(line + blanks) == line
    decreases |blanks|
  {
    if blanks == [] {
      assert line + blanks == line;
    } else {
      var n := |blanks| - 1;
      BlanksAreCut(line, blanks[..n]);
      assert (line + blanks)[..|line + blanks| - 1] == line + blanks[..n];
    }
  }

  const COMMANDS := [".save", ".save!", ".wq", ".exit", ".quit", "exit", ".confirm", ".cancel", ".help", ".show",
                     ".path", ".status", ".append", ".replace", ".clear"]

  /** A text that does not end in a line feed and has room for one. */
  predicate NeedsNewline(text: string) { text != "" && text[|text| - 1] != '\n' && |text| + 2 <= 1535 }

  /** The effect of every command but the saves, and of any other line, by what was typed. */
  lemma EnteredLineActs(st: State, e: Input)
    requires st.result == Running
    ensures var t, w := Step(st, e), Entered(e);
            && (w in [".exit", ".quit", "exit", ".cancel"] ==> t == st.(result := Cancelled))
            && (w in [".help", ".show", ".path", ".status"] ==> t == st)
            && (w == ".confirm" ==> t == st.(confirmed := true))
            && (w == ".append" ==>
                  t == st.(appending := true, text := if NeedsNewline(st.text) then st.text + "\n" else st.text))
            && (w == ".replace" ==> t.appending == false)
            && (w == ".clear" ==> t.appending == st.appending)
            && (w in [".replace", ".clear"] ==>
                  t.text == "" && t.destructive && !t.confirmed && t.dirty && t.files == st.files
                  && t.result == Running)
  {
    hide Parse, TrimRight, SavedTo, Accepts;
    EndsAreRead(e.line);
    EditsAreRead(e.line);
  }

  lemma OtherLinesAreText(st: State, e: Input)
    requires st.result == Running && Entered(e) !in COMMANDS && !(SAVEAS <= Entered(e))
    ensures var w := Entered(e);
            Step(st, e) == if |st.text| + |w| + 2 > 1535 then st
                           else st.(text := st.text + w + "\n", accepted := st.accepted + [w], dirty := true)
  {
    hide Parse, TrimRight, WithNewline, SavedTo;
    SavesAreRead(e.line);
    EndsAreRead(e.line);
    EditsAreRead(e.line);
    TextIsRead(e.line);
    assert Parse(e.line).Line? by { NoCommandIsText(Parse(e.line)); }
  }

  lemma NoCommandIsText(c: Command)
    requires !c.Save? && !c.ForceSave? && !c.SaveAndQuit? && !c.SaveAs? && !c.Exit? && !c.Cancel? && !c.Show?
    requires !c.Confirm? && !c.AppendMode? && !c.Replace? && !c.Clear?
    ensures c.Line?
  {
  }

  // ---- The guard, said by the typed lines alone

  /** What stands in the line once the blanks at its end are cut off. */
  function Entered(e: Input): string { TrimRight(e.line) }

  predicate ThrowsAway(e: Input) { Entered(e) == ".clear" || Entered(e) == ".replace" }

  predicate Confirms(e: Input) { Entered(e) == ".confirm" }

  predicate Destroyed(inputs: seq<Input>) { exists i :: 0 <= i < |inputs| && ThrowsAway(inputs[i]) }

  /** A confirmation that no later `.clear` or `.replace` cancels. */
  predicate ConfirmedAt(inputs: seq<Input>, j: int) {
    0 <= j < |inputs| && Confirms(inputs[j]) && forall i :: j < i < |inputs| ==> !ThrowsAway(inputs[i])
  }

  predicate ConfirmedSince(inputs: seq<Input>) { exists j :: 0 <= j < |inputs| && ConfirmedAt(inputs, j) }

  predicate FlagsMean(st: State, inputs: seq<Input>) {
    (st.destructive <==> Destroyed(inputs)) && (st.confirmed <==> ConfirmedSince(inputs))
  }

  lemma SaveKeepsFlags(st: State, path: string, forced: bool, io: Io)
    ensures var t := SavedTo(st, path, forced, io).state;
            t.destructive == st.destructive && t.confirmed == st.confirmed && t.loaded == st.loaded
            && t.result == st.result && t.text == st.text && t.base == st.base && t.accepted == st.accepted
            && t.path == st.path
  {
  }

  lemma StepFlags(st: State, e: Input)
    requires st.result == Running
    ensures Step(st, e).destructive == (st.destructive || ThrowsAway(e))
    ensures Step(st, e).confirmed == ((st.confirmed && !ThrowsAway(e)) || Confirms(e))
    ensures Step(st, e).loaded == st.loaded && Step(st, e).path == st.path
  {
    hide Parse, Apply, TrimRight;
    EditsAreRead(e.line);
    ApplyFlags(st, Parse(e.line), e.io);
  }

  lemma ApplyFlags(st: State, c: Command, io: Io)
    ensures var t := Apply(st, c, io);
            t.destructive == (st.destructive || c.Clear? || c.Replace?)
            && t.confirmed == ((st.confirmed && !c.Clear? && !c.Replace?) || c.Confirm?)
            && t.loaded == st.loaded && t.path == st.path
  {
    hide SavedTo, WithNewline, Accepts;
    match c
    case Save => SaveKeepsFlags(st, st.path, false, io);
    case ForceSave => SaveKeepsFlags(st, st.path, true, io);
    case SaveAndQuit => SaveKeepsFlags(st, st.path, false, io);
    case SaveAs(path) => SaveKeepsFlags(st, path, true, io);
    case _ =>
  }

  lemma ConfirmedSinceSnoc(front: seq<Input>, e: Input)
    ensures Destroyed(front + [e]) <==> Destroyed(front) || ThrowsAway(e)
    ensures ConfirmedSince(front + [e]) <==> (ConfirmedSince(front) && !ThrowsAway(e)) || Confirms(e)
  {
    hide TrimRight;
    var all := front + [e];
    if Destroyed(front) {
      var i :| 0 <= i < |front| && ThrowsAway(front[i]);
      assert ThrowsAway(all[i]);
    }
    if ThrowsAway(e) { assert ThrowsAway(all[|front|]); }
    if Confirms(e) { assert ConfirmedAt(all, |front|); }
    if ConfirmedSince(front) && !ThrowsAway(e) {
      var j :| 0 <= j < |front| && ConfirmedAt(front, j);
      assert ConfirmedAt(all, j);
    }
    if ConfirmedSince(all) {
      var j :| 0 <= j < |all| && ConfirmedAt(all, j);
      if j < |front| {
        assert !ThrowsAway(all[|front|]);
        assert ConfirmedAt(front, j) by {
          assert forall i :: j < i < |front| ==> all[i] == front[i];
        }
      }
    }
  }

  lemma {:induction false} RunFlags(st: State, inputs: seq<Input>)
    requires !st.destructive && !st.confirmed
    ensures Run(st, inputs).result == Running ==> FlagsMean(Run(st, inputs), inputs) && st.result == Running
    ensures Run(st, inputs).loaded == st.loaded && Run(st, inputs).path == st.path
    decreases |inputs|
  {
    if inputs != [] {
      hide Step, Destroyed, ConfirmedSince;
      var front, e := inputs[..|inputs| - 1], inputs[|inputs| - 1];
      RunFlags(st, front);
      assert inputs == front + [e];
      var t := Run(st, front);
      StoppedStays(t, e);
      ConfirmedSinceSnoc(front, e);
      if t.result == Running { StepFlags(t, e); }
    } else {
      NothingYet();
    }
  }

  lemma NothingYet()
    ensures !Destroyed([]) && !ConfirmedSince([])
  {
  }

  lemma StoppedStays(st: State, e: Input)
    ensures st.result != Running ==> Step(st, e) == st
  {
  }

  /** An unforced save writes exactly when the note was not loaded from a file, or nothing was thrown away,
      or a confirmation came after the last `.clear` or `.replace`. */
  lemma UnforcedSaveWritesExactly(path: string, appending: bool, files: Files, readable: bool,
                                  inputs: seq<Input>, io: Io)
    requires PathAllowed(path)
    requires Run(Opened(path, appending, files, readable), inputs).result == Running
    ensures var st := Run(Opened(path, appending, files, readable), inputs);
            var after := SavedTo(st, st.path, false, io).state;
            |after.log| > |st.log|
            <==> !(readable && path in files) || !Destroyed(inputs) || ConfirmedSince(inputs)
  {
    hide Run, PathAllowed;
    RunFlags(Opened(path, appending, files, readable), inputs);
  }

  // ---- When a loaded note is overwritten

  /** A step writes at most one file. */
  predicate WritesTo(before: State, after: State, path: string) {
    |after.log| > |before.log| && after.log[|before.log|].path == path
  }

  /** Commands that pass over the guard. */
  predicate Forces(e: Input, path: string) { Entered(e) == ".save!" || SavesAs(e, path) }

  predicate SavesAs(e: Input, path: string) { SAVEAS <= Entered(e) && Target(Entered(e)) == path }

  predicate Saves(e: Input) { Entered(e) == ".save" || Entered(e) == ".wq" }

  predicate Done(io: Io) { io.write.Written? && io.readable }

  lemma SaveEffect(st: State, path: string, forced: bool, io: Io)
    ensures var o := SavedTo(st, path, forced, io); var writes := PathAllowed(path) && !Blocked(st, forced);
            && (o.ok <==> writes && Done(io)) && o.state.result == st.result
            && o.state.log == (if writes then st.log + [Write(path, st.text, forced)] else st.log)
            && o.state.files == (if writes then AfterWrite(st.files, path, st.text, io.write) else st.files)
  {
    hide PathAllowed;
  }

  lemma ApplySaves(st: State, c: Command, io: Io)
    requires st.result == Running
    ensures var t := Apply(st, c, io);
            var forced := c.ForceSave? || c.SaveAs?; var saves := forced || c.Save? || c.SaveAndQuit?;
            var to := if c.SaveAs? then c.path else st.path;
            var writes := saves && PathAllowed(to) && !Blocked(st, forced);
            && t.log == (if writes then st.log + [Write(to, st.text, forced)] else st.log)
            && t.files == (if writes then AfterWrite(st.files, to, st.text, io.write) else st.files)
            && (t.result == Running
                <==> !(c.Exit? || c.Cancel? || ((c.SaveAs? || c.SaveAndQuit?) && writes && Done(io))))
  {
    hide SavedTo, PathAllowed, WithNewline, Accepts, Blocked, Done;
    SaveEffect(st, if c.SaveAs? then c.path else st.path, c.ForceSave? || c.SaveAs?, io);
    match c
    case Save =>
    case ForceSave =>
    case SaveAndQuit =>
    case SaveAs(path) =>
    case _ =>
  }

  lemma OwnWriteExactly(st: State, e: Input)
    requires st.result == Running && PathAllowed(st.path)
    ensures WritesTo(st, Step(st, e), st.path) <==> Forces(e, st.path) || (Saves(e) && !Blocked(st, false))
  {
    hide Parse, PathAllowed, Apply, TrimRight, Target;
    SavesAreRead(e.line);
    ApplySaves(st, Parse(e.line), e.io);
  }

  /** Whether the guard stops a save after these commands. */
  predicate Guards(loaded: bool, inputs: seq<Input>) { loaded && Destroyed(inputs) && !ConfirmedSince(inputs) }

  /** The session ends with this command. */
  predicate Ends(path: string, loaded: bool, before: seq<Input>, e: Input) {
    || Entered(e) in [".exit", ".quit", "exit", ".cancel"]
    || (SAVEAS <= Entered(e) && PathAllowed(Target(Entered(e))) && Done(e.io))
    || (Entered(e) == ".wq" && PathAllowed(path) && !Guards(loaded, before) && Done(e.io))
  }

  predicate EndsAt(path: string, loaded: bool, inputs: seq<Input>, i: int)
    requires 0 <= i < |inputs|
  {
    Ends(path, loaded, inputs[..i], inputs[i])
  }

  predicate Lasts(path: string, loaded: bool, inputs: seq<Input>) {
    forall i :: 0 <= i < |inputs| ==> !EndsAt(path, loaded, inputs, i)
  }

  lemma LastsSnoc(path: string, loaded: bool, front: seq<Input>, e: Input)
    ensures Lasts(path, loaded, front + [e]) <==> Lasts(path, loaded, front) && !Ends(path, loaded, front, e)
  {
    hide Ends;
    var all := front + [e];
    assert all[..|front|] == front;
    assert EndsAt(path, loaded, all, |front|) == Ends(path, loaded, front, e);
    forall i | 0 <= i < |front|
      ensures EndsAt(path, loaded, all, i) == EndsAt(path, loaded, front, i)
    {
      assert all[..i] == front[..i];
    }
  }

  lemma StepEnds(st: State, e: Input, before: seq<Input>)
    requires st.result == Running && FlagsMean(st, before)
    ensures Step(st, e).result == Running <==> !Ends(st.path, st.loaded, before, e)
  {
    hide Parse, PathAllowed, Apply, Destroyed, ConfirmedSince, Done, TrimRight, Target;
    SavesAreRead(e.line);
    EndsAreRead(e.line);
    ApplySaves(st, Parse(e.line), e.io);
  }

  /** Whether a session is still running, said by its commands and the outcomes of storage. */
  lemma {:induction false} RunningExactly(path: string, appending: bool, files: Files, readable: bool,
                                          inputs: seq<Input>)
    ensures Run(Opened(path, appending, files, readable), inputs).result == Running
      <==> Lasts(path, readable && path in files, inputs)
    decreases |inputs|
  {
    hide Step, Ends, FlagsMean, Lasts;
    var start := Opened(path, appending, files, readable);
    if inputs == [] {
      NothingEnds(path, start.loaded);
    } else {
      var front, e := inputs[..|inputs| - 1], inputs[|inputs| - 1];
      assert inputs == front + [e];
      RunningExactly(path, appending, files, readable, front);
      LastsSnoc(path, start.loaded, front, e);
      RunFlags(start, front);
      var st := Run(start, front);
      StoppedStays(st, e);
      if st.result == Running { StepEnds(st, e, front); }
    }
  }

  lemma NothingEnds(path: string, loaded: bool)
    ensures Lasts(path, loaded, [])
  {
  }

  /** The command after `before` writes the note's own file. */
  ghost predicate Writes(start: State, before: seq<Input>, e: Input) {
    WritesTo(Run(start, before), Run(start, before + [e]), start.path)
  }

  /** Over every session: a command writes the note's own file exactly when the session still runs and the
      command is `.save!`, a `.saveas` to that path, or a save that the guard lets pass. */
  lemma OwnFileIsWrittenExactly(path: string, appending: bool, files: Files, readable: bool, before: seq<Input>,
                                e: Input)
    requires PathAllowed(path)
    ensures Writes(Opened(path, appending, files, readable), before, e)
      <==> Lasts(path, readable && path in files, before)
           && (Forces(e, path) || (Saves(e) && !Guards(readable && path in files, before)))
  {
    hide Step, PathAllowed, Forces, Saves, Lasts, Destroyed, ConfirmedSince;
    var start := Opened(path, appending, files, readable);
    var st := Run(start, before);
    assert (before + [e])[..|before|] == before;
    RunningExactly(path, appending, files, readable, before);
    RunFlags(start, before);
    StoppedStays(st, e);
    if st.result == Running { OwnWriteExactly(st, e); }
  }

  /** A loaded note is written although its text was thrown away and nothing confirmed since. */
  ghost predicate OverwritesUnconfirmed(start: State, inputs: seq<Input>) {
    exists i :: 0 <= i < |inputs| && OverwritesAt(start, inputs, i)
  }

  ghost predicate OverwritesAt(start: State, inputs: seq<Input>, i: int)
    requires 0 <= i < |inputs|
  {
    Guards(start.loaded, inputs[..i]) && Writes(start, inputs[..i], inputs[i])
  }

  /** The i-th command comes while the session runs and the guard is up, and passes over it. */
  predicate ForcesAt(path: string, inputs: seq<Input>, i: int)
    requires 0 <= i < |inputs|
  {
    Lasts(path, true, inputs[..i]) && Guards(true, inputs[..i]) && Forces(inputs[i], path)
  }

  /** Over every session, a loaded note is overwritten unconfirmed exactly when `.save!` or a `.saveas` to its own
      path comes while the guard is up. */
  lemma UnconfirmedOverwriteExactly(path: string, appending: bool, files: Files, readable: bool, inputs: seq<Input>)
    requires PathAllowed(path)
    ensures OverwritesUnconfirmed(Opened(path, appending, files, readable), inputs)
      <==> readable && path in files && exists i :: 0 <= i < |inputs| && ForcesAt(path, inputs, i)
  {
    hide PathAllowed, Writes, Lasts, Forces, Saves, Destroyed, ConfirmedSince;
    var start := Opened(path, appending, files, readable);
    forall i | 0 <= i < |inputs|
      ensures OverwritesAt(start, inputs, i) <==> readable && path in files && ForcesAt(path, inputs, i)
    {
      OwnFileIsWrittenExactly(path, appending, files, readable, inputs[..i], inputs[i]);
    }
  }

  predicate SameFile(files: Files, after: Files, path: string) {
    (path in files <==> path in after) && (path in files ==> files[path] == after[path])
  }

  lemma GuardedStep(st: State, e: Input)
    requires st.loaded && st.destructive && !st.confirmed && !Forces(e, st.path) && !Confirms(e)
    ensures SameFile(st.files, Step(st, e).files, st.path)
    ensures st.result == Running ==> StepGuarded(st, Step(st, e))
  {
    hide Parse, PathAllowed, Apply, TrimRight, Target;
    SavesAreRead(e.line);
    EditsAreRead(e.line);
    if st.result == Running {
      ApplySaves(st, Parse(e.line), e.io);
      ApplyFlags(st, Parse(e.line), e.io);
    }
  }

  predicate StepGuarded(st: State, t: State) {
    t.loaded && t.destructive && !t.confirmed && t.path == st.path
  }

  /** Without a confirmation, `.save!` or `.saveas` to its path, a loaded note whose text was thrown away stays as
      it is stored, whatever else is entered and however storage answers. */
  lemma {:induction false} ThrownAwayNoteStays(st: State, inputs: seq<Input>)
    requires st.loaded && st.destructive && !st.confirmed
    requires forall i :: 0 <= i < |inputs| ==> !Forces(inputs[i], st.path) && !Confirms(inputs[i])
    ensures SameFile(st.files, Run(st, inputs).files, st.path) && StepGuarded(st, Run(st, inputs))
    decreases |inputs|
  {
    if inputs != [] {
      hide Step, Forces, Confirms, SameFile;
      var front, e := inputs[..|inputs| - 1], inputs[|inputs| - 1];
      ThrownAwayNoteStays(st, front);
      var t := Run(st, front);
      GuardedStep(t, e);
      StoppedStays(t, e);
      SameFileTwice(st.files, t.files, Step(t, e).files, st.path);
    }
  }

  lemma SameFileTwice(a: Files, b: Files, c: Files, path: string)
    requires SameFile(a, b, path) && SameFile(b, c, path)
    ensures SameFile(a, c, path)
  {
  }

  /** `.clear` and `.save` leave a loaded note as it is stored. */
  lemma SaveIsRefused(path: string, appending: bool, files: Files, cleared: Io, saved: Io)
    requires PathAllowed(path) && path in files
    ensures var inputs := [Input(".clear", cleared), Input(".save", saved)];
            SameFile(files, Run(Opened(path, appending, files, true), inputs).files, path)
  {
    hide PathAllowed, Parse, Apply, Opened, TrimRight, SameFile;
    var e1, e2 := Input(".clear", cleared), Input(".save", saved);
    var start := Opened(path, appending, files, true);
    OpenedRuns(path, appending, files);
    assert [e1, e2][..1] == [e1] && [e1][..0] == [];
    assert Run(start, [e1]) == Step(start, e1);
    assert Run(start, [e1, e2]) == Step(Run(start, [e1]), e2);
    TrimmedWords();
    EnteredLineActs(start, e1);
    StepFlags(start, e1);
    GuardedStep(Step(start, e1), e2);
  }

  lemma TrimmedWords()
    ensures TrimRight(".clear") == ".clear" && TrimRight(".save") == ".save"
    ensures !(SAVEAS <= ".save")
  {
    Trimmed(".clear");
    Trimmed(".save");
  }

  /** It happens: `.clear` and `.saveas` to its own path leave a loaded note empty, with nothing confirmed. */
  lemma SaveAsOverwrites(path: string, files: Files, io: Io)
    requires PathAllowed(path) && !IsSpace(path[|path| - 1]) && |path| <= 191 && path in files
    ensures var inputs := [Input(".clear", io), Input(SAVEAS + path, Io(Written, true))];
            var st := Run(Opened(path, false, files, true), inputs);
            st.result == Saved && path in st.files && st.files[path] == "" && !ConfirmedSince(inputs)
  {
    hide PathAllowed, Parse, Apply, Opened;
    var e1, e2 := Input(".clear", io), Input(SAVEAS + path, Io(Written, true));
    var start := Opened(path, false, files, true);
    AllowedIsBelowRoot(path);
    ClearIsRead();
    SaveAsIsRead(path);
    OpenedRuns(path, false, files);
    assert [e1, e2][..1] == [e1] && [e1][..0] == [];
    assert Run(start, [e1]) == Step(start, e1);
    assert Run(start, [e1, e2]) == Step(Run(start, [e1]), e2);
    ClearedIsEmpty(start, io);
    ApplySaves(Apply(start, Clear, io), SaveAs(path), e2.io);
    SavedAsEnds(Apply(start, Clear, io), path, e2.io);
  }

  lemma OpenedRuns(path: string, appending: bool, files: Files)
    ensures var st := Opened(path, appending, files, true);
            st.result == Running && st.files == files && st.path == path && (path in files ==> st.loaded)
  {
  }

  lemma ClearedIsEmpty(st: State, io: Io)
    ensures var t := Apply(st, Clear, io); t.text == "" && t.result == st.result
  {
  }

  lemma SavedAsEnds(st: State, path: string, io: Io)
    requires PathAllowed(path) && Done(io)
    ensures Apply(st, SaveAs(path), io).result == Saved
  {
    hide PathAllowed;
  }

  lemma AllowedIsBelowRoot(path: string)
    requires PathAllowed(path)
    ensures ROOT <= path && path[0] == '/'
  {
  }

  lemma ClearIsRead()
    ensures Parse(".clear") == Clear
  {
    assert TrimRight(".clear") == ".clear";
  }

  lemma SaveAsIsRead(path: string)
    requires path != "" && path[0] == '/' && !IsSpace(path[|path| - 1]) && |path| <= 191
    ensures Parse(SAVEAS + path) == SaveAs(path)
  {
    hide Parse, TrimRight, SkipSpaces, IsSpace, SAVEAS;
    var line := SAVEAS + path;
    Behind(SAVEAS, path);
    Trimmed(line);
    Trimmed(path);
    assert !IsSpace('/') by { SlashIsNoSpace(); }
    NotSkipped(path);
    SavesAreRead(line);
    assert Target(line) == path;
  }

  lemma SlashIsNoSpace()
    ensures !IsSpace('/')
  {
  }

  lemma Behind(word: string, rest: string)
    requires rest != ""
    ensures word <= word + rest && (word + rest)[|word|..] == rest
    ensures (word + rest)[|word + rest| - 1] == rest[|rest| - 1]
  {
  }

  lemma Trimmed(s: string)
    requires s != "" && !IsSpace(s[|s| - 1])
    ensures TrimRight(s) == s
  {
  }

  lemma NotSkipped(s: string)
    requires s != "" && !IsSpace(s[0])
    ensures SkipSpaces(s) == s
  {
  }

  // ---- The text

  function LinesText(lines: seq<string>): string {
    if lines == [] then "" else LinesText(lines[..|lines| - 1]) + lines[|lines| - 1] + "\n"
  }

  /** The text is the base, perhaps one line feed, and the accepted lines, each ending in a line feed. */
  predicate TextIs(st: State, gap: string) {
    (gap == "" || gap == "\n") && st.text == st.base + gap + LinesText(st.accepted)
  }

  predicate TextOk(st: State) { |st.text| <= TEXT_MAX && (TextIs(st, "") || TextIs(st, "\n")) }

  lemma LinesTextSnoc(lines: seq<string>, line: string)
    ensures LinesText(lines + [line]) == LinesText(lines) + line + "\n"
  {
    assert (lines + [line])[..|lines|] == lines;
  }

  lemma AcceptedKeepsText(st: State, line: string, gap: string)
    requires TextIs(st, gap)
    ensures TextIs(st.(text := st.text + line + "\n", accepted := st.accepted + [line]), gap)
  {
    LinesTextSnoc(st.accepted, line);
    var l := LinesText(st.accepted);
    assert (st.base + gap + l) + line + "\n" == st.base + gap + (l + line + "\n");
  }

  lemma TextEndsInNewline(st: State)
    requires TextOk(st)
    ensures st.accepted != [] ==> st.text != "" && st.text[|st.text| - 1] == '\n'
  {
  }

  lemma NewlineKeepsText(st: State)
    requires TextOk(st)
    ensures TextOk(st.(text := WithNewline(st.text)))
  {
    TextEndsInNewline(st);
    if WithNewline(st.text) != st.text && st.accepted == [] {
      assert LinesText([]) == "";
      assert TextIs(st, "") ==> TextIs(st.(text := WithNewline(st.text)), "\n");
    }
  }

  lemma LineKeepsText(st: State, line: string)
    requires TextOk(st) && Accepts(st.text, line)
    ensures TextOk(st.(text := st.text + line + "\n", accepted := st.accepted + [line]))
  {
    hide LinesText;
    if TextIs(st, "") { AcceptedKeepsText(st, line, ""); }
    if TextIs(st, "\n") { AcceptedKeepsText(st, line, "\n"); }
  }

  /** TextOk looks at three fields only. */
  lemma TextOkReads(st: State, t: State)
    requires st.text == t.text && st.base == t.base && st.accepted == t.accepted
    ensures TextOk(st) == TextOk(t)
  {
  }

  predicate Edits(c: Command) { c.Line? || c.AppendMode? || c.Replace? || c.Clear? }

  lemma ApplyLeavesText(st: State, c: Command, io: Io)
    requires !Edits(c)
    ensures var t := Apply(st, c, io); t.text == st.text && t.base == st.base && t.accepted == st.accepted
  {
    hide SavedTo, WithNewline, Accepts;
    if c.Save? || c.ForceSave? || c.SaveAndQuit? || c.SaveAs? {
      SaveLeavesText(st, c, io);
    }
  }

  lemma SaveLeavesText(st: State, c: Command, io: Io)
    requires c.Save? || c.ForceSave? || c.SaveAndQuit? || c.SaveAs?
    ensures var t := Apply(st, c, io); t.text == st.text && t.base == st.base && t.accepted == st.accepted
  {
    hide SavedTo, WithNewline, Accepts;
    SaveKeepsText(st, if c.SaveAs? then c.path else st.path, c.ForceSave? || c.SaveAs?, io);
  }

  lemma EditKeepsText(st: State, c: Command, io: Io)
    requires TextOk(st) && Edits(c)
    ensures TextOk(Apply(st, c, io))
    ensures Apply(st, c, io).base == st.base || (Apply(st, c, io).base == "" && (c.Clear? || c.Replace?))
  {
    hide SavedTo, TextOk, WithNewline, Accepts;
    var t := Apply(st, c, io);
    match c
    case Line(line) =>
      if Accepts(st.text, line) {
        LineKeepsText(st, line);
        TextOkReads(st.(text := st.text + line + "\n", accepted := st.accepted + [line]), t);
      }
    case AppendMode =>
      NewlineKeepsText(st);
      TextOkReads(st.(text := WithNewline(st.text)), t);
    case _ => Emptied(t);
  }

  lemma StepText(st: State, e: Input)
    requires TextOk(st)
    ensures TextOk(Step(st, e))
    ensures Step(st, e).base == st.base || (Step(st, e).base == "" && ThrowsAway(e))
  {
    hide Parse, Apply, TextOk;
    if st.result == Running {
      EditsAreRead(e.line);
      if Edits(Parse(e.line)) {
        EditKeepsText(st, Parse(e.line), e.io);
      } else {
        ApplyLeavesText(st, Parse(e.line), e.io);
        TextOkReads(st, Step(st, e));
      }
    }
  }

  predicate LogsText(before: State, after: State) {
    after.log == before.log
    || (after.log != [] && after.log[..|after.log| - 1] == before.log && after.log[|after.log| - 1].text == before.text)
  }

  /** What a command writes, if it writes, is the text. */
  lemma ApplyLogs(st: State, c: Command, io: Io)
    ensures LogsText(st, Apply(st, c, io))
  {
    hide SavedTo, WithNewline, Accepts;
    match c
    case Save => SaveKeepsText(st, st.path, false, io);
    case ForceSave => SaveKeepsText(st, st.path, true, io);
    case SaveAndQuit => SaveKeepsText(st, st.path, false, io);
    case SaveAs(path) => SaveKeepsText(st, path, true, io);
    case _ =>
  }

  lemma StepLog(st: State, e: Input)
    ensures LogsText(st, Step(st, e))
  {
    hide Parse, Apply;
    ApplyLogs(st, Parse(e.line), e.io);
  }

  lemma Emptied(st: State)
    requires st.text == "" && st.base == "" && st.accepted == []
    ensures TextOk(st)
  {
    assert LinesText(st.accepted) == "";
    assert TextIs(st, "");
  }

  lemma SaveKeepsText(st: State, path: string, forced: bool, io: Io)
    ensures var t := SavedTo(st, path, forced, io).state;
            t == st.(files := t.files, log := t.log, dirty := t.dirty) && LogsText(st, t)
  {
  }

  lemma OpenedText(path: string, appending: bool, files: Files, readable: bool)
    ensures TextOk(Opened(path, appending, files, readable))
  {
    var st := Opened(path, false, files, readable);
    assert LinesText([]) == "";
    assert TextIs(st, "");
    NewlineKeepsText(st);
    assert st.text + "\n" == st.text + "\n" + "";
  }

  predicate AllBeginWith(log: seq<Write>, base: string) { forall i :: 0 <= i < |log| ==> base <= log[i].text }

  /** Over every session the text is its base plus the accepted lines and fits the buffer; as long as nothing
      is thrown away, the base is the loaded text and every text written begins with it. */
  lemma {:induction false} SessionText(path: string, appending: bool, files: Files, readable: bool, inputs: seq<Input>)
    ensures var st := Run(Opened(path, appending, files, readable), inputs);
            TextOk(st)
            && (!Destroyed(inputs) ==>
                  st.base == Opened(path, appending, files, readable).base && AllBeginWith(st.log, st.base))
    decreases |inputs|
  {
    hide Step, TextOk, Destroyed, Opened;
    var start := Opened(path, appending, files, readable);
    if inputs == [] {
      OpenedText(path, appending, files, readable);
      OpenedLog(path, appending, files, readable);
    } else {
      var front, e := inputs[..|inputs| - 1], inputs[|inputs| - 1];
      SessionText(path, appending, files, readable, front);
      assert inputs == front + [e];
      ConfirmedSinceSnoc(front, e);
      var st := Run(start, front);
      StepText(st, e);
      StepLog(st, e);
      TextBeginsWithBase(st);
    }
  }

  lemma OpenedLog(path: string, appending: bool, files: Files, readable: bool)
    ensures Opened(path, appending, files, readable).log == []
  {
  }

  lemma TextBeginsWithBase(st: State)
    requires TextOk(st)
    ensures st.base <= st.text
  {
  }

  // ---- The code

  class Session {
    const text: Buffer
    const store: Store
    var path: string
    var loaded: bool
    var destructive: bool
    var confirmed: bool
    var dirty: bool
    var appending: bool
    ghost var base: string
    ghost var accepted: seq<string>
    ghost var log: seq<Write>

    ghost predicate Valid()
      reads this, text, text.data
    {
      text.Valid() && text.Max() == TEXT_MAX
    }

    ghost function View(result: Result): State
      requires Valid()
      reads this, text, text.data, store
    {
      State(path, text.Text(), loaded, destructive, confirmed, dirty, appending, result,
            store.files, base, accepted, log)
    }

    /** Opens a note; `readable` is whether storage answers the read. */
    constructor (notePath: string, mode: bool, storage: Store, readable: bool)
      requires |notePath| <= PATH_MAX
      ensures Valid() && View(Running) == Opened(notePath, mode, storage.files, readable) && store == storage
      ensures fresh(text) && fresh(text.data)
    {
      text := new Buffer(TEXT_MAX + 1);
      store := storage;
      path := notePath;
      loaded, destructive, confirmed, dirty := false, false, false, false;
      appending := mode;
      base, accepted, log := "", [], [];
      new;
      var found := store.ReadText(path, TEXT_MAX + 1, readable);
      if found.Some? {
        var _ := text.Append(found.value);
        assert "" + found.value == found.value;
        loaded := true;
        base := found.value;
        if appending {
          EnsureNewline();
        }
      }
    }

    method EnsureNewline()
      requires Valid()
      modifies text, text.data
      ensures Valid() && text.Text() == WithNewline(old(text.Text()))
    {
      if text.len == 0 || text.data[text.len - 1] == '\n' || text.len + 1 + 1 >= text.data.Length {
        return;
      }
      var _ := text.Append("\n");
    }

    method AppendLine(line: string) returns (ok: bool)
      requires Valid()
      modifies text, text.data
      ensures Valid() && (ok <==> Accepts(old(text.Text()), line))
      ensures text.Text() == if ok then old(text.Text()) + line + "\n" else old(text.Text())
    {
      if text.len + |line| + 2 >= text.data.Length {
        return false;
      }
      ok := text.Append(line);
      ok := text.Append("\n");
    }

    method SaveToPath(target: string, force: bool, io: Io) returns (ok: bool)
      requires Valid()
      modifies this`dirty, this`log, store
      ensures Valid() && Outcome(View(Running), ok) == SavedTo(old(View(Running)), target, force, io)
    {
      if !PathAllowed(target) {
        return false;
      }
      if loaded && destructive && !confirmed && !force {
        return false;
      }
      var content := text.data[..text.len];
      log := log + [Write(target, content, force)];
      var written := store.WriteText(target, content, io.write);
      if !written {
        return false;
      }
      var verify := store.ReadText(target, READ_MAX, io.readable);
      if verify != Some(content) {
        return false;
      }
      dirty := false;
      return true;
    }

    method ThrowAway()
      requires Valid()
      modifies this`destructive, this`confirmed, this`dirty, this`base, this`accepted, text, text.data
      ensures Valid() && View(Running)
        == old(View(Running)).(text := "", base := "", accepted := [],
                               destructive := true, confirmed := false, dirty := true)
    {
      text.Reset();
      destructive, confirmed, dirty := true, false, true;
      base, accepted := "", [];
    }

    /** One pass of the command loop. */
    method Submit(e: Input) returns (result: Result)
      requires Valid()
      modifies this, text, text.data, store
      ensures Valid() && View(result) == Step(old(View(Running)), e)
    {
      hide Parse, Apply;
      result := Obey(Parse(e.line), e.io);
    }

    method Obey(c: Command, io: Io) returns (result: Result)
      requires Valid()
      modifies this, text, text.data, store
      ensures Valid() && View(result) == Apply(old(View(Running)), c, io)
    {
      hide SavedTo, Clip, WithNewline, Accepts;
      result := Running;
      match c {
        case Save => var _ := SaveToPath(path, false, io);
        case ForceSave => var _ := SaveToPath(path, true, io);
        case SaveAndQuit =>
          var ok := SaveToPath(path, false, io);
          if ok { result := Saved; }
        case SaveAs(target) =>
          var ok := SaveToPath(target, true, io);
          if ok { result := Saved; }
        case Exit => result := Cancelled;
        case Cancel => result := Cancelled;
        case Confirm => confirmed := true;
        case Show =>
        case AppendMode =>
          appending := true;
          EnsureNewline();
        case Replace =>
          ThrowAway();
          appending := false;
        case Clear => ThrowAway();
        case Line(line) =>
          var ok := AppendLine(line);
          if ok {
            dirty := true;
            accepted := accepted + [line];
          }
      }
    }

    /** The command loop over the submitted lines; it stops early when a command ends the session. */
    method RunLines(inputs: seq<Input>) returns (result: Result)
      requires Valid()
      modifies this, text, text.data, store
      ensures Valid() && View(result) == Run(old(View(Running)), inputs)
    {
      hide Step;
      result := Running;
      var i := 0;
      while i < |inputs| && result == Running
        invariant i <= |inputs| && Valid() && View(result) == Run(old(View(Running)), inputs[..i])
      {
        assert inputs[..i + 1][..i] == inputs[..i];
        result := Submit(inputs[i]);
        i := i + 1;
      }
      if i < |inputs| {
        RunStopped(old(View(Running)), inputs, i);
      }
      assert inputs[..|inputs|] == inputs;
    }
  }

  lemma {:induction false} RunStopped(st: State, inputs: seq<Input>, i: nat)
    requires i <= |inputs| && Run(st, inputs[..i]).result != Running
    ensures Run(st, inputs) == Run(st, inputs[..i])
    decreases |inputs|
  {
    if i < |inputs| {
      var front := inputs[..|inputs| - 1];
      assert front[..i] == inputs[..i];
      RunStopped(st, front, i);
      StoppedStays(Run(st, front), inputs[|inputs| - 1]);
    } else {
      assert inputs[..i] == inputs;
    }
  }
}
