/** The audit log as a machine: events buffered before the database opens, the flush when it does, and
    appends that may fail.  The table of rows is a ghost; each insert is a step whose outcome is given. */
module AuditLog {
  import opened CText
  import opened AuditChain
  import Sha256
  import SmokeCheck

  const EARLY_MAX: nat := 32
  const KIND_MAX: nat := 63
  const SUMMARY_MAX: nat := 255

  datatype Event = Event(kind: string, summary: string, monotonic: nat)

  /** What happened when the backend was live; `inserts` are the outcomes of the flushed inserts. */
  datatype Opening =
    | DatabaseFails
    | SessionFails(unixTime: nat)
    | Succeeds(unixTime: nat, inserts: seq<bool>)

  datatype Action =
    | Emit(kind: string, summary: string, monotonic: nat, inserted: bool)
    | Open(outcome: Opening)

  datatype State = State(ready: bool, db: bool, seqNo: nat, bootId: string, prevHash: string,
                         early: seq<Event>, rows: seq<Row>)

  const Start := State(false, false, 0, "", "", [], [])

  function SafeText(text: string, fallback: string): string { if text != "" then text else fallback }

  function EarlyEvent(kind: string, summary: string, monotonic: nat): Event {
    Event(Clip(SafeText(kind, "UNSPECIFIED"), KIND_MAX), Clip(summary, SUMMARY_MAX), monotonic)
  }

  function BootId(unixTime: nat): string { "boot-" + Decimal(unixTime) }

  function NewRow(s: State, kind: string, summary: string, monotonic: nat): Row {
    Sealed(Row(s.bootId, s.seqNo + 1, SafeText(kind, "UNSPECIFIED"), SEVERITY, ACTOR, summary, DETAILS, monotonic,
               s.prevHash, ""))
  }

  function Append(s: State, kind: string, summary: string, monotonic: nat, inserted: bool): State {
    if !s.ready || !s.db || !inserted then s
    else
      var r := NewRow(s, kind, summary, monotonic);
      s.(seqNo := s.seqNo + 1, prevHash := r.eventHash, rows := s.rows + [r])
  }

  function Buffer(s: State, kind: string, summary: string, monotonic: nat): State {
    if |s.early| < EARLY_MAX then s.(early := s.early + [EarlyEvent(kind, summary, monotonic)]) else s
  }

  predicate Inserted(inserts: seq<bool>, i: nat) { i < |inserts| && inserts[i] }

  /** The first `n` buffered events appended in order. */
  function Flush(s: State, inserts: seq<bool>, n: nat): State
    requires n <= |s.early|
  {
    if n == 0 then s
    else
      var e := s.early[n - 1];
      Append(Flush(s, inserts, n - 1), e.kind, e.summary, e.monotonic, Inserted(inserts, n - 1))
  }

  function Step(s: State, a: Action): State {
    match a
    case Emit(kind, summary, monotonic, inserted) =>
      if !s.ready then Buffer(s, kind, summary, monotonic)
      else Append(s, kind, summary, monotonic, inserted)
    case Open(DatabaseFails) => s.(db := false)
    case Open(SessionFails(time)) => s.(db := false, bootId := BootId(time))
    case Open(Succeeds(time, inserts)) =>
      Flush(s.(db := true, ready := true, bootId := BootId(time)), inserts, |s.early|).(early := [])
  }

  function Run(actions: seq<Action>): State {
    if actions == [] then Start else Step(Run(actions[..|actions| - 1]), actions[|actions| - 1])
  }

  // ---- The code

  class Log {
    var persistentReady: bool
    var db: bool
    var eventSeq: nat
    var bootId: string
    var prevHash: string
    const earlyEvents: array<Event>
    var earlyCount: nat
    ghost var rows: seq<Row>

    ghost predicate Valid()
      reads this
    {
      earlyEvents.Length == EARLY_MAX && earlyCount <= EARLY_MAX
    }

    ghost function View(): State
      requires Valid()
      reads this, earlyEvents
    {
      State(persistentReady, db, eventSeq, bootId, prevHash, earlyEvents[..earlyCount], rows)
    }

    constructor ()
      ensures Valid() && View() == Start && fresh(earlyEvents)
    {
      persistentReady, db, eventSeq, bootId, prevHash := false, false, 0, "", "";
      earlyEvents := new Event[EARLY_MAX](_ => Event("", "", 0));
      earlyCount := 0;
      rows := [];
    }

    /** `inserted` is whether the database takes the row. */
    method AppendEvent(kind: string, summary: string, monotonic: nat, inserted: bool) returns (ok: bool)
      requires Valid()
      modifies this`eventSeq, this`prevHash, this`rows
      ensures Valid() && View() == Append(old(View()), kind, summary, monotonic, inserted)
      ensures ok <==> rows != old(rows)
      ensures !ok ==> eventSeq == old(eventSeq) && prevHash == old(prevHash)
    {
      hide Sha256.HashHex, Payload;
      var etype := SafeText(kind, "UNSPECIFIED");
      if !persistentReady || !db {
        return false;
      }
      eventSeq := eventSeq + 1;
      var row := Row(bootId, eventSeq, etype, SEVERITY, ACTOR, summary, DETAILS, monotonic, prevHash, "");
      assert Written(row) == row;
      var eventHash := Sha256.ComputeHashHex(Clip(Payload(row), PAYLOAD_MAX));
      if !inserted {
        eventSeq := eventSeq - 1;
        return false;
      }
      rows := rows + [row.(eventHash := eventHash)];
      prevHash := eventHash;
      return true;
    }

    method EmitBootEvent(kind: string, summary: string, monotonic: nat, inserted: bool)
      requires Valid()
      modifies this, earlyEvents
      ensures Valid() && View() == Step(old(View()), Emit(kind, summary, monotonic, inserted))
    {
      if !persistentReady {
        if earlyCount < EARLY_MAX {
          earlyEvents[earlyCount] := EarlyEvent(kind, summary, monotonic);
          earlyCount := earlyCount + 1;
        }
        return;
      }
      var _ := AppendEvent(kind, summary, monotonic, inserted);
    }

    method InitPersistentBackend(outcome: Opening) returns (ok: bool)
      requires Valid()
      modifies this
      ensures Valid() && View() == Step(old(View()), Open(outcome))
      ensures ok <==> outcome.Succeeds?
    {
      hide Append;
      match outcome
      case DatabaseFails =>
        db := false;
        return false;
      case SessionFails(time) =>
        bootId := BootId(time);
        db := false;
        return false;
      case Succeeds(time, inserts) =>
        db := true;
        bootId := BootId(time);
        persistentReady := true;
        ghost var live := View();
        var bufferedCount := earlyCount;
        for i := 0 to bufferedCount
          invariant Valid() && earlyCount == bufferedCount == |live.early|
          invariant View() == Flush(live, inserts, i)
        {
          FlushKeepsBuffer(live, inserts, i);
          var _ := AppendEvent(earlyEvents[i].kind, earlyEvents[i].summary, earlyEvents[i].monotonic,
                               i < |inserts| && inserts[i]);
        }
        earlyCount := 0;
        return true;
    }
  }

  lemma {:induction false} FlushKeepsBuffer(s: State, inserts: seq<bool>, n: nat)
    requires n <= |s.early|
    ensures var t := Flush(s, inserts, n); t.early == s.early && t.ready == s.ready && t.db == s.db
  {
    if n > 0 {
      FlushKeepsBuffer(s, inserts, n - 1);
    }
  }

  // ---- What is accepted, said without the machine

  predicate Opens(a: Action) { a.Open? && a.outcome.Succeeds? }

  /** The position of the first successful opening, or the length when there is none. */
  function FirstOpen(actions: seq<Action>): (k: nat)
    ensures k <= |actions|
    ensures forall i :: 0 <= i < k ==> !Opens(actions[i])
    ensures k < |actions| ==> Opens(actions[k])
  {
    if actions == [] then 0
    else
      var rest := actions[..|actions| - 1];
      if FirstOpen(rest) < |rest| then FirstOpen(rest)
      else if Opens(actions[|actions| - 1]) then |rest| else |actions|
  }

  /** Whether the latest opening of the database succeeded. */
  predicate LastOpenSucceeded(actions: seq<Action>) {
    actions != [] &&
    var a := actions[|actions| - 1];
    if a.Open? then Opens(a) else LastOpenSucceeded(actions[..|actions| - 1])
  }

  function NameOf(kind: string): string { if kind == "" then "UNSPECIFIED" else kind }

  /** The emitted events, each clipped to the early buffer's fields. */
  function Emitted(actions: seq<Action>): seq<Event> {
    if actions == [] then []
    else
      var a := actions[|actions| - 1];
      Emitted(actions[..|actions| - 1])
      + if a.Emit? then [Event(Clip(NameOf(a.kind), 63), Clip(a.summary, 255), a.monotonic)] else []
  }

  function Take(events: seq<Event>, n: nat): seq<Event> { if |events| <= n then events else events[..n] }

  /** Those of the first `n` events whose insert succeeded. */
  function Kept(events: seq<Event>, inserts: seq<bool>, n: nat): seq<Event>
    requires n <= |events|
  {
    if n == 0 then []
    else Kept(events, inserts, n - 1) + if Inserted(inserts, n - 1) then [events[n - 1]] else []
  }

  /** The events emitted from position `k` on that found the database open and were inserted. */
  function Live(actions: seq<Action>, k: nat): seq<Event> {
    if |actions| <= k then []
    else
      var rest, a := actions[..|actions| - 1], actions[|actions| - 1];
      Live(rest, k)
      + if a.Emit? && a.inserted && LastOpenSucceeded(rest)
        then [Event(NameOf(a.kind), a.summary, a.monotonic)] else []
  }

  /** The accepted events in emission order: the first 32 emitted before the first opening, clipped, less
      those whose insert failed, and then every later one that was inserted. */
  function Accepted(actions: seq<Action>): seq<Event> {
    var k := FirstOpen(actions);
    if k == |actions| then []
    else
      var early := Take(Emitted(actions[..k]), 32);
      Kept(early, actions[k].outcome.inserts, |early|) + Live(actions, k + 1)
  }

  // ---- Every run stores a valid chain of exactly the accepted events

  function EventsOf(rows: seq<Row>): seq<Event> {
    seq(|rows|, i requires 0 <= i < |rows| => Event(rows[i].kind, rows[i].summary, rows[i].monotonic))
  }

  /** The stored rows are a chain, and the two counters describe its end. */
  predicate Chained(s: State) {
    ChainOk(s.rows) && s.seqNo == |s.rows| && s.prevHash == HashBefore(s.rows, |s.rows|)
  }

  lemma AppendKeepsChain(s: State, kind: string, summary: string, monotonic: nat, inserted: bool)
    requires Chained(s)
    ensures Chained(Append(s, kind, summary, monotonic, inserted))
  {
    hide ChainOk, RowHash;
    ChainExtends(s.rows, NewRow(s, kind, summary, monotonic).(eventHash := ""));
  }

  lemma AppendedEvent(s: State, kind: string, summary: string, monotonic: nat, inserted: bool)
    ensures EventsOf(Append(s, kind, summary, monotonic, inserted).rows)
         == EventsOf(s.rows)
            + if s.ready && s.db && inserted then [Event(SafeText(kind, "UNSPECIFIED"), summary, monotonic)] else []
  {
    hide RowHash;
  }

  predicate EarlyOk(events: seq<Event>) { forall i :: 0 <= i < |events| ==> events[i].kind != "" }

  lemma {:induction false} FlushStoresKept(s: State, inserts: seq<bool>, n: nat)
    requires Chained(s) && s.ready && s.db && EarlyOk(s.early) && n <= |s.early|
    ensures var t := Flush(s, inserts, n);
            Chained(t) && EventsOf(t.rows) == EventsOf(s.rows) + Kept(s.early, inserts, n)
  {
    hide Chained, Append, EventsOf;
    if n == 0 {
      assert EventsOf(s.rows) + [] == EventsOf(s.rows);
    } else {
      FlushStoresKept(s, inserts, n - 1);
      FlushKeepsBuffer(s, inserts, n - 1);
      var t, e := Flush(s, inserts, n - 1), s.early[n - 1];
      AppendKeepsChain(t, e.kind, e.summary, e.monotonic, Inserted(inserts, n - 1));
      AppendedEvent(t, e.kind, e.summary, e.monotonic, Inserted(inserts, n - 1));
    }
  }

  predicate Invariant(actions: seq<Action>, s: State) {
    && Chained(s)
    && (s.ready <==> FirstOpen(actions) < |actions|)
    && (s.db <==> LastOpenSucceeded(actions))
    && EarlyOk(s.early)
    && EventsOf(s.rows) == Accepted(actions)
    && s.early == if s.ready then [] else Take(Emitted(actions), EARLY_MAX)
  }

  lemma {:induction false} RunInvariant(actions: seq<Action>)
    ensures Invariant(actions, Run(actions))
    decreases |actions|
  {
    hide Invariant, Run;
    if actions != [] {
      var rest, a := actions[..|actions| - 1], actions[|actions| - 1];
      RunInvariant(rest);
      InvariantSnoc(rest, a);
      assert actions == rest + [a];
    } else {
      NothingRun();
    }
  }

  lemma InvariantSnoc(rest: seq<Action>, a: Action)
    requires Invariant(rest, Run(rest))
    ensures Invariant(rest + [a], Run(rest + [a]))
  {
    hide Invariant, Step;
    assert (rest + [a])[..|rest|] == rest;
    if a.Emit? { EmitStep(rest, Run(rest), a); } else { OpenStep(rest, Run(rest), a); }
  }

  lemma NothingRun()
    ensures Invariant([], Run([]))
  {
  }

  lemma LiveSnoc(rest: seq<Action>, a: Action, k: nat)
    requires k <= |rest|
    ensures Live(rest + [a], k)
         == Live(rest, k) + if a.Emit? && a.inserted && LastOpenSucceeded(rest)
                            then [Event(SafeText(a.kind, "UNSPECIFIED"), a.summary, a.monotonic)] else []
  {
    hide LastOpenSucceeded;
    assert (rest + [a])[..|rest|] == rest;
  }

  lemma FirstOpenSnoc(rest: seq<Action>, a: Action)
    requires !Opens(a)
    ensures FirstOpen(rest + [a]) == if FirstOpen(rest) < |rest| then FirstOpen(rest) else |rest| + 1
  {
    assert (rest + [a])[..|rest|] == rest;
  }

  lemma OneMoreAction(rest: seq<Action>, a: Action)
    requires !Opens(a)
    ensures var all := rest + [a];
            && (FirstOpen(all) < |all| <==> FirstOpen(rest) < |rest|)
            && (FirstOpen(rest) < |rest| ==> FirstOpen(all) == FirstOpen(rest))
            && Accepted(all) == Accepted(rest)
               + if FirstOpen(rest) < |rest| && a.Emit? && a.inserted && LastOpenSucceeded(rest)
                 then [Event(SafeText(a.kind, "UNSPECIFIED"), a.summary, a.monotonic)] else []
  {
    hide Emitted, Kept, FirstOpen, Live, LastOpenSucceeded, Take, Opens;
    var all, k := rest + [a], FirstOpen(rest);
    FirstOpenSnoc(rest, a);
    if k < |rest| {
      assert all[..k] == rest[..k] && all[k] == rest[k];
      LiveSnoc(rest, a, k + 1);
    }
  }

  lemma EmitStep(rest: seq<Action>, s: State, a: Action)
    requires Invariant(rest, s) && a.Emit?
    ensures Invariant(rest + [a], Step(s, a))
  {
    hide Chained, Append, EventsOf, Accepted, FirstOpen;
    assert (rest + [a])[..|rest|] == rest;
    OneMoreAction(rest, a);
    if s.ready {
      AppendKeepsChain(s, a.kind, a.summary, a.monotonic, a.inserted);
      AppendedEvent(s, a.kind, a.summary, a.monotonic, a.inserted);
      AppendKeepsFlags(s, a.kind, a.summary, a.monotonic, a.inserted);
    } else {
      BufferedEvent(rest, s, a);
    }
  }

  lemma BufferedEvent(rest: seq<Action>, s: State, a: Action)
    requires a.Emit? && s.early == Take(Emitted(rest), EARLY_MAX)
    ensures Buffer(s, a.kind, a.summary, a.monotonic).early == Take(Emitted(rest + [a]), EARLY_MAX)
    ensures Chained(s) ==> Chained(Buffer(s, a.kind, a.summary, a.monotonic))
  {
    hide RowHash;
    assert (rest + [a])[..|rest|] == rest;
  }

  lemma AppendKeepsFlags(s: State, kind: string, summary: string, monotonic: nat, inserted: bool)
    ensures var t := Append(s, kind, summary, monotonic, inserted);
            t.ready == s.ready && t.db == s.db && t.early == s.early
  {
  }

  lemma OpenStep(rest: seq<Action>, s: State, a: Action)
    requires Invariant(rest, s) && a.Open?
    ensures Invariant(rest + [a], Step(s, a))
  {
    hide Invariant;
    if Opens(a) {
      SuccessfulOpen(rest, s, a);
    } else {
      FailedOpen(rest, s, a);
    }
  }

  lemma FailedOpen(rest: seq<Action>, s: State, a: Action)
    requires Invariant(rest, s) && a.Open? && !Opens(a)
    ensures Invariant(rest + [a], Step(s, a))
  {
    hide ChainOk, EventsOf, Flush, Accepted, FirstOpen, Emitted;
    assert (rest + [a])[..|rest|] == rest;
    OneMoreAction(rest, a);
    NothingEmitted(rest, a);
  }

  lemma NothingEmitted(rest: seq<Action>, a: Action)
    requires a.Open?
    ensures Emitted(rest + [a]) == Emitted(rest)
  {
    assert (rest + [a])[..|rest|] == rest;
  }

  lemma OpenSnoc(rest: seq<Action>, a: Action)
    requires Opens(a)
    ensures FirstOpen(rest + [a]) == FirstOpen(rest) && LastOpenSucceeded(rest + [a])
  {
    assert (rest + [a])[..|rest|] == rest;
  }

  function KeptEarly(front: seq<Action>, inserts: seq<bool>): seq<Event> {
    var early := Take(Emitted(front), EARLY_MAX);
    Kept(early, inserts, |early|)
  }

  lemma SameAccepted(xs: seq<Action>, ys: seq<Action>, k: nat)
    requires FirstOpen(xs) == FirstOpen(ys) == k && k < |xs| && k < |ys|
    requires xs[..k] == ys[..k] && xs[k] == ys[k] && Live(xs, k + 1) == Live(ys, k + 1)
    ensures Accepted(xs) == Accepted(ys)
  {
    hide Kept, Take, Emitted, FirstOpen, Live;
  }

  lemma AcceptedLater(rest: seq<Action>, a: Action)
    requires Opens(a) && FirstOpen(rest) < |rest|
    ensures Accepted(rest + [a]) == Accepted(rest)
  {
    hide Accepted, FirstOpen, LastOpenSucceeded, Live, Opens;
    var k := FirstOpen(rest);
    OpenSnoc(rest, a);
    LiveSnoc(rest, a, k + 1);
    EmitIsNoOpening(a);
    SameAccepted(rest + [a], rest, k);
  }

  lemma EmitIsNoOpening(a: Action)
    requires Opens(a)
    ensures !a.Emit?
  {
  }

  lemma AcceptedFirst(rest: seq<Action>, a: Action)
    requires Opens(a) && FirstOpen(rest) == |rest|
    ensures Accepted(rest) == [] && Accepted(rest + [a]) == KeptEarly(rest, a.outcome.inserts)
  {
    hide Kept, Take, Emitted, FirstOpen, LastOpenSucceeded, Live;
    var all := rest + [a];
    OpenSnoc(rest, a);
    NothingLive(all, |all|);
    assert all[..|rest|] == rest && all[|rest|] == a;
  }

  lemma NothingLive(actions: seq<Action>, k: nat)
    requires |actions| <= k
    ensures Live(actions, k) == []
  {
  }

  lemma SuccessfulOpen(rest: seq<Action>, s: State, a: Action)
    requires Invariant(rest, s) && Opens(a)
    ensures Invariant(rest + [a], Step(s, a))
  {
    hide Append, EventsOf, ChainOk, Flush, Emitted, Accepted, FirstOpen, LastOpenSucceeded, Kept, Take, BootId;
    var live := s.(db := true, ready := true, bootId := BootId(a.outcome.unixTime));
    FlushStoresKept(live, a.outcome.inserts, |s.early|);
    FlushKeepsBuffer(live, a.outcome.inserts, |s.early|);
    OpenSnoc(rest, a);
    if FirstOpen(rest) < |rest| {
      AcceptedLater(rest, a);
      NothingKept(a.outcome.inserts);
    } else {
      AcceptedFirst(rest, a);
    }
  }

  lemma NothingKept(inserts: seq<bool>)
    ensures Kept([], inserts, 0) == []
  {
  }

  /** Whatever fails and whenever, the stored rows form a valid chain of exactly the accepted events, in
      the order they were emitted. */
  lemma StoredRowsAreTheAcceptedEvents(actions: seq<Action>)
    ensures ChainOk(Run(actions).rows)
    ensures EventsOf(Run(actions).rows) == Accepted(actions)
    ensures Run(actions).seqNo == |Accepted(actions)|
  {
    hide RowHash;
    RunInvariant(actions);
  }

  // ---- Which opening a row belongs to

  /** The time of the latest opening that succeeded. */
  function LastTime(actions: seq<Action>): nat {
    if actions == [] then 0
    else
      var a := actions[|actions| - 1];
      if Opens(a) then a.outcome.unixTime else LastTime(actions[..|actions| - 1])
  }

  /** The `i`-th accepted event is accepted by the `j`-th action. */
  predicate AcceptedAt(actions: seq<Action>, i: nat, j: nat) {
    j < |actions| && |Accepted(actions[..j])| <= i < |Accepted(actions[..j + 1])|
  }

  /** A row bears the time of an opening, and the columns that never vary. */
  predicate Bears(r: Row, time: nat) {
    r.bootId == "boot-" + Decimal(time) && r.severity == "INFO" && r.actor == "SYSTEM" && r.details == "{}"
  }

  /** The rows that were there stay, and those that are new bear the time. */
  predicate NewRowsBear(before: seq<Row>, after: seq<Row>, time: nat) {
    before <= after && forall i :: |before| <= i < |after| ==> Bears(after[i], time)
  }

  lemma AppendBears(s: State, kind: string, summary: string, monotonic: nat, inserted: bool, time: nat)
    requires s.db ==> s.bootId == BootId(time)
    ensures var t := Append(s, kind, summary, monotonic, inserted);
            NewRowsBear(s.rows, t.rows, time) && t.bootId == s.bootId && t.db == s.db
  {
    hide RowHash, Decimal;
  }

  lemma {:induction false} FlushBears(s: State, inserts: seq<bool>, n: nat, time: nat)
    requires n <= |s.early| && (s.db ==> s.bootId == BootId(time))
    ensures var t := Flush(s, inserts, n);
            NewRowsBear(s.rows, t.rows, time) && t.bootId == s.bootId && t.db == s.db
  {
    hide Append, BootId, Bears;
    if n > 0 {
      FlushBears(s, inserts, n - 1, time);
      var e := s.early[n - 1];
      AppendBears(Flush(s, inserts, n - 1), e.kind, e.summary, e.monotonic, Inserted(inserts, n - 1), time);
    }
  }

  lemma StepBears(rest: seq<Action>, s: State, a: Action)
    requires s.db ==> s.bootId == BootId(LastTime(rest))
    ensures var t, time := Step(s, a), LastTime(rest + [a]);
            NewRowsBear(s.rows, t.rows, time) && (t.db ==> t.bootId == BootId(time))
  {
    hide Append, Flush, BootId, Bears;
    assert (rest + [a])[..|rest|] == rest;
    match a
    case Emit(kind, summary, monotonic, inserted) =>
      AppendBears(s, kind, summary, monotonic, inserted, LastTime(rest));
    case Open(DatabaseFails) =>
    case Open(SessionFails(time)) =>
    case Open(Succeeds(time, inserts)) =>
      FlushBears(s.(db := true, ready := true, bootId := BootId(time)), inserts, |s.early|, time);
  }

  lemma AcceptedAtLater(rest: seq<Action>, a: Action, i: nat, j: nat)
    requires AcceptedAt(rest, i, j)
    ensures AcceptedAt(rest + [a], i, j) && (rest + [a])[..j + 1] == rest[..j + 1]
  {
    hide Accepted;
    assert (rest + [a])[..j] == rest[..j] && (rest + [a])[..j + 1] == rest[..j + 1];
  }

  ghost predicate BearsItsTime(actions: seq<Action>, rows: seq<Row>, i: nat)
    requires i < |rows|
  {
    exists j: nat :: AcceptedAt(actions, i, j) && Bears(rows[i], LastTime(actions[..j + 1]))
  }

  ghost predicate AllBear(actions: seq<Action>, rows: seq<Row>) {
    |rows| == |Accepted(actions)| && forall i: nat :: i < |rows| ==> BearsItsTime(actions, rows, i)
  }

  lemma OneMoreBears(rest: seq<Action>, a: Action, before: seq<Row>, after: seq<Row>)
    requires AllBear(rest, before) && |after| == |Accepted(rest + [a])|
    requires NewRowsBear(before, after, LastTime(rest + [a]))
    ensures AllBear(rest + [a], after)
  {
    hide Accepted, Bears, LastTime;
    var all := rest + [a];
    assert all[..|rest| + 1] == all && all[..|rest|] == rest;
    forall i: nat | i < |after|
      ensures BearsItsTime(all, after, i)
    {
      if i < |before| {
        assert BearsItsTime(rest, before, i);
        var j: nat :| AcceptedAt(rest, i, j) && Bears(before[i], LastTime(rest[..j + 1]));
        AcceptedAtLater(rest, a, i, j);
        assert after[i] == before[i];
      } else {
        assert AcceptedAt(all, i, |rest|);
      }
    }
  }

  /** Over every run, each stored row names the boot by the time of the latest opening that had succeeded when its
      event was accepted, and holds the writer's constants in the columns that never vary. */
  lemma {:induction false} RowsNameTheirOpening(actions: seq<Action>)
    ensures var s := Run(actions); AllBear(actions, s.rows) && (s.db ==> s.bootId == BootId(LastTime(actions)))
    decreases |actions|
  {
    hide Step, Accepted, BearsItsTime, Bears, BootId, LastTime, NewRowsBear;
    StoredRowsAreTheAcceptedEvents(actions);
    EventsAreRows(Run(actions).rows);
    if actions != [] {
      var rest, a := actions[..|actions| - 1], actions[|actions| - 1];
      assert actions == rest + [a];
      RowsNameTheirOpening(rest);
      StepBears(rest, Run(rest), a);
      OneMoreBears(rest, a, Run(rest).rows, Run(actions).rows);
    }
  }

  lemma EventsAreRows(rows: seq<Row>)
    ensures |EventsOf(rows)| == |rows|
  {
  }

  // ---- What the smoke test makes of the stored rows

  predicate ByteAction(a: Action) { a.Emit? ==> Sha256.ByteText(a.kind) && Sha256.ByteText(a.summary) }

  /** Rows as the writer makes them: its constants, and identifiers that are never empty. */
  predicate WriterRow(r: Row) { Written(r) == r && r.bootId != "" && r.kind != "" && ByteRow(r) }

  predicate WriterRows(rows: seq<Row>) { forall i :: 0 <= i < |rows| ==> WriterRow(rows[i]) }

  predicate ByteEvents(events: seq<Event>) {
    forall i :: 0 <= i < |events| ==> Sha256.ByteText(events[i].kind) && Sha256.ByteText(events[i].summary)
  }

  predicate WriterState(s: State) {
    WriterRows(s.rows) && ByteEvents(s.early) && (s.ready ==> s.bootId != "" && Sha256.ByteText(s.bootId))
  }

  lemma ConstantsAreBytes()
    ensures Sha256.ByteText(SEVERITY) && Sha256.ByteText(ACTOR) && Sha256.ByteText(DETAILS)
    ensures Sha256.ByteText("UNSPECIFIED")
  {
  }

  lemma BootIdIsText(unixTime: nat)
    ensures BootId(unixTime) != "" && Sha256.ByteText(BootId(unixTime))
  {
    hide Decimal;
    DecimalIsPlain(unixTime);
    assert Sha256.ByteText("boot-");
  }

  lemma AppendKeepsWriter(s: State, kind: string, summary: string, monotonic: nat, inserted: bool)
    requires WriterState(s) && Sha256.ByteText(kind) && Sha256.ByteText(summary)
    ensures WriterState(Append(s, kind, summary, monotonic, inserted))
  {
    hide RowHash, Sha256.ByteText;
    ConstantsAreBytes();
  }

  lemma {:induction false} FlushKeepsWriter(s: State, inserts: seq<bool>, n: nat)
    requires WriterState(s) && n <= |s.early|
    ensures WriterState(Flush(s, inserts, n))
  {
    hide Append, Sha256.ByteText, WriterRows;
    if n > 0 {
      FlushKeepsWriter(s, inserts, n - 1);
      var e := s.early[n - 1];
      AppendKeepsWriter(Flush(s, inserts, n - 1), e.kind, e.summary, e.monotonic, Inserted(inserts, n - 1));
    }
  }

  lemma BufferKeepsWriter(s: State, kind: string, summary: string, monotonic: nat)
    requires WriterState(s) && Sha256.ByteText(kind) && Sha256.ByteText(summary)
    ensures WriterState(Buffer(s, kind, summary, monotonic))
  {
    ConstantsAreBytes();
    ClipIsByteText(SafeText(kind, "UNSPECIFIED"), KIND_MAX);
    ClipIsByteText(summary, SUMMARY_MAX);
  }

  lemma StepKeepsWriter(s: State, a: Action)
    requires WriterState(s) && ByteAction(a)
    ensures WriterState(Step(s, a))
  {
    hide Append, Sha256.ByteText, WriterRows, BootId, Buffer;
    match a
    case Emit(kind, summary, monotonic, inserted) =>
      AppendKeepsWriter(s, kind, summary, monotonic, inserted);
      BufferKeepsWriter(s, kind, summary, monotonic);
    case Open(DatabaseFails) =>
    case Open(SessionFails(time)) => BootIdIsText(time);
    case Open(Succeeds(time, inserts)) =>
      BootIdIsText(time);
      FlushKeepsWriter(s.(db := true, ready := true, bootId := BootId(time)), inserts, |s.early|);
  }

  lemma {:induction false} RunKeepsWriter(actions: seq<Action>)
    requires forall i :: 0 <= i < |actions| ==> ByteAction(actions[i])
    ensures WriterState(Run(actions))
    decreases |actions|
  {
    hide Step, WriterState;
    if actions != [] {
      RunKeepsWriter(actions[..|actions| - 1]);
      StepKeepsWriter(Run(actions[..|actions| - 1]), actions[|actions| - 1]);
    } else {
      StartIsWriter();
    }
  }

  lemma StartIsWriter()
    ensures WriterState(Run([]))
  {
  }

  /** Over every run, the smoke test accepts the stored rows exactly when none of them has an empty summary and
      all their payloads were hashed whole. */
  lemma SmokeTestPassesExactly(actions: seq<Action>)
    requires forall i :: 0 <= i < |actions| ==> ByteAction(actions[i])
    ensures var rows := Run(actions).rows;
            SmokeCheck.ShellOk(rows)
            <==> forall i :: 0 <= i < |rows| ==> rows[i].summary != "" && SmokeCheck.HashedWhole(rows[i])
  {
    hide Run, SmokeCheck.ShellOk, SmokeCheck.HashedWhole, ByteRow, ChainOk;
    var rows := Run(actions).rows;
    StoredRowsAreTheAcceptedEvents(actions);
    RunKeepsWriter(actions);
    forall i | 0 <= i < |rows|
      ensures SmokeCheck.NoEmptyColumn(rows[i]) <==> rows[i].summary != ""
    {
      StoredHashIsNotEmpty(rows, i);
      assert Written(rows[i]) == rows[i];
    }
    SmokeCheck.ChecksAgree(rows);
  }

  lemma StoredHashIsNotEmpty(rows: seq<Row>, i: nat)
    requires ChainOk(rows) && i < |rows|
    ensures rows[i].eventHash != ""
  {
    hide Sha256.HashHex;
    ChainedHashesArePlain(rows, WriterText, i);
  }
}
