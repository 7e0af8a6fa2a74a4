/** The chain check of the smoke test: a shell loop over the columns that are read back from the table.  It
    hashes nine stored columns where the documented check formats the writer's own payload. */
module SmokeCheck {
  import opened CText
  import opened AuditChain
  import Fips180
  import Sha256

  // ---- What the loop reads

  const TAB: char := '\t'

  /** The columns as the query prints them; an empty previous hash is printed as a dash. */
  function Printed(r: Row): seq<string> {
    [r.bootId, Decimal(r.seqNo), r.kind, r.severity, r.actor, r.summary, r.details, Decimal(r.monotonic),
     if r.prevHash == "" then "-" else r.prevHash, r.eventHash]
  }

  function NonEmpty(parts: seq<string>): seq<string> {
    if parts == [] then []
    else NonEmpty(parts[..|parts| - 1]) + if parts[|parts| - 1] == "" then [] else [parts[|parts| - 1]]
  }

  /** The words that `read` takes from a line: TAB is white space to it, so a run of TABs separates once. */
  function Words(line: string): seq<string> { NonEmpty(Components(line, TAB)) }

  predicate NoTabs(parts: seq<string>) { forall i :: 0 <= i < |parts| ==> TAB !in parts[i] }

  predicate NoEmptyColumn(r: Row) {
    r.bootId != "" && r.kind != "" && r.severity != "" && r.actor != "" && r.summary != "" && r.details != ""
    && r.eventHash != ""
  }

  lemma {:induction false} AllNonEmpty(parts: seq<string>)
    ensures |NonEmpty(parts)| <= |parts|
    ensures |NonEmpty(parts)| == |parts| <==> forall i :: 0 <= i < |parts| ==> parts[i] != ""
    ensures |NonEmpty(parts)| == |parts| ==> NonEmpty(parts) == parts
    decreases |parts|
  {
    if parts != [] {
      var n := |parts| - 1;
      AllNonEmpty(parts[..n]);
      assert parts == parts[..n] + [parts[n]];
    }
  }

  /** The ten variables are filled exactly when no column is empty, and then each holds its column.  Otherwise
      the columns move up and the last variable, which should hold the event hash, stays empty. */
  lemma ColumnsAreReadBack(r: Row)
    requires NoTabs(Printed(r))
    ensures var words := Words(JoinedBy(Printed(r), TAB));
            |words| <= 10 && (|words| == 10 <==> NoEmptyColumn(r)) && (NoEmptyColumn(r) ==> words == Printed(r))
  {
    hide Components, JoinedBy, Decimal, NonEmpty;
    ComponentsOfJoined(Printed(r), TAB);
    AllNonEmpty(Printed(r));
    var p := Printed(r);
    if NoEmptyColumn(r) {
      assert forall i :: 0 <= i < 10 ==> p[i] != "";
    } else {
      assert p[0] == "" || p[2] == "" || p[3] == "" || p[4] == "" || p[5] == "" || p[6] == "" || p[9] == "";
    }
  }

  /** The row as the loop sees it: a dash stands for the empty previous hash. */
  function AsRead(r: Row): Row { r.(prevHash := if r.prevHash == "-" then "" else r.prevHash) }

  function Reads(rows: seq<Row>): (r: seq<Row>)
    ensures |r| == |rows|
  {
    seq(|rows|, i requires 0 <= i < |rows| => AsRead(rows[i]))
  }

  /** The loop's verdict: every variable is filled, numbers are contiguous, hashes are linked, and each event
      hash is the digest of the nine columns. */
  predicate ShellOk(rows: seq<Row>) {
    (forall i :: 0 <= i < |rows| ==> NoEmptyColumn(rows[i])) && Chain(Reads(rows), Payload)
  }

  predicate Accepts(rows: seq<Row>, i: nat)
    requires i < |rows|
  {
    var r := AsRead(rows[i]);
    && NoEmptyColumn(rows[i]) && r.seqNo == i + 1 && r.prevHash == HashBefore(rows, i)
    && r.eventHash == Sha256.HashHex(Payload(r))
  }

  lemma ShellOkRowByRow(rows: seq<Row>)
    ensures ShellOk(rows) <==> forall i :: 0 <= i < |rows| ==> Accepts(rows, i)
  {
    hide Sha256.HashHex, Payload, NoEmptyColumn;
    var read := Reads(rows);
    assert forall i :: 0 <= i <= |rows| ==> HashBefore(read, i) == HashBefore(rows, i);
    if ShellOk(rows) {
      forall i | 0 <= i < |rows|
        ensures Accepts(rows, i)
      {
        assert NoEmptyColumn(rows[i]) && read[i].seqNo == i + 1;
      }
    }
    if forall i :: 0 <= i < |rows| ==> Accepts(rows, i) {
      forall i | 0 <= i < |read|
        ensures read[i].seqNo == i + 1 && read[i].prevHash == HashBefore(read, i)
          && read[i].eventHash == Sha256.HashHex(Payload(read[i]))
      {
        assert Accepts(rows, i);
      }
      forall i | 0 <= i < |rows|
        ensures NoEmptyColumn(rows[i])
      {
        assert Accepts(rows, i);
      }
    }
  }

  // ---- The loop

  /** The word in the k-th variable: `read` leaves the last ones empty when words run out. */
  function Variable(words: seq<string>, k: nat): string { if k < |words| then words[k] else "" }

  function ReadHash(word: string): string { if word == "-" then "" else word }

  /** The text the loop hashes: the first nine variables, the previous hash with its dash taken back. */
  function PayloadRead(words: seq<string>): string {
    Variable(words, 0) + "|" + Variable(words, 1) + "|" + Variable(words, 2) + "|" + Variable(words, 3) + "|"
    + Variable(words, 4) + "|" + Variable(words, 5) + "|" + Variable(words, 6) + "|" + Variable(words, 7) + "|"
    + ReadHash(Variable(words, 8))
  }

  function LineOf(r: Row): string { JoinedBy(Printed(r), TAB) }

  lemma {:induction false} NonEmptyIsPart(parts: seq<string>, sep: char)
    ensures forall k :: 0 <= k < |NonEmpty(parts)| ==>
      NonEmpty(parts)[k] != "" && |NonEmpty(parts)[k]| <= |JoinedBy(parts, sep)|
    decreases |parts|
  {
    if parts != [] {
      NonEmptyIsPart(parts[..|parts| - 1], sep);
    }
  }

  lemma {:induction false} TwoAreLeft(parts: seq<string>, i: nat, j: nat)
    requires i < j < |parts| && parts[i] != "" && parts[j] != ""
    ensures |NonEmpty(parts)| >= 2
    decreases |parts|
  {
    var n := |parts| - 1;
    if j < n {
      TwoAreLeft(parts[..n], i, j);
    } else {
      OneIsLeft(parts[..n], i);
    }
  }

  lemma {:induction false} OneIsLeft(parts: seq<string>, i: nat)
    requires i < |parts| && parts[i] != ""
    ensures |NonEmpty(parts)| >= 1
    decreases |parts|
  {
    if i < |parts| - 1 {
      OneIsLeft(parts[..|parts| - 1], i);
    }
  }

  /** What the variables hold after reading a printed row: its columns, or an empty event hash. */
  lemma LineIsRead(r: Row)
    requires NoTabs(Printed(r))
    ensures var w := Words(LineOf(r));
            && Variable(w, 1) != "" && (forall k: nat :: |Variable(w, k)| <= |LineOf(r)|)
            && (if NoEmptyColumn(r) then
                  && Variable(w, 1) == Decimal(r.seqNo) && ReadHash(Variable(w, 8)) == AsRead(r).prevHash
                  && Variable(w, 9) == r.eventHash && PayloadRead(w) == Payload(AsRead(r))
                else Variable(w, 9) == "")
  {
    hide Components, JoinedBy, Decimal, NonEmpty;
    ColumnsAreReadBack(r);
    ComponentsOfJoined(Printed(r), TAB);
    TwoAreLeft(Printed(r), 1, 7);
    NonEmptyIsPart(Printed(r), TAB);
    if NoEmptyColumn(r) {
      VariablesOfColumns(r, Words(LineOf(r)));
      PayloadOfColumns(r, Words(LineOf(r)));
    }
  }

  lemma PayloadOfColumns(r: Row, words: seq<string>)
    requires words == Printed(r)
    ensures PayloadRead(words) == Payload(AsRead(r))
  {
    hide Decimal, Variable;
    VariablesOfColumns(r, words);
    var head := r.bootId + "|" + Decimal(r.seqNo) + "|" + r.kind + "|" + r.severity + "|" + r.actor + "|";
    TailRegrouped(head, r.summary, r.details, Decimal(r.monotonic), AsRead(r).prevHash);
  }

  lemma VariablesOfColumns(r: Row, words: seq<string>)
    requires words == Printed(r)
    ensures Variable(words, 0) == r.bootId && Variable(words, 1) == Decimal(r.seqNo) && Variable(words, 2) == r.kind
    ensures Variable(words, 3) == r.severity && Variable(words, 4) == r.actor && Variable(words, 5) == r.summary
    ensures Variable(words, 6) == r.details && Variable(words, 7) == Decimal(r.monotonic)
    ensures ReadHash(Variable(words, 8)) == AsRead(r).prevHash && Variable(words, 9) == r.eventHash
  {
    hide Decimal;
  }

  lemma TailRegrouped(head: string, a: string, b: string, c: string, d: string)
    ensures head + (a + "|" + b + "|" + c + "|" + d) == head + a + "|" + b + "|" + c + "|" + d
  {
  }

  const LINE_LIMIT: nat := 0x100_0000_0000_0000 // far more than a line of the shell can hold

  /** The loop itself, over the printed lines.  `same` is how the shell compares a word with a number: for a
      decimal it compares the numbers, any other word it evaluates in its own way. */
  method RunLoop(ghost rows: seq<Row>, lines: seq<string>, same: (string, nat) -> bool) returns (ok: bool)
    requires |lines| == |rows| && forall i :: 0 <= i < |rows| ==>
      NoTabs(Printed(rows[i])) && lines[i] == LineOf(rows[i])
    requires forall i :: 0 <= i < |lines| ==> |lines[i]| < LINE_LIMIT
    requires forall m: nat, n: nat :: same(Decimal(m), n) <==> m == n
    ensures ok <==> ShellOk(rows)
  {
    hide Sha256.HashHex, Payload, PayloadRead, ShellOk, NoEmptyColumn, Words, LineOf,
      Decimal, Printed, Variable, Linked;
    ShellOkRowByRow(rows);
    var prev, expected: nat := "", 1;
    for i := 0 to |lines|
      invariant expected == i + 1 && prev == HashBefore(rows, i)
      invariant forall k :: 0 <= k < i ==> Accepts(rows, k)
    {
      var words := Words(lines[i]);
      LineIsRead(rows[i]);
      var number := Variable(words, 1);
      if number == "" {
        continue;
      }
      var prevHash := ReadHash(Variable(words, 8));
      if !same(number, expected) || prevHash != prev {
        assert !Accepts(rows, i);
        return false;
      }
      PayloadReadLength(words, |lines[i]|);
      var digest := Sha256.ComputeHashHex(PayloadRead(words));
      HashesArePlain(PayloadRead(words));
      if digest != Variable(words, 9) {
        assert !Accepts(rows, i);
        return false;
      }
      prev := Variable(words, 9);
      expected := expected + 1;
    }
    return true;
  }

  lemma PayloadReadLength(words: seq<string>, n: nat)
    requires forall k: nat :: |Variable(words, k)| <= n
    ensures |PayloadRead(words)| <= 9 * n + 8
  {
    hide Variable;
  }

  // ---- Tamper evidence

  predicate PlainLog(rows: seq<Row>) { forall i :: 0 <= i < |rows| ==> PlainRow(rows[i]) && ByteRow(rows[i]) }

  lemma ReadsArePlain(rows: seq<Row>)
    requires PlainLog(rows)
    ensures PlainLog(Reads(rows))
  {
  }

  lemma ReadTextsAreBytes(rows: seq<Row>)
    requires ShellOk(rows) && PlainLog(rows)
    ensures ByteTexts(Reads(rows), Payload)
  {
    hide Payload, Sha256.ByteText, ByteRow, Sha256.HashHex;
    ReadsArePlain(rows);
    var read := Reads(rows);
    forall i | 0 <= i < |read|
      ensures Sha256.ByteText(Payload(read[i]))
    {
      ChainedHashesArePlain(read, Payload, i);
      PayloadIsByteText(read[i]);
    }
  }

  lemma ReadRowsShareLinks(a: seq<Row>, b: seq<Row>)
    requires Linked(a, Payload) && Linked(b, Payload) && PlainLog(a) && PlainLog(b)
    ensures SameLinks(a, b, Payload)
  {
    hide Payload, Sha256.HashHex, ByteRow, PlainRow;
    forall i, j | 0 <= i < |a| && 0 <= j < |b| && Payload(a[i]) == Payload(b[j])
      ensures a[i].prevHash == b[j].prevHash
    {
      ChainedHashesArePlain(a, Payload, i);
      ChainedHashesArePlain(b, Payload, j);
      PayloadInjective(a[i], b[j]);
    }
  }

  /** Two logs that the loop accepts, whose columns other than the summary hold no separator, and which end in
      the same event hash are read as the same rows, column for column; or two payloads at the same distance
      from their ends differ and have the same SHA-256 digest. */
  lemma TamperEvidentInShell(a: seq<Row>, b: seq<Row>)
    requires ShellOk(a) && ShellOk(b) && a != [] && b != [] && PlainLog(a) && PlainLog(b)
    requires a[|a| - 1].eventHash == b[|b| - 1].eventHash
    ensures Reads(a) == Reads(b) || LogsClash(Reads(a), Reads(b), Payload)
  {
    hide Payload, Linked, Sha256.HashHex, LogsClash, SameLinks, ByteTexts, ByteRow, PlainRow;
    var x, y := Reads(a), Reads(b);
    ReadsArePlain(a);
    ReadsArePlain(b);
    ReadTextsAreBytes(a);
    ReadTextsAreBytes(b);
    ReadRowsShareLinks(x, y);
    ChainsAgree(x, y, Payload);
    if SameTexts(x, y, Payload) {
      forall i | 0 <= i < |x|
        ensures x[i] == y[i]
      {
        ChainedHashesArePlain(x, Payload, i);
        ChainedHashesArePlain(y, Payload, i);
        PayloadInjective(x[i], y[i]);
      }
    }
  }

  // ---- Moving a separator

  /** The text behind a separator of the summary moved over into the details. */
  function MovedRight(r: Row, x: string, y: string): Row { r.(summary := x, details := y + "|" + r.details) }

  /** A separator that begins the summary moved back into the actor. */
  function MovedLeft(r: Row, y: string): Row { r.(actor := r.actor + "|", summary := y) }

  lemma MovedPayload(r: Row, x: string, y: string)
    requires r.summary == x + "|" + y
    ensures Payload(AsRead(MovedRight(r, x, y))) == Payload(AsRead(r))
    ensures x == "" ==> Payload(AsRead(MovedLeft(r, y))) == Payload(AsRead(r))
  {
    hide Decimal;
    var p, m, t := AsRead(r).prevHash, Decimal(r.monotonic), AsRead(MovedRight(r, x, y));
    assert x + "|" + y + "|" + r.details == x + "|" + (y + "|" + r.details);
    assert Tail(t) == Tail(AsRead(r));
    if x == "" {
      var u := AsRead(MovedLeft(r, y));
      var head := r.bootId + "|" + Decimal(r.seqNo) + "|" + r.kind + "|" + r.severity + "|";
      var rest := y + "|" + r.details + "|" + m + "|" + p;
      assert Tail(AsRead(r)) == "|" + rest && Tail(u) == rest;
      assert head + (r.actor + "|") + "|" + rest == head + r.actor + "|" + ("|" + rest);
    }
  }

  lemma ReplacedInShell(a: seq<Row>, i: nat, r: Row)
    requires ShellOk(a) && i < |a| && NoEmptyColumn(r) && Payload(AsRead(r)) == Payload(AsRead(a[i]))
    requires r.seqNo == a[i].seqNo && r.prevHash == a[i].prevHash && r.eventHash == a[i].eventHash
    ensures ShellOk(a[i := r]) && SameTexts(Reads(a), Reads(a[i := r]), Payload)
    ensures a[i := r][|a| - 1].eventHash == a[|a| - 1].eventHash
  {
    hide Payload, Linked, SameTexts, NoEmptyColumn;
    assert Reads(a[i := r]) == Reads(a)[i := AsRead(r)];
    ReplacedRow(Reads(a), i, AsRead(r), Payload);
  }

  /** In any log that the loop accepts, what follows a separator of a summary can be moved into the details
      column, or a leading separator back into the actor column: the log is still accepted, with every hash
      as it was. */
  lemma SeparatorCanBeMoved(a: seq<Row>, i: nat, x: string, y: string)
    requires ShellOk(a) && i < |a| && a[i].summary == x + "|" + y && (x != "" || y != "")
    ensures var b := a[i := if x != "" then MovedRight(a[i], x, y) else MovedLeft(a[i], y)];
            ShellOk(b) && Reads(b) != Reads(a) && SameTexts(Reads(a), Reads(b), Payload)
            && b[|b| - 1].eventHash == a[|a| - 1].eventHash
  {
    hide Payload, Linked, SameTexts;
    var r := if x != "" then MovedRight(a[i], x, y) else MovedLeft(a[i], y);
    MovedPayload(a[i], x, y);
    ReplacedInShell(a, i, r);
    assert |r.summary| < |a[i].summary|;
    assert Reads(a[i := r])[i].summary == r.summary && Reads(a)[i].summary == a[i].summary;
  }

  /** The check does miss a change: a row the writer made, and the same row with "|c" moved from its summary to
      its details, are both accepted with one event hash. */
  lemma ShellMissesAChange(bootId: string, kind: string, monotonic: nat)
    requires bootId != "" && kind != ""
    ensures var r := Row(bootId, 1, kind, SEVERITY, ACTOR, "a|c", DETAILS, monotonic, "", "");
            var a := [r.(eventHash := Sha256.HashHex(Payload(r)))];
            var b := [a[0].(summary := "a", details := "c|" + DETAILS)];
            ShellOk(a) && ShellOk(b) && a != b && a[0].eventHash == b[0].eventHash
  {
    hide Payload, Sha256.HashHex;
    var r := Row(bootId, 1, kind, SEVERITY, ACTOR, "a|c", DETAILS, monotonic, "", "");
    var a := [r.(eventHash := Sha256.HashHex(Payload(r)))];
    HashesArePlain(Payload(r));
    SamePayload(r, a[0].eventHash);
    assert Reads(a) == a;
    assert ShellOk(a);
    assert "a|c" == "a" + "|" + "c" && "c" + "|" == "c|";
    SeparatorCanBeMoved(a, 0, "a", "c");
    var moved := MovedRight(a[0], "a", "c");
    assert moved == a[0].(summary := "a", details := "c|" + DETAILS);
    assert a[0 := moved] == [moved];
  }

  lemma SamePayload(r: Row, hash: string)
    ensures Payload(r.(eventHash := hash)) == Payload(r)
  {
  }

  // ---- Exactly which logs are pinned

  /** The pieces of a payload between its separators. */
  lemma PayloadPieces(r: Row)
    requires '|' !in r.prevHash
    ensures Components(Payload(r), '|')
         == Components(r.bootId, '|') + [Decimal(r.seqNo)] + Components(r.kind, '|') + Components(r.severity, '|')
            + Components(r.actor, '|') + Components(r.summary, '|') + Components(r.details, '|')
            + [Decimal(r.monotonic)] + [r.prevHash]
  {
    hide Decimal, Components;
    var d, m := Decimal(r.seqNo), Decimal(r.monotonic);
    DecimalIsPlain(r.seqNo);
    DecimalIsPlain(r.monotonic);
    LettersAlone(d, '|');
    LettersAlone(m, '|');
    LettersAlone(r.prevHash, '|');
    var front := r.bootId + ['|'] + d + ['|'] + r.kind + ['|'] + r.severity + ['|'] + r.actor;
    PiecesOfFour(r.summary, r.details, m, r.prevHash);
    PiecesOfFive(r.bootId, d, r.kind, r.severity, r.actor);
    var tail := r.summary + ['|'] + r.details + ['|'] + m + ['|'] + r.prevHash;
    ComponentsOfJoin(front, tail, '|');
    assert Payload(r) == front + ['|'] + tail;
    NineConcat(Components(r.bootId, '|'), [d], Components(r.kind, '|'), Components(r.severity, '|'),
               Components(r.actor, '|'), Components(r.summary, '|'), Components(r.details, '|'), [m], [r.prevHash]);
  }

  lemma NineConcat(a: seq<string>, b: seq<string>, c: seq<string>, d: seq<string>, e: seq<string>,
                   f: seq<string>, g: seq<string>, h: seq<string>, i: seq<string>)
    ensures (a + b + c + d + e) + (f + g + h + i) == a + b + c + d + e + f + g + h + i
  {
  }

  lemma PiecesOfFour(a: string, b: string, c: string, d: string)
    ensures Components(a + ['|'] + b + ['|'] + c + ['|'] + d, '|')
         == Components(a, '|') + Components(b, '|') + Components(c, '|') + Components(d, '|')
  {
    hide Components;
    ComponentsOfJoin(a, b, '|');
    ComponentsOfJoin(a + ['|'] + b, c, '|');
    ComponentsOfJoin(a + ['|'] + b + ['|'] + c, d, '|');
  }

  lemma PiecesOfFive(a: string, b: string, c: string, d: string, e: string)
    ensures Components(a + ['|'] + b + ['|'] + c + ['|'] + d + ['|'] + e, '|')
         == Components(a, '|') + Components(b, '|') + Components(c, '|') + Components(d, '|') + Components(e, '|')
  {
    hide Components;
    PiecesOfFour(a, b, c, d);
    ComponentsOfJoin(a + ['|'] + b + ['|'] + c + ['|'] + d, e, '|');
  }

  /** A group of pieces stands in the whole where the groups before it end. */
  lemma Group(before: seq<string>, x: seq<string>, after: seq<string>, all: seq<string>)
    requires all == before + x + after
    ensures x == all[|before|..|before| + |x|]
  {
  }

  /** Nine groups of pieces, six of them of unknown size, against a list with one piece per group but for the
      sixth, which has either one piece or two empty ones: no other sizes leave every group a text. */
  lemma GroupSizes(x1: seq<string>, d: string, x3: seq<string>, x4: seq<string>, x5: seq<string>, x6: seq<string>,
                   x7: seq<string>, m: string, p: string, all: seq<string>, size: nat)
    requires x1 != [] && x3 != [] && x4 != [] && x5 != [] && x6 != [] && x7 != [] && x6 != [""]
    requires all == x1 + [d] + x3 + x4 + x5 + x6 + x7 + [m] + [p] && |all| == 8 + size
    requires size == 1 || (size == 2 && all[5] == "" && all[6] == "")
    ensures |x1| == 1 && |x3| == 1 && |x4| == 1 && |x5| == 1 && |x6| == size && |x7| == 1
  {
    var front, rest := x1 + [d] + x3 + x4 + x5, x7 + [m] + [p];
    assert all == front + x6 + rest;
    Group(front, x6, rest, all);
    var at := |front|;
    assert at == 5 || at == 6;
    assert at == 5 && |x6| == size by {
      if at == 6 || |x6| == 1 { assert x6 == [all[at]]; }
    }
  }

  /** So every group is where it should be. */
  lemma OneGrouping(x1: seq<string>, d: string, x3: seq<string>, x4: seq<string>, x5: seq<string>, x6: seq<string>,
                    x7: seq<string>, m: string, p: string, all: seq<string>, size: nat)
    requires x1 != [] && x3 != [] && x4 != [] && x5 != [] && x6 != [] && x7 != [] && x6 != [""]
    requires all == x1 + [d] + x3 + x4 + x5 + x6 + x7 + [m] + [p] && |all| == 8 + size
    requires size == 1 || (size == 2 && all[5] == "" && all[6] == "")
    ensures x1 == all[..1] && d == all[1] && x3 == all[2..3] && x4 == all[3..4] && x5 == all[4..5]
    ensures x6 == all[5..5 + size] && x7 == all[5 + size..6 + size] && m == all[6 + size] && p == all[7 + size]
  {
    GroupSizes(x1, d, x3, x4, x5, x6, x7, m, p, all, size);
    var front, rest := [x1[0], d, x3[0], x4[0], x5[0]], [x7[0], m, p];
    assert x1 == [x1[0]] && x3 == [x3[0]] && x4 == [x4[0]] && x5 == [x5[0]] && x7 == [x7[0]];
    assert all == front + x6 + rest;
    Group(front, x6, rest, all);
  }

  predicate Lone(summary: string) { '|' !in summary || summary == "|" }

  lemma LonePieces(summary: string)
    requires Lone(summary)
    ensures var parts := Components(summary, '|'); parts == [summary] || (summary == "|" && parts == ["", ""])
  {
    hide Components;
    if '|' !in summary {
      LettersAlone(summary, '|');
    } else {
      ComponentsOfNothing('|');
      ComponentsSnoc("", '|', '|');
      assert "" + ['|'] == "|";
    }
  }

  lemma SomePieces(s: string)
    ensures s != "" ==> Components(s, '|') != [""]
  {
    hide Components;
    ComponentsJoin(s, '|');
    JoinedOne("", '|');
  }

  /** A row without separators, or whose summary is a lone one, shares its payload with no other row that has
      no empty column, wherever that one has separators. */
  lemma PinnedRow(r: Row, s: Row)
    requires PlainRow(r) && Lone(r.summary) && '|' !in r.prevHash && '|' !in s.prevHash
    requires s.summary != "" && Payload(r) == Payload(s)
    ensures r == s.(eventHash := r.eventHash)
  {
    hide Components, Payload, Decimal, Lone;
    PayloadPieces(r);
    PayloadPieces(s);
    LonePieces(r.summary);
    SomePieces(s.summary);
    LettersAlone(r.bootId, '|');
    LettersAlone(r.kind, '|');
    LettersAlone(r.severity, '|');
    LettersAlone(r.actor, '|');
    LettersAlone(r.details, '|');
    var all, mid := Components(Payload(r), '|'), Components(r.summary, '|');
    ShapeOfNine(r.bootId, Decimal(r.seqNo), r.kind, r.severity, r.actor, mid, r.details,
                Decimal(r.monotonic), r.prevHash);
    OneGrouping(Components(s.bootId, '|'), Decimal(s.seqNo), Components(s.kind, '|'), Components(s.severity, '|'),
                Components(s.actor, '|'), Components(s.summary, '|'), Components(s.details, '|'),
                Decimal(s.monotonic), s.prevHash, all, |mid|);
    ComponentsInjective(r.bootId, s.bootId, '|');
    ComponentsInjective(r.kind, s.kind, '|');
    ComponentsInjective(r.severity, s.severity, '|');
    ComponentsInjective(r.actor, s.actor, '|');
    ComponentsInjective(r.summary, s.summary, '|');
    ComponentsInjective(r.details, s.details, '|');
    DecimalInjective(r.seqNo, s.seqNo);
    DecimalInjective(r.monotonic, s.monotonic);
  }

  lemma ShapeOfNine(a: string, b: string, c: string, d: string, e: string, mid: seq<string>,
                    g: string, h: string, i: string)
    requires |mid| == 1 || mid == ["", ""]
    ensures var all := [a] + [b] + [c] + [d] + [e] + mid + [g] + [h] + [i];
            var n := |mid|;
            && |all| == 8 + n && all[..1] == [a] && all[1] == b && all[2..3] == [c] && all[3..4] == [d]
            && all[4..5] == [e] && all[5..5 + n] == mid && all[5 + n..6 + n] == [g]
            && all[6 + n] == h && all[7 + n] == i
            && (n == 2 ==> all[5] == "" && all[6] == "")
  {
    var all := [a] + [b] + [c] + [d] + [e] + mid + [g] + [h] + [i];
    assert all == [a, b, c, d, e] + mid + [g, h, i];
  }

  predicate ByteLog(rows: seq<Row>) { forall i :: 0 <= i < |rows| ==> ByteRow(rows[i]) }

  /** No other log is accepted with the same last hash, short of two payloads with one digest. */
  ghost predicate PinnedInShell(a: seq<Row>)
    requires a != []
  {
    forall b: seq<Row> :: ByteLog(b) && ShellOk(b) && b != [] && b[|b| - 1].eventHash == a[|a| - 1].eventHash ==>
      Reads(a) == Reads(b) || LogsClash(Reads(a), Reads(b), Payload)
  }

  lemma ByteTextsOfReads(rows: seq<Row>)
    requires ShellOk(rows) && ByteLog(rows)
    ensures ByteTexts(Reads(rows), Payload)
  {
    hide Payload, Sha256.ByteText, Sha256.HashHex;
    var read := Reads(rows);
    forall i | 0 <= i < |read|
      ensures Sha256.ByteText(Payload(read[i]))
    {
      ChainedHashesArePlain(read, Payload, i);
      assert ByteRow(read[i]) == ByteRow(rows[i]);
      PayloadIsByteText(read[i]);
    }
  }

  predicate LoneLog(rows: seq<Row>) { forall i :: 0 <= i < |rows| ==> PlainRow(rows[i]) && Lone(rows[i].summary) }

  lemma LoneRowsArePinned(a: seq<Row>, b: seq<Row>)
    requires ShellOk(a) && ShellOk(b) && LoneLog(a)
    ensures forall i, j :: 0 <= i < |a| && 0 <= j < |b| && Payload(Reads(a)[i]) == Payload(Reads(b)[j]) ==>
      Reads(a)[i] == Reads(b)[j].(eventHash := Reads(a)[i].eventHash)
  {
    hide Payload, Lone, Sha256.HashHex;
    var x, y := Reads(a), Reads(b);
    forall i, j | 0 <= i < |a| && 0 <= j < |b| && Payload(x[i]) == Payload(y[j])
      ensures x[i] == y[j].(eventHash := x[i].eventHash)
    {
      ChainedHashesArePlain(x, Payload, i);
      ChainedHashesArePlain(y, Payload, j);
      assert NoEmptyColumn(b[j]);
      PinnedRow(x[i], y[j]);
    }
  }

  lemma LoneLogIsPinned(a: seq<Row>, b: seq<Row>)
    requires ShellOk(a) && ShellOk(b) && a != [] && b != [] && LoneLog(a) && ByteLog(a) && ByteLog(b)
    requires a[|a| - 1].eventHash == b[|b| - 1].eventHash
    ensures Reads(a) == Reads(b) || LogsClash(Reads(a), Reads(b), Payload)
  {
    hide Payload, Linked, LogsClash, ByteTexts, LoneLog, ByteRow, NoEmptyColumn;
    var x, y := Reads(a), Reads(b);
    ByteTextsOfReads(a);
    ByteTextsOfReads(b);
    LoneRowsArePinned(a, b);
    ChainsAgree(x, y, Payload);
    if SameTexts(x, y, Payload) {
      assert forall i :: 0 <= i < |x| ==> x[i] == y[i];
    }
  }

  lemma MovedIsByteRow(r: Row, x: string, y: string)
    requires ByteRow(r) && r.summary == x + "|" + y
    ensures ByteRow(MovedRight(r, x, y)) && ByteRow(MovedLeft(r, y))
  {
    assert forall i :: 0 <= i < |x| ==> x[i] == r.summary[i];
    assert forall i :: 0 <= i < |y| ==> y[i] == r.summary[|x| + 1 + i];
  }

  /** Of the logs that the loop accepts and whose other columns hold no separator, exactly those are pinned by
      their last hash, against every other log, in which no summary holds one, or is just one. */
  lemma PinnedInShellExactly(a: seq<Row>)
    requires ShellOk(a) && a != [] && PlainLog(a)
    ensures PinnedInShell(a) <==> forall i :: 0 <= i < |a| ==> Lone(a[i].summary)
  {
    hide Payload, Linked, LogsClash, ShellOk, ByteRow, Reads, SameTexts, MovedRight, MovedLeft;
    if i :| 0 <= i < |a| && !Lone(a[i].summary) {
      var k :| 0 <= k < |a[i].summary| && a[i].summary[k] == '|';
      var x, y := a[i].summary[..k], a[i].summary[k + 1..];
      assert a[i].summary == x + "|" + y;
      SeparatorCanBeMoved(a, i, x, y);
      MovedIsByteRow(a[i], x, y);
      var b := a[i := if x != "" then MovedRight(a[i], x, y) else MovedLeft(a[i], y)];
      SameTextsNeverClash(Reads(a), Reads(b), Payload);
      assert ByteLog(b) && ShellOk(b);
    } else {
      forall b: seq<Row> | ByteLog(b) && ShellOk(b) && b != [] && b[|b| - 1].eventHash == a[|a| - 1].eventHash
        ensures Reads(a) == Reads(b) || LogsClash(Reads(a), Reads(b), Payload)
      {
        LoneLogIsPinned(a, b);
      }
    }
  }

  // ---- The two checks on what the writer stores

  predicate WriterColumns(rows: seq<Row>) { forall i :: 0 <= i < |rows| ==> Written(rows[i]) == rows[i] }

  /** The whole payload and what the writer hashed of it are one text, or two with one digest. */
  ghost predicate HashedWhole(r: Row) { Fits(r) || Clash(Payload(r), WriterText(r)) }

  lemma DigestsAgree(r: Row)
    requires Written(r) == r && ByteRow(r) && Sha256.ByteText(r.prevHash)
    ensures Sha256.HashHex(Payload(r)) == RowHash(r) <==> HashedWhole(r)
  {
    hide Payload, Sha256.Hex, Fips180.Sha256, Sha256.Bytes, ByteRow, Sha256.ByteText;
    PayloadIsByteText(r);
    ClipIsByteText(Payload(r), PAYLOAD_MAX);
    if Sha256.HashHex(Payload(r)) == RowHash(r) {
      SameDigest(Payload(r), WriterText(r));
    }
  }

  /** On rows with the writer's own columns: a log that passes the documented check passes the smoke test's
      exactly when no column is empty and every payload was hashed whole; and the other way round, as long as
      the first previous hash is not a dash. */
  lemma ChecksAgree(rows: seq<Row>)
    requires WriterColumns(rows) && ByteLog(rows)
    ensures ChainOk(rows) ==>
      (ShellOk(rows) <==> forall i :: 0 <= i < |rows| ==> NoEmptyColumn(rows[i]) && HashedWhole(rows[i]))
    ensures ShellOk(rows) && (rows != [] ==> rows[0].prevHash != "-") ==>
      (ChainOk(rows) <==> forall i :: 0 <= i < |rows| ==> HashedWhole(rows[i]))
  {
    hide Payload, Sha256.HashHex, ByteRow, Sha256.ByteText, NoEmptyColumn, HashedWhole, WriterText;
    if ChainOk(rows) {
      NoDashes(rows, WriterText);
      AgreeOn(rows);
    }
    if ShellOk(rows) && (rows != [] ==> rows[0].prevHash != "-") {
      ReadAsTheyAre(rows);
      AgreeOn(rows);
    }
  }

  lemma NoDashes(rows: seq<Row>, text: Row -> string)
    requires Chain(rows, text)
    ensures Reads(rows) == rows && forall i :: 0 <= i < |rows| ==> Sha256.ByteText(rows[i].prevHash)
  {
    hide Sha256.HashHex;
    forall i | 0 <= i < |rows|
      ensures AsRead(rows[i]) == rows[i] && Sha256.ByteText(rows[i].prevHash)
    {
      ChainedHashesArePlain(rows, text, i);
    }
  }

  lemma ReadAsTheyAre(rows: seq<Row>)
    requires ShellOk(rows) && (rows != [] ==> rows[0].prevHash != "-")
    ensures Reads(rows) == rows && forall i :: 0 <= i < |rows| ==> Sha256.ByteText(rows[i].prevHash)
  {
    hide Sha256.HashHex, Payload, Sha256.ByteText;
    var read := Reads(rows);
    forall i | 0 <= i < |rows|
      ensures read[i] == rows[i] && Sha256.ByteText(rows[i].prevHash)
    {
      ChainedHashesArePlain(read, Payload, i);
      DashIsByteText();
    }
  }

  lemma DashIsByteText()
    ensures Sha256.ByteText("-")
  {
  }

  /** Rows that are read as they are and linked: the two checks differ in the digests alone. */
  lemma AgreeOn(rows: seq<Row>)
    requires WriterColumns(rows) && ByteLog(rows) && Reads(rows) == rows
    requires forall i :: 0 <= i < |rows| ==> Sha256.ByteText(rows[i].prevHash)
    ensures ChainOk(rows) ==> (Chain(rows, Payload) <==> forall i :: 0 <= i < |rows| ==> HashedWhole(rows[i]))
    ensures Chain(rows, Payload) ==> (ChainOk(rows) <==> forall i :: 0 <= i < |rows| ==> HashedWhole(rows[i]))
  {
    hide Payload, Sha256.HashHex, ByteRow, Sha256.ByteText, HashedWhole, WriterText;
    forall i | 0 <= i < |rows|
      ensures Sha256.HashHex(Payload(rows[i])) == Sha256.HashHex(WriterText(rows[i])) <==> HashedWhole(rows[i])
    {
      DigestsAgree(rows[i]);
    }
  }
}
