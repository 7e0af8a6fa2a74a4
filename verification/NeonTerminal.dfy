/** The framebuffer terminal's text: a ring of the last 96 completed lines, column wrapping, and the
    scrolling window over them, refined against an unbounded list of lines. */
module NeonTerminal {
  import opened CText

  const SCROLLBACK_LINES: nat := 96
  const LINE_CAPACITY: nat := 132
  const U32: nat := 0x1_0000_0000

  // ---- The unbounded text

  /** All completed lines ever, and the line being written. */
  datatype Text = Text(done: seq<string>, current: string)

  const Blank := Text([], "")

  /** One character written to a terminal `columns` wide. */
  function Type(t: Text, c: char, columns: nat): Text {
    if c == '\r' || c == '\0' then t
    else if c == '\n' then Text(t.done + [t.current], "")
    else if c == '\U{08}' then
      if t.current == "" then t else t.(current := t.current[..|t.current| - 1])
    else if |t.current| >= columns then Text(t.done + [t.current], [c])
    else t.(current := t.current + [c])
  }

  function TypeAll(t: Text, s: string, columns: nat): Text {
    if s == "" then t else Type(TypeAll(t, s[..|s| - 1], columns), s[|s| - 1], columns)
  }

  function LastLines(lines: seq<string>): seq<string> {
    if |lines| <= SCROLLBACK_LINES then lines else lines[|lines| - SCROLLBACK_LINES..]
  }

  /** The lines that can be shown: the last 96 completed ones and the current one. */
  function Retained(t: Text): (ls: seq<string>)
    ensures |ls| >= 1
  {
    LastLines(t.done) + [t.current]
  }

  // ---- Wrapping said without the machine

  /** A line cut into pieces of `columns` characters; an exact fit makes no empty piece. */
  function Wrap(line: string, columns: nat): (ps: seq<string>)
    requires columns > 0
    ensures ps != []
  {
    if |line| <= columns then [line] else [line[..columns]] + Wrap(line[columns..], columns)
  }

  /** The lines of a stream: cut at line feeds, without carriage returns and NULs. */
  function InputLines(s: string): (ls: seq<string>)
    ensures ls != []
  {
    if s == "" then [""] else MoreInput(InputLines(s[..|s| - 1]), s[|s| - 1])
  }

  function MoreInput(ls: seq<string>, c: char): (more: seq<string>)
    requires ls != []
    ensures more != []
  {
    if c == '\n' then ls + [""]
    else if c == '\r' || c == '\0' then ls
    else ls[..|ls| - 1] + [ls[|ls| - 1] + [c]]
  }

  function WrapLines(lines: seq<string>, columns: nat): seq<string>
    requires columns > 0
  {
    if lines == [] then [] else WrapLines(lines[..|lines| - 1], columns) + Wrap(lines[|lines| - 1], columns)
  }

  function Joined(pieces: seq<string>): string {
    if pieces == [] then "" else pieces[0] + Joined(pieces[1..])
  }

  function WithoutReturns(s: string): string {
    if s == "" then ""
    else
      var c := s[|s| - 1];
      WithoutReturns(s[..|s| - 1]) + if c == '\r' || c == '\0' then "" else [c]
  }

  predicate NoBackspace(s: string) { '\U{08}' !in s }

  /** The lines of a stream hold no line feed, and joined by line feeds they are the stream less its returns and
      NULs. */
  lemma {:induction false} InputLinesAreTheInput(s: string)
    ensures JoinedBy(InputLines(s), '\n') == WithoutReturns(s) && NoLineFeeds(InputLines(s))
  {
    if s == "" {
      JoinedOne("", '\n');
    } else {
      hide JoinedBy, MoreInput, NoLineFeeds;
      InputLinesAreTheInput(s[..|s| - 1]);
      MoreInputJoins(InputLines(s[..|s| - 1]), s[|s| - 1]);
    }
  }

  predicate NoLineFeeds(ls: seq<string>) { forall i :: 0 <= i < |ls| ==> '\n' !in ls[i] }

  lemma MoreInputJoins(ls: seq<string>, c: char)
    requires ls != [] && NoLineFeeds(ls)
    ensures JoinedBy(MoreInput(ls, c), '\n') == JoinedBy(ls, '\n') + if c == '\r' || c == '\0' then "" else [c]
    ensures NoLineFeeds(MoreInput(ls, c))
  {
    hide JoinedBy;
    var n := |ls| - 1;
    assert ls == ls[..n] + [ls[n]];
    JoinedSnoc(ls[..n], ls[n], c, '\n');
  }

  /** Rejoining the pieces of a line gives the line, and no piece is wider than the terminal. */
  lemma {:induction false} WrapLosesNothing(line: string, columns: nat)
    requires columns > 0
    ensures Joined(Wrap(line, columns)) == line
    ensures forall i :: 0 <= i < |Wrap(line, columns)| ==> |Wrap(line, columns)[i]| <= columns
    decreases |line|
  {
    if |line| <= columns {
      assert [line][1..] == [] && line + "" == line;
    } else {
      WrapLosesNothing(line[columns..], columns);
      assert Wrap(line, columns)[1..] == Wrap(line[columns..], columns);
      assert line == line[..columns] + line[columns..];
    }
  }

  function Extended(pieces: seq<string>, c: char, columns: nat): seq<string>
    requires pieces != []
  {
    var last := pieces[|pieces| - 1];
    if |last| >= columns then pieces + [[c]] else pieces[..|pieces| - 1] + [last + [c]]
  }

  lemma {:induction false} WrapExtends(line: string, c: char, columns: nat)
    requires columns > 0
    ensures Wrap(line + [c], columns) == Extended(Wrap(line, columns), c, columns)
    decreases |line|
  {
    if |line| > columns {
      WrapExtends(line[columns..], c, columns);
      assert (line + [c])[columns..] == line[columns..] + [c];
      assert (line + [c])[..columns] == line[..columns];
      LaterExtended(line[..columns], Wrap(line[columns..], columns), c, columns);
    } else if |line| == columns {
      assert (line + [c])[columns..] == [c] && (line + [c])[..columns] == line;
    }
  }

  lemma LaterExtended(first: string, pieces: seq<string>, c: char, columns: nat)
    requires pieces != []
    ensures Extended([first] + pieces, c, columns) == [first] + Extended(pieces, c, columns)
  {
  }

  function Split(pieces: seq<string>): Text
    requires pieces != []
  {
    Text(pieces[..|pieces| - 1], pieces[|pieces| - 1])
  }

  lemma WrapLinesNotEmpty(ls: seq<string>, columns: nat)
    requires ls != [] && columns > 0
    ensures WrapLines(ls, columns) != []
  {
  }

  lemma WrapLinesBreak(ls: seq<string>, columns: nat)
    requires columns > 0
    ensures WrapLines(ls + [""], columns) == WrapLines(ls, columns) + [""]
  {
    assert (ls + [""])[..|ls|] == ls;
  }

  lemma TypePiece(pieces: seq<string>, c: char, columns: nat)
    requires pieces != [] && c != '\U{08}' && c != '\r' && c != '\0'
    ensures Type(Split(pieces), c, columns) == Split(if c == '\n' then pieces + [""] else Extended(pieces, c, columns))
  {
    assert pieces == pieces[..|pieces| - 1] + [pieces[|pieces| - 1]];
  }

  /** Without backspaces the written text is the stream's lines, each wrapped; the last piece is current. */
  lemma {:induction false} TypedTextIsWrapped(s: string, columns: nat)
    requires columns > 0 && NoBackspace(s)
    ensures WrapLines(InputLines(s), columns) != []
    ensures TypeAll(Blank, s, columns) == Split(WrapLines(InputLines(s), columns))
  {
    if s == "" {
      WrapLinesBreak([], columns);
      assert [] + [""] == [""];
    } else {
      hide WrapLines, Type, Extended, Split;
      var front, c := s[..|s| - 1], s[|s| - 1];
      TypedTextIsWrapped(front, columns);
      var ls := InputLines(front);
      WrapLinesNotEmpty(InputLines(s), columns);
      if c == '\r' || c == '\0' {
        TypeNothing(TypeAll(Blank, front, columns), c, columns);
      } else {
        TypePiece(WrapLines(ls, columns), c, columns);
        if c == '\n' {
          WrapLinesBreak(ls, columns);
        } else {
          WrapLinesExtend(ls, c, columns);
        }
      }
    }
  }

  /** What the terminal can show of a stream is the end of its wrapped lines: the last 97 pieces. */
  lemma ShownTextIsTheEnd(s: string, columns: nat)
    requires columns > 0 && NoBackspace(s)
    ensures var ps := WrapLines(InputLines(s), columns);
            Retained(TypeAll(Blank, s, columns))
              == if |ps| <= 97 then ps else ps[|ps| - 97..]
  {
    hide WrapLines, InputLines, TypeAll;
    TypedTextIsWrapped(s, columns);
  }

  lemma TypeNothing(t: Text, c: char, columns: nat)
    requires c == '\r' || c == '\0'
    ensures Type(t, c, columns) == t
  {
  }

  lemma WrapLinesExtend(ls: seq<string>, c: char, columns: nat)
    requires ls != [] && columns > 0
    ensures WrapLines(ls, columns) != []
    ensures WrapLines(ls[..|ls| - 1] + [ls[|ls| - 1] + [c]], columns) == Extended(WrapLines(ls, columns), c, columns)
  {
    var front, last := ls[..|ls| - 1], ls[|ls| - 1];
    assert (front + [last + [c]])[..|front|] == front;
    WrapExtends(last, c, columns);
    var w, p := WrapLines(front, columns), Wrap(last, columns);
    assert Extended(w + p, c, columns) == w + Extended(p, c, columns);
  }

  // ---- Layout

  class Terminal {
    const lines: array<string>
    const currentLine: array<char>
    var lineStart: nat
    var lineCount: nat
    var currentLen: nat
    var viewOffset: nat
    var columns: nat
    var visibleRows: nat
    var bodyX: nat
    var bodyY: nat
    var bodyW: nat
    var bodyH: nat
    var charW: nat
    var charH: nat
    ghost var done: seq<string> // every line ever completed

    ghost predicate Valid()
      reads this, lines, currentLine
    {
      && lines.Length == SCROLLBACK_LINES
      && currentLine.Length == LINE_CAPACITY
      && lineStart < SCROLLBACK_LINES
      && 1 <= columns < LINE_CAPACITY
      && currentLen < LINE_CAPACITY && currentLine[currentLen] == '\0'
      && '\0' !in currentLine[..currentLen]
      && lineCount == |LastLines(done)|
      && RingHolds(lines[..], lineStart, done)
    }

    ghost function View(): Text
      requires Valid()
      reads this, lines, currentLine
    {
      Text(done, currentLine[..currentLen])
    }

    constructor (width: nat, height: nat)
      requires width >= 320 && height >= 240
      ensures Valid() && View() == Blank && viewOffset == 0
      ensures fresh(lines) && fresh(currentLine)
      ensures GoodLayout(columns, visibleRows, bodyW, bodyH, charW, charH)
      ensures bodyX + bodyW <= width && bodyY + bodyH <= height
    {
      lines := new string[SCROLLBACK_LINES](_ => "");
      currentLine := new char[LINE_CAPACITY](_ => '\0');
      lineStart, lineCount, currentLen, viewOffset := 0, 0, 0, 0;
      columns, visibleRows, bodyX, bodyY, bodyW, bodyH, charW, charH := 1, 1, 0, 0, 0, 0, 8, 10;
      done := [];
      new;
      ComputeLayout(width, height);
      ResetScrollback();
    }

    /** The terminal starts on screens of at least 320 by 240; below that the layout promises nothing. */
    method ComputeLayout(screenW: nat, screenH: nat)
      modifies this`columns, this`visibleRows, this`bodyX, this`bodyY, this`bodyW, this`bodyH, this`charW, this`charH
      ensures screenW >= 320 && screenH >= 240 ==>
        GoodLayout(columns, visibleRows, bodyW, bodyH, charW, charH)
        && bodyX + bodyW <= screenW && bodyY + bodyH <= screenH
        && bodyW == (if screenW >= 1280 then 1016 else if screenW >= 1024 then 876 else screenW - 84)
        && bodyH == (if screenH >= 800 then 536 else if screenH >= 600 then 396 else screenH - 144)
      ensures screenW >= 320 && screenH >= 240 ==> // centred, with 12 pixels at each side, 72 above and 32 below
        0 <= screenW - bodyW - 2 * bodyX <= 1 && 0 <= screenH - (bodyH + 104) - 2 * (bodyY - 72) <= 1
      ensures (charW, charH) == if screenW >= 1280 && screenH >= 720 then (14, 18) else (8, 10)
    {
      hide GoodLayout;
      var panelW, panelH := PanelWidth(screenW), PanelHeight(screenH);
      var marginX := if screenW > panelW then (screenW - panelW) / 2 else 0;
      var marginY := if screenH > panelH then (screenH - panelH) / 2 else 0;
      bodyX := marginX + 12;
      bodyY := marginY + 72;
      bodyW := if panelW > 24 then panelW - 24 else panelW;
      bodyH := if panelH > 92 then (panelH + U32 - 104) % U32 else panelH;
      ComputeGrid(if screenW >= 1280 && screenH >= 720 then 2 else 1);
    }

    /** The character cell and how many of them the body holds. */
    method ComputeGrid(scale: nat)
      requires 1 <= scale <= 2 && bodyW <= 1016
      modifies this`columns, this`visibleRows, this`charW, this`charH
      ensures charW == 6 * scale + 2 && charH == 8 * scale + 2
      ensures bodyW >= 236 && (bodyH >= 396 || (scale == 1 && bodyH >= 96)) ==>
        GoodLayout(columns, visibleRows, bodyW, bodyH, charW, charH)
    {
      hide GoodLayout;
      charW := 6 * scale + 2;
      charH := 8 * scale + 2;
      assert (charW == 8 && charH == 10) || (charW == 14 && charH == 18);
      visibleRows := if bodyH > 24 then (bodyH - 20) / (charH + 2) else 1;
      if visibleRows == 0 {
        visibleRows := 1;
      }
      columns := if bodyW > 32 then (bodyW - 24) / charW else 1;
      if bodyW >= 236 && (bodyH >= 396 || (scale == 1 && bodyH >= 96)) {
        GridFits(bodyW, bodyH, charW, charH);
        AtLeast(bodyH - 20, charH + 2, 1);
      }
      AtMost(bodyW - 24, charW, LINE_CAPACITY - 1);
      assert columns < LINE_CAPACITY; // panels are narrow enough that the cap at 131 columns never applies
    }

    method ResetScrollback()
      requires Valid()
      modifies this`lineStart, this`lineCount, this`currentLen, this`viewOffset, this`done, lines, currentLine
      ensures Valid() && View() == Blank && viewOffset == 0
    {
      lineStart, lineCount, currentLen, viewOffset := 0, 0, 0, 0;
      done := [];
      for i := 0 to SCROLLBACK_LINES
        modifies lines
      {
        lines[i] := "";
      }
      ZeroCurrent();
    }

    method ZeroCurrent()
      requires currentLine.Length == LINE_CAPACITY
      modifies currentLine
      ensures forall i :: 0 <= i < LINE_CAPACITY ==> currentLine[i] == '\0'
    {
      for i := 0 to LINE_CAPACITY
        invariant forall k :: 0 <= k < i ==> currentLine[k] == '\0'
      {
        currentLine[i] := '\0';
      }
    }

    method PushCompletedLine(line: string)
      requires Valid() && |line| < LINE_CAPACITY
      modifies this`lineStart, this`lineCount, this`done, lines
      ensures Valid() && done == old(done) + [line] && View().current == old(View()).current
    {
      hide RingHolds;
      ghost var before, ring, start := done, lines[..], lineStart;
      RingStart(ring, start, before);
      var slot;
      if lineCount < SCROLLBACK_LINES {
        slot := (lineStart + lineCount) % SCROLLBACK_LINES;
        lineCount := lineCount + 1;
      } else {
        slot := lineStart;
        lineStart := (lineStart + 1) % SCROLLBACK_LINES;
      }
      lines[slot] := Clip(line, LINE_CAPACITY - 1);
      done := done + [line];
      PushedRing(ring, start, before, line);
      assert lines[..] == ring[slot := line];
    }

    /** The line shown at a position of the retained text. */
    method LineAt(index: nat) returns (line: string)
      requires Valid()
      ensures line == if index < lineCount then Retained(View())[index] else View().current
    {
      if index < lineCount {
        var slot := (lineStart + index) % SCROLLBACK_LINES;
        return lines[slot];
      }
      return currentLine[..currentLen];
    }

    method Newline()
      requires Valid()
      modifies this`lineStart, this`lineCount, this`currentLen, this`viewOffset, this`done, lines, currentLine
      ensures Valid() && View() == Type(old(View()), '\n', columns) && viewOffset == 0
    {
      PushCompletedLine(currentLine[..currentLen]);
      ZeroCurrent();
      currentLen := 0;
      viewOffset := 0;
    }

    method AppendChar(c: char)
      requires Valid()
      modifies this`lineStart, this`lineCount, this`currentLen, this`viewOffset, this`done, lines, currentLine
      ensures Valid() && View() == Type(old(View()), c, columns)
      ensures viewOffset == if c == '\r' || c == '\0' then old(viewOffset) else 0
    {
      hide RingHolds, LastLines;
      if c == '\r' || c == '\0' {
        return;
      }
      if c == '\n' {
        Newline();
        return;
      }
      if c == '\U{08}' {
        if currentLen > 0 {
          currentLen := currentLen - 1;
          currentLine[currentLen] := '\0';
        }
        viewOffset := 0;
        return;
      }
      if currentLen + 1 >= LINE_CAPACITY || currentLen >= columns {
        Newline();
      }
      if currentLen + 1 < LINE_CAPACITY {
        currentLine[currentLen] := c;
        currentLen := currentLen + 1;
        currentLine[currentLen] := '\0';
      }
      viewOffset := 0;
    }

    method WriteRaw(text: string)
      requires Valid()
      modifies this`lineStart, this`lineCount, this`currentLen, this`viewOffset, this`done, lines, currentLine
      ensures Valid() && View() == TypeAll(old(View()), text, columns)
    {
      hide Type;
      for i := 0 to |text|
        invariant Valid() && View() == TypeAll(old(View()), text[..i], columns)
      {
        AppendChar(text[i]);
        assert text[..i + 1][..i] == text[..i];
      }
      assert text[..|text|] == text;
    }

    // ---- Scrolling and drawing

    method ScrollUp()
      requires Valid()
      modifies this`viewOffset
      ensures viewOffset == PageUp(old(viewOffset), |Retained(View())|, visibleRows)
    {
      var step := if visibleRows > 2 then visibleRows - 2 else 1;
      var maxOffset := MaxScrollOffset();
      if viewOffset + step > maxOffset {
        viewOffset := maxOffset;
      } else {
        viewOffset := viewOffset + step;
      }
    }

    method ScrollDown()
      requires Valid()
      modifies this`viewOffset
      ensures viewOffset == PageDown(old(viewOffset), visibleRows)
      ensures viewOffset > 0 ==> old(viewOffset) - viewOffset == StepSize(visibleRows)
      ensures viewOffset == 0 <==> old(viewOffset) <= StepSize(visibleRows)
    {
      var step := if visibleRows > 2 then visibleRows - 2 else 1;
      if viewOffset <= step {
        viewOffset := 0;
      } else {
        viewOffset := viewOffset - step;
      }
    }

    method MaxScrollOffset() returns (offset: nat)
      requires Valid()
      ensures offset == MaxOffset(|Retained(View())|, visibleRows)
    {
      var total := lineCount + 1;
      if total <= visibleRows {
        return 0;
      }
      return total - visibleRows;
    }

    /** Clamps the offset and lists what is drawn: each row's height on the screen and its text, and the
        height of the scrollback banner when there is one. */
    method RenderBody() returns (rows: seq<Row>, banner: Option<nat>)
      requires Valid() && GoodLayout(columns, visibleRows, bodyW, bodyH, charW, charH)
      modifies this`viewOffset
      ensures viewOffset == Clamp(old(viewOffset), |Retained(View())|, visibleRows)
      ensures var w := Window(viewOffset, |Retained(View())|, visibleRows);
              |rows| == w.end - w.start
              && forall r :: 0 <= r < |rows| ==> rows[r] == Row(RowTop(bodyY, charH, r), Retained(View())[w.start + r])
      ensures banner == if viewOffset > 0 then Some(BannerTop(bodyY, bodyH, charH)) else None
    {
      hide Retained, RowTop, RingHolds, LastLines;
      ghost var shown := Retained(View());
      var maxOffset := MaxScrollOffset();
      if viewOffset > maxOffset {
        viewOffset := maxOffset;
      }
      var total := lineCount + 1;
      RetainedLength(View());
      var endIndex := if total > viewOffset then total - viewOffset else 0;
      var startIndex := if endIndex > visibleRows then endIndex - visibleRows else 0;
      rows := DrawRows(startIndex, endIndex);
      banner := if viewOffset > 0 then Some(bodyY + bodyH - charH - 8) else None;
    }

    /** The drawing loop of RenderBody. */
    method DrawRows(startIndex: nat, endIndex: nat) returns (rows: seq<Row>)
      requires Valid() && GoodLayout(columns, visibleRows, bodyW, bodyH, charW, charH)
      requires startIndex <= endIndex <= lineCount + 1 && endIndex - startIndex <= visibleRows
      ensures |rows| == endIndex - startIndex
      ensures forall r :: 0 <= r < |rows| ==> rows[r] == Row(RowTop(bodyY, charH, r), Retained(View())[startIndex + r])
    {
      hide Type, LastLines, RowTop;
      FirstRow(bodyY, charH);
      var y := bodyY + 10;
      rows := [];
      var row := 0;
      while row < visibleRows
        invariant row == |rows| <= endIndex - startIndex
        invariant y == RowTop(bodyY, charH, row)
        invariant forall r :: 0 <= r < |rows| ==>
          rows[r] == Row(RowTop(bodyY, charH, r), Retained(View())[startIndex + r])
      {
        RowFits(bodyY, bodyH, charH, visibleRows, row);
        var srcIndex := startIndex + row;
        if srcIndex >= endIndex || y + charH >= bodyY + bodyH {
          break;
        }
        var text := LineAt(srcIndex);
        rows := rows + [Row(y, text)];
        y := y + charH + 2;
        row := row + 1;
      }
    }
  }

  lemma RetainedLength(t: Text)
    ensures |Retained(t)| == |LastLines(t.done)| + 1
  {
  }

  lemma FirstRow(bodyY: nat, charH: nat)
    ensures RowTop(bodyY, charH, 0) == bodyY + 10
  {
  }

  datatype Row = Row(y: nat, text: string)

  function Slot(start: nat, i: nat): (s: nat)
    ensures s < SCROLLBACK_LINES
  {
    (start + i) % SCROLLBACK_LINES
  }

  /** The ring, read from its start, is the last lines. */
  predicate RingHolds(ring: seq<string>, start: nat, done: seq<string>) {
    && |ring| == SCROLLBACK_LINES
    && start < SCROLLBACK_LINES
    && (|done| < SCROLLBACK_LINES ==> start == 0)
    && forall i :: 0 <= i < |LastLines(done)| ==> ring[Slot(start, i)] == LastLines(done)[i]
  }

  lemma RingStart(ring: seq<string>, start: nat, done: seq<string>)
    requires RingHolds(ring, start, done)
    ensures |ring| == SCROLLBACK_LINES && start < SCROLLBACK_LINES && |LastLines(done)| <= SCROLLBACK_LINES
  {
  }

  lemma SlotsDiffer(start: nat, i: nat, j: nat)
    requires i < j < SCROLLBACK_LINES
    ensures Slot(start, i) != Slot(start, j)
  {
  }

  lemma SlotsShift(start: nat, i: nat)
    requires start < SCROLLBACK_LINES && i < SCROLLBACK_LINES
    ensures Slot((start + 1) % SCROLLBACK_LINES, i) == Slot(start, i + 1)
    ensures Slot((start + 1) % SCROLLBACK_LINES, SCROLLBACK_LINES - 1) == Slot(start, 0)
  {
    SlotIs(start, i + 1);
    SlotIs(start, 0);
    if start + 1 == SCROLLBACK_LINES {
      SlotIs(0, i);
    } else {
      SlotIs(start + 1, i);
      SlotIs(start + 1, SCROLLBACK_LINES - 1);
    }
  }

  lemma SlotIs(start: nat, i: nat)
    requires start < SCROLLBACK_LINES && i <= SCROLLBACK_LINES
    ensures Slot(start, i) == if start + i < SCROLLBACK_LINES then start + i else start + i - SCROLLBACK_LINES
  {
  }

  /** Storing a line in the next free slot, or over the oldest line, keeps the ring in step. */
  lemma PushedRing(ring: seq<string>, start: nat, done: seq<string>, line: string)
    requires RingHolds(ring, start, done)
    ensures |LastLines(done)| < SCROLLBACK_LINES ==>
      RingHolds(ring[Slot(start, |LastLines(done)|) := line], start, done + [line])
    ensures |LastLines(done)| == SCROLLBACK_LINES ==>
      RingHolds(ring[start := line], (start + 1) % SCROLLBACK_LINES, done + [line])
  {
    hide Slot;
    var old_, new_ := LastLines(done), LastLines(done + [line]);
    if |old_| < SCROLLBACK_LINES {
      var ring' := ring[Slot(start, |old_|) := line];
      assert new_ == old_ + [line];
      forall i | 0 <= i < |new_|
        ensures ring'[Slot(start, i)] == new_[i]
      {
        if i < |old_| { SlotsDiffer(start, i, |old_|); }
      }
    } else {
      var ring', next := ring[start := line], (start + 1) % SCROLLBACK_LINES;
      assert new_ == old_[1..] + [line];
      StartSlot(start);
      forall i | 0 <= i < |new_|
        ensures ring'[Slot(next, i)] == new_[i]
      {
        SlotsShift(start, i);
        if i < SCROLLBACK_LINES - 1 { SlotsDiffer(start, 0, i + 1); }
      }
    }
  }

  lemma StartSlot(start: nat)
    requires start < SCROLLBACK_LINES
    ensures Slot(start, 0) == start
  {
  }

  lemma Quotient(n: int, d: int)
    requires d > 0
    ensures n / d * d <= n < (n / d + 1) * d
  {
  }

  lemma AtLeast(n: int, d: int, k: int)
    requires d > 0 && k * d <= n
    ensures n / d >= k
  {
    Quotient(n, d);
    Ordered(n / d + 1, k, d);
  }

  lemma AtMost(n: int, d: int, k: int)
    requires d > 0 && n < (k + 1) * d
    ensures n / d <= k
  {
    Quotient(n, d);
    Ordered(k + 1, n / d, d);
  }

  function PanelWidth(screenW: nat): (w: nat)
    ensures w <= screenW && w <= 1040 && (screenW >= 320 ==> w >= 260) && (screenW >= 1280 ==> w == 1040)
  {
    if screenW >= 1280 then 1040 else if screenW >= 1024 then 900 else if screenW > 80 then screenW - 60 else screenW
  }

  function PanelHeight(screenH: nat): (h: nat)
    ensures h <= screenH && h <= 640 && (screenH >= 240 ==> h >= 200) && (screenH >= 600 ==> h >= 500)
  {
    if screenH >= 800 then 640 else if screenH >= 600 then 500 else if screenH > 80 then screenH - 40 else screenH
  }

  lemma GridFits(bodyW: nat, bodyH: nat, charW: nat, charH: nat)
    requires (charW == 8 && charH == 10 && 236 <= bodyW <= 1016 && 96 <= bodyH)
             || (charW == 14 && charH == 18 && 236 <= bodyW <= 1016 && 396 <= bodyH)
    ensures GoodLayout((bodyW - 24) / charW, (bodyH - 20) / (charH + 2), bodyW, bodyH, charW, charH)
  {
    Quotient(bodyW - 24, charW);
    Quotient(bodyH - 20, charH + 2);
  }

  /** What the layout guarantees: every column and row fits, and not one more of either would. */
  predicate GoodLayout(columns: nat, rows: nat, bodyW: nat, bodyH: nat, charW: nat, charH: nat) {
    && 1 <= columns < LINE_CAPACITY
    && columns * charW + 24 <= bodyW < (columns + 1) * charW + 24
    && 6 <= rows
    && charH >= 10
    && rows * (charH + 2) + 20 <= bodyH < (rows + 1) * (charH + 2) + 20
  }

  // ---- The window

  datatype Range = Range(start: nat, end: nat)

  function MaxOffset(total: nat, rows: nat): nat { if total <= rows then 0 else total - rows }

  function StepSize(rows: nat): nat { if rows > 2 then rows - 2 else 1 }

  function PageUp(offset: nat, total: nat, rows: nat): nat {
    if offset + StepSize(rows) > MaxOffset(total, rows) then MaxOffset(total, rows) else offset + StepSize(rows)
  }

  function PageDown(offset: nat, rows: nat): nat {
    if offset <= StepSize(rows) then 0 else offset - StepSize(rows)
  }

  function Clamp(offset: nat, total: nat, rows: nat): nat {
    if offset > MaxOffset(total, rows) then MaxOffset(total, rows) else offset
  }

  /** The retained lines on the page at an offset. */
  function Window(offset: nat, total: nat, rows: nat): (w: Range)
    ensures w.start <= w.end
  {
    var end := if total > offset then total - offset else 0;
    Range(if end > rows then end - rows else 0, end)
  }

  /** At the live end the page ends with the last line; each row scrolled back moves it one line up. */
  lemma PageEndsAtTheOffset(offset: nat, total: nat, rows: nat)
    requires offset <= MaxOffset(total, rows)
    ensures Window(offset, total, rows).end == total - offset
    ensures MaxOffset(total, rows) == total - (Window(0, total, rows).end - Window(0, total, rows).start)
  {
  }

  function RowTop(bodyY: nat, charH: nat, row: nat): nat { bodyY + 10 + row * (charH + 2) }

  function BannerTop(bodyY: nat, bodyH: nat, charH: nat): int { bodyY + bodyH - charH - 8 }

  /** Every visible row ends above the bottom of the body, so the drawing loop never stops early. */
  lemma RowFits(bodyY: nat, bodyH: nat, charH: nat, rows: nat, row: nat)
    requires rows * (charH + 2) + 20 <= bodyH && row < rows
    ensures RowTop(bodyY, charH, row) + charH < bodyY + bodyH
    ensures RowTop(bodyY, charH, row + 1) == RowTop(bodyY, charH, row) + charH + 2
  {
    OneMore(row, charH + 2);
    Ordered(row + 1, rows, charH + 2);
  }

  /** The banner ends eight pixels above the bottom of the body, and touches no row but the bottom one. */
  lemma BannerTouchesOnlyTheBottomRow(columns: nat, rows: nat, bodyY: nat, bodyW: nat, bodyH: nat,
                                      charW: nat, charH: nat, row: nat)
    requires GoodLayout(columns, rows, bodyW, bodyH, charW, charH) && row < rows - 1
    ensures BannerTop(bodyY, bodyH, charH) + charH + 8 == bodyY + bodyH
    ensures RowTop(bodyY, charH, row) + charH <= BannerTop(bodyY, bodyH, charH)
  {
    OneMore(row, charH + 2);
    OneMore(rows - 1, charH + 2);
    OneMore(rows, charH + 2);
    Ordered(row + 1, rows - 1, charH + 2);
  }

  /** The offset after `k` times PageUp from the live view. */
  function PagedUp(k: nat, total: nat, rows: nat): nat {
    if k == 0 then 0 else PageUp(PagedUp(k - 1, total, rows), total, rows)
  }

  lemma {:induction false} PagedUpBound(k: nat, total: nat, rows: nat)
    ensures PagedUp(k, total, rows) <= MaxOffset(total, rows)
    ensures PagedUp(k, total, rows) >= k || PagedUp(k, total, rows) == MaxOffset(total, rows)
  {
    if k > 0 {
      PagedUpBound(k - 1, total, rows);
    }
  }

  /** Paging up arrives at the top and stays there. */
  lemma PagingReachesTheTop(total: nat, rows: nat)
    ensures var k := MaxOffset(total, rows);
            PagedUp(k, total, rows) == MaxOffset(total, rows) && PagedUp(k + 1, total, rows) == MaxOffset(total, rows)
    ensures rows > 0 && total > 0 ==> Window(MaxOffset(total, rows), total, rows).start == 0
  {
    PagedUpBound(MaxOffset(total, rows), total, rows);
  }

  /** A line on a page and not in the bottom row that the banner may cover. */
  predicate ShownClear(line: nat, offset: nat, total: nat, rows: nat) {
    var w := Window(offset, total, rows);
    w.start <= line < w.end && (offset > 0 ==> line - w.start < rows - 1)
  }

  /** Every retained line is shown clear of the banner on some page, provided a page has two rows. */
  lemma {:induction false} EveryLineIsShown(line: nat, total: nat, rows: nat, k: nat)
    requires line < total && rows >= 2
    requires line < Window(PagedUp(k, total, rows), total, rows).end - (if PagedUp(k, total, rows) > 0 then 1 else 0)
    ensures exists j :: ShownClear(line, PagedUp(j, total, rows), total, rows)
    decreases MaxOffset(total, rows) - PagedUp(k, total, rows)
  {
    var offset := PagedUp(k, total, rows);
    PagedUpBound(k, total, rows);
    var w := Window(offset, total, rows);
    if w.start <= line {
      assert ShownClear(line, PagedUp(k, total, rows), total, rows);
    } else {
      EveryLineIsShown(line, total, rows, k + 1);
    }
  }

  lemma EveryRetainedLineIsShown(line: nat, total: nat, rows: nat)
    requires line < total && rows >= 2
    ensures exists j :: ShownClear(line, PagedUp(j, total, rows), total, rows)
  {
    EveryLineIsShown(line, total, rows, 0);
  }

  /** Consecutive pages share exactly two rows, or more when the top cuts the step short. */
  lemma PagesOverlap(offset: nat, total: nat, rows: nat)
    requires rows > 2 && offset < MaxOffset(total, rows)
    ensures var below, above := Window(offset, total, rows), Window(PageUp(offset, total, rows), total, rows);
            above.end >= below.start + 2
            && (offset + StepSize(rows) <= MaxOffset(total, rows) <==> above.end == below.start + 2)
  {
  }

  /** The offset after `k` times PageDown. */
  function PagedDown(k: nat, offset: nat, rows: nat): nat {
    if k == 0 then offset else PageDown(PagedDown(k - 1, offset, rows), rows)
  }

  lemma {:induction false} PagedDownStep(k: nat, offset: nat, rows: nat)
    ensures PagedDown(k, PageDown(offset, rows), rows) == PagedDown(k + 1, offset, rows)
  {
    if k > 0 {
      PagedDownStep(k - 1, offset, rows);
    }
  }

  lemma {:induction false} PagedDownBound(k: nat, offset: nat, rows: nat)
    ensures PagedDown(k, offset, rows) == if k * StepSize(rows) >= offset then 0 else offset - k * StepSize(rows)
  {
    if k > 0 {
      PagedDownBound(k - 1, offset, rows);
      OneMore(k - 1, StepSize(rows));
    }
  }

  /** From any page, paging down reaches the live view, after no more steps than rows were scrolled back, and on
      the way every line from the top of that page to the last one is shown clear of the banner. */
  lemma {:induction false} PagingDownShowsTheRest(line: nat, offset: nat, total: nat, rows: nat)
    requires rows > 2 && offset <= MaxOffset(total, rows) && Window(offset, total, rows).start <= line < total
    ensures PagedDown(offset, offset, rows) == 0
    ensures exists j :: ShownClear(line, PagedDown(j, offset, rows), total, rows)
    decreases offset
  {
    PagedDownBound(offset, offset, rows);
    Ordered(1, StepSize(rows), if offset > 0 then offset else 1);
    if ShownClear(line, offset, total, rows) {
      assert PagedDown(0, offset, rows) == offset;
    } else {
      var below := PageDown(offset, rows);
      PagingDownShowsTheRest(line, below, total, rows);
      var j :| ShownClear(line, PagedDown(j, below, rows), total, rows);
      PagedDownStep(j, offset, rows);
    }
  }

  datatype Scroll = Up | Down | Bottom

  /** The offset after a run of scroll keys from the live view, with no new output. */
  function Scrolled(keys: seq<Scroll>, total: nat, rows: nat): nat {
    if keys == [] then 0
    else
      var offset := Scrolled(keys[..|keys| - 1], total, rows);
      match keys[|keys| - 1]
      case Up => PageUp(offset, total, rows)
      case Down => PageDown(offset, rows)
      case Bottom => 0
  }

  /** Whatever is pressed, the view stays on the retained text: drawing never clamps it, and the page is full
      whenever there is enough text to fill it. */
  lemma {:induction false} ScrollingStaysOnTheText(keys: seq<Scroll>, total: nat, rows: nat)
    requires total > 0 && rows > 0
    ensures var offset := Scrolled(keys, total, rows); var w := Window(offset, total, rows);
            Clamp(offset, total, rows) == offset && w.end <= total
            && w.end - w.start == if total < rows then total else rows
    decreases |keys|
  {
    if keys != [] {
      ScrollingStaysOnTheText(keys[..|keys| - 1], total, rows);
    }
  }
}
