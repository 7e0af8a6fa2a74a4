/** The firmware console's line editor: one key at a time, with a history that forgets its oldest entry. */
module LineEditor {
  import opened CText

  const HISTORY_MAX: nat := 8
  const LINE_MAX: nat := 128
  const SCAN_UP := 1
  const SCAN_DOWN := 2

  datatype Key = Key(scan: nat, unicode: nat)

  predicate Allowed(c: char) {
    'a' <= c <= 'z' || 'A' <= c <= 'Z' || '0' <= c <= '9' || c == ' ' || c == '-' || c == '_' || c == '.' || c == '/'
  }

  predicate AllAllowed(s: string) { forall c :: c in s ==> Allowed(c) }

  predicate IsUp(k: Key) { k.unicode == 0 && k.scan == SCAN_UP }
  predicate IsDown(k: Key) { k.unicode == 0 && k.scan == SCAN_DOWN }
  predicate IsEnter(k: Key) { k.unicode == 13 || k.unicode == 10 }
  predicate IsErase(k: Key) { k.unicode == 8 || k.unicode == 127 }

  /** The line under edit and the history entry it stands at; `cursor == |history|` is the new line. */
  datatype Editing = Editing(line: string, cursor: nat)

  function Recalled(history: seq<string>, cap: nat, cursor: nat): Editing
    requires cap > 0 && cursor <= |history|
  {
    Editing(if cursor < |history| then Clip(history[cursor], cap - 1) else "", cursor)
  }

  /** What one key other than Enter does. */
  function Press(history: seq<string>, cap: nat, e: Editing, k: Key): (r: Editing)
    requires cap > 0 && e.cursor <= |history|
    ensures r.cursor <= |history|
  {
    if IsUp(k) then
      if e.cursor > 0 then Recalled(history, cap, e.cursor - 1) else e
    else if IsDown(k) then
      if e.cursor < |history| then Recalled(history, cap, e.cursor + 1) else e
    else if IsErase(k) then
      if e.line != "" then e.(line := e.line[..|e.line| - 1]) else e
    else if k.unicode < 128 && Allowed(k.unicode as char) && |e.line| + 1 < cap then
      e.(line := e.line + [k.unicode as char])
    else e
  }

  datatype Reading = Waiting(editing: Editing) | Entered(line: string, used: nat)

  /** Reads keys up to the first Enter; `Waiting` when they run out before one. */
  function ReadKeys(history: seq<string>, cap: nat, e: Editing, keys: seq<Key>): Reading
    requires cap > 0 && e.cursor <= |history|
    decreases |keys|
  {
    if keys == [] then Waiting(e)
    else if IsEnter(keys[0]) then Entered(e.line, 1)
    else
      match ReadKeys(history, cap, Press(history, cap, e, keys[0]), keys[1..])
      case Waiting(f) => Waiting(f)
      case Entered(line, used) => Entered(line, used + 1)
  }

  function NewLine(history: seq<string>): Editing { Editing("", |history|) }

  // ---- History

  function LastN<T>(s: seq<T>, n: nat): seq<T> { if |s| <= n then s else s[|s| - n..] }

  /** The history after a line was submitted. */
  function Pushed(history: seq<string>, line: string): seq<string> {
    if line == "" || (history != [] && history[|history| - 1] == line) then history
    else LastN(history + [Clip(line, LINE_MAX - 1)], HISTORY_MAX)
  }

  datatype Visit = Visit(cap: nat, keys: seq<Key>)

  /** What the console has seen: its history and every line it has returned. */
  datatype Past = Past(history: seq<string>, lines: seq<string>)

  function After(p: Past, r: Visit): Past {
    if r.cap == 0 then p
    else
      match ReadKeys(p.history, r.cap, NewLine(p.history), r.keys)
      case Waiting(_) => p
      case Entered(line, _) => Past(Pushed(p.history, line), p.lines + [line])
  }

  function Run(visits: seq<Visit>): Past {
    if visits == [] then Past([], []) else After(Run(visits[..|visits| - 1]), visits[|visits| - 1])
  }

  // ---- The history, said by the submitted lines alone

  function DropEmpty(lines: seq<string>): seq<string> {
    if lines == [] then []
    else DropEmpty(lines[..|lines| - 1]) + (if lines[|lines| - 1] == "" then [] else [lines[|lines| - 1]])
  }

  /** The entries of a list that differ from what was stored of the entry right before them. */
  function Fresh(lines: seq<string>): seq<string> {
    if lines == [] then []
    else
      var n := |lines| - 1;
      Fresh(lines[..n])
      + (if n > 0 && lines[n] == Clip(lines[n - 1], LINE_MAX - 1) then [] else [Clip(lines[n], LINE_MAX - 1)])
  }

  /** A list with every run of equal neighbours cut down to its last member. */
  function Collapsed(lines: seq<string>): seq<string> {
    if |lines| < 2 then lines
    else if lines[0] == lines[1] then Collapsed(lines[1..])
    else [lines[0]] + Collapsed(lines[1..])
  }

  lemma {:induction false} FreshEndsInLast(lines: seq<string>)
    requires lines != []
    ensures Fresh(lines) != [] && Fresh(lines)[|Fresh(lines)| - 1] == Clip(lines[|lines| - 1], LINE_MAX - 1)
  {
    var n := |lines| - 1;
    if n > 0 && lines[n] == Clip(lines[n - 1], LINE_MAX - 1) {
      FreshEndsInLast(lines[..n]);
    }
  }

  lemma LastNSnoc<T>(s: seq<T>, x: T, n: nat)
    requires n > 0
    ensures LastN(LastN(s, n) + [x], n) == LastN(s + [x], n)
    ensures s != [] ==> LastN(s, n) != [] && LastN(s, n)[|LastN(s, n)| - 1] == s[|s| - 1]
  {
  }

  /** One push keeps "the last eight entries of the fresh lines". */
  lemma PushedIsFresh(lines: seq<string>, line: string)
    ensures Pushed(LastN(Fresh(DropEmpty(lines)), HISTORY_MAX), line)
         == LastN(Fresh(DropEmpty(lines + [line])), HISTORY_MAX)
  {
    hide DropEmpty, Fresh, Clip, LastN;
    var some := DropEmpty(lines);
    DropEmptySnoc(lines, line);
    FreshSnoc(some, line);
    LastNSnoc(Fresh(some), Clip(line, LINE_MAX - 1), HISTORY_MAX);
    if some != [] { FreshEndsInLast(some); }
    LastNNothing(Fresh(some));
  }

  lemma LastNNothing<T>(s: seq<T>)
    ensures s == [] ==> LastN(s, HISTORY_MAX) == []
  {
  }

  lemma DropEmptySnoc(lines: seq<string>, line: string)
    ensures DropEmpty(lines + [line]) == if line == "" then DropEmpty(lines) else DropEmpty(lines) + [line]
  {
    assert (lines + [line])[..|lines|] == lines;
  }

  lemma FreshSnoc(lines: seq<string>, line: string)
    ensures lines == [] ==> Fresh(lines) == []
    ensures Fresh(lines + [line])
         == if lines != [] && line == Clip(lines[|lines| - 1], LINE_MAX - 1) then Fresh(lines)
            else Fresh(lines) + [Clip(line, LINE_MAX - 1)]
  {
    hide Clip;
    assert (lines + [line])[..|lines|] == lines;
  }

  /** Over every run of reads the history is the last eight entries of the returned lines, the empty ones
      dropped and each line left out that repeats the one before it. */
  lemma {:induction false} HistoryIsTheLastLines(visits: seq<Visit>)
    ensures Run(visits).history == LastN(Fresh(DropEmpty(Run(visits).lines)), 8)
  {
    if visits == [] {
      assert Fresh(DropEmpty([])) == [];
    } else {
      hide Fresh, DropEmpty, Pushed, ReadKeys;
      var front, r := visits[..|visits| - 1], visits[|visits| - 1];
      HistoryIsTheLastLines(front);
      var p := Run(front);
      if r.cap > 0 {
        match ReadKeys(p.history, r.cap, NewLine(p.history), r.keys)
        case Waiting(_) =>
        case Entered(line, _) => PushedIsFresh(p.lines, line);
      }
    }
  }

  lemma CollapsedCons(x: string, rest: seq<string>)
    ensures rest == [] ==> Collapsed([x] + rest) == [x]
    ensures rest != [] ==> Collapsed([x] + rest) == if x == rest[0] then Collapsed(rest) else [x] + Collapsed(rest)
  {
    assert ([x] + rest)[1..] == rest;
  }

  lemma {:induction false} CollapsedSnoc(lines: seq<string>, line: string)
    requires lines != []
    ensures Collapsed(lines + [line])
         == if lines[|lines| - 1] == line then Collapsed(lines) else Collapsed(lines) + [line]
  {
    hide Collapsed;
    var x, rest := lines[0], lines[1..];
    assert lines == [x] + rest && lines + [line] == [x] + (rest + [line]);
    CollapsedCons(x, rest);
    CollapsedCons(x, rest + [line]);
    if rest == [] {
      CollapsedCons(line, []);
      assert rest + [line] == [line] + [] == [line];
    } else {
      CollapsedSnoc(rest, line);
      assert [x] + (Collapsed(rest) + [line]) == ([x] + Collapsed(rest)) + [line];
    }
  }

  /** Lines that fit an entry whole are collapsed in the plain sense; every caller reads into LINE_MAX bytes. */
  lemma {:induction false} FreshIsCollapsed(lines: seq<string>)
    requires forall i :: 0 <= i < |lines| ==> |lines[i]| < LINE_MAX
    ensures Fresh(lines) == Collapsed(lines)
    decreases |lines|
  {
    if lines != [] {
      var n := |lines| - 1;
      FreshIsCollapsed(lines[..n]);
      assert lines[..n] + [lines[n]] == lines;
      if n > 0 { CollapsedSnoc(lines[..n], lines[n]); }
    }
  }

  // ---- Lines fit and use the alphabet

  predicate AllLines(lines: seq<string>) { forall i :: 0 <= i < |lines| ==> AllAllowed(lines[i]) }

  predicate LineOk(cap: nat, e: Editing) { |e.line| < cap && AllAllowed(e.line) }

  lemma PressKeepsLine(history: seq<string>, cap: nat, e: Editing, k: Key)
    requires cap > 0 && e.cursor <= |history| && AllLines(history) && LineOk(cap, e)
    ensures LineOk(cap, Press(history, cap, e, k))
  {
  }

  lemma {:induction false} ReadKeepsLine(history: seq<string>, cap: nat, e: Editing, keys: seq<Key>)
    requires cap > 0 && e.cursor <= |history| && AllLines(history) && LineOk(cap, e)
    ensures var r := ReadKeys(history, cap, e, keys); r.Entered? ==> |r.line| < cap && AllAllowed(r.line)
    decreases |keys|
  {
    if keys != [] && !IsEnter(keys[0]) {
      PressKeepsLine(history, cap, e, keys[0]);
      ReadKeepsLine(history, cap, Press(history, cap, e, keys[0]), keys[1..]);
    }
  }

  /** Every line of every run, recalled or typed, uses the allowed alphabet; so does the history. */
  lemma {:induction false} LinesAreAllowed(visits: seq<Visit>)
    ensures AllLines(Run(visits).lines) && AllLines(Run(visits).history)
  {
    if visits != [] {
      hide ReadKeys, AllAllowed;
      var front, r := visits[..|visits| - 1], visits[|visits| - 1];
      LinesAreAllowed(front);
      var p := Run(front);
      if r.cap > 0 {
        NothingTyped(r.cap, NewLine(p.history));
        ReadKeepsLine(p.history, r.cap, NewLine(p.history), r.keys);
        var read := ReadKeys(p.history, r.cap, NewLine(p.history), r.keys);
        if read.Entered? { PushedAllowed(p.history, read.line); }
      }
    }
  }

  lemma NothingTyped(cap: nat, e: Editing)
    requires cap > 0 && e.line == ""
    ensures LineOk(cap, e)
  {
  }

  lemma PushedAllowed(history: seq<string>, line: string)
    requires AllLines(history) && AllAllowed(line)
    ensures AllLines(Pushed(history, line))
  {
    assert AllAllowed(Clip(line, LINE_MAX - 1));
    assert AllLines(history + [Clip(line, LINE_MAX - 1)]);
  }

  /** Every returned line leaves room for its NUL. */
  lemma ReturnedLineFits(visits: seq<Visit>, r: Visit)
    ensures After(Run(visits), r).lines != Run(visits).lines
        ==> exists line :: |line| < r.cap && After(Run(visits), r).lines == Run(visits).lines + [line]
  {
    hide ReadKeys, AllAllowed, Run;
    var p := Run(visits);
    LinesAreAllowed(visits);
    if r.cap > 0 {
      NothingTyped(r.cap, NewLine(p.history));
      ReadKeepsLine(p.history, r.cap, NewLine(p.history), r.keys);
    }
  }

  predicate AllShort(lines: seq<string>) { forall i :: 0 <= i < |lines| ==> |lines[i]| < LINE_MAX }

  lemma {:induction false} ReturnedLinesAreShort(visits: seq<Visit>)
    requires forall i :: 0 <= i < |visits| ==> visits[i].cap <= 128
    ensures AllShort(Run(visits).lines)
    decreases |visits|
  {
    if visits != [] {
      hide After;
      ReturnedLinesAreShort(visits[..|visits| - 1]);
      ReturnedLineFits(visits[..|visits| - 1], visits[|visits| - 1]);
    }
  }

  lemma {:induction false} DropEmptyStaysShort(lines: seq<string>)
    requires AllShort(lines)
    ensures AllShort(DropEmpty(lines))
    decreases |lines|
  {
    if lines != [] {
      DropEmptyStaysShort(lines[..|lines| - 1]);
    }
  }

  /** Over every run of reads into buffers of LINE_MAX bytes, the size all callers use, the history is the
      last eight of the submitted lines with the empty ones dropped and consecutive duplicates collapsed. */
  lemma {:induction false} HistoryIsCollapsed(visits: seq<Visit>)
    requires forall i :: 0 <= i < |visits| ==> visits[i].cap <= 128
    ensures Run(visits).history == LastN(Collapsed(DropEmpty(Run(visits).lines)), 8)
  {
    hide Run, Fresh, Collapsed, DropEmpty, LastN;
    HistoryIsTheLastLines(visits);
    ReturnedLinesAreShort(visits);
    DropEmptyStaysShort(Run(visits).lines);
    FreshIsCollapsed(DropEmpty(Run(visits).lines));
  }

  // ---- The arrows

  /** Scan codes 1 and 2 without a character. */
  function Ups(n: nat): seq<Key> { seq(n, _ => Key(1, 0)) }

  function Downs(n: nat): seq<Key> { seq(n, _ => Key(2, 0)) }

  /** Return or line feed. */
  predicate Submits(k: Key) { k.unicode == 13 || k.unicode == 10 }

  /** `n` presses of Up and Enter submit the n-th newest entry, or the oldest one when there are fewer. */
  lemma {:induction false} UpsRecall(history: seq<string>, cap: nat, e: Editing, n: nat, enter: Key)
    requires cap > 0 && e.cursor <= |history| && Submits(enter)
    ensures ReadKeys(history, cap, e, Ups(n) + [enter])
         == Entered(if n == 0 || e.cursor == 0 then e.line
                    else Clip(history[if n < e.cursor then e.cursor - n else 0], cap - 1), n + 1)
    decreases n
  {
    hide Clip;
    var keys := Ups(n) + [enter];
    if n == 0 {
      assert keys == [enter];
    } else {
      assert keys[1..] == Ups(n - 1) + [enter];
      UpsRecall(history, cap, Press(history, cap, e, keys[0]), n - 1, enter);
    }
  }

  /** `n` presses of Down and Enter submit the entry that many places on, or nothing behind the newest one; at the new
      line Down does nothing. */
  lemma {:induction false} DownsRecall(history: seq<string>, cap: nat, e: Editing, n: nat, enter: Key)
    requires cap > 0 && e.cursor <= |history| && Submits(enter)
    ensures ReadKeys(history, cap, e, Downs(n) + [enter])
         == Entered(if n == 0 || e.cursor == |history| then e.line
                    else if e.cursor + n < |history| then Clip(history[e.cursor + n], cap - 1) else "", n + 1)
    decreases n
  {
    hide Clip;
    var keys := Downs(n) + [enter];
    if n == 0 {
      assert keys == [enter];
    } else {
      assert keys[1..] == Downs(n - 1) + [enter];
      DownsRecall(history, cap, Press(history, cap, e, keys[0]), n - 1, enter);
    }
  }

  /** From the new line, `m` presses of Up and then `n` of Down submit the entry `m - n` places back. */
  lemma {:induction false} UpsThenDowns(history: seq<string>, cap: nat, e: Editing, m: nat, n: nat, enter: Key)
    requires cap > 0 && n < m <= e.cursor <= |history| && Submits(enter)
    ensures ReadKeys(history, cap, e, Ups(m) + (Downs(n) + [enter]))
         == Entered(Clip(history[e.cursor - m + n], cap - 1), m + n + 1)
    decreases m
  {
    hide Clip;
    var keys := Ups(m) + (Downs(n) + [enter]);
    var pressed := Press(history, cap, e, keys[0]);
    if m == 1 {
      assert keys[1..] == Downs(n) + [enter];
      DownsRecall(history, cap, pressed, n, enter);
    } else if n < m - 1 {
      assert keys[1..] == Ups(m - 1) + (Downs(n) + [enter]);
      UpsThenDowns(history, cap, pressed, m - 1, n, enter);
    } else {
      UpsThenMoreDowns(history, cap, pressed, m - 1, n, enter);
      assert keys[1..] == Ups(m - 1) + (Downs(n) + [enter]);
    }
  }

  /** The same from a recalled entry, with at least as many presses of Down. */
  lemma {:induction false} UpsThenMoreDowns(history: seq<string>, cap: nat, e: Editing, m: nat, n: nat, enter: Key)
    requires cap > 0 && m <= n && m <= e.cursor < |history| && e.cursor - m + n < |history| && Submits(enter)
    requires e == Recalled(history, cap, e.cursor)
    ensures ReadKeys(history, cap, e, Ups(m) + (Downs(n) + [enter]))
         == Entered(Clip(history[e.cursor - m + n], cap - 1), m + n + 1)
    decreases m
  {
    hide Clip;
    var keys := Ups(m) + (Downs(n) + [enter]);
    if m == 0 {
      assert keys == Downs(n) + [enter];
      DownsRecall(history, cap, e, n, enter);
    } else {
      assert keys[1..] == Ups(m - 1) + (Downs(n) + [enter]);
      UpsThenMoreDowns(history, cap, Press(history, cap, e, keys[0]), m - 1, n, enter);
    }
  }

  /** Backspace and Delete, in any mixture, cut as many characters off the line as it has. */
  lemma {:induction false} ErasesShorten(history: seq<string>, cap: nat, e: Editing, erases: seq<Key>, enter: Key)
    requires cap > 0 && e.cursor <= |history| && Submits(enter)
    requires forall i :: 0 <= i < |erases| ==> erases[i].unicode == 8 || erases[i].unicode == 127
    ensures ReadKeys(history, cap, e, erases + [enter])
         == Entered(e.line[..if |erases| <= |e.line| then |e.line| - |erases| else 0], |erases| + 1)
    decreases |erases|
  {
    var keys := erases + [enter];
    if erases == [] {
      assert keys == [enter] && e.line[..|e.line|] == e.line;
    } else {
      assert keys[1..] == erases[1..] + [enter];
      ErasesShorten(history, cap, Press(history, cap, e, keys[0]), erases[1..], enter);
    }
  }

  const LOWER := "abcdefghijklmnopqrstuvwxyz"
  const UPPER := "ABCDEFGHIJKLMNOPQRSTUVWXYZ"
  const OTHERS := "0123456789 -_./"

  /** The characters that can be typed, one by one. */
  lemma AlphabetExactly(c: char)
    ensures Allowed(c) <==> c in LOWER || c in UPPER || c in OTHERS
  {
    LowerLetters(c);
    UpperLetters(c);
    OtherCharacters(c);
  }

  lemma LowerLetters(c: char)
    ensures 'a' <= c <= 'z' <==> c in LOWER
  {
  }

  lemma UpperLetters(c: char)
    ensures 'A' <= c <= 'Z' <==> c in UPPER
  {
  }

  lemma OtherCharacters(c: char)
    ensures '0' <= c <= '9' || c == ' ' || c == '-' || c == '_' || c == '.' || c == '/' <==> c in OTHERS
  {
  }

  /** Any other key, and a character for which there is no room, is passed over. */
  lemma OtherKeysAreIgnored(history: seq<string>, cap: nat, e: Editing, k: Key, rest: seq<Key>)
    requires cap > 0 && e.cursor <= |history|
    requires !(k.unicode == 0 && (k.scan == 1 || k.scan == 2)) && k.unicode !in [8, 10, 13, 127]
    requires k.unicode < 128 && Allowed(k.unicode as char) ==> |e.line| + 1 >= cap
    ensures var r := ReadKeys(history, cap, e, rest);
            ReadKeys(history, cap, e, [k] + rest) == if r.Waiting? then r else r.(used := r.used + 1)
  {
    assert ([k] + rest)[1..] == rest;
  }

  function Typing(text: string): seq<Key> { seq(|text|, i requires 0 <= i < |text| => Key(0, text[i] as nat)) }

  /** A text of allowed characters that fits, typed and entered, is the line that is returned. */
  lemma {:induction false} TypingGivesTheText(history: seq<string>, cap: nat, e: Editing, text: string, enter: Key)
    requires cap > 0 && e.cursor <= |history| && Submits(enter) && AllAllowed(text) && |e.line| + |text| < cap
    ensures ReadKeys(history, cap, e, Typing(text) + [enter]) == Entered(e.line + text, |text| + 1)
    decreases |text|
  {
    var keys := Typing(text) + [enter];
    if text == "" {
      assert keys == [enter] && e.line + text == e.line;
    } else {
      TypedCharacter(history, cap, e, text[0]);
      assert keys[1..] == Typing(text[1..]) + [enter];
      assert forall c :: c in text[1..] ==> c in text;
      TypingGivesTheText(history, cap, e.(line := e.line + [text[0]]), text[1..], enter);
      assert e.line + [text[0]] + text[1..] == e.line + text;
    }
  }

  lemma TypedCharacter(history: seq<string>, cap: nat, e: Editing, c: char)
    requires cap > 0 && e.cursor <= |history| && Allowed(c) && |e.line| + 1 < cap
    ensures !IsEnter(Key(0, c as nat)) && Press(history, cap, e, Key(0, c as nat)) == e.(line := e.line + [c])
  {
  }

  /** Submitting the newest entry again leaves the history as it was, whatever else was in it. */
  lemma RecallNewestChangesNothing(p: Past, enter: Key)
    requires p.history != [] && Submits(enter)
    requires |p.history[|p.history| - 1]| < LINE_MAX
    ensures After(p, Visit(LINE_MAX, Ups(1) + [enter])).history == p.history
  {
    UpsRecall(p.history, LINE_MAX, NewLine(p.history), 1, enter);
  }

  // ---- The code

  class Console {
    const history: array<string>
    var count: nat

    ghost predicate Valid()
      reads this, history
    {
      && history.Length == HISTORY_MAX && count <= HISTORY_MAX
      && forall i :: 0 <= i < count ==> |history[i]| < LINE_MAX
    }

    ghost function Entries(): seq<string>
      requires Valid()
      reads this, history
    {
      history[..count]
    }

    constructor ()
      ensures Valid() && Entries() == [] && fresh(history)
    {
      history := new string[HISTORY_MAX](_ => "");
      count := 0;
    }

    method HistoryPush(line: string)
      requires Valid()
      modifies this`count, history
      ensures Valid() && Entries() == Pushed(old(Entries()), line)
    {
      if line == "" {
        return;
      }
      if count > 0 && history[count - 1] == line {
        return;
      }
      if count < HISTORY_MAX {
        history[count] := Clip(line, LINE_MAX - 1);
        count := count + 1;
        return;
      }
      ghost var was := history[..];
      assert old(Entries()) == was;
      var i := 1;
      while i < HISTORY_MAX
        invariant 1 <= i <= HISTORY_MAX && count == HISTORY_MAX
        invariant forall j :: 0 <= j < i - 1 ==> history[j] == Clip(was[j + 1], LINE_MAX - 1)
        invariant forall j :: i - 1 <= j < HISTORY_MAX ==> history[j] == was[j]
      {
        history[i - 1] := Clip(history[i], LINE_MAX - 1);
        i := i + 1;
      }
      history[HISTORY_MAX - 1] := Clip(line, LINE_MAX - 1);
      assert Entries() == was[1..] + [Clip(line, LINE_MAX - 1)];
    }

    method CopyText(output: array<char>, text: string) returns (len: nat)
      requires output.Length > 0
      modifies output
      ensures len < output.Length && output[..len] == Clip(text, output.Length - 1)
    {
      len := 0;
      while len < |text| && len + 1 < output.Length
        invariant len <= |text| && len < output.Length && output[..len] == text[..len]
      {
        output[len] := text[len];
        len := len + 1;
      }
    }

    /** One key other than Enter. */
    method PressKey(output: array<char>, n: nat, at: nat, k: Key) returns (len: nat, cursor: nat)
      requires Valid() && n < output.Length && at <= count
      modifies output
      ensures len < output.Length && cursor <= count
      ensures Editing(output[..len], cursor)
           == Press(Entries(), output.Length, Editing(old(output[..n]), at), k)
    {
      hide Clip;
      len, cursor := n, at;
      if IsUp(k) {
        if count > 0 && cursor > 0 {
          cursor := cursor - 1;
          len := CopyText(output, history[cursor]);
        }
      } else if IsDown(k) {
        if cursor < count {
          cursor := cursor + 1;
          if cursor == count {
            len := 0;
          } else {
            len := CopyText(output, history[cursor]);
          }
        }
      } else if IsErase(k) {
        if len > 0 {
          len := len - 1;
        }
      } else if k.unicode < 128 {
        var c := k.unicode as char;
        if Allowed(c) && len + 1 < output.Length {
          output[len] := c;
          len := len + 1;
        }
      }
    }

    /** Reads one line into `output`; `ok` is false when there is no room at all or the keys run out. */
    method ReadLine(output: array<char>, keys: seq<Key>) returns (ok: bool, len: nat, used: nat)
      requires Valid()
      modifies this`count, history, output
      ensures Valid() && len <= output.Length && used <= |keys|
      ensures ok ==> (output.Length > 0
           && ReadKeys(old(Entries()), output.Length, NewLine(old(Entries())), keys) == Entered(output[..len], used)
           && Entries() == Pushed(old(Entries()), output[..len]))
      ensures !ok ==> (Entries() == old(Entries())
           && (output.Length > 0 ==>
                 ReadKeys(old(Entries()), output.Length, NewLine(old(Entries())), keys).Waiting?))
    {
      hide Pushed, Clip, Press;
      ok, len, used := false, 0, 0;
      if output.Length == 0 {
        return;
      }
      var cap := output.Length;
      var cursor: nat := count;
      ghost var entries := Entries();
      assert output[..0] == "";
      while used < |keys|
        invariant used <= |keys| && len < cap && cursor <= count && !ok
        invariant Valid() && Entries() == entries && |entries| == count
        invariant ReadKeys(entries, cap, NewLine(entries), keys)
               == Later(ReadKeys(entries, cap, Editing(output[..len], cursor), keys[used..]), used)
      {
        var k := keys[used];
        assert keys[used..][0] == k && keys[used..][1..] == keys[used + 1..];
        used := used + 1;
        if IsEnter(k) {
          HistoryPush(output[..len]);
          ok := true;
          return;
        }
        len, cursor := PressKey(output, len, cursor, k);
      }
      assert keys[used..] == [];
    }
  }

  /** The same reading after `n` more keys. */
  function Later(r: Reading, n: nat): Reading {
    match r case Waiting(e) => Waiting(e) case Entered(line, used) => Entered(line, used + n)
  }
}
