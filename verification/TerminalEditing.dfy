/** Backspaces on the terminal: what they take back, what they cannot reach, and exactly when a stream with backspaces
    leaves the same text as its edited form. */
module TerminalEditing {
  import opened CText
  import opened NeonTerminal

  const BACKSPACE: char := '\U{08}'

  function Backspaces(k: nat): string { seq(k, _ => '\U{08}') }

  /** Characters that stand for themselves. */
  predicate Visible(s: string) {
    forall i :: 0 <= i < |s| ==> s[i] != '\r' && s[i] != '\0' && s[i] != '\n' && s[i] != BACKSPACE
  }

  lemma {:induction false} TypeAllJoined(t: Text, a: string, b: string, columns: nat)
    ensures TypeAll(t, a + b, columns) == TypeAll(TypeAll(t, a, columns), b, columns)
    decreases |b|
  {
    hide Type;
    if b == "" {
      assert a + b == a;
    } else {
      var n := |b| - 1;
      TypeAllJoined(t, a, b[..n], columns);
      assert (a + b)[..|a + b| - 1] == a + b[..n];
    }
  }

  lemma {:induction false} TypedOnTheLine(t: Text, x: string, columns: nat)
    requires Visible(x) && |t.current| + |x| <= columns
    ensures TypeAll(t, x, columns) == t.(current := t.current + x)
    decreases |x|
  {
    if x == "" {
      assert t.current + x == t.current;
    } else {
      var n := |x| - 1;
      TypedOnTheLine(t, x[..n], columns);
      assert t.current + x[..n] + [x[n]] == t.current + x;
    }
  }

  /** Backspaces shorten the current line by as many characters as it has, and change nothing else. */
  lemma {:induction false} BackspacesErase(t: Text, k: nat, columns: nat)
    ensures TypeAll(t, Backspaces(k), columns)
         == t.(current := t.current[..if k <= |t.current| then |t.current| - k else 0])
  {
    if k == 0 {
      assert t.current[..|t.current|] == t.current;
    } else {
      BackspacesErase(t, k - 1, columns);
      assert Backspaces(k)[..k - 1] == Backspaces(k - 1);
    }
  }

  /** Text typed where it fits on the line, and as many backspaces, leave what was there. */
  lemma BackspacesUndo(t: Text, x: string, columns: nat)
    requires Visible(x) && |t.current| + |x| <= columns
    ensures TypeAll(t, x + Backspaces(|x|), columns) == t
  {
    TypeAllJoined(t, x, Backspaces(|x|), columns);
    TypedOnTheLine(t, x, columns);
    BackspacesErase(t.(current := t.current + x), |x|, columns);
    assert (t.current + x)[..|t.current|] == t.current;
  }

  /** A completed line stays as it is, whatever is written after it. */
  lemma {:induction false} CompletedLinesStay(t: Text, s: string, columns: nat)
    ensures t.done <= TypeAll(t, s, columns).done
    decreases |s|
  {
    if s != "" {
      CompletedLinesStay(t, s[..|s| - 1], columns);
    }
  }

  // ---- The edited stream

  /** The stream with every backspace carried out, up to the beginning of its line. */
  function Edited(s: string): string {
    if s == "" then ""
    else
      var e, c := Edited(s[..|s| - 1]), s[|s| - 1];
      if c == '\r' || c == '\0' then e
      else if c != BACKSPACE then e + [c]
      else if e == "" || e[|e| - 1] == '\n' then e
      else e[..|e| - 1]
  }

  /** What stands behind the last line feed. */
  function LastLine(e: string): string {
    if e == "" || e[|e| - 1] == '\n' then "" else LastLine(e[..|e| - 1]) + [e[|e| - 1]]
  }

  /** The last character is the first of a wrapped piece: erasing it would mean going back over the wrap. */
  predicate BehindWrap(e: string, columns: nat)
    requires columns > 0
  {
    var n := |LastLine(e)|;
    n > columns && (n - 1) % columns == 0
  }

  predicate CrossesNoWrap(s: string, columns: nat)
    requires columns > 0
  {
    s == ""
    || (CrossesNoWrap(s[..|s| - 1], columns)
        && (s[|s| - 1] == BACKSPACE ==> !BehindWrap(Edited(s[..|s| - 1]), columns)))
  }

  predicate Clean(e: string) { forall i :: 0 <= i < |e| ==> e[i] != '\r' && e[i] != '\0' && e[i] != BACKSPACE }

  lemma {:induction false} EditedIsClean(s: string)
    ensures Clean(Edited(s))
  {
    if s != "" {
      EditedIsClean(s[..|s| - 1]);
    }
  }

  lemma NextLength(n: nat, columns: nat)
    requires columns > 0 && n > 0
    ensures (n - 1) % columns + 1 == columns <==> n % columns == 0
    ensures n % columns != 0 ==> n % columns == (n - 1) % columns + 1
  {
    var q, r := (n - 1) / columns, (n - 1) % columns;
    assert n == columns * q + (r + 1);
    if r + 1 < columns {
      RemainderIs(n, columns, q, r + 1);
    } else {
      assert n == columns * (q + 1);
      RemainderIs(n, columns, q + 1, 0);
    }
  }

  lemma RemainderIs(n: nat, d: nat, q: nat, r: nat)
    requires d > 0 && n == d * q + r && r < d
    ensures n % d == r
  {
    SmallMultiple(d, n / d - q, r - n % d);
  }

  /** What a line of `n` characters leaves over after whole pieces. */
  function Left(n: nat, columns: nat): nat
    requires columns > 0
  {
    if n == 0 then 0 else (n - 1) % columns + 1
  }

  lemma OneMoreCharacter(n: nat, columns: nat)
    requires columns > 0
    ensures Left(n + 1, columns) == if Left(n, columns) >= columns then 1 else Left(n, columns) + 1
  {
    if n > 0 {
      NextLength(n, columns);
    } else {
      SmallRemainder(0, columns);
    }
  }

  lemma {:induction false} CurrentLength(e: string, columns: nat)
    requires columns > 0 && Clean(e)
    ensures |TypeAll(Blank, e, columns).current| == Left(|LastLine(e)|, columns)
    decreases |e|
  {
    hide Left;
    if e == "" {
      NothingLeft(columns);
    } else {
      var front, c := e[..|e| - 1], e[|e| - 1];
      CurrentLength(front, columns);
      if c == '\n' { NothingLeft(columns); } else { OneMoreCharacter(|LastLine(front)|, columns); }
    }
  }

  lemma NothingLeft(columns: nat)
    requires columns > 0
    ensures Left(0, columns) == 0
  {
  }

  /** One backspace against the edited text: the terminal agrees exactly when the erased character does not stand
      behind a wrap. */
  lemma ErasedExactly(e: string, columns: nat)
    requires columns > 0 && Clean(e)
    ensures Type(TypeAll(Blank, e, columns), BACKSPACE, columns)
         == TypeAll(Blank, if e == "" || e[|e| - 1] == '\n' then e else e[..|e| - 1], columns)
      <==> !BehindWrap(e, columns)
  {
    CurrentLength(e, columns);
    if e != "" && e[|e| - 1] != '\n' {
      var front, c := e[..|e| - 1], e[|e| - 1];
      CurrentLength(front, columns);
      var n, t := |LastLine(front)|, TypeAll(Blank, front, columns);
      if n > 0 { NextLength(n, columns); }
      if |t.current| < columns {
        assert (t.current + [c])[..|t.current|] == t.current;
      } else {
        assert n % columns == 0 && n >= columns by { if n < columns { SmallRemainder(n, columns); } }
      }
    }
  }

  lemma SmallRemainder(n: nat, d: nat)
    requires n < d
    ensures n % d == n
  {
  }

  /** A stream whose backspaces cross no wrap leaves the text of its edited form, and so its wrapped lines. */
  lemma {:induction false} EditedTypesTheSame(s: string, columns: nat)
    requires columns > 0 && CrossesNoWrap(s, columns)
    ensures TypeAll(Blank, s, columns) == TypeAll(Blank, Edited(s), columns)
    decreases |s|
  {
    if s != "" {
      hide Type, BehindWrap;
      var front, c := s[..|s| - 1], s[|s| - 1];
      EditedTypesTheSame(front, columns);
      EditedIsClean(front);
      if c == '\r' || c == '\0' {
        TypeNothing(TypeAll(Blank, front, columns), c, columns);
      } else if c == BACKSPACE {
        ErasedExactly(Edited(front), columns);
      } else {
        assert (Edited(front) + [c])[..|Edited(front)|] == Edited(front);
      }
    }
  }

  /** Where the next backspace would cross a wrap, it is the first that the edited form does not account for. */
  lemma CrossingShows(s: string, columns: nat)
    requires columns > 0 && CrossesNoWrap(s, columns)
    ensures TypeAll(Blank, s + [BACKSPACE], columns) == TypeAll(Blank, Edited(s + [BACKSPACE]), columns)
      <==> CrossesNoWrap(s + [BACKSPACE], columns)
  {
    hide Type, BehindWrap;
    EditedTypesTheSame(s, columns);
    EditedIsClean(s);
    ErasedExactly(Edited(s), columns);
    assert (s + [BACKSPACE])[..|s|] == s;
  }

  /** So the terminal shows the edited stream's lines, each wrapped. */
  lemma EditedTextIsWrapped(s: string, columns: nat)
    requires columns > 0 && CrossesNoWrap(s, columns)
    ensures WrapLines(InputLines(Edited(s)), columns) != []
    ensures TypeAll(Blank, s, columns) == Split(WrapLines(InputLines(Edited(s)), columns))
  {
    hide WrapLines, InputLines, Edited, CrossesNoWrap, TypeAll;
    EditedIsClean(s);
    EditedTypesTheSame(s, columns);
    TypedTextIsWrapped(Edited(s), columns);
  }
}
