/** C strings as the model sees them: the characters before the terminating NUL. */
module CText {

  datatype Option<T> = None | Some(value: T)

  /** What a copy into a buffer with room for `n` characters and a NUL keeps. */
  function Clip(s: string, n: nat): (r: string)
    ensures |r| <= n && r <= s
    ensures |s| <= n ==> r == s
  {
    if |s| <= n then s else s[..n]
  }

  lemma ClipAppend(a: string, b: string, n: nat)
    ensures Clip(Clip(a, n) + b, n) == Clip(a + b, n)
  {
  }

  // ---- Decimal numbers

  function Digit(n: nat): char
    requires n < 10
  {
    '0' + n as char
  }

  function Decimal(n: nat): (s: string)
    ensures s != [] && forall c :: c in s ==> '0' <= c <= '9'
  {
    if n < 10 then [Digit(n)] else Decimal(n / 10) + [Digit(n % 10)]
  }

  function DecimalValue(s: string): int {
    if s == [] then 0 else 10 * DecimalValue(s[..|s| - 1]) + (s[|s| - 1] as int - '0' as int)
  }

  lemma {:induction false} DecimalRoundTrip(n: nat)
    ensures DecimalValue(Decimal(n)) == n
  {
    if n >= 10 {
      DecimalRoundTrip(n / 10);
      assert Decimal(n)[..|Decimal(n)| - 1] == Decimal(n / 10);
    } else {
      assert DecimalValue([Digit(n)][..0]) == 0;
    }
  }

  lemma DecimalInjective(m: nat, n: nat)
    requires Decimal(m) == Decimal(n)
    ensures m == n
  {
    DecimalRoundTrip(m);
    DecimalRoundTrip(n);
  }

  // ---- Splitting at a separator

  lemma SplitAtFirst(a: string, x: string, b: string, y: string, c: char)
    requires c !in a && c !in b
    requires a + [c] + x == b + [c] + y
    ensures a == b && x == y
  {
    var s := a + [c] + x;
    assert s[|a|] == c && s[|b|] == c;
    assert forall k :: 0 <= k < |a| ==> s[k] == a[k];
    assert forall k :: 0 <= k < |b| ==> s[k] == b[k];
    assert |a| == |b|;
    assert a == s[..|a|] && b == s[..|b|] && x == s[|a| + 1..] && y == s[|b| + 1..];
  }

  lemma SplitAtLast(x: string, a: string, y: string, b: string, c: char)
    requires c !in a && c !in b
    requires x + [c] + a == y + [c] + b
    ensures a == b && x == y
  {
    var s := x + [c] + a;
    assert s[|x|] == c && s[|y|] == c;
    assert forall k :: |x| < k < |s| ==> s[k] == a[k - |x| - 1];
    assert forall k :: |y| < k < |s| ==> s[k] == b[k - |y| - 1];
    assert |x| == |y|;
    assert x == s[..|x|] && y == s[..|y|] && a == s[|x| + 1..] && b == s[|y| + 1..];
  }

  /** The pieces of a text between the separators. */
  function Components(s: string, sep: char): (r: seq<string>)
    ensures r != []
  {
    if s == "" then [""]
    else
      var front, c := Components(s[..|s| - 1], sep), s[|s| - 1];
      if c == sep then front + [""] else front[..|front| - 1] + [front[|front| - 1] + [c]]
  }

  lemma ComponentsSnoc(s: string, c: char, sep: char)
    ensures var front := Components(s, sep);
            Components(s + [c], sep)
              == if c == sep then front + [""] else front[..|front| - 1] + [front[|front| - 1] + [c]]
  {
    assert (s + [c])[..|s|] == s;
  }

  lemma ComponentsOfNothing(sep: char)
    ensures Components("", sep) == [""]
  {
  }

  lemma JoinStep(x: seq<string>, y: seq<string>, c: char)
    requires y != []
    ensures (x + y)[..|x + y| - 1] + [(x + y)[|x + y| - 1] + [c]] == x + (y[..|y| - 1] + [y[|y| - 1] + [c]])
    ensures (x + y) + [""] == x + (y + [""])
  {
  }

  lemma {:induction false} ComponentsOfJoin(a: string, b: string, sep: char)
    ensures Components(a + [sep] + b, sep) == Components(a, sep) + Components(b, sep)
    decreases |b|
  {
    hide Components;
    if b == "" {
      assert a + [sep] + b == a + [sep];
      ComponentsSnoc(a, sep, sep);
      ComponentsOfNothing(sep);
    } else {
      var front, c := b[..|b| - 1], b[|b| - 1];
      assert b == front + [c];
      ComponentsOfJoin(a, front, sep);
      ComponentsSnoc(front, c, sep);
      ComponentsSnoc(a + [sep] + front, c, sep);
      assert a + [sep] + b == (a + [sep] + front) + [c];
      JoinStep(Components(a, sep), Components(front, sep), c);
    }
  }

  lemma LettersAlone(s: string, sep: char)
    requires sep !in s
    ensures Components(s, sep) == [s]
  {
    hide Components;
    if s == "" {
      ComponentsOfNothing(sep);
    } else {
      var front, c := s[..|s| - 1], s[|s| - 1];
      LettersAlone(front, sep);
      ComponentsSnoc(front, c, sep);
      assert front + [c] == s;
      assert [front][..0] + [s] == [s];
    }
  }

  function JoinedBy(parts: seq<string>, sep: char): string {
    if parts == [] then ""
    else if |parts| == 1 then parts[0]
    else JoinedBy(parts[..|parts| - 1], sep) + [sep] + parts[|parts| - 1]
  }

  lemma JoinedSnoc(parts: seq<string>, last: string, c: char, sep: char)
    ensures JoinedBy(parts + [last + [c]], sep) == JoinedBy(parts + [last], sep) + [c]
    ensures JoinedBy(parts + [last] + [""], sep) == JoinedBy(parts + [last], sep) + [sep]
  {
    assert (parts + [last + [c]])[..|parts|] == parts && (parts + [last])[..|parts|] == parts;
    assert (parts + [last] + [""])[..|parts| + 1] == parts + [last];
  }

  /** Joining the pieces gives the text back. */
  lemma {:induction false} ComponentsJoin(s: string, sep: char)
    ensures JoinedBy(Components(s, sep), sep) == s
    decreases |s|
  {
    hide Components, JoinedBy;
    if s == "" {
      ComponentsOfNothing(sep);
      JoinedOne("", sep);
    } else {
      var front, c := s[..|s| - 1], s[|s| - 1];
      ComponentsJoin(front, sep);
      ComponentsSnoc(front, c, sep);
      assert s == front + [c];
      var parts := Components(front, sep);
      var n := |parts| - 1;
      assert parts == parts[..n] + [parts[n]];
      JoinedSnoc(parts[..n], parts[n], c, sep);
    }
  }

  lemma JoinedOne(s: string, sep: char)
    ensures JoinedBy([s], sep) == s
  {
  }

  /** Texts with the same pieces are the same. */
  lemma ComponentsInjective(s: string, t: string, sep: char)
    requires Components(s, sep) == Components(t, sep)
    ensures s == t
  {
    ComponentsJoin(s, sep);
    ComponentsJoin(t, sep);
  }

  /** Pieces that hold no separator are found again in the text they are joined to. */
  lemma {:induction false} ComponentsOfJoined(parts: seq<string>, sep: char)
    requires parts != [] && forall i :: 0 <= i < |parts| ==> sep !in parts[i]
    ensures Components(JoinedBy(parts, sep), sep) == parts
    decreases |parts|
  {
    hide Components;
    var n := |parts| - 1;
    LettersAlone(parts[n], sep);
    if n > 0 {
      ComponentsOfJoined(parts[..n], sep);
      ComponentsOfJoin(JoinedBy(parts[..n], sep), parts[n], sep);
      assert parts[..n] + [parts[n]] == parts;
    }
  }

  // ---- Reading on

  /** The characters before the first `c`. */
  function Until(s: string, c: char): string {
    if s == "" || s[0] == c then "" else [s[0]] + Until(s[1..], c)
  }

  lemma {:induction false} UntilStops(a: string, c: char, rest: string)
    requires c !in a
    ensures Until(a + [c] + rest, c) == a
  {
    var s := a + [c] + rest;
    if a != "" {
      UntilStops(a[1..], c, rest);
      assert s[1..] == a[1..] + [c] + rest;
      assert a == [a[0]] + a[1..];
    }
  }

  function Rest(s: string, n: nat): string { if n <= |s| then s[n..] else "" }

  // ---- Products

  lemma Ordered(a: int, b: int, d: nat)
    ensures a <= b ==> a * d <= b * d
  {
    if a <= b {
      assert (b - a) * d >= 0;
    }
  }

  lemma OneMore(n: int, d: int)
    ensures (n + 1) * d == n * d + d
  {
  }

  lemma SmallMultiple(m: int, t: int, d: int)
    requires m * t == d && -m < d < m
    ensures t == 0 && d == 0
  {
    MultipleBound(m, t);
  }

  lemma MultipleBound(m: int, t: int)
    requires m > 0
    ensures (t >= 1 ==> m * t >= m) && (t <= -1 ==> m * t <= -m)
  {
    if t >= 1 {
      assert m * (t - 1) >= 0;
    } else if t <= -1 {
      assert m * (-1 - t) >= 0;
    }
  }
}
