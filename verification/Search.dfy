/** Substring search as the transcript and the journal code it, and why searching a body of JSON lines for
    `"key":"value"` finds fields and nothing else. */
module Search {
  import opened CText
  import opened JsonText
  import opened JsonLines

  predicate OccursAt(s: string, t: string, i: int) {
    0 <= i <= i + |t| <= |s| && s[i..i + |t|] == t
  }

  ghost predicate Occurs(s: string, t: string) {
    exists i :: OccursAt(s, t, i)
  }

  method Contains(haystack: string, needle: string) returns (found: bool)
    ensures found <==> needle != "" && Occurs(haystack, needle)
  {
    if needle == "" {
      return false;
    }
    var i := 0;
    while i < |haystack|
      invariant i <= |haystack|
      invariant forall k :: 0 <= k < i ==> !OccursAt(haystack, needle, k)
    {
      var j := 0;
      while j < |needle| && i + j < |haystack| && haystack[i + j] == needle[j]
        invariant j <= |needle| && i + j <= |haystack|
        invariant haystack[i..i + j] == needle[..j]
      {
        j := j + 1;
        assert haystack[i..i + j] == haystack[i..i + j - 1] + [needle[j - 1]];
      }
      if j == |needle| {
        assert OccursAt(haystack, needle, i);
        return true;
      }
      Mismatch(haystack, needle, i, j);
      i := i + 1;
    }
    return false;
  }

  lemma Mismatch(s: string, t: string, i: nat, j: nat)
    requires j < |t| && (i + j < |s| ==> s[i + j] != t[j])
    ensures !OccursAt(s, t, i)
  {
    assert i + |t| <= |s| ==> s[i..i + |t|][j] != t[j];
  }

  // ---- The pieces between quotes

  function Pieces(s: string): (ps: seq<string>)
    ensures ps != []
  {
    if s == "" then [""]
    else if s[0] == '"' then [""] + Pieces(s[1..])
    else
      var ps := Pieces(s[1..]);
      [[s[0]] + ps[0]] + ps[1..]
  }

  function Join(ps: seq<string>): string
    requires ps != []
  {
    if |ps| == 1 then ps[0] else ps[0] + "\"" + Join(ps[1..])
  }

  /** `Pieces` one character at a time. */
  function Prepend(c: char, ps: seq<string>): seq<string>
    requires ps != []
  {
    if c == '"' then [""] + ps else [[c] + ps[0]] + ps[1..]
  }

  lemma PiecesStep(s: string)
    requires s != ""
    ensures Pieces(s) == Prepend(s[0], Pieces(s[1..]))
  {
  }

  lemma JoinStep(ps: seq<string>)
    requires |ps| > 1
    ensures Join(ps) == ps[0] + "\"" + Join(ps[1..])
  {
  }

  lemma JoinPrepend(c: char, ps: seq<string>)
    requires ps != []
    ensures Join(Prepend(c, ps)) == [c] + Join(ps)
  {
    hide Join;
    var qs := Prepend(c, ps);
    if c == '"' {
      JoinStep(qs);
      assert qs[1..] == ps;
    } else if |ps| > 1 {
      JoinStep(ps);
      JoinStep(qs);
      assert qs[1..] == ps[1..];
      assert [c] + (ps[0] + "\"" + Join(ps[1..])) == ([c] + ps[0]) + "\"" + Join(ps[1..]);
    } else {
      JoinOne(ps);
      JoinOne(qs);
    }
  }

  lemma JoinOne(ps: seq<string>)
    requires |ps| == 1
    ensures Join(ps) == ps[0]
  {
  }

  lemma {:induction false} JoinPieces(s: string)
    ensures Join(Pieces(s)) == s
  {
    hide Join;
    if s == "" {
      JoinOne(Pieces(s));
    } else {
      hide Pieces;
      JoinPieces(s[1..]);
      PiecesStep(s);
      JoinPrepend(s[0], Pieces(s[1..]));
      assert s == [s[0]] + s[1..];
    }
  }

  lemma PiecesEmpty()
    ensures Pieces("") == [""]
  {
  }

  lemma PrependConcat(c: char, xs: seq<string>, ys: seq<string>)
    requires xs != []
    ensures Prepend(c, xs + ys) == Prepend(c, xs) + ys
  {
  }

  lemma {:induction false} PiecesAtQuote(a: string, b: string)
    ensures Pieces(a + "\"" + b) == Pieces(a) + Pieces(b)
  {
    hide Pieces, Prepend;
    var s := a + "\"" + b;
    PiecesStep(s);
    if a == "" {
      PiecesEmpty();
      assert s[1..] == b;
      PrependQuote(Pieces(b));
    } else {
      PiecesAtQuote(a[1..], b);
      assert s[1..] == a[1..] + "\"" + b;
      PiecesStep(a);
      PrependConcat(a[0], Pieces(a[1..]), Pieces(b));
    }
  }

  lemma PrependQuote(ps: seq<string>)
    requires ps != []
    ensures Prepend('"', ps) == [""] + ps
  {
  }

  function AppendLast(ps: seq<string>, t: string): seq<string>
    requires ps != []
  {
    ps[..|ps| - 1] + [ps[|ps| - 1] + t]
  }

  lemma PrependAppendLast(c: char, ps: seq<string>, t: string)
    requires ps != []
    ensures Prepend(c, AppendLast(ps, t)) == AppendLast(Prepend(c, ps), t)
  {
    if c != '"' && |ps| == 1 {
      assert [c] + (ps[0] + t) == ([c] + ps[0]) + t;
    }
  }

  lemma {:induction false} PiecesUnquoted(s: string, t: string)
    requires '"' !in t
    ensures Pieces(s + t) == AppendLast(Pieces(s), t)
  {
    hide Pieces, Prepend;
    if s == "" {
      NoQuoteOnePiece(t);
      PiecesEmpty();
      assert s + t == t;
      assert "" + t == t;
    } else {
      PiecesUnquoted(s[1..], t);
      assert (s + t)[1..] == s[1..] + t;
      PiecesStep(s + t);
      PiecesStep(s);
      PrependAppendLast(s[0], Pieces(s[1..]), t);
    }
  }

  lemma {:induction false} NoQuoteOnePiece(t: string)
    requires '"' !in t
    ensures Pieces(t) == [t]
  {
    if t != "" {
      NoQuoteOnePiece(t[1..]);
      assert t == [t[0]] + t[1..];
    }
  }

  lemma {:induction false} JoinAppend(xs: seq<string>, ys: seq<string>)
    requires xs != [] && ys != []
    ensures Join(xs + ys) == Join(xs) + "\"" + Join(ys)
  {
    if |xs| == 1 {
      assert (xs + ys)[1..] == ys;
    } else {
      JoinAppend(xs[1..], ys);
      assert (xs + ys)[1..] == xs[1..] + ys;
      assert xs[0] + "\"" + (Join(xs[1..]) + "\"" + Join(ys)) == (xs[0] + "\"" + Join(xs[1..])) + "\"" + Join(ys);
    }
  }

  // ---- An occurrence is three pieces in a row

  function Needle(key: string, value: string): string { "\"" + key + "\":\"" + value + "\"" }

  predicate PairAt(ps: seq<string>, i: int, key: string, value: string) {
    1 <= i && i + 2 < |ps| && ps[i] == key && ps[i + 1] == ":" && ps[i + 2] == value
  }

  ghost predicate HasPair(ps: seq<string>, key: string, value: string) {
    exists i :: PairAt(ps, i, key, value)
  }

  lemma NeedlePieces(a: string, key: string, value: string, b: string)
    requires '"' !in key && '"' !in value
    ensures Pieces(a + Needle(key, value) + b) == Pieces(a) + [key, ":", value] + Pieces(b)
  {
    hide Pieces;
    var r3 := value + "\"" + b;
    var r2 := ":" + "\"" + r3;
    var r1 := key + "\"" + r2;
    assert a + Needle(key, value) + b == a + "\"" + r1;
    PiecesAtQuote(a, r1);
    PiecesAtQuote(key, r2);
    PiecesAtQuote(":", r3);
    PiecesAtQuote(value, b);
    NoQuoteOnePiece(key);
    NoQuoteOnePiece(":");
    NoQuoteOnePiece(value);
  }

  /** The search finds the needle exactly where a quoted key, a bare colon and a quoted value follow each
      other, with another quote after them. */
  lemma OccursIffPair(s: string, key: string, value: string)
    requires '"' !in key && '"' !in value
    ensures Occurs(s, Needle(key, value))
      <==> exists i :: PairAt(Pieces(s), i, key, value) && i + 3 < |Pieces(s)|
  {
    var n, ps := Needle(key, value), Pieces(s);
    if Occurs(s, n) {
      var i :| OccursAt(s, n, i);
      var a, b := s[..i], s[i + |n|..];
      assert s == a + n + b;
      NeedlePieces(a, key, value, b);
      assert PairAt(ps, |Pieces(a)|, key, value);
    }
    if exists i :: PairAt(ps, i, key, value) && i + 3 < |ps| {
      var i :| PairAt(ps, i, key, value) && i + 3 < |ps|;
      PairOccurs(s, i, key, value);
    }
  }

  lemma PairOccurs(s: string, i: int, key: string, value: string)
    requires PairAt(Pieces(s), i, key, value) && i + 3 < |Pieces(s)|
    ensures Occurs(s, Needle(key, value))
  {
    hide Pieces, Join;
    var ps := Pieces(s);
    var xs, ys := ps[..i], ps[i + 3..];
    var mid := [key, ":", value];
    assert ps == xs + (mid + ys);
    JoinAppend(xs, mid + ys);
    JoinAppend(mid, ys);
    JoinThree(key, ":", value);
    JoinPieces(s);
    Regroup(Join(xs), key, value, Join(ys));
    assert s == Join(xs) + Needle(key, value) + Join(ys);
    assert OccursAt(s, Needle(key, value), |Join(xs)|);
  }

  lemma JoinThree(a: string, b: string, c: string)
    ensures Join([a, b, c]) == a + "\"" + (b + "\"" + c)
  {
    hide Join;
    JoinStep([a, b, c]);
    JoinStep([b, c]);
    JoinOne([c]);
    assert [a, b, c][1..] == [b, c] && [b, c][1..] == [c];
  }

  lemma Regroup(x: string, key: string, value: string, y: string)
    ensures x + "\"" + (key + "\"" + (":" + "\"" + value) + "\"" + y) == x + Needle(key, value) + y
  {
  }

  // ---- Pieces of a line

  /** Encoded content shows every quote behind a backslash, so only its last piece can be a word. */
  lemma {:induction false} EncodedPieces(content: string, text: string, j: nat)
    requires Encodes(content, text) && j + 1 < |Pieces(content)|
    ensures var p := Pieces(content)[j]; p != "" && p[|p| - 1] == '\\'
    decreases |content|
  {
    if content != "" {
      hide Pieces;
      EncodedHead(content, text);
      PiecesStep(content);
      if content[0] == '\\' {
        PiecesStep(content[1..]);
        assert content[1..][1..] == content[2..];
        var ps := Pieces(content[2..]);
        var rest := ScanString(content[2..] + "\"").value.value;
        if content[1] == '"' {
          if j > 0 { EncodedPieces(content[2..], rest, j - 1); }
        } else {
          EncodedPieces(content[2..], rest, j);
        }
      } else {
        EncodedPieces(content[1..], ScanString(content[1..] + "\"").value.value, j);
      }
    }
  }

  lemma EncodedHead(content: string, text: string)
    requires Encodes(content, text) && content != ""
    ensures content[0] != '"'
    ensures content[0] == '\\' ==>
      (|content| >= 2 && ScanString(content[2..] + "\"").Some?
       && Encodes(content[2..], ScanString(content[2..] + "\"").value.value))
    ensures content[0] != '\\' ==>
      (ScanString(content[1..] + "\"").Some?
       && Encodes(content[1..], ScanString(content[1..] + "\"").value.value))
  {
    var s := content + "\"";
    assert s[1..] == content[1..] + "\"";
    LoneBackslash();
    assert content == "\\" ==> s == "\\\"";
    if |content| >= 2 {
      assert s[2..] == content[2..] + "\"";
    } else {
      assert content == [content[0]];
    }
  }

  lemma LoneBackslash()
    ensures ScanString("\\\"").None?
  {
    assert "\\\""[2..] == "";
  }
}
