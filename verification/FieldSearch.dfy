/** Searching a body of JSON lines for `"key":"value"`: it is found exactly when some line has that field. */
module FieldSearch {
  import opened CText
  import opened JsonText
  import opened JsonLines
  import opened Search

  /** Some quoted field has this key, and its content up to a first quote is this value. */
  ghost predicate HasField(fs: seq<Field>, key: string, value: string) {
    exists j :: FieldAt(fs, j, key, value)
  }

  predicate FieldAt(fs: seq<Field>, j: int, key: string, value: string) {
    0 <= j < |fs| && fs[j].quoted && fs[j].key == key && Pieces(fs[j].content)[0] == value
  }

  /** The pieces of an opened line once its last value has been closed and a comma follows. */
  function Closed(ps: seq<string>, f: Field): seq<string>
    requires ps != []
  {
    if f.quoted then ps + [","] else AppendLast(ps, ",")
  }

  /** The pieces that the value of a field adds after its key. */
  function ValuePieces(g: Field): seq<string> {
    if g.quoted then [":"] + Pieces(g.content) else [":" + g.content]
  }

  lemma OpenedPieces(fs: seq<Field>, g: Field)
    requires fs != [] && WellFormed(g)
    ensures Pieces(Opened(fs + [g])) == Closed(Pieces(Opened(fs)), fs[|fs| - 1]) + [g.key] + ValuePieces(g)
  {
    hide Opened, Pieces, Encodes;
    var f, o := fs[|fs| - 1], Opened(fs);
    OpenedAppend(fs, g);
    KeyAndValuePieces(g);
    var r := g.key + "\":" + Quote(g) + g.content;
    if f.quoted {
      assert o + Between(f, g) + g.content == o + "\"" + ("," + "\"" + r);
      PiecesAtQuote(o, "," + "\"" + r);
      PiecesAtQuote(",", r);
      NoQuoteOnePiece(",");
      assert Pieces(o) + ([","] + ([g.key] + ValuePieces(g))) == Pieces(o) + [","] + [g.key] + ValuePieces(g);
    } else {
      assert o + Between(f, g) + g.content == (o + ",") + "\"" + r;
      PiecesAtQuote(o + ",", r);
      PiecesUnquoted(o, ",");
      assert AppendLast(Pieces(o), ",") + ([g.key] + ValuePieces(g))
          == AppendLast(Pieces(o), ",") + [g.key] + ValuePieces(g);
    }
  }

  lemma KeyAndValuePieces(g: Field)
    requires WellFormed(g)
    ensures Pieces(g.key + "\":" + Quote(g) + g.content) == [g.key] + ValuePieces(g)
  {
    hide Pieces, Encodes;
    WordHasNoQuote(g.key);
    NoQuoteOnePiece(g.key);
    if g.quoted {
      assert g.key + "\":" + Quote(g) + g.content == g.key + "\"" + (":" + "\"" + g.content);
      PiecesAtQuote(g.key, ":" + "\"" + g.content);
      PiecesAtQuote(":", g.content);
      NoQuoteOnePiece(":");
    } else {
      assert g.key + "\":" + Quote(g) + g.content == g.key + "\"" + (":" + g.content);
      PiecesAtQuote(g.key, ":" + g.content);
      BareHasNoQuote(g.content);
      NoQuoteOnePiece(":" + g.content);
    }
  }

  lemma WordHasNoQuote(s: string)
    requires Word(s)
    ensures '"' !in s
  {
  }

  lemma BareHasNoQuote(s: string)
    requires Bare(s)
    ensures '"' !in ":" + s
  {
  }

  /** A line's last piece is no word unless it is the value of a quoted field. */
  predicate LastPiece(ps: seq<string>, f: Field)
    requires ps != []
  {
    !f.quoted ==> var p := ps[|ps| - 1]; p != "" && p[0] == ':'
  }

  lemma NoWord(s: string, i: nat)
    requires i < |s| && !WordChar(s[i])
    ensures !Word(s)
  {
  }

  /** Closing a value and writing the comma neither makes nor breaks a pair. */
  lemma ClosedPairs(ps: seq<string>, f: Field, i: int, key: string, value: string)
    requires ps != [] && LastPiece(ps, f) && Word(value)
    ensures PairAt(Closed(ps, f), i, key, value) <==> PairAt(ps, i, key, value)
  {
    NoWord(ps[|ps| - 1] + ",", |ps[|ps| - 1]|);
    NoWord(",", 0);
    assert LastPiece(ps, f) && !f.quoted ==> !Word(ps[|ps| - 1]);
  }

  /** The pairs after one more field: the old ones and, if its key matches, its own. */
  lemma AddedPairs(h: seq<string>, g: Field, i: int, key: string, value: string)
    requires h != [] && WellFormed(g) && Word(key) && Word(value)
    requires var p := h[|h| - 1]; p != "" && p[|p| - 1] == ','
    ensures PairAt(h + [g.key] + ValuePieces(g), i, key, value)
      <==> PairAt(h, i, key, value)
           || (i == |h| && g.quoted && g.key == key && Pieces(g.content)[0] == value)
  {
    hide Pieces, Encodes;
    var ps := h + [g.key] + ValuePieces(g);
    if i + 2 < |h| {
    } else if i == |h| - 2 || i == |h| - 1 {
      NoWord(":", 0);
    } else if i == |h| {
    } else if i == |h| + 1 {
      NoWord(ValuePieces(g)[0], 0);
    } else if i + 2 < |ps| {
      EncodedPieces(g.content, g.value, i - |h| - 2);
      var p := ps[i];
      assert p == Pieces(g.content)[i - |h| - 2];
      NoWord(p, |p| - 1);
    }
  }

  lemma FirstField(g: Field)
    requires WellFormed(g)
    ensures Pieces(Opened([g])) == ["{", g.key] + ValuePieces(g)
  {
    hide Pieces, Encodes;
    var r := g.key + "\":" + Quote(g) + g.content;
    assert Opened([g]) == "{" + "\"" + r;
    PiecesAtQuote("{", r);
    NoQuoteOnePiece("{");
    KeyAndValuePieces(g);
    assert ["{"] + ([g.key] + ValuePieces(g)) == ["{", g.key] + ValuePieces(g);
  }

  lemma FirstFieldPairs(g: Field, i: int, key: string, value: string)
    requires WellFormed(g) && Word(key) && Word(value)
    ensures PairAt(["{", g.key] + ValuePieces(g), i, key, value)
      <==> i == 1 && g.quoted && g.key == key && Pieces(g.content)[0] == value
  {
    hide Pieces, Encodes;
    var ps := ["{", g.key] + ValuePieces(g);
    if i == 2 {
      NoWord(ValuePieces(g)[0], 0);
    } else if i > 2 && i + 2 < |ps| {
      EncodedPieces(g.content, g.value, i - 3);
      var p := ps[i];
      assert p == Pieces(g.content)[i - 3];
      NoWord(p, |p| - 1);
    }
  }

  lemma ValueLast(g: Field, h: seq<string>)
    requires WellFormed(g)
    ensures LastPiece(h + ValuePieces(g), g)
  {
  }

  lemma {:induction false} OpenedPairs(fs: seq<Field>, key: string, value: string)
    requires fs != [] && AllWellFormed(fs) && Word(key) && Word(value)
    ensures HasPair(Pieces(Opened(fs)), key, value) <==> HasField(fs, key, value)
    ensures LastPiece(Pieces(Opened(fs)), fs[|fs| - 1])
    decreases |fs|
  {
    var n := |fs| - 1;
    var front, g := fs[..n], fs[n];
    assert fs == front + [g];
    if n == 0 {
      OneFieldPairs(g, key, value);
    } else {
      OpenedPairs(front, key, value);
      MoreFieldPairs(front, g, key, value);
    }
  }

  lemma OneFieldPairs(g: Field, key: string, value: string)
    requires WellFormed(g) && Word(key) && Word(value)
    ensures HasPair(Pieces(Opened([g])), key, value) <==> HasField([g], key, value)
    ensures LastPiece(Pieces(Opened([g])), g)
  {
    hide Pieces, Opened, PairAt, WellFormed;
    FirstField(g);
    ValueLast(g, ["{", g.key]);
    forall i ensures PairAt(Pieces(Opened([g])), i, key, value) <==> i == 1 && FieldAt([g], 0, key, value) {
      FirstFieldPairs(g, i, key, value);
    }
    assert PairAt(Pieces(Opened([g])), 1, key, value) <==> FieldAt([g], 0, key, value);
    assert HasField([g], key, value) <==> FieldAt([g], 0, key, value);
  }

  lemma MoreFieldPairs(front: seq<Field>, g: Field, key: string, value: string)
    requires front != [] && WellFormed(g) && Word(key) && Word(value)
    requires HasPair(Pieces(Opened(front)), key, value) <==> HasField(front, key, value)
    requires LastPiece(Pieces(Opened(front)), front[|front| - 1])
    ensures HasPair(Pieces(Opened(front + [g])), key, value) <==> HasField(front + [g], key, value)
    ensures LastPiece(Pieces(Opened(front + [g])), g)
  {
    hide Pieces, Opened, PairAt, WellFormed;
    var f, old_ := front[|front| - 1], Pieces(Opened(front));
    var h, all := Closed(old_, f), front + [g];
    OpenedPieces(front, g);
    ValueLast(g, h + [g.key]);
    var ps := Pieces(Opened(all));
    assert ps == h + [g.key] + ValuePieces(g);
    forall i
      ensures PairAt(ps, i, key, value)
        <==> PairAt(old_, i, key, value) || (i == |h| && FieldAt(all, |front|, key, value))
    {
      ClosedPairs(old_, f, i, key, value);
      AddedPairs(h, g, i, key, value);
    }
    assert forall j ::
      (FieldAt(all, j, key, value)
       <==> FieldAt(front, j, key, value) || (j == |front| && FieldAt(all, j, key, value)));
    if HasField(all, key, value) {
      var j :| FieldAt(all, j, key, value);
      if j == |front| {
        assert PairAt(ps, |h|, key, value);
      } else {
        assert FieldAt(front, j, key, value);
        var i :| PairAt(old_, i, key, value);
        assert PairAt(ps, i, key, value);
      }
    }
  }

  /** In one line the search finds `"key":"value"` exactly when the line has that field. */
  lemma LineSearchExact(fs: seq<Field>, key: string, value: string)
    requires fs != [] && AllWellFormed(fs) && Word(key) && Word(value)
    ensures Occurs(Line(fs), Needle(key, value)) <==> HasField(fs, key, value)
  {
    hide Pieces, Opened, AllWellFormed;
    var f, o := fs[|fs| - 1], Opened(fs);
    var ps := Pieces(o);
    OpenedPairs(fs, key, value);
    OpenedThenClosed(fs);
    WordHasNoQuote(key);
    WordHasNoQuote(value);
    OccursIffPair(Line(fs), key, value);
    var qs := Pieces(Line(fs));
    if f.quoted {
      assert Line(fs) == o + "\"" + "}\n";
      PiecesAtQuote(o, "}\n");
      NoQuoteOnePiece("}\n");
      assert qs == ps + ["}\n"];
      assert forall i :: PairAt(ps, i, key, value) <==> PairAt(qs, i, key, value) && i + 3 < |qs|;
    } else {
      assert Line(fs) == o + "}\n";
      PiecesUnquoted(o, "}\n");
      assert !Word(ps[|ps| - 1]);
      assert forall i :: PairAt(ps, i, key, value) <==> PairAt(qs, i, key, value) && i + 3 < |qs|;
    }
  }

  // ---- Whole bodies

  lemma OccursAtConcat(a: string, b: string, t: string, i: int)
    requires IsLine(a) && NoLineFeed(t) && t != ""
    ensures OccursAt(a + b, t, i) <==> OccursAt(a, t, i) || OccursAt(b, t, i - |a|)
  {
    var s := a + b;
    if 0 <= i <= i + |t| <= |a| {
      assert s[i..i + |t|] == a[i..i + |t|];
    } else if |a| <= i && i + |t| <= |s| {
      assert s[i..i + |t|] == b[i - |a|..i - |a| + |t|];
    } else if 0 <= i < |a| && i + |t| <= |s| {
      assert s[i..i + |t|][|a| - 1 - i] == '\n';
    }
  }

  lemma {:induction false} OccursInConcat(lines: seq<string>, t: string)
    requires forall k :: 0 <= k < |lines| ==> IsLine(lines[k])
    requires NoLineFeed(t) && t != ""
    ensures Occurs(Concat(lines), t) <==> exists k :: 0 <= k < |lines| && Occurs(lines[k], t)
  {
    if lines == [] {
      assert forall i :: !OccursAt("", t, i);
    } else {
      var a, rest := lines[0], lines[1..];
      OccursInConcat(rest, t);
      forall i ensures OccursAt(a + Concat(rest), t, i) <==> OccursAt(a, t, i) || OccursAt(Concat(rest), t, i - |a|) {
        OccursAtConcat(a, Concat(rest), t, i);
      }
      if Occurs(a, t) {
        var i :| OccursAt(a, t, i);
        assert OccursAt(Concat(lines), t, i);
      }
      if Occurs(Concat(rest), t) {
        var i :| OccursAt(Concat(rest), t, i);
        assert OccursAt(a + Concat(rest), t, (i + |a|)) by { OccursAtConcat(a, Concat(rest), t, i + |a|); }
        var k :| 0 <= k < |rest| && Occurs(rest[k], t);
        assert rest[k] == lines[k + 1];
      }
      if k :| 0 <= k < |lines| && Occurs(lines[k], t) {
        if k > 0 { assert rest[k - 1] == lines[k]; }
      }
    }
  }

  function LinesOf(body: seq<seq<Field>>): seq<string>
    requires forall k :: 0 <= k < |body| ==> body[k] != []
  {
    seq(|body|, k requires 0 <= k < |body| => Line(body[k]))
  }

  /** In a body of whole lines the search finds `"key":"value"` exactly when some line has that field. */
  lemma BodySearchExact(body: seq<seq<Field>>, key: string, value: string)
    requires forall k :: 0 <= k < |body| ==> body[k] != [] && AllWellFormed(body[k])
    requires Word(key) && Word(value)
    ensures Occurs(Concat(LinesOf(body)), Needle(key, value))
      <==> exists k :: 0 <= k < |body| && HasField(body[k], key, value)
  {
    hide Line, AllWellFormed, Occurs, HasField;
    var lines := LinesOf(body);
    forall k | 0 <= k < |lines|
      ensures IsLine(lines[k]) && (Occurs(lines[k], Needle(key, value)) <==> HasField(body[k], key, value))
    {
      WellFormedScans(body[k]);
      OneLineFeed(body[k]);
      LineSearchExact(body[k], key, value);
    }
    OccursInConcat(lines, Needle(key, value));
    if k :| 0 <= k < |body| && HasField(body[k], key, value) {
      assert Occurs(lines[k], Needle(key, value));
    }
  }
}
