/** Searching the readable beginning of a part for an event type: a buffer of 2048 bytes may cut the body
    anywhere, and the search still finds exactly the records whose type lies inside. */
module PartialSearch {
  import opened CText
  import opened JsonText
  import opened JsonLines
  import opened Search
  import opened FieldSearch
  import opened TranscriptRecord

  // ---- One line, cut anywhere

  /** A value is not found before the quote that closes it. */
  lemma NotFoundBeforeItsEnd(front: seq<Field>, g: Field, key: string, value: string)
    requires front != [] && AllWellFormed(front) && WellFormed(g) && g.quoted && '"' !in g.content
    requires Word(key) && Word(value) && !HasField(front, key, value)
    ensures !Occurs(Opened(front + [g]), Needle(key, value))
  {
    hide Pieces, Opened, PairAt, WellFormed, HasField, Needle, Occurs, LastPiece;
    var f, before := front[|front| - 1], Pieces(Opened(front));
    OpenedPairs(front, key, value);
    OpenedPieces(front, g);
    NoQuoteOnePiece(g.content);
    var h, ps := FieldSearch.Closed(before, f), Pieces(Opened(front + [g]));
    assert ps == h + [g.key] + [":", g.content];
    WordHasNoQuote(key);
    WordHasNoQuote(value);
    OccursIffPair(Opened(front + [g]), key, value);
    forall i
      ensures PairAt(ps, i, key, value) ==> i == |h|
    {
      ClosedPairs(before, f, i, key, value);
      AddedPairs(h, g, i, key, value);
    }
  }

  lemma {:induction false} OpenedIsPrefix(fs: seq<Field>, rest: seq<Field>)
    requires fs != [] && rest != []
    ensures Opened(fs) + Quote(fs[|fs| - 1]) <= Opened(fs + rest)
    decreases |rest|
  {
    hide Opened, Quote;
    var n := |rest| - 1;
    var front, g := fs + rest[..n], rest[n];
    assert fs + rest == front + [g];
    OpenedAppend(front, g);
    BetweenStartsWithQuote(front[|front| - 1], g);
    if n > 0 {
      OpenedIsPrefix(fs, rest[..n]);
    } else {
      assert front == fs;
    }
  }

  lemma BetweenStartsWithQuote(f: Field, g: Field)
    ensures Quote(f) <= Between(f, g)
  {
  }

  lemma LineStartsOpened(fs: seq<Field>)
    requires fs != []
    ensures Opened(fs) <= Line(fs)
  {
    hide Opened, Renders;
    OpenedThenClosed(fs);
  }

  lemma NeedleAtTheEnd(front: seq<Field>, g: Field)
    requires front != [] && g.quoted
    ensures Occurs(Opened(front + [g]) + "\"", Needle(g.key, g.content))
  {
    hide Renders;
    OpenedSnoc(front, g);
    var before, needle := "{" + Renders(front) + ",", Needle(g.key, g.content);
    assert Open(g) + "\"" == needle;
    assert Opened(front + [g]) + "\"" == before + needle;
    assert OccursAt(before + needle, needle, |before|);
  }

  lemma OccursInLonger(s: string, t: string, needle: string)
    requires s <= t && Occurs(s, needle)
    ensures Occurs(t, needle)
  {
    var i :| OccursAt(s, needle, i);
    assert t[i..i + |needle|] == s[i..i + |needle|];
    assert OccursAt(t, needle, i);
  }

  /** In the first `m` bytes of a line the search finds a quoted field exactly when they reach past the quote
      that closes its value. */
  lemma LineSearchClipped(front: seq<Field>, g: Field, rest: seq<Field>, key: string, value: string, m: nat)
    requires front != [] && rest != [] && AllWellFormed(front + [g] + rest) && g.quoted && '"' !in g.content
    requires g.key == key && Word(key) && Word(value) && !HasField(front, key, value)
    requires HasField(front + [g] + rest, key, value) <==> g.content == value
    requires m <= |Line(front + [g] + rest)|
    ensures Occurs(Line(front + [g] + rest)[..m], Needle(key, value))
      <==> g.content == value && |Opened(front + [g])| + 1 <= m
  {
    hide Opened, Line, HasField, Occurs, Needle, WellFormed;
    var fs := front + [g];
    var all := fs + rest;
    var line, needle := Line(all), Needle(key, value);
    OpenedIsPrefix(fs, rest);
    LineStartsOpened(all);
    var start := Opened(fs) + "\"";
    assert start <= line;
    assert forall i :: 0 <= i < |front| ==> front[i] == all[i];
    assert all[|front|] == g;
    NotFoundBeforeItsEnd(front, g, key, value);
    LineSearchExact(all, key, value);
    if Occurs(line[..m], needle) {
      OccursInLonger(line[..m], line, needle);
      if m <= |Opened(fs)| {
        assert line[..m] <= Opened(fs);
        OccursInLonger(line[..m], Opened(fs), needle);
      }
    }
    if g.content == value && |start| <= m {
      NeedleAtTheEnd(front, g);
      OccursInLonger(start, line[..m], needle);
    }
  }

  // ---- Records

  /** The fields of a record before its type, the type, and the three fields after it. */
  function Front(s: Session, r: Record): seq<Field> {
    if r.Truncation? then [Quoted("session_id", s.id)] else IdentityFields(s)
  }

  function TypeField(r: Record): Field { Quoted("event_type", Shown(r).kind) }

  function Rest(s: Session, r: Record): seq<Field> { Fields(s, r)[|Front(s, r)| + 1..] }

  lemma FieldsSplit(s: Session, r: Record)
    ensures Fields(s, r) == Front(s, r) + [TypeField(r)] + Rest(s, r) && |Rest(s, r)| == 3
  {
    hide IdentityFields, SeqText, Escape;
  }

  /** Where the type of a record ends in its line, its closing quote included. */
  function TypeEnd(s: Session, r: Record): nat { |Opened(Front(s, r) + [TypeField(r)])| + 1 }

  lemma FrontHasNoType(s: Session, r: Record, kind: string)
    ensures !HasField(Front(s, r), "event_type", kind)
  {
    hide Pieces;
    var fs := Front(s, r);
    forall j | 0 <= j < |fs|
      ensures fs[j].key != "event_type"
    {
      assert |fs[j].key| == 10 ==> fs[j].key[0] == 's';
    }
  }

  lemma TypeIsPlain(r: Record)
    requires PlainRecord(r)
    ensures '"' !in Shown(r).kind
  {
    if r.Truncation? { WordHasNoQuote("transcript_truncated"); }
  }

  /** In the first `m` bytes of a stored record the search finds an event type exactly when it is the record's
      and ends there. */
  lemma RecordSearchClipped(s: Session, r: Record, kind: string, m: nat)
    requires PlainSession(s) && PlainRecord(r) && Fits(s, r) && Word(kind) && m <= |Stored(s, r)|
    ensures Occurs(Stored(s, r)[..m], Needle("event_type", kind)) <==> Shown(r).kind == kind && TypeEnd(s, r) <= m
  {
    hide Opened, HasField, Occurs, Needle, Front, Rest, Shown, Fields, PlainSession, PlainRecord, WellFormed;
    FieldsSplit(s, r);
    FieldsWellFormed(s, r);
    RecordEventType(s, r, kind);
    FrontHasNoType(s, r, kind);
    TypeIsPlain(r);
    TypeIsWord();
    FrontIsNotEmpty(s, r);
    LineSearchClipped(Front(s, r), TypeField(r), Rest(s, r), "event_type", kind, m);
  }

  lemma TypeIsWord()
    ensures Word("event_type")
  {
  }

  lemma FrontIsNotEmpty(s: Session, r: Record)
    ensures Front(s, r) != []
  {
  }

  // ---- Bodies

  predicate EndsLine(s: string) { s == "" || s[|s| - 1] == '\n' }

  /** A text without line feeds does not straddle the end of a line. */
  lemma OccursAcross(a: string, b: string, t: string)
    requires EndsLine(a) && NoLineFeed(t) && t != ""
    ensures Occurs(a + b, t) <==> Occurs(a, t) || Occurs(b, t)
  {
    forall i
      ensures OccursAt(a + b, t, i) <==> OccursAt(a, t, i) || OccursAt(b, t, i - |a|)
    {
      OccursAtLineEnd(a, b, t, i);
    }
    if Occurs(b, t) {
      var j :| OccursAt(b, t, j);
      assert OccursAt(a + b, t, j + |a|);
    }
  }

  lemma OccursAtLineEnd(a: string, b: string, t: string, i: int)
    requires EndsLine(a) && NoLineFeed(t) && t != ""
    ensures OccursAt(a + b, t, i) <==> OccursAt(a, t, i) || OccursAt(b, t, i - |a|)
  {
    if 0 <= i && i + |t| <= |a + b| {
      if i + |t| <= |a| {
        assert (a + b)[i..i + |t|] == a[i..i + |t|];
      } else if i >= |a| {
        assert (a + b)[i..i + |t|] == b[i - |a|..i - |a| + |t|];
      } else {
        assert (a + b)[i..i + |t|][|a| - 1 - i] == '\n';
        assert t[|a| - 1 - i] != '\n';
      }
    }
  }

  lemma {:induction false} BodyEndsLine(s: Session, rs: seq<Record>)
    requires Readable(s, rs)
    ensures EndsLine(Body(s, rs))
    decreases |rs|
  {
    hide Stored, Body, PlainSession, PlainRecord, Fits;
    if rs == [] {
      NoBody(s);
    } else {
      var front, r := rs[..|rs| - 1], rs[|rs| - 1];
      assert rs == front + [r];
      BodyAppend(s, front, r);
      WholeExactlyWhenItFits(s, r);
    }
  }

  lemma NoBody(s: Session)
    ensures Body(s, []) == ""
  {
  }

  /** Record `i` has the type, and its type ends within the first `n` bytes of the body. */
  predicate TypeWithin(s: Session, rs: seq<Record>, i: nat, kind: string, n: nat) {
    i < |rs| && Shown(rs[i]).kind == kind && |Body(s, rs[..i])| + TypeEnd(s, rs[i]) <= n
  }

  lemma TypeWithinSnoc(s: Session, front: seq<Record>, r: Record, kind: string, n: nat)
    ensures (exists i: nat :: TypeWithin(s, front + [r], i, kind, n))
      <==> (exists i: nat :: TypeWithin(s, front, i, kind, n))
           || (Shown(r).kind == kind && |Body(s, front)| + TypeEnd(s, r) <= n)
  {
    hide Body, TypeEnd, Shown;
    var all := front + [r];
    assert all[..|front|] == front;
    forall i: nat | i < |front|
      ensures TypeWithin(s, all, i, kind, n) <==> TypeWithin(s, front, i, kind, n)
    {
      assert all[..i] == front[..i];
    }
    if Shown(r).kind == kind && |Body(s, front)| + TypeEnd(s, r) <= n { assert TypeWithin(s, all, |front|, kind, n); }
    if i: nat :| TypeWithin(s, front, i, kind, n) { assert TypeWithin(s, all, i, kind, n); }
  }

  lemma NeedleIsText(kind: string)
    requires Word(kind)
    ensures NoLineFeed(Needle("event_type", kind)) && Needle("event_type", kind) != ""
  {
  }

  lemma NothingOccursIn(t: string)
    requires t != ""
    ensures !Occurs("", t)
  {
  }

  lemma ClipSplits(a: string, b: string, n: nat)
    ensures |a| >= n ==> Clip(a + b, n) == Clip(a, n)
    ensures |a| < n ==> Clip(a + b, n) == Clip(a, n) + Clip(b, n - |a|)
  {
  }

  /** However the body is cut, the search of what is left of it finds an event type exactly when some record has
      that type and its type lies inside. */
  lemma {:induction false} BodySearchClipped(s: Session, rs: seq<Record>, kind: string, n: nat)
    requires Readable(s, rs) && Word(kind)
    ensures Occurs(Clip(Body(s, rs), n), Needle("event_type", kind))
      <==> exists i: nat :: TypeWithin(s, rs, i, kind, n)
    decreases |rs|
  {
    hide Body, TypeEnd, Shown, Stored, Occurs, Needle, Clip, TypeWithin, PlainSession, PlainRecord, Fits;
    NeedleIsText(kind);
    var needle := Needle("event_type", kind);
    if rs == [] {
      NoBody(s);
      NothingOccursIn(needle);
      NoneWithin(s, kind, n);
    } else {
      var front, r := rs[..|rs| - 1], rs[|rs| - 1];
      assert rs == front + [r];
      BodySearchClipped(s, front, kind, n);
      BodyEndsLine(s, front);
      SnocSearch(s, front, r, kind, n);
    }
  }

  lemma NoneWithin(s: Session, kind: string, n: nat)
    ensures Clip("", n) == "" && !exists i: nat :: TypeWithin(s, [], i, kind, n)
  {
  }

  lemma SnocSearch(s: Session, front: seq<Record>, r: Record, kind: string, n: nat)
    requires PlainSession(s) && PlainRecord(r) && Fits(s, r) && Word(kind) && EndsLine(Body(s, front))
    requires Occurs(Clip(Body(s, front), n), Needle("event_type", kind))
      <==> exists i: nat :: TypeWithin(s, front, i, kind, n)
    ensures Occurs(Clip(Body(s, front + [r]), n), Needle("event_type", kind))
      <==> exists i: nat :: TypeWithin(s, front + [r], i, kind, n)
  {
    hide Body, Shown, Stored, Occurs, Needle, TypeWithin, PlainSession, PlainRecord, Fits, TypeEnd, EndsLine;
    NeedleIsText(kind);
    var a, b := Body(s, front), Stored(s, r);
    BodyAppend(s, front, r);
    TypeWithinSnoc(s, front, r, kind, n);
    ClipSplits(a, b, n);
    if |a| < n {
      var m := if |b| <= n - |a| then |b| else n - |a|;
      assert Clip(b, n - |a|) == b[..m];
      RecordSearchClipped(s, r, kind, m);
      TypeEndsInLine(s, r);
      OccursAcross(a, b[..m], Needle("event_type", kind));
    } else {
      TypeEndsLate(s, r);
    }
  }

  lemma TypeEndsLate(s: Session, r: Record)
    ensures TypeEnd(s, r) > 0
  {
  }

  lemma TypeEndsInLine(s: Session, r: Record)
    requires PlainRecord(r) && Fits(s, r)
    ensures TypeEnd(s, r) <= |Stored(s, r)|
  {
    hide Opened, Line, Fields, Front, Rest, Shown;
    FieldsSplit(s, r);
    var fs := Front(s, r) + [TypeField(r)];
    OpenedIsPrefix(fs, Rest(s, r));
    LineStartsOpened(Fields(s, r));
    assert fs[|fs| - 1] == TypeField(r);
  }
}
