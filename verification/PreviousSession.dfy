/** The search for an unclean previous session: what the loop over its parts reports, and exactly when that is
    right. */
module PreviousSession {
  import opened CText
  import opened JsonLines
  import opened Search
  import opened TranscriptRecord
  import opened TranscriptPaths
  import opened TextStore
  import opened PartialSearch

  const PARTS_SEARCHED: nat := 512
  /** A read gives this much of a part. */
  const SEEN: nat := READ_MAX - 1
  const ENDED := "session_end"
  const TRUNCATED := "transcript_truncated"

  /** For each part whether storage answers the read. */
  type Answers = nat -> bool

  predicate Readable(files: Files, answers: Answers, id: string, part: nat) {
    answers(part) && PartPath(id, part) in files
  }

  /** A part whose readable beginning shows that the session ended or was truncated. */
  ghost predicate ShowsEnd(body: string) {
    var seen := Clip(body, SEEN);
    Occurs(seen, Needle("event_type", ENDED)) || Occurs(seen, Needle("event_type", TRUNCATED))
  }

  ghost predicate EndIn(files: Files, answers: Answers, id: string, part: nat) {
    Readable(files, answers, id, part) && ShowsEnd(files[PartPath(id, part)])
  }

  /** The verdict: no part that can be read shows an end, and no rotated part can be read. */
  ghost predicate Unclean(files: Files, answers: Answers, id: string) {
    && (forall k: nat :: 1 <= k <= 512 ==> !EndIn(files, answers, id, k))
    && (forall k: nat :: 2 <= k <= 512 ==> !Readable(files, answers, id, k))
  }

  method PreviousUnclean(store: Store, previousId: string, answers: Answers) returns (unclean: bool)
    ensures unclean <==> Unclean(store.files, answers, previousId)
  {
    hide PartPath, Needle, Occurs, Clip;
    var clean, rotated := false, false;
    var part: nat := 1;
    while part <= PARTS_SEARCHED
      invariant 1 <= part <= PARTS_SEARCHED + 1 && !clean
      invariant forall k: nat :: 1 <= k < part ==> !EndIn(store.files, answers, previousId, k)
      invariant rotated <==> exists k: nat :: 2 <= k < part && Readable(store.files, answers, previousId, k)
    {
      var body := store.ReadText(PartPath(previousId, part), READ_MAX, answers(part));
      if body.Some? {
        assert Readable(store.files, answers, previousId, part);
        if part > 1 {
          rotated := true;
        }
        EventNeedlesAreNotEmpty();
        var ended := Contains(body.value, Needle("event_type", ENDED));
        var truncated := Contains(body.value, Needle("event_type", TRUNCATED));
        if ended || truncated {
          clean := true;
          assert EndIn(store.files, answers, previousId, part);
          break;
        }
      }
      part := part + 1;
    }
    unclean := !clean && !rotated;
  }

  lemma EventNeedlesAreNotEmpty()
    ensures Needle("event_type", ENDED) != "" && Needle("event_type", TRUNCATED) != ""
  {
  }

  /** A record that ends a session, and its type lies where the read reaches. */
  predicate EndWithin(s: Session, rs: seq<Record>, i: nat) {
    TypeWithin(s, rs, i, "session_end", 2047) || TypeWithin(s, rs, i, "transcript_truncated", 2047)
  }

  /** A part of whole records, however long, shows an end exactly when a record of that type lies, up to its type,
      within the first 2047 bytes. */
  lemma ShowsEndExactly(s: Session, rs: seq<Record>)
    requires TranscriptRecord.Readable(s, rs)
    ensures ShowsEnd(Body(s, rs)) <==> exists i: nat :: EndWithin(s, rs, i)
  {
    hide Body, Occurs, Needle, Clip, TypeWithin, TranscriptRecord.Readable;
    EndsAreWords();
    BodySearchClipped(s, rs, ENDED, SEEN);
    BodySearchClipped(s, rs, TRUNCATED, SEEN);
    if i: nat :| TypeWithin(s, rs, i, ENDED, SEEN) { assert EndWithin(s, rs, i); }
    if i: nat :| TypeWithin(s, rs, i, TRUNCATED, SEEN) { assert EndWithin(s, rs, i); }
    if i: nat :| EndWithin(s, rs, i) {
      assert TypeWithin(s, rs, i, ENDED, SEEN) || TypeWithin(s, rs, i, TRUNCATED, SEEN);
    }
  }

  lemma EndsAreWords()
    ensures Word(ENDED) && Word(TRUNCATED)
  {
  }

  /** The previous session left one part, of whole records. */
  predicate OnePart(files: Files, s: Session, rs: seq<Record>) {
    && TranscriptRecord.Readable(s, rs)
    && PartPath(s.id, 1) in files && files[PartPath(s.id, 1)] == Body(s, rs)
    && forall k: nat :: 2 <= k <= PARTS_SEARCHED ==> PartPath(s.id, k) !in files
  }

  /** Of a session of one part, of any length, the verdict is unclean exactly when the part cannot be read or no
      record of an ending type lies within the first 2047 bytes, whatever the recorded texts say. */
  lemma UncleanIsExact(files: Files, answers: Answers, s: Session, rs: seq<Record>)
    requires OnePart(files, s, rs)
    ensures Unclean(files, answers, s.id) <==> !answers(1) || !exists i: nat :: EndWithin(s, rs, i)
  {
    hide PartPath, Body, ShowsEnd, EndWithin, TranscriptRecord.Readable;
    ShowsEndExactly(s, rs);
    assert forall k: nat :: 1 <= k <= PARTS_SEARCHED && EndIn(files, answers, s.id, k) ==> k == 1;
    assert EndIn(files, answers, s.id, 1) <==> answers(1) && ShowsEnd(Body(s, rs));
  }

  /** A session of one part that is judged clean really has a record that ends it. */
  lemma CleanIsSound(files: Files, answers: Answers, s: Session, rs: seq<Record>)
    requires OnePart(files, s, rs) && !Unclean(files, answers, s.id)
    ensures exists i ::
      0 <= i < |rs| && (Shown(rs[i]).kind == "session_end" || Shown(rs[i]).kind == "transcript_truncated")
  {
    hide Unclean, OnePart, Body, TypeEnd, Shown;
    UncleanIsExact(files, answers, s, rs);
    var i: nat :| EndWithin(s, rs, i);
    assert Shown(rs[i]).kind == "session_end" || Shown(rs[i]).kind == "transcript_truncated";
  }
}
