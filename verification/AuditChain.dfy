/** The hash-chained event log of the audit core: the columns that are hashed, the documented check of a
    chain, and exactly when passing it makes tampering evident. */
module AuditChain {
  import opened CText
  import Fips180
  import Sha256

  /** One `audit_event` row as it stands in the table. */
  datatype Row = Row(bootId: string, seqNo: nat, kind: string, severity: string, actor: string, summary: string,
                     details: string, monotonic: nat, prevHash: string, eventHash: string)

  const PAYLOAD_MAX: nat := 1023 // payload[1024] less its NUL
  const SEVERITY := "INFO"
  const ACTOR := "SYSTEM"
  const DETAILS := "{}"

  /** The last four of the nine hashed columns, joined by separators. */
  function Tail(r: Row): string { r.summary + "|" + r.details + "|" + Decimal(r.monotonic) + "|" + r.prevHash }

  /** All nine. */
  function Payload(r: Row): string {
    r.bootId + "|" + Decimal(r.seqNo) + "|" + r.kind + "|" + r.severity + "|" + r.actor + "|" + Tail(r)
  }

  /** The row with the three columns that the writer always fills in the same way. */
  function Written(r: Row): Row { r.(severity := SEVERITY, actor := ACTOR, details := DETAILS) }

  /** The text the writer hashes: it formats its own constants, and snprintf clips the result. */
  function WriterText(r: Row): string { Clip(Payload(Written(r)), PAYLOAD_MAX) }

  /** The digest the writer stores. */
  function RowHash(r: Row): string { Sha256.HashHex(WriterText(r)) }

  function HashBefore(rows: seq<Row>, i: nat): string
    requires i <= |rows|
  {
    if i == 0 then "" else rows[i - 1].eventHash
  }

  /** Linked hashes, and digests of what `text` says of each row. */
  predicate Linked(rows: seq<Row>, text: Row -> string) {
    forall i :: 0 <= i < |rows| ==>
      rows[i].prevHash == HashBefore(rows, i) && rows[i].eventHash == Sha256.HashHex(text(rows[i]))
  }

  predicate Numbered(rows: seq<Row>) { forall i :: 0 <= i < |rows| ==> rows[i].seqNo == i + 1 }

  /** Also numbered without a gap. */
  predicate Chain(rows: seq<Row>, text: Row -> string) { Linked(rows, text) && Numbered(rows) }

  /** The documented check: links, and digests of the payload that the writer formats.  It asks nothing of the
      numbers. */
  predicate Verified(rows: seq<Row>) { Linked(rows, WriterText) }

  /** What the writer keeps. */
  predicate ChainOk(rows: seq<Row>) { Verified(rows) && Numbered(rows) }

  /** Sealing a row stores the digest of its other fields. */
  function Sealed(r: Row): Row { r.(eventHash := RowHash(r)) }

  lemma SealedRowHash(r: Row)
    ensures RowHash(Sealed(r)) == Sealed(r).eventHash
  {
    hide Sha256.HashHex;
    assert Payload(Written(Sealed(r))) == Payload(Written(r));
  }

  lemma RowHashIs(r: Row)
    ensures RowHash(r) == Sha256.HashHex(WriterText(r))
  {
  }

  lemma ChainExtends(rows: seq<Row>, r: Row)
    requires ChainOk(rows) && r.seqNo == |rows| + 1 && r.prevHash == HashBefore(rows, |rows|)
    ensures ChainOk(rows + [Sealed(r)])
  {
    hide RowHash, WriterText, Sha256.HashHex;
    SealedRowHash(r);
    var t := rows + [Sealed(r)];
    forall i | 0 <= i < |t|
      ensures t[i].prevHash == HashBefore(t, i) && t[i].eventHash == Sha256.HashHex(WriterText(t[i]))
    {
      assert HashBefore(t, i) == HashBefore(rows, i);
      assert i < |rows| ==> t[i] == rows[i];
      RowHashIs(t[i]);
    }
  }

  // ---- The payload is unambiguous

  /** The columns before the summary hold no separator, nor does the one after it. */
  predicate PlainRow(r: Row) {
    '|' !in r.bootId && '|' !in r.kind && '|' !in r.severity && '|' !in r.actor && '|' !in r.details
  }

  predicate ByteRow(r: Row) {
    && Sha256.ByteText(r.bootId) && Sha256.ByteText(r.kind) && Sha256.ByteText(r.severity)
    && Sha256.ByteText(r.actor) && Sha256.ByteText(r.summary) && Sha256.ByteText(r.details)
  }

  /** The same of the columns that the documented check hashes. */
  predicate PlainHashed(r: Row) {
    && '|' !in r.bootId && '|' !in r.kind
    && Sha256.ByteText(r.bootId) && Sha256.ByteText(r.kind) && Sha256.ByteText(r.summary)
  }

  predicate PlainNames(rows: seq<Row>) { forall i :: 0 <= i < |rows| ==> PlainHashed(rows[i]) }

  lemma TailInjective(r: Row, s: Row)
    requires '|' !in r.details && '|' !in s.details && '|' !in r.prevHash && '|' !in s.prevHash
    requires Tail(r) == Tail(s)
    ensures r.summary == s.summary && r.details == s.details && r.monotonic == s.monotonic && r.prevHash == s.prevHash
  {
    hide Decimal;
    var ar, as_ := r.summary + ['|'] + r.details, s.summary + ['|'] + s.details;
    var br, bs := ar + ['|'] + Decimal(r.monotonic), as_ + ['|'] + Decimal(s.monotonic);
    assert Tail(r) == br + ['|'] + r.prevHash && Tail(s) == bs + ['|'] + s.prevHash;
    SplitAtLast(br, r.prevHash, bs, s.prevHash, '|');
    DecimalIsPlain(r.monotonic);
    DecimalIsPlain(s.monotonic);
    SplitAtLast(ar, Decimal(r.monotonic), as_, Decimal(s.monotonic), '|');
    SplitAtLast(r.summary, r.details, s.summary, s.details, '|');
    DecimalInjective(r.monotonic, s.monotonic);
  }

  lemma DecimalIsPlain(n: nat)
    ensures '|' !in Decimal(n) && Sha256.ByteText(Decimal(n))
  {
    forall i | 0 <= i < |Decimal(n)|
      ensures Decimal(n)[i] as int < 256
    {
      assert Decimal(n)[i] in Decimal(n);
    }
  }

  lemma PayloadSplits(r: Row)
    ensures Payload(r)
         == r.bootId + ['|'] + (Decimal(r.seqNo) + ['|'] + (r.kind + ['|'] +
                  (r.severity + ['|'] + (r.actor + ['|'] + Tail(r)))))
  {
    hide Decimal, Tail;
    Regroup(r.bootId, Decimal(r.seqNo), r.kind, r.severity, r.actor, Tail(r));
  }

  lemma Regroup(a: string, b: string, c: string, d: string, e: string, t: string)
    ensures a + "|" + b + "|" + c + "|" + d + "|" + e + "|" + t
         == a + ['|'] + (b + ['|'] + (c + ['|'] + (d + ['|'] + (e + ['|'] + t))))
  {
    assert d + "|" + e + "|" + t == d + ['|'] + (e + ['|'] + t);
    assert b + "|" + c + "|" + (d + "|" + e + "|" + t) == b + ['|'] + (c + ['|'] + (d + "|" + e + "|" + t));
  }

  /** Even though a summary may hold any number of separators, the payload determines every column. */
  lemma PayloadInjective(r: Row, s: Row)
    requires PlainRow(r) && PlainRow(s) && '|' !in r.prevHash && '|' !in s.prevHash
    requires Payload(r) == Payload(s)
    ensures r == s.(eventHash := r.eventHash)
  {
    hide Decimal, Tail;
    PayloadSplits(r);
    PayloadSplits(s);
    DecimalIsPlain(r.seqNo);
    DecimalIsPlain(s.seqNo);
    var er, es := r.actor + ['|'] + Tail(r), s.actor + ['|'] + Tail(s);
    var dr, ds := r.severity + ['|'] + er, s.severity + ['|'] + es;
    var cr, cs := r.kind + ['|'] + dr, s.kind + ['|'] + ds;
    SplitAtFirst(r.bootId, Decimal(r.seqNo) + ['|'] + cr, s.bootId, Decimal(s.seqNo) + ['|'] + cs, '|');
    SplitAtFirst(Decimal(r.seqNo), cr, Decimal(s.seqNo), cs, '|');
    SplitAtFirst(r.kind, dr, s.kind, ds, '|');
    SplitAtFirst(r.severity, er, s.severity, es, '|');
    SplitAtFirst(r.actor, Tail(r), s.actor, Tail(s), '|');
    DecimalInjective(r.seqNo, s.seqNo);
    TailInjective(r, s);
  }

  // ---- Two chains that end in the same hash

  /** Two different byte strings with the same SHA-256 digest. */
  ghost predicate Collision(p: seq<Fips180.Byte>, q: seq<Fips180.Byte>) {
    p != q && Fips180.Sha256(p) == Fips180.Sha256(q)
  }

  ghost predicate Clash(p: string, q: string) { Collision(Sha256.Bytes(p), Sha256.Bytes(q)) }

  /** Two rows equally far from the ends of their logs were hashed as different texts with one digest. */
  ghost predicate LogsClash(a: seq<Row>, b: seq<Row>, text: Row -> string) {
    exists k: nat :: ClashAt(a, b, text, k)
  }

  ghost predicate ClashAt(a: seq<Row>, b: seq<Row>, text: Row -> string, k: nat) {
    k < |a| && k < |b| && Clash(text(a[|a| - 1 - k]), text(b[|b| - 1 - k]))
  }

  ghost predicate ByteTexts(rows: seq<Row>, text: Row -> string) {
    forall i :: 0 <= i < |rows| ==> Sha256.ByteText(text(rows[i]))
  }

  /** One hashed text means one previous hash. */
  ghost predicate SameLinks(a: seq<Row>, b: seq<Row>, text: Row -> string) {
    forall i, j :: 0 <= i < |a| && 0 <= j < |b| && text(a[i]) == text(b[j]) ==> a[i].prevHash == b[j].prevHash
  }

  predicate SameTexts(a: seq<Row>, b: seq<Row>, text: Row -> string) {
    |a| == |b| && forall i :: 0 <= i < |a| ==> text(a[i]) == text(b[i]) && a[i].eventHash == b[i].eventHash
  }

  lemma HashesArePlain(text: string)
    ensures var h := Sha256.HashHex(text); '|' !in h && Sha256.ByteText(h) && |h| == 64
  {
    hide Fips180.Sha256, Sha256.Hex;
    Sha256.HexAlphabet(Fips180.Sha256(Sha256.Bytes(text)));
    var hex := Sha256.HashHex(text);
    forall i | 0 <= i < |hex|
      ensures hex[i] as int < 256
    {
      assert hex[i] in hex;
    }
  }

  lemma ChainedHashesArePlain(rows: seq<Row>, text: Row -> string, i: nat)
    requires Linked(rows, text) && i < |rows|
    ensures '|' !in rows[i].prevHash && Sha256.ByteText(rows[i].prevHash) && |rows[i].eventHash| == 64
    ensures |rows[i].prevHash| == if i == 0 then 0 else 64
  {
    hide Sha256.HashHex;
    HashesArePlain(text(rows[i]));
    if i > 0 {
      HashesArePlain(text(rows[i - 1]));
    }
  }

  lemma SameDigest(p: string, q: string)
    requires Sha256.ByteText(p) && Sha256.ByteText(q) && Sha256.HashHex(p) == Sha256.HashHex(q)
    ensures p == q || Clash(p, q)
  {
    hide Fips180.Sha256, Sha256.Hex, Sha256.Bytes;
    var x, y := Sha256.Bytes(p), Sha256.Bytes(q);
    Sha256.HexInjective(Fips180.Sha256(x), Fips180.Sha256(y));
    if x == y {
      Sha256.BytesInjective(p, q);
    }
  }

  lemma ChainPrefix(rows: seq<Row>, text: Row -> string, n: nat)
    requires n <= |rows|
    ensures Linked(rows, text) ==> Linked(rows[..n], text)
    ensures ByteTexts(rows, text) ==> ByteTexts(rows[..n], text)
  {
    hide Sha256.HashHex;
  }

  lemma SameLinksPrefix(a: seq<Row>, b: seq<Row>, text: Row -> string, m: nat, n: nat)
    requires SameLinks(a, b, text) && m <= |a| && n <= |b|
    ensures SameLinks(a[..m], b[..n], text)
  {
  }

  lemma ClashExtends(a: seq<Row>, b: seq<Row>, x: Row, y: Row, text: Row -> string)
    ensures LogsClash(a, b, text) ==> LogsClash(a + [x], b + [y], text)
    ensures Clash(text(x), text(y)) ==> LogsClash(a + [x], b + [y], text)
  {
    hide Clash;
    var c, d := a + [x], b + [y];
    if LogsClash(a, b, text) {
      var k: nat :| ClashAt(a, b, text, k);
      assert ClashAt(c, d, text, k + 1);
    }
    if Clash(text(x), text(y)) {
      assert ClashAt(c, d, text, 0);
    }
  }

  lemma SameTextsExtend(a: seq<Row>, b: seq<Row>, x: Row, y: Row, text: Row -> string)
    requires SameTexts(a, b, text) && text(x) == text(y) && x.eventHash == y.eventHash
    ensures SameTexts(a + [x], b + [y], text)
  {
  }

  /** Two chains that end in the same event hash hashed the same texts all along, or two different texts
      with one digest. */
  lemma {:induction false} ChainsAgree(a: seq<Row>, b: seq<Row>, text: Row -> string)
    requires Linked(a, text) && Linked(b, text) && ByteTexts(a, text) && ByteTexts(b, text) && SameLinks(a, b, text)
    requires a != [] && b != [] && a[|a| - 1].eventHash == b[|b| - 1].eventHash
    ensures SameTexts(a, b, text) || LogsClash(a, b, text)
    decreases |a|
  {
    hide Linked, ByteTexts, SameLinks, LogsClash, Clash, SameTexts;
    var a', b', x, y := a[..|a| - 1], b[..|b| - 1], a[|a| - 1], b[|b| - 1];
    assert a == a' + [x] && b == b' + [y];
    LastRows(a, b, text);
    ClashExtends(a', b', x, y, text);
    if !Clash(text(x), text(y)) {
      if a' != [] {
        ChainPrefix(a, text, |a| - 1);
        ChainPrefix(b, text, |b| - 1);
        SameLinksPrefix(a, b, text, |a| - 1, |b| - 1);
        ChainsAgree(a', b', text);
      } else {
        NoTexts(a', b', text);
      }
      if SameTexts(a', b', text) { SameTextsExtend(a', b', x, y, text); }
    }
  }

  lemma NoTexts(a: seq<Row>, b: seq<Row>, text: Row -> string)
    requires a == [] && b == []
    ensures SameTexts(a, b, text)
  {
  }

  lemma LastRows(a: seq<Row>, b: seq<Row>, text: Row -> string)
    requires Linked(a, text) && Linked(b, text) && ByteTexts(a, text) && ByteTexts(b, text) && SameLinks(a, b, text)
    requires a != [] && b != [] && a[|a| - 1].eventHash == b[|b| - 1].eventHash
    ensures var x, y := text(a[|a| - 1]), text(b[|b| - 1]);
            Clash(x, y) || (x == y && (|a| > 1 <==> |b| > 1)
                          && (|a| > 1 ==> a[|a| - 2].eventHash == b[|b| - 2].eventHash))
  {
    hide Sha256.HashHex, Clash;
    SameDigest(text(a[|a| - 1]), text(b[|b| - 1]));
    ChainedHashesArePlain(a, text, |a| - 1);
    ChainedHashesArePlain(b, text, |b| - 1);
  }

  // ---- The documented check

  predicate Fits(r: Row) { |Payload(Written(r))| <= 1023 }

  /** No part of the payload can have been cut off: the clipped text is shorter than the buffer allows. */
  predicate Short(r: Row) { |Payload(Written(r))| < 1023 }

  predicate ShortLog(rows: seq<Row>) { forall i :: 0 <= i < |rows| ==> Short(rows[i]) }

  /** The same in every column that the documented check hashes. */
  predicate SameHashed(a: seq<Row>, b: seq<Row>) {
    |a| == |b| && forall i :: 0 <= i < |a| ==> Written(a[i]) == Written(b[i])
  }

  lemma WrittenIsPlain(r: Row)
    requires PlainHashed(r)
    ensures PlainRow(Written(r)) && ByteRow(Written(r))
  {
  }

  lemma PayloadIsByteText(r: Row)
    requires ByteRow(r) && Sha256.ByteText(r.prevHash)
    ensures Sha256.ByteText(Payload(r))
  {
    DecimalIsPlain(r.seqNo);
    DecimalIsPlain(r.monotonic);
    assert Sha256.ByteText("|");
  }

  lemma WriterTextsAreBytes(rows: seq<Row>)
    requires Verified(rows) && PlainNames(rows)
    ensures ByteTexts(rows, WriterText)
  {
    hide Sha256.HashHex, Payload, Sha256.ByteText, ByteRow, PlainHashed;
    forall i | 0 <= i < |rows|
      ensures Sha256.ByteText(WriterText(rows[i]))
    {
      ChainedHashesArePlain(rows, WriterText, i);
      WrittenIsPlain(rows[i]);
      PayloadIsByteText(Written(rows[i]));
      ClipIsByteText(Payload(Written(rows[i])), PAYLOAD_MAX);
    }
  }

  lemma ClipIsByteText(s: string, n: nat)
    requires Sha256.ByteText(s)
    ensures Sha256.ByteText(Clip(s, n))
  {
  }

  /** A row with a short payload shares its hashed text with no row that differs, however long that one is. */
  lemma ShortRowIsBound(r: Row, s: Row)
    requires PlainHashed(r) && PlainHashed(s) && '|' !in r.prevHash && '|' !in s.prevHash
    requires Short(r) && WriterText(r) == WriterText(s)
    ensures Written(r) == Written(s).(eventHash := r.eventHash)
  {
    hide Payload;
    WrittenIsPlain(r);
    WrittenIsPlain(s);
    PayloadInjective(Written(r), Written(s));
  }

  lemma ShortRowsShareLinks(a: seq<Row>, b: seq<Row>)
    requires Verified(a) && Verified(b) && PlainNames(a) && PlainNames(b) && ShortLog(a)
    ensures SameLinks(a, b, WriterText)
  {
    hide Sha256.HashHex, WriterText, Short, PlainHashed;
    forall i, j | 0 <= i < |a| && 0 <= j < |b| && WriterText(a[i]) == WriterText(b[j])
      ensures a[i].prevHash == b[j].prevHash
    {
      ChainedHashesArePlain(a, WriterText, i);
      ChainedHashesArePlain(b, WriterText, j);
      ShortRowIsBound(a[i], b[j]);
    }
  }

  /** A log of short rows that passes the documented check agrees in every hashed column of every row with any
      other log, of rows of any length, that passes it and ends in the same event hash; or two texts hashed at
      the same distance from their ends differ and have the same SHA-256 digest. */
  lemma TamperEvident(a: seq<Row>, b: seq<Row>)
    requires Verified(a) && Verified(b) && a != [] && b != [] && PlainNames(a) && PlainNames(b) && ShortLog(a)
    requires a[|a| - 1].eventHash == b[|b| - 1].eventHash
    ensures SameHashed(a, b) || LogsClash(a, b, WriterText)
  {
    hide Linked, Sha256.HashHex, WriterText, Short, LogsClash, SameLinks, ByteTexts, PlainHashed;
    WriterTextsAreBytes(a);
    WriterTextsAreBytes(b);
    ShortRowsShareLinks(a, b);
    ChainsAgree(a, b, WriterText);
    if SameTexts(a, b, WriterText) {
      forall i | 0 <= i < |a|
        ensures Written(a[i]) == Written(b[i])
      {
        ChainedHashesArePlain(a, WriterText, i);
        ChainedHashesArePlain(b, WriterText, i);
        ShortRowIsBound(a[i], b[i]);
      }
    }
  }

  // ---- What clipping costs

  /** A row whose summary goes on with a copy of what followed it. */
  function Stretched(r: Row): Row {
    r.(summary := r.summary + "|" + DETAILS + "|" + Decimal(r.monotonic) + "|" + r.prevHash)
  }

  lemma StretchedPayload(r: Row)
    ensures Payload(Written(r)) <= Payload(Written(Stretched(r)))
    ensures |Payload(Written(r))| >= PAYLOAD_MAX ==> WriterText(Stretched(r)) == WriterText(r)
    ensures Written(Stretched(r)) != Written(r)
  {
    hide Decimal;
    var w, s := Written(r), Written(Stretched(r));
    var head := r.bootId + "|" + Decimal(r.seqNo) + "|" + r.kind + "|" + SEVERITY + "|" + ACTOR + "|";
    assert Payload(w) == head + Tail(w) && Payload(s) == head + Tail(s);
    assert s.summary == Tail(w);
    assert Payload(s) == Payload(w) + ("|" + DETAILS + "|" + Decimal(r.monotonic) + "|" + r.prevHash);
    assert |s.summary| > |w.summary|;
  }

  /** In any log that passes the check, a row of 1023 bytes or more can be replaced: the log still passes, with
      every hash as it was. */
  lemma LongRowCanBeReplaced(a: seq<Row>, i: nat)
    requires Verified(a) && i < |a| && !Short(a[i])
    ensures var b := a[i := Stretched(a[i])];
            && Verified(b) && (Numbered(a) ==> Numbered(b)) && !SameHashed(a, b) && SameTexts(a, b, WriterText)
            && b[|b| - 1].eventHash == a[|a| - 1].eventHash
  {
    hide Linked, Payload, WriterText, SameTexts;
    var b := a[i := Stretched(a[i])];
    StretchedPayload(a[i]);
    ReplacedRow(a, i, Stretched(a[i]), WriterText);
    assert Written(a[i]) != Written(b[i]);
  }

  lemma ReplacedRow(a: seq<Row>, i: nat, r: Row, text: Row -> string)
    requires Linked(a, text) && i < |a| && text(r) == text(a[i])
    requires r.seqNo == a[i].seqNo && r.prevHash == a[i].prevHash && r.eventHash == a[i].eventHash
    ensures Linked(a[i := r], text) && SameTexts(a, a[i := r], text) && (Numbered(a) ==> Numbered(a[i := r]))
    ensures a[i := r][|a| - 1].eventHash == a[|a| - 1].eventHash
  {
    hide Sha256.HashHex;
    var b := a[i := r];
    forall k | 0 <= k < |a|
      ensures b[k].prevHash == HashBefore(b, k) && b[k].eventHash == Sha256.HashHex(text(b[k]))
      ensures text(a[k]) == text(b[k]) && a[k].eventHash == b[k].eventHash
    {
      assert a[k].prevHash == HashBefore(a, k);
      if k > 0 { assert b[k - 1].eventHash == a[k - 1].eventHash; }
    }
  }

  lemma StretchedIsPlain(rows: seq<Row>, i: nat)
    requires Verified(rows) && PlainNames(rows) && i < |rows|
    ensures PlainNames(rows[i := Stretched(rows[i])])
  {
    hide Sha256.HashHex, WriterText;
    var r := rows[i];
    ChainedHashesArePlain(rows, WriterText, i);
    DecimalIsPlain(r.monotonic);
    assert Sha256.ByteText("|") && Sha256.ByteText(DETAILS);
    assert Sha256.ByteText(Stretched(r).summary);
  }

  lemma SameTextsNeverClash(a: seq<Row>, b: seq<Row>, text: Row -> string)
    requires SameTexts(a, b, text)
    ensures !LogsClash(a, b, text)
  {
    hide Sha256.Bytes, Fips180.Sha256;
    forall k: nat
      ensures !ClashAt(a, b, text, k)
    {
      if k < |a| { assert text(a[|a| - 1 - k]) == text(b[|b| - 1 - k]); }
    }
  }

  /** No other log passes the check with the same last hash, short of two texts with one digest. */
  ghost predicate Pinned(a: seq<Row>)
    requires a != []
  {
    forall b: seq<Row> :: PlainNames(b) && Verified(b) && b != [] && b[|b| - 1].eventHash == a[|a| - 1].eventHash ==>
      SameHashed(a, b) || LogsClash(a, b, WriterText)
  }

  /** A log that passes the documented check is pinned by its last hash exactly when every payload is shorter
      than 1023 bytes. */
  lemma BoundExactlyBelowTheLimit(a: seq<Row>)
    requires Verified(a) && a != [] && PlainNames(a)
    ensures Pinned(a) <==> ShortLog(a)
  {
    hide Verified, PlainNames, Short, SameHashed, LogsClash, Stretched, SameTexts;
    if ShortLog(a) {
      forall b: seq<Row> | PlainNames(b) && Verified(b) && b != [] && b[|b| - 1].eventHash == a[|a| - 1].eventHash
        ensures SameHashed(a, b) || LogsClash(a, b, WriterText)
      {
        TamperEvident(a, b);
      }
    } else {
      var i :| 0 <= i < |a| && !Short(a[i]);
      var b := a[i := Stretched(a[i])];
      LongRowCanBeReplaced(a, i);
      StretchedIsPlain(a, i);
      SameTextsNeverClash(a, b, WriterText);
      assert PlainNames(b) && Verified(b);
    }
  }
}
