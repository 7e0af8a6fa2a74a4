/** One record of the session transcript: the JSON line it becomes, how the line is written piece by piece
    into a bounded buffer, and that reading it back gives the event. */
module TranscriptRecord {
  import opened CText
  import opened JsonText
  import opened JsonLines
  import opened TextBuffer
  import opened Search
  import opened FieldSearch

  datatype Identity = Identity(bootId: string, nodeId: string, hostId: string, firmware: string, arch: string,
                               bootMode: string, cpuModel: string, ramBytes: nat, backend: string, state: string)

  datatype Session = Session(id: string, identity: Identity)

  datatype Record =
    | Entry(kind: string, actor: string, text: string, seqNo: nat)
    | Control(kind: string, text: string, seqNo: nat)
    | Truncation(seqNo: nat)

  const TEXT_MAX: nat := 180

  // ---- Numbers: six digits, less the leading zeros

  function Padded(n: nat, k: nat): (s: string)
    ensures |s| == k
  {
    if k == 0 then "" else Padded(n / 10, k - 1) + [Digit(n % 10)]
  }

  function Six(v: nat): (s: string)
    ensures |s| == 6
  {
    [Digit(v / 100000 % 10), Digit(v / 10000 % 10), Digit(v / 1000 % 10), Digit(v / 100 % 10),
     Digit(v / 10 % 10), Digit(v % 10)]
  }

  function TrimZeros(s: string): string {
    if |s| > 1 && s[0] == '0' then TrimZeros(s[1..]) else s
  }

  function SeqText(n: nat): string { TrimZeros(Six(n)) }

  lemma PaddedStep(n: nat, k: nat)
    ensures Padded(n, k + 1) == Padded(n / 10, k) + [Digit(n % 10)]
  {
  }

  lemma SixIsPadded(v: nat)
    ensures Six(v) == Padded(v, 6)
  {
    hide Padded, Digit;
    var a, b, c, d, e := v / 10, v / 100, v / 1000, v / 10000, v / 100000;
    assert b == a / 10 && c == b / 10 && d == c / 10 && e == d / 10;
    PaddedStep(v, 5);
    PaddedStep(a, 4);
    PaddedStep(b, 3);
    PaddedStep(c, 2);
    PaddedStep(d, 1);
    PaddedStep(e, 0);
  }

  lemma {:induction false} TrimAppend(s: string, c: char)
    requires s != "" && TrimZeros(s) != "0"
    ensures TrimZeros(s + [c]) == TrimZeros(s) + [c]
  {
    if |s| > 1 && s[0] == '0' {
      TrimAppend(s[1..], c);
      assert (s + [c])[1..] == s[1..] + [c];
    }
  }

  lemma {:induction false} TrimAllZeros(k: nat, c: char)
    ensures TrimZeros(Padded(0, k) + [c]) == [c]
  {
    if k == 0 {
      assert Padded(0, k) + [c] == [c];
    } else {
      TrimAllZeros(k - 1, c);
      PaddedZeros(k);
      assert (Padded(0, k) + [c])[1..] == Padded(0, k - 1) + [c];
    }
  }

  lemma {:induction false} PaddedZeros(k: nat)
    requires k > 0
    ensures Padded(0, k)[0] == '0' && Padded(0, k)[1..] == Padded(0, k - 1)
  {
    if k > 1 {
      PaddedZeros(k - 1);
      assert Padded(0, k)[1..] == Padded(0, k - 1)[1..] + ['0'];
    }
  }

  function Power10(k: nat): (p: nat)
    ensures p > 0
  {
    if k == 0 then 1 else 10 * Power10(k - 1)
  }

  lemma {:induction false} TrimPadded(n: nat, k: nat)
    requires k > 0 && n < Power10(k)
    ensures TrimZeros(Padded(n, k)) == Decimal(n)
  {
    if n < 10 {
      assert Padded(n, k) == Padded(0, k - 1) + [Digit(n)];
      TrimAllZeros(k - 1, Digit(n));
    } else {
      assert k > 1;
      TrimPadded(n / 10, k - 1);
      DecimalNotZero(n / 10);
      TrimAppend(Padded(n / 10, k - 1), Digit(n % 10));
    }
  }

  lemma DecimalNotZero(n: nat)
    requires n > 0
    ensures Decimal(n) != "0"
  {
    DecimalRoundTrip(n);
    DecimalRoundTrip(0);
  }

  /** Below a million the printed number is the number. */
  lemma SeqTextIsDecimal(n: nat)
    requires n < 1000000
    ensures SeqText(n) == Decimal(n)
  {
    SixIsPadded(n);
    assert Power10(6) == 1000000;
    TrimPadded(n, 6);
  }

  lemma {:induction false} TrimZerosDigits(s: string)
    requires Bare(s)
    ensures Bare(TrimZeros(s)) && |TrimZeros(s)| <= |s|
  {
    if |s| > 1 && s[0] == '0' {
      TrimZerosDigits(s[1..]);
    }
  }

  lemma SeqTextDigits(n: nat)
    ensures Bare(SeqText(n)) && |SeqText(n)| <= 6
  {
    TrimZerosDigits(Six(n));
  }

  // ---- Escaping

  function EscapeChar(c: char): string {
    if c == '"' then "\\\"" else if c == '\\' then "\\\\" else if c == '\n' then "\\n"
    else if c == '\r' then "\\r" else [c]
  }

  function Escape(text: string): string {
    if text == "" then "" else EscapeChar(text[0]) + Escape(text[1..])
  }

  lemma {:induction false} EscapeAppend(text: string, c: char)
    ensures Escape(text + [c]) == Escape(text) + EscapeChar(c)
  {
    hide EscapeChar;
    if text == "" {
      assert text + [c] == [c];
    } else {
      EscapeAppend(text[1..], c);
      assert (text + [c])[1..] == text[1..] + [c];
    }
  }

  lemma ScanEscaped(d: char, rest: string)
    requires EscapeMeaning(d).Some? && ScanString(rest).Some?
    ensures ScanString(['\\', d] + rest)
         == Some(Scan([EscapeMeaning(d).value] + ScanString(rest).value.value, ScanString(rest).value.rest))
  {
    assert (['\\', d] + rest)[2..] == rest;
  }

  lemma ScanUnescaped(c: char, rest: string)
    requires c != '\\' && c != '"' && ScanString(rest).Some?
    ensures ScanString([c] + rest) == Some(Scan([c] + ScanString(rest).value.value, ScanString(rest).value.rest))
  {
    assert ([c] + rest)[1..] == rest;
  }

  lemma EscapedMeaning(c: char)
    ensures var e := EscapeChar(c);
            (e == [c] && c != '\\' && c != '"') || (|e| == 2 && e[0] == '\\' && EscapeMeaning(e[1]) == Some(c))
  {
  }

  /** One more escaped character in front of encoded content. */
  lemma EscapeCharScans(c: char, content: string, text: string)
    requires Encodes(content, text)
    ensures Encodes(EscapeChar(c) + content, [c] + text)
  {
    hide ScanString, EscapeChar, EscapeMeaning;
    var e, rest := EscapeChar(c), content + "\"";
    assert e + content + "\"" == e + rest;
    EscapedMeaning(c);
    if e == [c] && c != '\\' && c != '"' {
      ScanUnescaped(c, rest);
    } else {
      assert e == ['\\', e[1]];
      ScanEscaped(e[1], rest);
    }
  }

  lemma {:induction false} EscapeEncodes(text: string)
    ensures Encodes(Escape(text), text)
  {
    hide EscapeChar;
    if text == "" {
      assert ("" + "\"")[1..] == "";
    } else {
      hide Encodes;
      EscapeEncodes(text[1..]);
      EscapeCharScans(text[0], Escape(text[1..]), text[1..]);
      assert text == [text[0]] + text[1..];
    }
  }

  lemma {:induction false} EscapeShape(text: string)
    ensures NoLineFeed(Escape(text)) && |Escape(text)| <= 2 * |text|
  {
    if text != "" {
      EscapeShape(text[1..]);
    }
  }

  /** A control character that is not escaped goes through raw. */
  predicate Tame(c: char) { c as int >= 0x20 || c == '\n' || c == '\r' }

  lemma EscapeCharLegal(c: char, content: string)
    ensures LegalContent(EscapeChar(c) + content) <==> Tame(c) && LegalContent(content)
  {
    if |EscapeChar(c)| == 2 {
      assert (EscapeChar(c) + content)[2..] == content;
    } else {
      assert (EscapeChar(c) + content)[1..] == content;
    }
  }

  /** The escaped text is a legal JSON string exactly when the text has no control character besides the
      two that are escaped: a TAB, say, goes through raw. */
  lemma {:induction false} EscapeLegal(text: string)
    ensures LegalContent(Escape(text)) <==> forall i :: 0 <= i < |text| ==> Tame(text[i])
  {
    hide EscapeChar, Tame;
    if text == "" {
      assert LegalContent("");
    } else {
      hide LegalContent;
      EscapeLegal(text[1..]);
      EscapeCharLegal(text[0], Escape(text[1..]));
      assert forall i :: 1 <= i < |text| ==> text[i] == text[1..][i - 1];
    }
  }

  // ---- The fields of a record

  function IdentityFields(s: Session): seq<Field> {
    [Quoted("session_id", s.id), Quoted("boot_id", s.identity.bootId), Quoted("node_id", s.identity.nodeId),
     Quoted("host_id", s.identity.hostId), Quoted("firmware", s.identity.firmware),
     Quoted("arch", s.identity.arch), Quoted("boot_mode", s.identity.bootMode),
     Quoted("cpu_model", s.identity.cpuModel), Number("ram_bytes", Decimal(s.identity.ramBytes)),
     Quoted("storage_backend", s.identity.backend), Quoted("storage_state", s.identity.state)]
  }

  function EventFields(kind: string, actor: string, content: string, text: string, seqNo: nat): seq<Field> {
    [Quoted("event_type", kind), Quoted("actor", actor), Escaped("text", content, text), Number("seq", SeqText(seqNo))]
  }

  function Fields(s: Session, r: Record): (fs: seq<Field>)
    ensures |fs| >= 4
  {
    match r
    case Entry(kind, actor, text, n) =>
      IdentityFields(s) + EventFields(kind, actor, Escape(Clip(text, TEXT_MAX)), Clip(text, TEXT_MAX), n)
    case Control(kind, text, n) => IdentityFields(s) + EventFields(kind, "system", text, text, n)
    case Truncation(n) =>
      [Quoted("session_id", s.id)]
      + EventFields("transcript_truncated", "system", "jsonl capacity reached", "jsonl capacity reached", n)
  }

  /** The longest line that fits the local buffer it is built in. */
  function LineMax(r: Record): nat {
    if r.Entry? then 1023 else if r.Control? then 511 else 255
  }

  /** What is appended to the transcript for a record. */
  function Stored(s: Session, r: Record): string { Clip(Line(Fields(s, r)), LineMax(r)) }

  predicate PlainSession(s: Session) {
    var i := s.identity;
    && Plain(s.id) && Plain(i.bootId) && Plain(i.nodeId) && Plain(i.hostId) && Plain(i.firmware)
    && Plain(i.arch) && Plain(i.bootMode) && Plain(i.cpuModel) && Plain(i.backend) && Plain(i.state)
  }

  predicate PlainRecord(r: Record) {
    match r
    case Entry(kind, actor, _, _) => Plain(kind) && Plain(actor)
    case Control(kind, text, _) => Plain(kind) && Plain(text)
    case Truncation(_) => true
  }

  lemma PlainFieldWellFormed(key: string, value: string)
    requires Word(key) && Plain(value)
    ensures WellFormed(Quoted(key, value))
  {
    PlainEncodesItself(value);
  }

  lemma DecimalWellFormed(key: string, n: nat)
    requires Word(key)
    ensures WellFormed(Number(key, Decimal(n)))
  {
    var d := Decimal(n);
    forall i | 0 <= i < |d| ensures BareChar(d[i]) { assert d[i] in d; }
    assert forall c :: c in d ==> c != '\n';
  }

  lemma IdentityWellFormed(s: Session)
    requires PlainSession(s)
    ensures AllWellFormed(IdentityFields(s))
  {
    hide WellFormed, Plain;
    var i := s.identity;
    PlainFieldWellFormed("session_id", s.id);
    PlainFieldWellFormed("boot_id", i.bootId);
    PlainFieldWellFormed("node_id", i.nodeId);
    PlainFieldWellFormed("host_id", i.hostId);
    PlainFieldWellFormed("firmware", i.firmware);
    PlainFieldWellFormed("arch", i.arch);
    PlainFieldWellFormed("boot_mode", i.bootMode);
    PlainFieldWellFormed("cpu_model", i.cpuModel);
    DecimalWellFormed("ram_bytes", i.ramBytes);
    PlainFieldWellFormed("storage_backend", i.backend);
    PlainFieldWellFormed("storage_state", i.state);
  }

  lemma EventWellFormed(kind: string, actor: string, content: string, text: string, n: nat)
    requires Plain(kind) && Plain(actor) && Encodes(content, text) && NoLineFeed(content)
    ensures AllWellFormed(EventFields(kind, actor, content, text, n))
  {
    hide Plain, Encodes, Bare, SeqText;
    PlainFieldWellFormed("event_type", kind);
    PlainFieldWellFormed("actor", actor);
    SeqTextDigits(n);
    BareNoLineFeed(SeqText(n));
  }

  lemma BareNoLineFeed(s: string)
    requires Bare(s)
    ensures NoLineFeed(s)
  {
  }

  lemma FieldsWellFormed(s: Session, r: Record)
    requires PlainSession(s) && PlainRecord(r)
    ensures AllWellFormed(Fields(s, r))
  {
    hide WellFormed, IdentityFields, EventFields, Encodes;
    match r
    case Entry(kind, actor, text, n) =>
      var t := Clip(text, TEXT_MAX);
      EscapeEncodes(t);
      EscapeShape(t);
      EventWellFormed(kind, actor, Escape(t), t, n);
      IdentityWellFormed(s);
    case Control(kind, text, n) =>
      PlainEncodesItself(text);
      EventWellFormed(kind, "system", text, text, n);
      IdentityWellFormed(s);
    case Truncation(n) =>
      PlainEncodesItself("jsonl capacity reached");
      EventWellFormed("transcript_truncated", "system", "jsonl capacity reached", "jsonl capacity reached", n);
      PlainFieldWellFormed("session_id", s.id);
  }

  // ---- Line lengths

  function RenderedLength(fs: seq<Field>): nat {
    if fs == [] then 0
    else RenderedLength(fs[1..]) + |fs[0].key| + |fs[0].content| + (if fs[0].quoted then 6 else 4)
  }

  lemma {:induction false} LineLength(fs: seq<Field>)
    requires fs != []
    ensures |Renders(fs)| == RenderedLength(fs) - 1
  {
    if |fs| > 1 {
      LineLength(fs[1..]);
    } else {
      assert fs[1..] == [];
    }
  }

  lemma {:induction false} RenderedLengthAppend(xs: seq<Field>, ys: seq<Field>)
    ensures RenderedLength(xs + ys) == RenderedLength(xs) + RenderedLength(ys)
  {
    if xs == [] {
      assert xs + ys == ys;
    } else {
      RenderedLengthAppend(xs[1..], ys);
      assert (xs + ys)[1..] == xs[1..] + ys;
    }
  }

  /** How many bytes the identity of a session puts on every line. */
  function IdentityLength(s: Session): nat {
    var i := s.identity;
    |s.id| + |i.bootId| + |i.nodeId| + |i.hostId| + |i.firmware| + |i.arch| + |i.bootMode| + |i.cpuModel|
    + |Decimal(i.ramBytes)| + |i.backend| + |i.state|
  }

  lemma IdentityFieldsLength(s: Session)
    ensures RenderedLength(IdentityFields(s)) == IdentityLength(s) + 162
  {
    hide RenderedLength;
    var i := s.identity;
    var a := [Quoted("session_id", s.id), Quoted("boot_id", i.bootId), Quoted("node_id", i.nodeId)];
    var b := [Quoted("host_id", i.hostId), Quoted("firmware", i.firmware), Quoted("arch", i.arch)];
    var c := [Quoted("boot_mode", i.bootMode), Quoted("cpu_model", i.cpuModel),
              Number("ram_bytes", Decimal(i.ramBytes))];
    var d := [Quoted("storage_backend", i.backend), Quoted("storage_state", i.state)];
    assert IdentityFields(s) == a + (b + (c + d));
    RenderedLengthAppend(a, b + (c + d));
    RenderedLengthAppend(b, c + d);
    RenderedLengthAppend(c, d);
    ThreeLengths(a);
    ThreeLengths(b);
    ThreeLengths(c);
    TwoLengths(d);
  }

  function FieldLength(f: Field): nat { |f.key| + |f.content| + (if f.quoted then 6 else 4) }

  lemma TwoLengths(fs: seq<Field>)
    requires |fs| == 2
    ensures RenderedLength(fs) == FieldLength(fs[0]) + FieldLength(fs[1])
  {
    OneLength(fs[1..]);
  }

  lemma OneLength(fs: seq<Field>)
    requires |fs| == 1
    ensures RenderedLength(fs) == FieldLength(fs[0])
  {
    assert fs[1..] == [];
  }

  lemma ThreeLengths(fs: seq<Field>)
    requires |fs| == 3
    ensures RenderedLength(fs) == FieldLength(fs[0]) + FieldLength(fs[1]) + FieldLength(fs[2])
  {
    TwoLengths(fs[1..]);
  }

  lemma EventFieldsLength(kind: string, actor: string, content: string, text: string, n: nat)
    ensures RenderedLength(EventFields(kind, actor, content, text, n))
         == |kind| + |actor| + |content| + |SeqText(n)| + 44
  {
    hide SeqText;
    var fs := EventFields(kind, actor, content, text, n);
    ThreeLengths(fs[1..]);
  }

  lemma RecordLength(s: Session, r: Record)
    ensures |Line(Fields(s, r))| == 2 + match r
      case Entry(kind, actor, text, n) =>
        IdentityLength(s) + 206 + |kind| + |actor| + |Escape(Clip(text, TEXT_MAX))| + |SeqText(n)|
      case Control(kind, text, n) => IdentityLength(s) + 212 + |kind| + |text| + |SeqText(n)|
      case Truncation(n) => |s.id| + 108 + |SeqText(n)|
  {
    hide SeqText, IdentityFields, EventFields, IdentityLength;
    LineLength(Fields(s, r));
    IdentityFieldsLength(s);
    match r
    case Entry(kind, actor, text, n) =>
      var t := Clip(text, TEXT_MAX);
      EventFieldsLength(kind, actor, Escape(t), t, n);
      RenderedLengthAppend(IdentityFields(s), EventFields(kind, actor, Escape(t), t, n));
    case Control(kind, text, n) =>
      EventFieldsLength(kind, "system", text, text, n);
      RenderedLengthAppend(IdentityFields(s), EventFields(kind, "system", text, text, n));
    case Truncation(n) =>
      EventFieldsLength("transcript_truncated", "system", "jsonl capacity reached", "jsonl capacity reached", n);
      RenderedLengthAppend([Quoted("session_id", s.id)],
        EventFields("transcript_truncated", "system", "jsonl capacity reached", "jsonl capacity reached", n));
      assert [Quoted("session_id", s.id)][1..] == [];
  }

  predicate Fits(s: Session, r: Record) { |Line(Fields(s, r))| <= LineMax(r) }

  /** How long the fields of a record may be so that its line is never clipped, whatever the text holds. */
  predicate Narrow(s: Session, r: Record) {
    match r
    case Entry(kind, actor, _, _) => IdentityLength(s) + |kind| + |actor| <= 449
    case Control(kind, text, _) => IdentityLength(s) + |kind| + |text| <= 291
    case Truncation(_) => |s.id| <= 139
  }

  lemma NarrowFits(s: Session, r: Record)
    requires Narrow(s, r)
    ensures Fits(s, r)
  {
    hide Line, SeqText, Escape, IdentityLength;
    RecordLength(s, r);
    SeqTextDigits(r.seqNo);
    if r.Entry? {
      EscapeShape(Clip(r.text, TEXT_MAX));
    }
  }

  /** A stored record is a whole line exactly when its line was not clipped. */
  lemma WholeExactlyWhenItFits(s: Session, r: Record)
    requires PlainSession(s) && PlainRecord(r)
    ensures IsLine(Stored(s, r)) <==> Fits(s, r)
  {
    hide Line, Fields;
    FieldsWellFormed(s, r);
    WellFormedScans(Fields(s, r));
    OneLineFeed(Fields(s, r));
    var line, stored := Line(Fields(s, r)), Stored(s, r);
    if |line| > LineMax(r) {
      assert stored[|stored| - 1] == line[..|line| - 1][|stored| - 1];
    }
  }

  // ---- Reading the records back

  /** What a reader learns from a line. */
  datatype Seen = Seen(kind: string, actor: string, text: string, number: string)

  function Lookup(ms: seq<Member>, key: string): string {
    if ms == [] then ""
    else if ms[|ms| - 1].key == key then ms[|ms| - 1].value
    else Lookup(ms[..|ms| - 1], key)
  }

  function SeenIn(line: string): Option<Seen> {
    match ReadLine(line)
    case None => None
    case Some(ms) =>
      Some(Seen(Lookup(ms, "event_type"), Lookup(ms, "actor"), Lookup(ms, "text"), Lookup(ms, "seq")))
  }

  function Shown(r: Record): Seen {
    match r
    case Entry(kind, actor, text, n) => Seen(kind, actor, Clip(text, 180), SeqText(n))
    case Control(kind, text, n) => Seen(kind, "system", text, SeqText(n))
    case Truncation(n) => Seen("transcript_truncated", "system", "jsonl capacity reached", SeqText(n))
  }

  lemma LookupStep(ms: seq<Member>, m: Member, key: string)
    ensures Lookup(ms + [m], key) == if m.key == key then m.value else Lookup(ms, key)
  {
    assert (ms + [m])[..|ms|] == ms;
  }

  lemma LookupLastFour(front: seq<Member>, a: string, b: string, c: string, d: string)
    ensures var ms := front + [Member("event_type", a)] + [Member("actor", b)]
              + [Member("text", c)] + [Member("seq", d)];
            (Lookup(ms, "event_type") == a && Lookup(ms, "actor") == b
             && Lookup(ms, "text") == c && Lookup(ms, "seq") == d)
  {
    hide Lookup;
    assert |"event_type"| == 10 && |"actor"| == 5 && |"text"| == 4 && |"seq"| == 3;
    var x := front + [Member("event_type", a)];
    var y := x + [Member("actor", b)];
    var z := y + [Member("text", c)];
    LookupSteps(z, Member("seq", d));
    LookupSteps(y, Member("text", c));
    LookupSteps(x, Member("actor", b));
    LookupSteps(front, Member("event_type", a));
  }

  lemma LookupSteps(ms: seq<Member>, m: Member)
    ensures forall key :: Lookup(ms + [m], key) == if m.key == key then m.value else Lookup(ms, key)
  {
    forall key
      ensures Lookup(ms + [m], key) == if m.key == key then m.value else Lookup(ms, key)
    {
      LookupStep(ms, m, key);
    }
  }

  /** Reading a stored record gives its type, its actor, the first 180 bytes of its text and its number. */
  lemma StoredReadsBack(s: Session, r: Record)
    requires PlainSession(s) && PlainRecord(r) && Fits(s, r)
    ensures SeenIn(Stored(s, r)) == Some(Shown(r))
  {
    hide Line, ReadLine, SeqText, Escape, IdentityFields, Lookup;
    var fs := Fields(s, r);
    FieldsWellFormed(s, r);
    WellFormedScans(fs);
    ReadBack(fs);
    var seen := Shown(r);
    var ms := Members(fs);
    var front := ms[..|ms| - 4];
    LookupLastFour(front, seen.kind, seen.actor, seen.text, seen.number);
    assert ms == front + [Member("event_type", seen.kind)] + [Member("actor", seen.actor)]
                 + [Member("text", seen.text)] + [Member("seq", seen.number)];
  }

  /** What a reader learns of the session; a truncation record names only its id. */
  datatype Who = Who(sessionId: string, bootId: string, nodeId: string, hostId: string, firmware: string, arch: string,
                     bootMode: string, cpuModel: string, ramBytes: string, backend: string, state: string)

  function WhoIn(line: string): Option<Who> {
    match ReadLine(line)
    case None => None
    case Some(ms) =>
      Some(Who(Lookup(ms, "session_id"), Lookup(ms, "boot_id"), Lookup(ms, "node_id"), Lookup(ms, "host_id"),
               Lookup(ms, "firmware"), Lookup(ms, "arch"), Lookup(ms, "boot_mode"), Lookup(ms, "cpu_model"),
               Lookup(ms, "ram_bytes"), Lookup(ms, "storage_backend"), Lookup(ms, "storage_state")))
  }

  function WhoOf(s: Session, r: Record): Who {
    var i := s.identity;
    if r.Truncation? then Who(s.id, "", "", "", "", "", "", "", "", "", "")
    else Who(s.id, i.bootId, i.nodeId, i.hostId, i.firmware, i.arch, i.bootMode, i.cpuModel, Decimal(i.ramBytes),
             i.backend, i.state)
  }

  const KEYS := ["session_id", "boot_id", "node_id", "host_id", "firmware", "arch", "boot_mode", "cpu_model",
                 "ram_bytes", "storage_backend", "storage_state", "event_type", "actor", "text", "seq"]

  // Every key is told by its length and its first character.
  const KEY_LENGTHS: seq<nat> := [10, 7, 7, 7, 8, 4, 9, 9, 9, 15, 13, 10, 5, 4, 3]
  const KEY_LETTERS: string := ['s', 'b', 'n', 'h', 'f', 'a', 'b', 'c', 'r', 's', 's', 'e', 'a', 't', 's']

  lemma KeysDiffer(i: nat, j: nat)
    requires i < j < |KEYS|
    ensures KEYS[i] != KEYS[j]
  {
    KeyShape(i);
    KeyShape(j);
    ShapesDiffer(i, j);
  }

  lemma KeyCount()
    ensures |KEYS| == 15
  {
  }

  lemma KeyShape(i: nat)
    requires i < |KEYS|
    ensures |KEYS[i]| == KEY_LENGTHS[i] && KEYS[i][0] == KEY_LETTERS[i]
  {
  }

  lemma ShapesDiffer(i: nat, j: nat)
    requires i < j < |KEY_LENGTHS|
    ensures KEY_LENGTHS[i] != KEY_LENGTHS[j] || KEY_LETTERS[i] != KEY_LETTERS[j]
  {
  }

  lemma {:induction false} LookupAt(ms: seq<Member>, i: nat, key: string)
    requires i < |ms| && ms[i].key == key && forall j :: i < j < |ms| ==> ms[j].key != key
    ensures Lookup(ms, key) == ms[i].value
    decreases |ms|
  {
    if i < |ms| - 1 {
      LookupAt(ms[..|ms| - 1], i, key);
    }
  }

  lemma {:induction false} LookupNothing(ms: seq<Member>, key: string)
    requires forall j :: 0 <= j < |ms| ==> ms[j].key != key
    ensures Lookup(ms, key) == ""
    decreases |ms|
  {
    if ms != [] {
      LookupNothing(ms[..|ms| - 1], key);
    }
  }

  /** Members under the keys of a full record, in order: each is found under its key. */
  lemma LookupKey(ms: seq<Member>, i: nat)
    requires |ms| == |KEYS| && i < |KEYS| && forall j :: 0 <= j < |ms| ==> ms[j].key == KEYS[j]
    ensures Lookup(ms, KEYS[i]) == ms[i].value
  {
    hide KEYS;
    forall j | i < j < |ms|
      ensures ms[j].key != KEYS[i]
    {
      KeysDiffer(i, j);
    }
    LookupAt(ms, i, KEYS[i]);
  }

  /** The same in a truncation record, whose members are the first and the last four. */
  lemma LookupTruncated(ms: seq<Member>, i: nat)
    requires |ms| == 5 && i < 11 && ms[0].key == KEYS[0]
    requires forall j :: 1 <= j < 5 ==> ms[j].key == KEYS[10 + j]
    ensures Lookup(ms, KEYS[i]) == if i == 0 then ms[0].value else ""
  {
    hide KEYS;
    KeyCount();
    forall j | 1 <= j < 5
      ensures ms[j].key != KEYS[i]
    {
      KeysDiffer(i, 10 + j);
    }
    if i == 0 {
      LookupAt(ms, 0, KEYS[0]);
    } else {
      KeysDiffer(0, i);
      LookupNothing(ms, KEYS[i]);
    }
  }

  lemma FullMembers(s: Session, r: Record)
    requires !r.Truncation?
    ensures var ms := Members(Fields(s, r));
            && |ms| == |KEYS| && (forall j :: 0 <= j < |ms| ==> ms[j].key == KEYS[j])
            && WhoOf(s, r) == Who(ms[0].value, ms[1].value, ms[2].value, ms[3].value, ms[4].value, ms[5].value,
                                  ms[6].value, ms[7].value, ms[8].value, ms[9].value, ms[10].value)
  {
    hide SeqText, Escape, Decimal, Clip;
  }

  /** Reading a stored record gives the session's own values under every key. */
  lemma IdentityReadsBack(s: Session, r: Record)
    requires PlainSession(s) && PlainRecord(r) && Fits(s, r)
    ensures WhoIn(Stored(s, r)) == Some(WhoOf(s, r))
  {
    hide Line, ReadLine, SeqText, Escape, IdentityFields, Lookup, Decimal;
    var fs := Fields(s, r);
    FieldsWellFormed(s, r);
    WellFormedScans(fs);
    ReadBack(fs);
    if r.Truncation? {
      forall i: nat | i < 11 ensures Lookup(Members(fs), KEYS[i]) == if i == 0 then s.id else "" {
        LookupTruncated(Members(fs), i);
      }
    } else {
      FullMembers(s, r);
      forall i: nat | i < 11 ensures Lookup(Members(fs), KEYS[i]) == Members(fs)[i].value {
        LookupKey(Members(fs), i);
      }
    }
    KeysInOrder();
  }

  lemma KeysInOrder()
    ensures KEYS[0] == "session_id" && KEYS[1] == "boot_id" && KEYS[2] == "node_id" && KEYS[3] == "host_id"
    ensures KEYS[4] == "firmware" && KEYS[5] == "arch" && KEYS[6] == "boot_mode" && KEYS[7] == "cpu_model"
    ensures KEYS[8] == "ram_bytes" && KEYS[9] == "storage_backend" && KEYS[10] == "storage_state"
  {
  }

  function StoredLines(s: Session, rs: seq<Record>): seq<string> {
    seq(|rs|, i requires 0 <= i < |rs| => Stored(s, rs[i]))
  }

  /** The text of a run of records. */
  function Body(s: Session, rs: seq<Record>): string { Concat(StoredLines(s, rs)) }

  predicate Readable(s: Session, rs: seq<Record>) {
    PlainSession(s) && forall i :: 0 <= i < |rs| ==> PlainRecord(rs[i]) && Fits(s, rs[i])
  }

  /** Splitting a body at its line feeds and reading each line recovers the exact list of events. */
  lemma BodyReadsBack(s: Session, rs: seq<Record>)
    requires Readable(s, rs)
    ensures var lines := SplitLines(Body(s, rs));
            |lines| == |rs|
            && forall i :: 0 <= i < |rs| ==>
                 SeenIn(lines[i]) == Some(Shown(rs[i])) && WhoIn(lines[i]) == Some(WhoOf(s, rs[i]))
  {
    hide Stored, SeenIn, WhoIn, WhoOf, Shown, Fits, PlainSession, PlainRecord;
    var lines := StoredLines(s, rs);
    forall i | 0 <= i < |rs|
      ensures IsLine(lines[i]) && SeenIn(lines[i]) == Some(Shown(rs[i])) && WhoIn(lines[i]) == Some(WhoOf(s, rs[i]))
    {
      IdentityReadsBack(s, rs[i]);
      WholeExactlyWhenItFits(s, rs[i]);
      StoredReadsBack(s, rs[i]);
    }
    SplitConcat(lines);
  }

  lemma BodyAppend(s: Session, rs: seq<Record>, r: Record)
    ensures Body(s, rs + [r]) == Body(s, rs) + Stored(s, r)
  {
    hide Stored;
    assert StoredLines(s, rs + [r]) == StoredLines(s, rs) + [Stored(s, r)];
    ConcatAppend(StoredLines(s, rs), Stored(s, r));
  }

  // ---- Searching for an event type

  lemma EventTypeField(front: seq<Field>, kind: string, actor: string, content: string, text: string,
                       n: nat, key: string)
    requires Plain(kind)
    requires forall j :: 0 <= j < |front| ==> front[j].key != "event_type"
    ensures HasField(front + EventFields(kind, actor, content, text, n), "event_type", key) <==> kind == key
  {
    hide Pieces, SeqText;
    NoQuoteOnePiece(kind);
    var fs := front + EventFields(kind, actor, content, text, n);
    assert fs[|front|].key == "event_type";
    assert FieldAt(fs, |front|, "event_type", key) <==> kind == key;
    forall j | 0 <= j < |fs| && j != |front|
      ensures fs[j].key != "event_type"
    {
      assert j > |front| ==> |fs[j].key| < 10;
    }
  }

  /** The search for an event type finds it exactly when some record really has that type, whatever the
      texts of the records say. */
  lemma EventTypeSearchExact(s: Session, rs: seq<Record>, kind: string)
    requires Readable(s, rs) && Word(kind)
    ensures Occurs(Body(s, rs), Needle("event_type", kind)) <==> exists i :: 0 <= i < |rs| && Shown(rs[i]).kind == kind
  {
    hide Line, AllWellFormed, Occurs, HasField, PlainRecord, PlainSession, Shown, Fields;
    var body := seq(|rs|, i requires 0 <= i < |rs| => Fields(s, rs[i]));
    forall i | 0 <= i < |rs|
      ensures AllWellFormed(body[i]) && (HasField(body[i], "event_type", kind) <==> Shown(rs[i]).kind == kind)
    {
      FieldsWellFormed(s, rs[i]);
      RecordEventType(s, rs[i], kind);
    }
    assert LinesOf(body) == StoredLines(s, rs);
    BodySearchExact(body, "event_type", kind);
  }

  lemma RecordEventType(s: Session, r: Record, kind: string)
    requires PlainRecord(r)
    ensures HasField(Fields(s, r), "event_type", kind) <==> Shown(r).kind == kind
  {
    hide EventFields, HasField, SeqText, Escape;
    var ids := IdentityFields(s);
    forall j | 0 <= j < |ids|
      ensures ids[j].key != "event_type"
    {
      assert |ids[j].key| == 10 ==> ids[j].key[0] == 's';
    }
    match r
    case Entry(k, actor, text, n) =>
      var t := Clip(text, TEXT_MAX);
      EventTypeField(ids, k, actor, Escape(t), t, n, kind);
    case Control(k, text, n) => EventTypeField(ids, k, "system", text, text, n, kind);
    case Truncation(n) =>
      assert "session_id"[0] == 's';
      EventTypeField([Quoted("session_id", s.id)], "transcript_truncated", "system", "jsonl capacity reached",
                     "jsonl capacity reached", n, kind);
  }

  // ---- The code that builds a line

  method EscapeText(text: string) returns (content: string)
    ensures content == Escape(Clip(text, TEXT_MAX))
  {
    content := "";
    var n := 0;
    while n < |text| && n < TEXT_MAX
      invariant n <= |text| && n <= TEXT_MAX
      invariant content == Escape(text[..n])
    {
      EscapeAppend(text[..n], text[n]);
      assert text[..n + 1] == text[..n] + [text[n]];
      content := content + EscapeChar(text[n]);
      n := n + 1;
    }
    assert text[..n] == Clip(text, TEXT_MAX);
  }

  method SeqDigits(v: nat) returns (digits: string)
    ensures digits == SeqText(v)
  {
    var seqText := Six(v);
    var m := 0;
    while m + 1 < |seqText| && seqText[m] == '0'
      invariant m < |seqText|
      invariant TrimZeros(seqText[m..]) == TrimZeros(seqText)
    {
      assert seqText[m..][1..] == seqText[m + 1..];
      m := m + 1;
    }
    digits := seqText[m..];
  }

  /** Writes the fields one literal and one value at a time, each clipped to what the buffer still holds. */
  method WriteFields(line: Buffer, fs: seq<Field>)
    requires line.Valid() && fs != []
    modifies line, line.data
    ensures line.Valid() && line.Text() == Clip(Opened(fs), line.Max())
  {
    hide Opened, Between, Open, Clip;
    line.Reset();
    var _ := line.Append("{" + Open(fs[0]));
    FirstOpened(fs);
    for i := 1 to |fs|
      invariant line.Valid() && line.Text() == Clip(Opened(fs[..i]), line.Max())
    {
      ghost var before := Opened(fs[..i]);
      WriteField(line, fs[i - 1], fs[i], before);
      OpenedAppend(fs[..i], fs[i]);
      assert fs[..i + 1] == fs[..i] + [fs[i]];
    }
    assert fs[..|fs|] == fs;
  }

  /** What stands between two fields' contents, and the second content. */
  method WriteField(line: Buffer, f: Field, g: Field, ghost before: string)
    requires line.Valid() && line.Text() == Clip(before, line.Max())
    modifies line, line.data
    ensures line.Valid() && line.Text() == Clip(before + Between(f, g) + g.content, line.Max())
  {
    hide Between, Clip;
    var _ := line.Append(Between(f, g));
    ClipAppend(before, Between(f, g), line.Max());
    var _ := line.Append(g.content);
    ClipAppend(before + Between(f, g), g.content, line.Max());
  }

  lemma FirstOpened(fs: seq<Field>)
    requires fs != []
    ensures Opened(fs[..1]) == "{" + Open(fs[0]) && "" + ("{" + Open(fs[0])) == "{" + Open(fs[0])
  {
  }

  method BuildLine(line: Buffer, s: Session, r: Record)
    requires line.Valid() && line.Max() == LineMax(r)
    modifies line, line.data
    ensures line.Valid() && line.Text() == Stored(s, r)
  {
    hide Opened, Renders, Quote, SeqText, Escape, IdentityFields;
    var number := SeqDigits(r.seqNo);
    var fs: seq<Field>;
    match r {
      case Entry(kind, actor, text, n) =>
        var content := EscapeText(text);
        fs := IdentityFields(s) + [Quoted("event_type", kind), Quoted("actor", actor),
                                   Escaped("text", content, Clip(text, TEXT_MAX)), Number("seq", number)];
      case Control(kind, text, n) =>
        fs := IdentityFields(s) + [Quoted("event_type", kind), Quoted("actor", "system"),
                                   Quoted("text", text), Number("seq", number)];
      case Truncation(n) =>
        fs := [Quoted("session_id", s.id), Quoted("event_type", "transcript_truncated"), Quoted("actor", "system"),
               Quoted("text", "jsonl capacity reached"), Number("seq", number)];
    }
    assert fs == Fields(s, r);
    WriteFields(line, fs);
    var end := Quote(fs[|fs| - 1]) + "}\n";
    var _ := line.Append(end);
    ClipAppend(Opened(fs), end, line.Max());
    OpenedThenClosed(fs);
    assert Opened(fs) + end == Opened(fs) + Quote(fs[|fs| - 1]) + "}\n";
  }
}
