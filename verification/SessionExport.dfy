/** The machine-readable session export: the seven lines of the report, the part paths it derives from the
    transcript's name, and why its buffer is always large enough. */
module SessionExport {
  import opened CText
  import opened JsonText
  import opened JsonLines
  import opened TextBuffer
  import opened JsonlExport
  import TextStore
  import TranscriptRecord
  import TranscriptPaths

  // ---- What is reported

  datatype Firmware = Hosted | Uefi | Other

  datatype Hardware = Hardware(
    cpuArch: string, cpuModel: string, ramBytes: nat, firmwareType: string, consoleType: string,
    displays: int, keyboards: int, mice: int, audio: int, microphones: int, net: int, ethernet: int, wifi: int,
    storage: int, usb: int, usbControllers: int, detectedAt: nat)

  datatype StorageStatus = StorageStatus(
    initialized: bool, writable: bool, attempted: bool, verified: bool, backend: string, rootHint: string,
    lastError: string)

  datatype Identity = Identity(bootId: string, nodeId: string)

  datatype Context = Context(
    arch: string, firmware: Firmware, identity: Option<Identity>, consoleReady: bool, auditReady: bool,
    proposalReady: bool, nodeReady: bool, peers: nat, pending: nat, hardware: Option<Hardware>,
    storage: StorageStatus, txtPath: string, jsonlPath: string, transcriptState: string)

  const REPORT_PATH := "/vita/export/reports/last-session.jsonl"
  const REPORT_MAX: nat := 4095

  function OrElse(text: string, fallback: string): string { if text != "" then text else fallback }

  function FirmwareName(f: Firmware): string {
    match f
    case Hosted => "hosted"
    case Uefi => "uefi"
    case Other => "unknown"
  }

  function Txt(name: string, text: string): Prop { Prop(name, Text(text)) }

  function Flag(name: string, truth: bool): Prop { Prop(name, Truth(truth)) }

  function Num(name: string, count: int): Prop { Prop(name, Count(count)) }

  // ---- The seven lines

  function System(c: Context): seq<Prop> {
    [Txt("version", "f1a-f1b-session-jsonl-v1"), Txt("arch", OrElse(c.arch, "unknown")),
     Txt("boot_mode", FirmwareName(c.firmware))]
  }

  function Ids(c: Context): seq<Prop> {
    var id := if c.identity.Some? then c.identity.value else Identity("unknown", "unknown");
    [Txt("boot_id", OrElse(id.bootId, "unknown")), Txt("node_id", OrElse(id.nodeId, "unknown"))]
  }

  function Platform(c: Context): seq<Prop> {
    [Txt("host_id", "unknown"), Txt("firmware", FirmwareName(c.firmware)),
     Txt("storage_backend", OrElse(c.storage.backend, "unknown")),
     Txt("storage_state", if c.storage.verified then "verified" else "degraded")]
  }

  function Readiness(c: Context): seq<Prop> {
    [Flag("console_ready", c.consoleReady), Flag("audit_ready", c.auditReady),
     Flag("restricted_diagnostic", !c.auditReady), Flag("proposal_engine_ready", c.proposalReady),
     Flag("node_core_ready", c.nodeReady)]
  }

  function Peers(c: Context): seq<Prop> { [Num("peers_discovered", c.peers), Num("pending_proposals", c.pending)] }

  function SessionLine(c: Context): Object {
    Object("session", System(c) + Ids(c) + Platform(c) + Readiness(c) + Peers(c))
  }

  function Processor(hw: Hardware): seq<Prop> {
    [Txt("cpu_arch", OrElse(hw.cpuArch, "unknown")), Txt("cpu_model", OrElse(hw.cpuModel, "unavailable")),
     Num("ram_bytes", hw.ramBytes)]
  }

  function Surroundings(hw: Hardware): seq<Prop> {
    [Txt("firmware_type", OrElse(hw.firmwareType, "unknown")), Txt("console_type", OrElse(hw.consoleType, "unknown"))]
  }

  function Machine(hw: Hardware): seq<Prop> { Processor(hw) + Surroundings(hw) }

  function Desk(hw: Hardware): seq<Prop> {
    [Num("display_count", hw.displays), Num("keyboard_count", hw.keyboards), Num("mouse_count", hw.mice),
     Num("audio_count", hw.audio), Num("microphone_count", hw.microphones)]
  }

  function Links(hw: Hardware): seq<Prop> {
    [Num("net_count", hw.net), Num("ethernet_count", hw.ethernet), Num("wifi_count", hw.wifi)]
  }

  function Drives(hw: Hardware): seq<Prop> {
    [Num("storage_count", hw.storage), Num("usb_count", hw.usb), Num("usb_controller_count", hw.usbControllers),
     Num("detected_at_unix", hw.detectedAt)]
  }

  function Availability(c: Context): seq<Prop> { [Flag("available", c.hardware.Some?)] }

  function HardwareLine(c: Context): Object {
    Object("hardware",
      if c.hardware.None? then Availability(c)
      else Availability(c) + Machine(c.hardware.value) + Desk(c.hardware.value) + Links(c.hardware.value)
           + Drives(c.hardware.value))
  }

  function StorageFlags(st: StorageStatus): seq<Prop> {
    [Flag("initialized", st.initialized), Flag("writable", st.writable), Flag("bootstrap_attempted", st.attempted),
     Flag("bootstrap_verified", st.verified)]
  }

  function StorageTexts(st: StorageStatus): seq<Prop> {
    [Txt("backend", OrElse(st.backend, "none")), Txt("root_hint", OrElse(st.rootHint, "/vita")),
     Txt("last_error", OrElse(st.lastError, "none"))]
  }

  function StorageLine(c: Context): Object { Object("storage", StorageFlags(c.storage) + StorageTexts(c.storage)) }

  function Adapters(c: Context): seq<Prop> {
    var hw := c.hardware;
    [Flag("hardware_snapshot_available", hw.Some?), Num("net_count", if hw.Some? then hw.value.net else 0),
     Num("ethernet_count", if hw.Some? then hw.value.ethernet else 0),
     Num("wifi_count", if hw.Some? then hw.value.wifi else 0)]
  }

  function Transport(c: Context): seq<Prop> {
    [Txt("transport_stage", if c.firmware.Hosted? then "hosted_tcp_test_path" else "uefi_diagnostic_status_only"),
     Flag("dhcp_ready", false), Flag("wifi_credentials_ready", false)]
  }

  function NetworkLine(c: Context): Object { Object("network", Adapters(c) + Transport(c)) }

  function Gateway(): seq<Prop> {
    [Txt("stage", "command_stub_local_fallback"), Flag("remote_call_ready", false),
     Txt("commands", "ai status, ai connect, " + "ai ask, ai disconnect"),
     Txt("audit_policy", "future remote decisions " + "must produce auditable proposals")]
  }

  function GatewayLine(): Object { Object("ai_gateway", Gateway()) }

  function Folders(): seq<Prop> {
    [Txt("notes", "/vita/notes/"), Txt("messages", "/vita/messages/"),
     Txt("emergency_reports", "/vita/emergency/reports/"), Txt("exports", "/vita/export/"),
     Txt("jsonl_report", REPORT_PATH)]
  }

  function TranscriptFiles(c: Context): seq<Prop> {
    [Txt("transcript_txt_path", c.txtPath), Txt("transcript_jsonl_path", c.jsonlPath)]
  }

  /** The parts are listed only when there are several. */
  function Parts(parts: seq<string>): seq<Prop> {
    if |parts| <= 1 then []
    else [Num("transcript_jsonl_part_count", |parts|), Prop("transcript_jsonl_parts", List(parts))]
  }

  function State(c: Context): seq<Prop> { [Txt("transcript_state", c.transcriptState)] }

  function PathsLine(c: Context, parts: seq<string>): Object {
    Object("paths", Folders() + TranscriptFiles(c) + Parts(parts) + State(c))
  }

  function Limitations(): seq<Prop> {
    [Flag("uefi_sqlite_persistence_complete", false), Flag("uefi_network_transport_complete", false),
     Flag("wifi_association_complete", false), Flag("full_vfs_complete", false),
     Txt("note", "This JSONL report is a small " + "machine-readable checkpoint, " + "not a full SQLite audit export.")]
  }

  function LimitationsLine(): Object { Object("limitations", Limitations()) }

  function Report(c: Context, parts: seq<string>): seq<Object> {
    [SessionLine(c), HardwareLine(c), StorageLine(c), NetworkLine(c), GatewayLine(), PathsLine(c, parts),
     LimitationsLine()]
  }

  // ---- Part paths

  const SUFFIX := ".jsonl"

  predicate HasSuffix(path: string) { |path| >= 6 && path[|path| - 6..] == SUFFIX }

  /** What the exporter makes of the first part's path; empty when it has the wrong suffix or no room. */
  function ExportPartPath(base: string, part: nat, cap: nat): string {
    if cap == 0 || !HasSuffix(base) then ""
    else
      var stem := base[..|base| - 6];
      if part <= 1 then stem + SUFFIX
      else if |stem| + 17 >= cap then ""
      else stem + ".part-" + TranscriptPaths.Four(part) + SUFFIX
  }

  /** Copies a text into the buffer from position `at` on. */
  method Place(out: array<char>, at: nat, text: string)
    requires at + |text| <= out.Length
    modifies out
    ensures out[..at] == old(out[..at]) && out[at..at + |text|] == text
  {
    for i := 0 to |text|
      invariant out[..at] == old(out[..at]) && out[at..at + i] == text[..i]
    {
      out[at + i] := text[i];
      assert out[at..at + i + 1] == out[at..at + i] + [text[i]];
    }
    assert text[..|text|] == text;
  }

  method BuildJsonlPartPath(base: string, part: nat, out: array<char>)
    requires 0 < out.Length && |base| < out.Length
    modifies out
    ensures var r := ExportPartPath(base, part, out.Length);
            |r| < out.Length && out[..|r|] == r && out[|r|] == '\0'
  {
    hide TranscriptPaths.Four;
    FourLength(part);
    if !HasSuffix(base) {
      out[0] := '\0';
      return;
    }
    var stem := base[..|base| - 6];
    Place(out, 0, stem);
    assert out[..|stem|] == stem;
    if part <= 1 {
      Place(out, |stem|, SUFFIX);
      out[|stem| + 6] := '\0';
      assert out[..|stem| + 6] == out[..|stem|] + out[|stem|..|stem| + 6];
      return;
    }
    if |stem| + 17 >= out.Length {
      out[0] := '\0';
      return;
    }
    var tail := ".part-" + TranscriptPaths.Four(part) + SUFFIX;
    Place(out, |stem|, tail);
    out[|stem| + 16] := '\0';
    assert out[..|stem| + 16] == out[..|stem|] + out[|stem|..|stem| + 16];
    assert stem + tail == stem + ".part-" + TranscriptPaths.Four(part) + SUFFIX;
  }

  lemma FourLength(part: nat)
    ensures |TranscriptPaths.Four(part)| == 4
  {
  }

  /** Exporter and transcript agree on the path of a rotated part exactly for session ids of up to 153
      characters: one character before the path would overflow, the exporter already gives up. */
  lemma PartPathsAgree(id: string, part: nat)
    requires |id| <= 164 // so that the first part's path is whole
    ensures ExportPartPath(TranscriptPaths.PartPath(id, 1), part, PATH_CAP) == TranscriptPaths.PartPath(id, part)
      <==> part <= 1 || |id| <= 153
  {
    hide TranscriptPaths.Four;
    FourLength(part);
    var stem := TranscriptPaths.FOLDER + id;
    var base := TranscriptPaths.PartPath(id, 1);
    assert base == stem + SUFFIX;
    assert base[..|base| - 6] == stem && base[|base| - 6..] == SUFFIX;
    assert stem + (".part-" + TranscriptPaths.Four(part) + SUFFIX)
        == stem + ".part-" + TranscriptPaths.Four(part) + SUFFIX;
  }

  const PARTS_COUNTED: nat := 8
  const PATH_CAP: nat := 192

  /** For each part whether storage answers the read. */
  type Answers = nat -> bool

  ghost predicate PartReadable(files: TextStore.Files, answers: Answers, base: string, part: nat) {
    var path := ExportPartPath(base, part, PATH_CAP);
    path != "" && answers(part) && path in files
  }

  /** What is reported: none without the right suffix, else the largest `k` up to 8 such that parts 2 to `k` can
      all be read. */
  ghost predicate IsPartCount(files: TextStore.Files, answers: Answers, base: string, count: nat) {
    if !HasSuffix(base) then count == 0
    else
      && 1 <= count <= 8
      && (forall p: nat :: 2 <= p <= count ==> PartReadable(files, answers, base, p))
      && (count < 8 ==> !PartReadable(files, answers, base, count + 1))
  }

  lemma PartCountIsUnique(files: TextStore.Files, answers: Answers, base: string, m: nat, n: nat)
    requires IsPartCount(files, answers, base, m) && IsPartCount(files, answers, base, n)
    ensures m == n
  {
    hide PartReadable;
  }

  method CountParts(store: TextStore.Store, answers: Answers, base: string) returns (count: nat)
    requires |base| < PATH_CAP && '\0' !in base
    ensures IsPartCount(store.files, answers, base, count)
  {
    hide ExportPartPath;
    if !HasSuffix(base) {
      return 0;
    }
    count := 1;
    var part := 2;
    while part <= PARTS_COUNTED
      invariant part == count + 1 && 1 <= count <= PARTS_COUNTED
      invariant forall p: nat :: 2 <= p <= count ==> PartReadable(store.files, answers, base, p)
    {
      var path := PartPathText(base, part);
      if path == "" {
        return;
      }
      var text := store.ReadText(path, TextStore.READ_MAX, answers(part));
      if text.None? {
        return;
      }
      assert PartReadable(store.files, answers, base, part);
      count := part;
      part := part + 1;
    }
  }

  /** Builds a part's path in a local buffer. */
  method PartPathText(base: string, part: nat) returns (path: string)
    requires |base| < PATH_CAP && '\0' !in base
    ensures path == ExportPartPath(base, part, PATH_CAP)
  {
    hide ExportPartPath;
    var buffer := new char[PATH_CAP];
    BuildJsonlPartPath(base, part, buffer);
    path := CString(buffer);
    PathHasNoNul(base, part);
    CStringIs(buffer[..], path, ExportPartPath(base, part, PATH_CAP));
  }

  function PartPaths(base: string, count: nat): seq<string> {
    seq(count, i requires 0 <= i < count => ExportPartPath(base, i + 1, PATH_CAP))
  }

  method PartPathList(base: string, count: nat) returns (paths: seq<string>)
    requires |base| < PATH_CAP && '\0' !in base
    ensures paths == PartPaths(base, count)
  {
    hide ExportPartPath;
    paths := [];
    for part := 1 to count + 1
      invariant paths == PartPaths(base, part - 1)
    {
      var path := PartPathText(base, part);
      paths := paths + [path];
    }
  }

  lemma PathHasNoNul(base: string, part: nat)
    requires '\0' !in base
    ensures '\0' !in ExportPartPath(base, part, PATH_CAP)
  {
  }

  /** The characters before the first NUL. */
  method CString(a: array<char>) returns (s: string)
    ensures |s| <= a.Length && a[..|s|] == s && '\0' !in s && (|s| < a.Length ==> a[|s|] == '\0')
  {
    var i := 0;
    while i < a.Length && a[i] != '\0'
      invariant i <= a.Length && '\0' !in a[..i]
    {
      i := i + 1;
    }
    s := a[..i];
  }

  lemma CStringIs(a: string, s: string, r: string)
    requires |s| <= |a| && a[..|s|] == s && '\0' !in s && (|s| < |a| ==> a[|s|] == '\0')
    requires |r| < |a| && a[..|r|] == r && a[|r|] == '\0' && '\0' !in r
    ensures s == r
  {
    assert forall i :: 0 <= i < |s| ==> a[i] == s[i];
    assert forall i :: 0 <= i < |r| ==> a[i] == r[i];
    assert |s| == |r|;
  }

  // ---- Writing the report

  /** How the write of the report ends, and whether it can be read again. */
  datatype Io = Io(written: TextStore.WriteResult, readable: bool)

  function ReportText(c: Context, parts: seq<string>): string { Clip(Document(Report(c, parts)), REPORT_MAX) }

  method WriteReport(store: TextStore.Store, c: Context, answers: Answers, io: Io) returns (ok: bool, count: nat)
    requires |c.jsonlPath| < PATH_CAP && '\0' !in c.jsonlPath
    modifies store
    ensures forall n: nat :: IsPartCount(old(store.files), answers, c.jsonlPath, n) <==> n == count
    ensures store.files == TextStore.AfterWrite(old(store.files), REPORT_PATH,
                                                ReportText(c, PartPaths(c.jsonlPath, count)), io.written)
    ensures ok <==> io.written.Written? && io.readable
  {
    hide Report, Document, IsPartCount, PartPaths;
    count := CountParts(store, answers, c.jsonlPath);
    forall n: nat | IsPartCount(store.files, answers, c.jsonlPath, n)
      ensures n == count
    {
      PartCountIsUnique(store.files, answers, c.jsonlPath, count, n);
    }
    var parts := PartPathList(c.jsonlPath, count);
    var jb := new Buffer(4096);
    ReportIsProper(c, parts);
    WriteDocument(jb, Report(c, parts));
    var text := jb.data[..jb.len];
    ok := store.WriteText(REPORT_PATH, text, io.written);
    if ok {
      var again := store.ReadText(REPORT_PATH, REPORT_MAX + 1, io.readable);
      ok := again == Some(text);
    }
  }

  // ---- The names are words, and every line has a bounded length

  predicate AllNamed(ps: seq<Prop>) { forall i :: 0 <= i < |ps| ==> Proper(ps[i]) }

  /** Text that is written without escapes. */
  predicate Simple(s: string) { forall i :: 0 <= i < |s| ==> Unescaped(s[i]) }

  predicate ShortItems(items: seq<string>) { forall i :: 0 <= i < |items| ==> Simple(items[i]) && |items[i]| <= 57 }

  const TEN_DIGITS: nat := 10_000_000_000
  const TWENTY_DIGITS: nat := 100_000_000_000_000_000_000

  /** A bound on what a property takes, its comma included. */
  function Room(p: Prop): nat {
    |p.name| + match p.value
    case Text(text) => if Simple(text) then |text| + 6 else 2 * |text| + 6
    case Truth(_) => 9
    case Count(n) => if n < TEN_DIGITS then 14 else if n < TWENTY_DIGITS then 24 else 4 + |Decimal(n)|
    case List(items) => if ShortItems(items) then 6 + 60 * |items| else 4 + |ArrayText(items)|
  }

  function Rooms(ps: seq<Prop>): nat {
    if ps == [] then 0 else Rooms(ps[..|ps| - 1]) + Room(ps[|ps| - 1])
  }

  lemma {:induction false} RoomsTogether(a: seq<Prop>, b: seq<Prop>)
    ensures Rooms(a + b) == Rooms(a) + Rooms(b)
    decreases |b|
  {
    hide Room;
    if b == [] {
      assert a + b == a;
    } else {
      var n := |b| - 1;
      RoomsTogether(a, b[..n]);
      assert (a + b)[..|a + b| - 1] == a + b[..n];
    }
  }

  /** For a paragraph of up to five properties. */
  lemma UpToFive(ps: seq<Prop>)
    requires |ps| <= 5 && (|ps| > 0 ==> Proper(ps[0])) && (|ps| > 1 ==> Proper(ps[1]))
    requires (|ps| > 2 ==> Proper(ps[2])) && (|ps| > 3 ==> Proper(ps[3])) && (|ps| > 4 ==> Proper(ps[4]))
    ensures AllNamed(ps)
    ensures Rooms(ps) == (if |ps| > 0 then Room(ps[0]) else 0) + (if |ps| > 1 then Room(ps[1]) else 0)
      + (if |ps| > 2 then Room(ps[2]) else 0) + (if |ps| > 3 then Room(ps[3]) else 0)
      + (if |ps| > 4 then Room(ps[4]) else 0)
  {
    hide Proper, Room;
    forall i | 0 <= i < |ps| ensures Proper(ps[i]) { assert i == 0 || i == 1 || i == 2 || i == 3 || i == 4; }
    if |ps| > 1 {
      var n := |ps| - 1;
      assert Rooms(ps) == Rooms(ps[..n]) + Room(ps[n]);
      if n > 1 {
        assert Rooms(ps[..n]) == Rooms(ps[..n][..n - 1]) + Room(ps[n - 1]);
        assert ps[..n][..n - 1] == ps[..n - 1];
        UpToThree(ps[..n - 1]);
      }
    }
  }

  lemma UpToThree(ps: seq<Prop>)
    requires |ps| <= 3
    ensures Rooms(ps) == (if |ps| > 0 then Room(ps[0]) else 0) + (if |ps| > 1 then Room(ps[1]) else 0)
      + (if |ps| > 2 then Room(ps[2]) else 0)
  {
    hide Room;
    if |ps| > 1 {
      assert Rooms(ps[..|ps| - 1]) == Rooms(ps[..|ps| - 1][..|ps| - 2]) + Room(ps[|ps| - 2]);
    }
  }

  /** The sizes of the kernel's fields; the session's file names hold up to 20 characters before their suffix. */
  predicate SizedHardware(hw: Hardware) {
    && |hw.cpuArch| <= 31 && |hw.cpuModel| <= 127 && |hw.firmwareType| <= 31 && |hw.consoleType| <= 31
    && hw.ramBytes < TWENTY_DIGITS && hw.detectedAt < TWENTY_DIGITS
    && hw.displays < TEN_DIGITS && hw.keyboards < TEN_DIGITS && hw.mice < TEN_DIGITS && hw.audio < TEN_DIGITS
    && hw.microphones < TEN_DIGITS && hw.net < TEN_DIGITS && hw.ethernet < TEN_DIGITS && hw.wifi < TEN_DIGITS
    && hw.storage < TEN_DIGITS && hw.usb < TEN_DIGITS && hw.usbControllers < TEN_DIGITS
  }

  predicate SizedStorage(st: StorageStatus) { |st.backend| <= 31 && |st.rootHint| <= 63 && |st.lastError| <= 127 }

  predicate Sized(c: Context) {
    && |c.arch| <= 31 && |c.transcriptState| <= 31
    && (c.identity.Some? ==> |c.identity.value.bootId| <= 63 && |c.identity.value.nodeId| <= 63)
    && (c.hardware.Some? ==> SizedHardware(c.hardware.value)) && SizedStorage(c.storage)
    && c.peers < TEN_DIGITS && c.pending < TEN_DIGITS
    && Simple(c.txtPath) && |c.txtPath| <= 45 && Simple(c.jsonlPath) && |c.jsonlPath| <= 47
  }

  predicate Name(s: string, n: nat) { Word(s) && |s| == n }

  predicate Literal(s: string, n: nat) { Simple(s) && |s| == n }

  // Each paragraph has a lemma about the literals in it and one about its properties: the solver takes a literal
  // letter by letter, which is only cheap where nothing else is asked.

  lemma LiteralTogether(a: string, m: nat, b: string, n: nat)
    requires Literal(a, m) && Literal(b, n)
    ensures Literal(a + b, m + n)
  {
  }

  lemma SystemNames()
    ensures Name("version", 7) && Name("arch", 4) && Name("boot_mode", 9) && Literal("f1a-f1b-session-jsonl-v1", 24)
  {
  }

  lemma SystemTidy(c: Context)
    ensures AllNamed(System(c)) && (Sized(c) ==> Rooms(System(c)) <= 138)
  {
    hide AllNamed, Rooms, Word, Simple, Decimal, ArrayText, ShortItems;
    SystemNames();
    UpToFive(System(c));
  }

  lemma IdsNames()
    ensures Name("boot_id", 7) && Name("node_id", 7)
  {
  }

  lemma IdsTidy(c: Context)
    ensures AllNamed(Ids(c)) && (Sized(c) ==> Rooms(Ids(c)) <= 278)
  {
    hide AllNamed, Rooms, Word, Simple, Decimal, ArrayText, ShortItems;
    IdsNames();
    UpToFive(Ids(c));
  }

  lemma PlatformNames()
    ensures Name("host_id", 7) && Name("firmware", 8) && Name("storage_backend", 15) && Name("storage_state", 13)
  {
  }

  lemma PlatformTidy(c: Context)
    ensures AllNamed(Platform(c)) && (Sized(c) ==> Rooms(Platform(c)) <= 173)
  {
    hide AllNamed, Rooms, Word, Simple, Decimal, ArrayText, ShortItems;
    PlatformNames();
    UpToFive(Platform(c));
  }

  lemma ReadinessNames()
    ensures Name("console_ready", 13) && Name("audit_ready", 11) && Name("restricted_diagnostic", 21)
    ensures Name("proposal_engine_ready", 21) && Name("node_core_ready", 15)
  {
  }

  lemma ReadinessTidy(c: Context)
    ensures AllNamed(Readiness(c)) && Rooms(Readiness(c)) <= 126
  {
    hide AllNamed, Rooms, Word, Simple, Decimal, ArrayText, ShortItems;
    ReadinessNames();
    UpToFive(Readiness(c));
  }

  lemma PeersNames()
    ensures Name("peers_discovered", 16) && Name("pending_proposals", 17)
  {
  }

  lemma PeersTidy(c: Context)
    ensures AllNamed(Peers(c)) && (Sized(c) ==> Rooms(Peers(c)) <= 61)
  {
    hide AllNamed, Rooms, Word, Simple, Decimal, ArrayText, ShortItems;
    PeersNames();
    UpToFive(Peers(c));
  }

  lemma ProcessorNames()
    ensures Name("cpu_arch", 8) && Name("cpu_model", 9) && Name("ram_bytes", 9)
  {
  }

  lemma ProcessorTidy(hw: Hardware)
    ensures AllNamed(Processor(hw)) && (SizedHardware(hw) ==> Rooms(Processor(hw)) <= 378)
  {
    hide AllNamed, Rooms, Word, Simple, Decimal, ArrayText, ShortItems;
    ProcessorNames();
    UpToFive(Processor(hw));
  }

  lemma SurroundingsNames()
    ensures Name("firmware_type", 13) && Name("console_type", 12)
  {
  }

  lemma SurroundingsTidy(hw: Hardware)
    ensures AllNamed(Surroundings(hw)) && (SizedHardware(hw) ==> Rooms(Surroundings(hw)) <= 161)
  {
    hide AllNamed, Rooms, Word, Simple, Decimal, ArrayText, ShortItems;
    SurroundingsNames();
    UpToFive(Surroundings(hw));
  }

  lemma MachineTidy(hw: Hardware)
    ensures AllNamed(Machine(hw)) && (SizedHardware(hw) ==> Rooms(Machine(hw)) <= 539)
  {
    hide AllNamed, Rooms, Processor, Surroundings, SizedHardware;
    ProcessorTidy(hw);
    SurroundingsTidy(hw);
    Together(Processor(hw), Surroundings(hw));
  }

  lemma DeskNames()
    ensures Name("display_count", 13) && Name("keyboard_count", 14) && Name("mouse_count", 11)
    ensures Name("audio_count", 11) && Name("microphone_count", 16)
  {
  }

  lemma DeskTidy(hw: Hardware)
    ensures AllNamed(Desk(hw)) && (SizedHardware(hw) ==> Rooms(Desk(hw)) <= 135)
  {
    hide AllNamed, Rooms, Word, Simple, Decimal, ArrayText, ShortItems;
    DeskNames();
    UpToFive(Desk(hw));
  }

  lemma LinksNames()
    ensures Name("net_count", 9) && Name("ethernet_count", 14) && Name("wifi_count", 10)
  {
  }

  lemma LinksTidy(hw: Hardware)
    ensures AllNamed(Links(hw)) && (SizedHardware(hw) ==> Rooms(Links(hw)) <= 75)
  {
    hide AllNamed, Rooms, Word, Simple, Decimal, ArrayText, ShortItems;
    LinksNames();
    UpToFive(Links(hw));
  }

  lemma DrivesNames()
    ensures Name("storage_count", 13) && Name("usb_count", 9) && Name("usb_controller_count", 20)
    ensures Name("detected_at_unix", 16)
  {
  }

  lemma DrivesTidy(hw: Hardware)
    ensures AllNamed(Drives(hw)) && (SizedHardware(hw) ==> Rooms(Drives(hw)) <= 124)
  {
    hide AllNamed, Rooms, Word, Simple, Decimal, ArrayText, ShortItems;
    DrivesNames();
    UpToFive(Drives(hw));
  }

  lemma StorageFlagsNames()
    ensures Name("initialized", 11) && Name("writable", 8) && Name("bootstrap_attempted", 19)
    ensures Name("bootstrap_verified", 18)
  {
  }

  lemma StorageFlagsTidy(st: StorageStatus)
    ensures AllNamed(StorageFlags(st)) && Rooms(StorageFlags(st)) <= 92
  {
    hide AllNamed, Rooms, Word, Simple, Decimal, ArrayText, ShortItems;
    StorageFlagsNames();
    UpToFive(StorageFlags(st));
  }

  lemma StorageTextsNames()
    ensures Name("backend", 7) && Name("root_hint", 9) && Name("last_error", 10)
  {
  }

  lemma StorageTextsTidy(st: StorageStatus)
    ensures AllNamed(StorageTexts(st)) && (SizedStorage(st) ==> Rooms(StorageTexts(st)) <= 486)
  {
    hide AllNamed, Rooms, Word, Simple, Decimal, ArrayText, ShortItems;
    StorageTextsNames();
    UpToFive(StorageTexts(st));
  }

  lemma AdaptersNames()
    ensures Name("hardware_snapshot_available", 27) && Name("net_count", 9) && Name("ethernet_count", 14)
    ensures Name("wifi_count", 10)
  {
  }

  lemma AdaptersTidy(c: Context)
    ensures AllNamed(Adapters(c)) && (Sized(c) ==> Rooms(Adapters(c)) <= 111)
  {
    hide AllNamed, Rooms, Word, Simple, Decimal, ArrayText, ShortItems;
    AdaptersNames();
    UpToFive(Adapters(c));
  }

  lemma TransportNames()
    ensures Name("transport_stage", 15) && Name("dhcp_ready", 10) && Name("wifi_credentials_ready", 22)
  {
  }

  lemma TransportTidy(c: Context)
    ensures AllNamed(Transport(c)) && Rooms(Transport(c)) <= 125
  {
    hide AllNamed, Rooms, Word, Simple, Decimal, ArrayText, ShortItems;
    TransportNames();
    UpToFive(Transport(c));
  }

  lemma AvailabilityNames()
    ensures Name("available", 9)
  {
  }

  lemma AvailabilityTidy(c: Context)
    ensures AllNamed(Availability(c)) && Rooms(Availability(c)) <= 18
  {
    hide AllNamed, Rooms, Word, Simple, Decimal, ArrayText, ShortItems;
    AvailabilityNames();
    UpToFive(Availability(c));
  }

  lemma GatewayNames()
    ensures Name("stage", 5) && Name("remote_call_ready", 17) && Name("commands", 8) && Name("audit_policy", 12)
  {
  }

  lemma GatewayTextsPlain()
    ensures Literal("ai status, ai connect, ", 23) && Literal("ai ask, ai disconnect", 21)
    ensures Literal("future remote decisions ", 24) && Literal("must produce auditable proposals", 32)
  {
  }

  lemma GatewayTidy()
    ensures AllNamed(Gateway()) && Rooms(Gateway()) <= 223
  {
    hide AllNamed, Rooms, Word, Simple, Decimal, ArrayText, ShortItems;
    GatewayNames();
    GatewayTextsPlain();
    LiteralTogether("ai status, ai connect, ", 23, "ai ask, ai disconnect", 21);
    LiteralTogether("future remote decisions ", 24, "must produce auditable proposals", 32);
    UpToFive(Gateway());
  }

  lemma FoldersNames()
    ensures Name("notes", 5) && Name("messages", 8) && Name("emergency_reports", 17) && Name("exports", 7)
    ensures Name("jsonl_report", 12)
  {
  }

  lemma FolderTextsPlain()
    ensures Literal("/vita/notes/", 12) && Literal("/vita/messages/", 15) && Literal("/vita/emergency/reports/", 24)
    ensures Literal("/vita/export/", 13) && Literal("/vita/export/reports/last-session.jsonl", 39)
  {
  }

  lemma FoldersTidy()
    ensures AllNamed(Folders()) && Rooms(Folders()) <= 183
  {
    hide AllNamed, Rooms, Word, Simple, Decimal, ArrayText, ShortItems;
    FoldersNames();
    FolderTextsPlain();
    UpToFive(Folders());
  }

  lemma TranscriptFilesNames()
    ensures Name("transcript_txt_path", 19) && Name("transcript_jsonl_path", 21)
  {
  }

  lemma TranscriptFilesTidy(c: Context)
    ensures AllNamed(TranscriptFiles(c)) && (Sized(c) ==> Rooms(TranscriptFiles(c)) <= 144)
  {
    hide AllNamed, Rooms, Word, Simple, Decimal, ArrayText, ShortItems;
    TranscriptFilesNames();
    UpToFive(TranscriptFiles(c));
  }

  lemma PartsNames()
    ensures Name("transcript_jsonl_part_count", 27) && Name("transcript_jsonl_parts", 22)
  {
  }

  lemma PartsTidy(parts: seq<string>)
    ensures AllNamed(Parts(parts)) && (|parts| <= PARTS_COUNTED && ShortItems(parts) ==> Rooms(Parts(parts)) <= 549)
  {
    hide AllNamed, Rooms, Word, Simple, Decimal, ArrayText, ShortItems;
    PartsNames();
    UpToFive(Parts(parts));
  }

  lemma StateNames()
    ensures Name("transcript_state", 16)
  {
  }

  lemma StateTidy(c: Context)
    ensures AllNamed(State(c)) && (Sized(c) ==> Rooms(State(c)) <= 84)
  {
    hide AllNamed, Rooms, Word, Simple, Decimal, ArrayText, ShortItems;
    StateNames();
    UpToFive(State(c));
  }

  lemma LimitationsNames()
    ensures Name("uefi_sqlite_persistence_complete", 32) && Name("uefi_network_transport_complete", 31)
  {
  }

  lemma RestNames()
    ensures Name("wifi_association_complete", 25) && Name("full_vfs_complete", 17) && Name("note", 4)
  {
  }

  lemma NotePlain()
    ensures Literal("This JSONL report is a small ", 29) && Literal("machine-readable checkpoint, ", 29)
    ensures Literal("not a full SQLite audit export.", 31)
  {
  }

  lemma LimitationsTidy()
    ensures AllNamed(Limitations()) && Rooms(Limitations()) <= 240
  {
    hide AllNamed, Rooms, Word, Simple, Decimal, ArrayText, ShortItems;
    LimitationsNames();
    RestNames();
    NotePlain();
    var note := "This JSONL report is a small ";
    LiteralTogether(note, 29, "machine-readable checkpoint, ", 29);
    LiteralTogether(note + "machine-readable checkpoint, ", 58, "not a full SQLite audit export.", 31);
    UpToFive(Limitations());
  }

  // ---- The lines are within their bounds

  lemma Together(a: seq<Prop>, b: seq<Prop>)
    requires AllNamed(a) && AllNamed(b)
    ensures AllNamed(a + b) && Rooms(a + b) == Rooms(a) + Rooms(b)
  {
    hide Proper;
    RoomsTogether(a, b);
  }

  lemma {:induction false} SimpleContent(s: string)
    requires Simple(s)
    ensures Content(s) == s
  {
    if s != "" {
      SimpleContent(s[1..]);
      assert s == [s[0]] + s[1..];
    }
  }

  lemma {:induction false} ContentAtMostDoubles(s: string)
    ensures |Content(s)| <= 2 * |s|
  {
    if s != "" {
      ContentAtMostDoubles(s[1..]);
    }
  }

  lemma JsonStringLength(s: string)
    ensures |JsonString(s)| <= 2 * |s| + 2 && (Simple(s) ==> |JsonString(s)| == |s| + 2)
  {
    hide Content, Simple;
    ContentAtMostDoubles(s);
    if Simple(s) {
      SimpleContent(s);
    }
  }

  lemma {:induction false} DecimalLength(n: nat, k: nat)
    requires k > 0 && n < TranscriptRecord.Power10(k)
    ensures |Decimal(n)| <= k
  {
    if n >= 10 {
      DecimalLength(n / 10, k - 1);
    }
  }

  lemma Powers()
    ensures TranscriptRecord.Power10(10) == TEN_DIGITS && TranscriptRecord.Power10(20) == TWENTY_DIGITS
  {
    assert TranscriptRecord.Power10(5) == 100_000;
    assert TranscriptRecord.Power10(10) == 10_000_000_000;
    assert TranscriptRecord.Power10(15) == 1_000_000_000_000_000;
  }

  lemma CountLength(n: nat)
    ensures n < TEN_DIGITS ==> |Decimal(n)| <= 10
    ensures n < TWENTY_DIGITS ==> |Decimal(n)| <= 20
  {
    hide Decimal;
    Powers();
    if n < TEN_DIGITS {
      DecimalLength(n, 10);
    }
    if n < TWENTY_DIGITS {
      DecimalLength(n, 20);
    }
  }

  lemma {:induction false} ItemsLength(items: seq<string>)
    requires ShortItems(items)
    ensures |JoinedBy(Strings(items), ',')| <= 60 * |items|
    decreases |items|
  {
    hide JsonString, Simple;
    if items != [] {
      var n := |items| - 1;
      ItemsLength(items[..n]);
      JsonStringLength(items[n]);
      assert Strings(items)[..n] == Strings(items[..n]);
    }
  }

  lemma WordIsSimple(s: string)
    requires Word(s)
    ensures Simple(s)
  {
  }

  lemma RenderRoom(p: Prop)
    requires Proper(p)
    ensures |Render(FieldOf(p))| < Room(p)
  {
    hide Word, Simple, Render, FieldOf, JsonString, Decimal, JoinedBy, ShortItems;
    RenderedProp(p);
    WordIsSimple(p.name);
    JsonStringLength(p.name);
    match p.value
    case Text(text) => JsonStringLength(text);
    case Truth(_) =>
    case Count(n) => CountLength(Natural(n));
    case List(items) => if ShortItems(items) { ItemsLength(items); }
  }

  lemma {:induction false} RendersRoom(f: Field, ps: seq<Prop>)
    requires AllNamed(ps)
    ensures |Renders([f] + FieldsOf(ps))| <= |Render(f)| + Rooms(ps)
    decreases |ps|
  {
    hide Proper, Render, FieldOf, Renders, Room;
    if ps == [] {
      assert [f] + FieldsOf(ps) == [f];
      SingleRender([f]);
    } else {
      var n := |ps| - 1;
      RendersRoom(f, ps[..n]);
      RenderRoom(ps[n]);
      assert [f] + FieldsOf(ps) == [f] + FieldsOf(ps[..n]) + [FieldOf(ps[n])];
      RendersAppend([f] + FieldsOf(ps[..n]), FieldOf(ps[n]));
    }
  }

  lemma LineFits(kind: string, n: nat, ps: seq<Prop>)
    requires AllNamed(ps) && Name(kind, n)
    ensures AllProper(Object(kind, ps))
    ensures |ObjectLine(Object(kind, ps))| <= 12 + n + Rooms(ps)
  {
    hide Word, Proper, Render, FieldOf, Renders, Rooms;
    var kindProp := Prop("type", Text(kind));
    assert AllProper(Object(kind, ps)) by { assert forall i :: 0 <= i < |ps| ==> Proper(ps[i]); }
    TypeIsProper(kind);
    KindRoom(kind);
    RenderRoom(kindProp);
    RendersRoom(FieldOf(kindProp), ps);
  }

  lemma TypeIsProper(kind: string)
    ensures Proper(Prop("type", Text(kind)))
  {
  }

  lemma KindRoom(kind: string)
    requires Word(kind)
    ensures Room(Prop("type", Text(kind))) == |kind| + 10
  {
    hide Word, Simple;
    WordIsSimple(kind);
  }

  lemma KindNames()
    ensures Name("session", 7) && Name("hardware", 8) && Name("storage", 7) && Name("network", 7)
    ensures Name("ai_gateway", 10) && Name("paths", 5) && Name("limitations", 11)
  {
  }

  lemma SessionLineFits(c: Context)
    ensures AllProper(SessionLine(c)) && (Sized(c) ==> |ObjectLine(SessionLine(c))| <= 795)
  {
    hide AllNamed, AllProper, Rooms, Word, ObjectLine, System, Ids, Platform, Readiness, Peers, Sized;
    SystemTidy(c);
    IdsTidy(c);
    PlatformTidy(c);
    ReadinessTidy(c);
    PeersTidy(c);
    Together(System(c), Ids(c));
    Together(System(c) + Ids(c), Platform(c));
    Together(System(c) + Ids(c) + Platform(c), Readiness(c));
    Together(System(c) + Ids(c) + Platform(c) + Readiness(c), Peers(c));
    KindNames();
    LineFits("session", 7, System(c) + Ids(c) + Platform(c) + Readiness(c) + Peers(c));
  }

  lemma HardwareLineFits(c: Context)
    ensures AllProper(HardwareLine(c)) && (Sized(c) ==> |ObjectLine(HardwareLine(c))| <= 911)
  {
    hide AllNamed, AllProper, Rooms, Word, ObjectLine, Availability, Machine, Desk, Links, Drives, SizedHardware;
    AvailabilityTidy(c);
    KindNames();
    if c.hardware.None? {
      LineFits("hardware", 8, Availability(c));
    } else {
      var hw := c.hardware.value;
      MachineTidy(hw);
      DeskTidy(hw);
      LinksTidy(hw);
      DrivesTidy(hw);
      Together(Availability(c), Machine(hw));
      Together(Availability(c) + Machine(hw), Desk(hw));
      Together(Availability(c) + Machine(hw) + Desk(hw), Links(hw));
      Together(Availability(c) + Machine(hw) + Desk(hw) + Links(hw), Drives(hw));
      LineFits("hardware", 8, Availability(c) + Machine(hw) + Desk(hw) + Links(hw) + Drives(hw));
    }
  }

  lemma StorageLineFits(c: Context)
    ensures AllProper(StorageLine(c)) && (Sized(c) ==> |ObjectLine(StorageLine(c))| <= 597)
  {
    hide AllNamed, AllProper, Rooms, Word, ObjectLine, StorageFlags, StorageTexts, SizedStorage;
    var st := c.storage;
    StorageFlagsTidy(st);
    StorageTextsTidy(st);
    Together(StorageFlags(st), StorageTexts(st));
    KindNames();
    LineFits("storage", 7, StorageFlags(st) + StorageTexts(st));
  }

  lemma NetworkLineFits(c: Context)
    ensures AllProper(NetworkLine(c)) && (Sized(c) ==> |ObjectLine(NetworkLine(c))| <= 255)
  {
    hide AllNamed, AllProper, Rooms, Word, ObjectLine, Adapters, Transport, Sized;
    AdaptersTidy(c);
    TransportTidy(c);
    Together(Adapters(c), Transport(c));
    KindNames();
    LineFits("network", 7, Adapters(c) + Transport(c));
  }

  lemma FixedLinesFit()
    ensures AllProper(GatewayLine()) && |ObjectLine(GatewayLine())| <= 245
    ensures AllProper(LimitationsLine()) && |ObjectLine(LimitationsLine())| <= 263
  {
    hide AllNamed, AllProper, Rooms, Word, ObjectLine, Gateway, Limitations;
    GatewayTidy();
    LimitationsTidy();
    KindNames();
    LineFits("ai_gateway", 10, Gateway());
    LineFits("limitations", 11, Limitations());
  }

  lemma PathsLineFits(c: Context, parts: seq<string>)
    ensures AllProper(PathsLine(c, parts))
    ensures Sized(c) && |parts| <= PARTS_COUNTED && ShortItems(parts) ==> |ObjectLine(PathsLine(c, parts))| <= 977
  {
    hide AllNamed, AllProper, Rooms, Word, ObjectLine, Folders, TranscriptFiles, Parts, State, Sized, ShortItems;
    FoldersTidy();
    TranscriptFilesTidy(c);
    PartsTidy(parts);
    StateTidy(c);
    Together(Folders(), TranscriptFiles(c));
    Together(Folders() + TranscriptFiles(c), Parts(parts));
    Together(Folders() + TranscriptFiles(c) + Parts(parts), State(c));
    KindNames();
    LineFits("paths", 5, Folders() + TranscriptFiles(c) + Parts(parts) + State(c));
  }

  predicate ProperReport(os: seq<Object>) { forall i :: 0 <= i < |os| ==> AllProper(os[i]) }

  lemma ReportIsProper(c: Context, parts: seq<string>)
    ensures ProperReport(Report(c, parts))
  {
    hide AllProper, SessionLine, HardwareLine, StorageLine, NetworkLine, GatewayLine, PathsLine, LimitationsLine;
    hide ObjectLine, Sized;
    SessionLineFits(c);
    HardwareLineFits(c);
    StorageLineFits(c);
    NetworkLineFits(c);
    FixedLinesFit();
    PathsLineFits(c, parts);
  }

  lemma LinesAddUp(os: seq<Object>, i: nat)
    requires i < |os|
    ensures |Document(os[i..])| == |ObjectLine(os[i])| + |Document(os[i + 1..])|
  {
    hide ObjectLine;
    assert ObjectLines(os[i..])[1..] == ObjectLines(os[i + 1..]);
  }

  /** The buffer of 4096 bytes is always large enough. */
  lemma ReportAlwaysFits(c: Context, parts: seq<string>)
    requires Sized(c) && |parts| <= PARTS_COUNTED && ShortItems(parts)
    ensures |Document(Report(c, parts))| <= REPORT_MAX
  {
    hide AllProper, SessionLine, HardwareLine, StorageLine, NetworkLine, GatewayLine, PathsLine, LimitationsLine;
    hide ObjectLine, Sized, Document, ShortItems;
    SessionLineFits(c);
    HardwareLineFits(c);
    StorageLineFits(c);
    NetworkLineFits(c);
    FixedLinesFit();
    PathsLineFits(c, parts);
    var os := Report(c, parts);
    LinesAddUp(os, 0);
    LinesAddUp(os, 1);
    LinesAddUp(os, 2);
    LinesAddUp(os, 3);
    LinesAddUp(os, 4);
    LinesAddUp(os, 5);
    LinesAddUp(os, 6);
    assert os[0..] == os;
    EmptyDocument(os[7..]);
  }

  lemma EmptyDocument(os: seq<Object>)
    requires os == []
    ensures Document(os) == ""
  {
  }

  // ---- What a reader gets

  lemma PartPathIsShort(base: string, part: nat)
    requires Simple(base) && |base| <= 47
    ensures Simple(ExportPartPath(base, part, PATH_CAP)) && |ExportPartPath(base, part, PATH_CAP)| <= 57
  {
    hide TranscriptPaths.Four;
    FourIsSimple(part);
    if HasSuffix(base) && part > 1 {
      var stem, four := base[..|base| - 6], TranscriptPaths.Four(part);
      assert Literal(stem, |base| - 6) && Literal(four, 4);
      SuffixesAreSimple();
      LiteralTogether(stem, |stem|, ".part-", 6);
      LiteralTogether(stem + ".part-", |stem| + 6, four, 4);
      LiteralTogether(stem + ".part-" + four, |stem| + 10, SUFFIX, 6);
    } else if HasSuffix(base) {
      assert base[..|base| - 6] + SUFFIX == base;
    }
  }

  lemma SuffixesAreSimple()
    ensures Literal(".part-", 6) && Literal(SUFFIX, 6)
  {
  }

  lemma FourIsSimple(part: nat)
    ensures Literal(TranscriptPaths.Four(part), 4)
  {
  }

  /** Whatever the machine reports, the stored report is whole: its seven lines read back as the properties that were
      put in, in order. */
  lemma ReportReadsBack(c: Context, count: nat)
    requires Sized(c) && count <= PARTS_COUNTED
    ensures var parts := PartPaths(c.jsonlPath, count);
            var os, lines := Report(c, parts), SplitLines(ReportText(c, parts));
            |lines| == 7 && forall i :: 0 <= i < 7 ==> ReadLine(lines[i]) == Some(Members(ObjectFields(os[i])))
  {
    hide Report, ExportPartPath, Document, SplitLines, ReadLine, ObjectFields, AllProper, Simple;
    var parts := PartPaths(c.jsonlPath, count);
    forall i | 0 <= i < |parts|
      ensures Simple(parts[i]) && |parts[i]| <= 57
    {
      PartPathIsShort(c.jsonlPath, i + 1);
    }
    ReportAlwaysFits(c, parts);
    ReportIsProper(c, parts);
    SevenLines(c, parts);
    DocumentReadsBack(Report(c, parts), REPORT_MAX);
  }

  lemma SevenLines(c: Context, parts: seq<string>)
    ensures |Report(c, parts)| == 7
  {
    hide SessionLine, HardwareLine, StorageLine, NetworkLine, GatewayLine, PathsLine, LimitationsLine;
  }

  /** The names the transcript gives its files are within the sizes. */
  lemma TranscriptNamesAreSized(id: string)
    requires Simple(id) && |id| <= 20
    ensures Literal(TranscriptPaths.TxtPath(id), 25 + |id|) && Literal(TranscriptPaths.PartPath(id, 1), 27 + |id|)
  {
    FolderIsSimple();
    LiteralTogether(TranscriptPaths.FOLDER, 21, id, |id|);
    LiteralTogether(TranscriptPaths.FOLDER + id, 21 + |id|, ".txt", 4);
    LiteralTogether(TranscriptPaths.FOLDER + id, 21 + |id|, SUFFIX, 6);
  }

  lemma FolderIsSimple()
    ensures Literal(TranscriptPaths.FOLDER, 21) && Literal(".txt", 4) && Literal(SUFFIX, 6)
  {
  }

  lemma SimpleIsSafe(s: string)
    requires Simple(s)
    ensures SafeText(s) == s
  {
    assert forall i :: 0 <= i < |s| ==> SafeText(s)[i] == s[i];
  }

  /** For a session of the transcript's, reading the array of the paths line gives the transcript's own part paths. */
  lemma PartListReadsBack(c: Context, id: string, count: nat)
    requires Simple(id) && |id| <= 20 && c.jsonlPath == TranscriptPaths.PartPath(id, 1)
    requires 2 <= count <= PARTS_COUNTED
    ensures var paths := PartPaths(c.jsonlPath, count);
            var text := ArrayText(paths);
            && Member("transcript_jsonl_parts", text) in Members(ObjectFields(PathsLine(c, paths)))
            && ReadArray(text) == Some(seq(count, i requires 0 <= i < count => TranscriptPaths.PartPath(id, i + 1)))
  {
    hide ExportPartPath, TranscriptPaths.PartPath, ArrayText, ReadArray, Simple, Folders, TranscriptFiles, State;
    var paths := PartPaths(c.jsonlPath, count);
    var own := seq(count, i requires 0 <= i < count => TranscriptPaths.PartPath(id, i + 1));
    ArrayReadsBack(paths);
    TranscriptNamesAreSized(id);
    forall i | 0 <= i < count
      ensures paths[i] == own[i] && SafeTexts(paths)[i] == paths[i]
    {
      PartPathsAgree(id, i + 1);
      PartPathIsShort(c.jsonlPath, i + 1);
      SimpleIsSafe(paths[i]);
    }
    assert SafeTexts(paths) == own;
    PartsAreListed(c, paths);
  }

  lemma PartsAreListed(c: Context, parts: seq<string>)
    requires |parts| >= 2
    ensures Member("transcript_jsonl_parts", ArrayText(parts)) in Members(ObjectFields(PathsLine(c, parts)))
  {
    hide Folders, TranscriptFiles, State, ArrayText;
    var o := PathsLine(c, parts);
    var k := |Folders()| + |TranscriptFiles(c)| + 1;
    assert o.props[k] == Prop("transcript_jsonl_parts", List(parts));
    assert Members(ObjectFields(o))[k + 1] == Member("transcript_jsonl_parts", ArrayText(parts));
  }
}
