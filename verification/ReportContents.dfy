/** What a reader of the exported report finds under each name, in terms of what the kernel knew. */
module ReportContents {
  import opened CText
  import opened JsonText
  import opened JsonLines
  import opened JsonlExport
  import opened SessionExport

  /** A name with a text, as a reader gets it. */
  function Said(name: string, text: string): Member { Member(name, SafeText(text)) }

  function Marked(name: string, truth: bool): Member { Member(name, if truth then "true" else "false") }

  /** Counts below zero are reported as none. */
  function Counted(name: string, n: int): Member { Member(name, Decimal(if n < 0 then 0 else n)) }

  function Known(text: string, otherwise: string): string { if text == "" then otherwise else text }

  function SystemSays(c: Context): seq<Member> {
    [Said("version", "f1a-f1b-session-jsonl-v1"), Said("arch", Known(c.arch, "unknown")),
     Said("boot_mode", if c.firmware == Hosted then "hosted" else if c.firmware == Uefi then "uefi" else "unknown")]
  }

  function IdsSay(c: Context): seq<Member> {
    [Said("boot_id", if c.identity.None? then "unknown" else Known(c.identity.value.bootId, "unknown")),
     Said("node_id", if c.identity.None? then "unknown" else Known(c.identity.value.nodeId, "unknown"))]
  }

  function PlatformSays(c: Context): seq<Member> {
    [Said("host_id", "unknown"),
     Said("firmware", if c.firmware == Hosted then "hosted" else if c.firmware == Uefi then "uefi" else "unknown"),
     Said("storage_backend", Known(c.storage.backend, "unknown")),
     Said("storage_state", if c.storage.verified then "verified" else "degraded")]
  }

  function ReadinessSays(c: Context): seq<Member> {
    [Marked("console_ready", c.consoleReady), Marked("audit_ready", c.auditReady),
     Marked("restricted_diagnostic", !c.auditReady), Marked("proposal_engine_ready", c.proposalReady),
     Marked("node_core_ready", c.nodeReady)]
  }

  function PeersSay(c: Context): seq<Member> {
    [Counted("peers_discovered", c.peers), Counted("pending_proposals", c.pending)]
  }

  function SessionSays(c: Context): seq<Member> {
    [Said("type", "session")] + (SystemSays(c) + IdsSay(c) + PlatformSays(c) + ReadinessSays(c) + PeersSay(c))
  }

  function ProcessorSays(hw: Hardware): seq<Member> {
    [Said("cpu_arch", Known(hw.cpuArch, "unknown")), Said("cpu_model", Known(hw.cpuModel, "unavailable")),
     Counted("ram_bytes", hw.ramBytes)]
  }

  function SurroundingsSay(hw: Hardware): seq<Member> {
    [Said("firmware_type", Known(hw.firmwareType, "unknown")), Said("console_type", Known(hw.consoleType, "unknown"))]
  }

  function DeskSays(hw: Hardware): seq<Member> {
    [Counted("display_count", hw.displays), Counted("keyboard_count", hw.keyboards), Counted("mouse_count", hw.mice),
     Counted("audio_count", hw.audio), Counted("microphone_count", hw.microphones)]
  }

  function LinksSay(hw: Hardware): seq<Member> {
    [Counted("net_count", hw.net), Counted("ethernet_count", hw.ethernet), Counted("wifi_count", hw.wifi)]
  }

  function DrivesSay(hw: Hardware): seq<Member> {
    [Counted("storage_count", hw.storage), Counted("usb_count", hw.usb),
     Counted("usb_controller_count", hw.usbControllers), Counted("detected_at_unix", hw.detectedAt)]
  }

  function HardwareSays(c: Context): seq<Member> {
    match c.hardware
    case None => [Said("type", "hardware")] + [Marked("available", false)]
    case Some(hw) =>
      [Said("type", "hardware")]
      + ([Marked("available", true)] + (ProcessorSays(hw) + SurroundingsSay(hw)) + DeskSays(hw) + LinksSay(hw)
         + DrivesSay(hw))
  }

  function StorageSays(c: Context): seq<Member> {
    var st := c.storage;
    [Said("type", "storage")]
    + ([Marked("initialized", st.initialized), Marked("writable", st.writable),
        Marked("bootstrap_attempted", st.attempted), Marked("bootstrap_verified", st.verified)]
       + [Said("backend", Known(st.backend, "none")), Said("root_hint", Known(st.rootHint, "/vita")),
          Said("last_error", Known(st.lastError, "none"))])
  }

  function AdaptersSay(c: Context): seq<Member> {
    match c.hardware
    case None =>
      [Marked("hardware_snapshot_available", false), Counted("net_count", 0), Counted("ethernet_count", 0),
       Counted("wifi_count", 0)]
    case Some(hw) =>
      [Marked("hardware_snapshot_available", true), Counted("net_count", hw.net),
       Counted("ethernet_count", hw.ethernet), Counted("wifi_count", hw.wifi)]
  }

  function NetworkSays(c: Context): seq<Member> {
    [Said("type", "network")]
    + (AdaptersSay(c)
       + [Said("transport_stage",
               if c.firmware == Hosted then "hosted_tcp_test_path" else "uefi_diagnostic_status_only"),
          Marked("dhcp_ready", false), Marked("wifi_credentials_ready", false)])
  }

  function GatewaySays(): seq<Member> {
    [Said("type", "ai_gateway")]
    + [Said("stage", "command_stub_local_fallback"), Marked("remote_call_ready", false),
       Said("commands", "ai status, ai connect, " + "ai ask, ai disconnect"),
       Said("audit_policy", "future remote decisions " + "must produce auditable proposals")]
  }

  function FoldersSay(): seq<Member> {
    [Said("notes", "/vita/notes/"), Said("messages", "/vita/messages/"),
     Said("emergency_reports", "/vita/emergency/reports/"), Said("exports", "/vita/export/"),
     Said("jsonl_report", "/vita/export/reports/last-session.jsonl")]
  }

  /** Parts are listed when there are at least two. */
  function PartsSay(parts: seq<string>): seq<Member> {
    if |parts| < 2 then []
    else [Counted("transcript_jsonl_part_count", |parts|), Member("transcript_jsonl_parts", ArrayText(parts))]
  }

  function PathsSay(c: Context, parts: seq<string>): seq<Member> {
    [Said("type", "paths")]
    + (FoldersSay() + [Said("transcript_txt_path", c.txtPath), Said("transcript_jsonl_path", c.jsonlPath)]
       + PartsSay(parts) + [Said("transcript_state", c.transcriptState)])
  }

  function LimitationsSay(): seq<Member> {
    [Said("type", "limitations")]
    + [Marked("uefi_sqlite_persistence_complete", false), Marked("uefi_network_transport_complete", false),
       Marked("wifi_association_complete", false), Marked("full_vfs_complete", false),
       Said("note", "This JSONL report is a small " + "machine-readable checkpoint, "
                    + "not a full SQLite audit export.")]
  }

  function ReportSays(c: Context, parts: seq<string>): seq<seq<Member>> {
    [SessionSays(c), HardwareSays(c), StorageSays(c), NetworkSays(c), GatewaySays(), PathsSay(c, parts),
     LimitationsSay()]
  }

  // ---- The lines say so

  function ReadOf(p: Prop): Member {
    match p.value
    case Text(text) => Said(p.name, text)
    case Truth(truth) => Marked(p.name, truth)
    case Count(n) => Counted(p.name, n)
    case List(items) => Member(p.name, ArrayText(items))
  }

  function ReadAll(ps: seq<Prop>): seq<Member> { seq(|ps|, i requires 0 <= i < |ps| => ReadOf(ps[i])) }

  lemma PropIsRead(p: Prop)
    ensures Member(FieldOf(p).key, FieldOf(p).value) == ReadOf(p)
  {
  }

  lemma ObjectIsRead(o: Object)
    ensures Members(ObjectFields(o)) == [Said("type", o.kind)] + ReadAll(o.props)
  {
    hide FieldOf, ReadOf;
    PropIsRead(Prop("type", Text(o.kind)));
    TypeIsRead(o.kind);
    forall i | 0 <= i < |o.props|
      ensures Members(ObjectFields(o))[i + 1] == ReadOf(o.props[i])
    {
      PropIsRead(o.props[i]);
    }
  }

  lemma TypeIsRead(kind: string)
    ensures ReadOf(Prop("type", Text(kind))) == Said("type", kind)
  {
  }

  lemma ReadTogether(a: seq<Prop>, b: seq<Prop>)
    ensures ReadAll(a + b) == ReadAll(a) + ReadAll(b)
  {
    hide ReadOf;
  }

  lemma ReadFive(a: seq<Prop>, b: seq<Prop>, c: seq<Prop>, d: seq<Prop>, e: seq<Prop>)
    ensures ReadAll(a + b + c + d + e) == ReadAll(a) + ReadAll(b) + ReadAll(c) + ReadAll(d) + ReadAll(e)
  {
    hide ReadAll;
    ReadTogether(a, b);
    ReadTogether(a + b, c);
    ReadTogether(a + b + c, d);
    ReadTogether(a + b + c + d, e);
  }

  lemma SessionParagraphs(c: Context)
    ensures ReadAll(System(c)) == SystemSays(c) && ReadAll(Ids(c)) == IdsSay(c)
    ensures ReadAll(Platform(c)) == PlatformSays(c)
  {
    hide Said;
  }

  lemma ReadinessParagraphs(c: Context)
    ensures ReadAll(Readiness(c)) == ReadinessSays(c) && ReadAll(Peers(c)) == PeersSay(c)
  {
    hide Marked, Counted;
  }

  lemma SessionLineSays(c: Context)
    ensures Members(ObjectFields(SessionLine(c))) == SessionSays(c)
  {
    hide Said, ReadAll, System, Ids, Platform, Readiness, Peers, ObjectFields;
    hide SystemSays, IdsSay, PlatformSays, ReadinessSays, PeersSay;
    ObjectIsRead(SessionLine(c));
    SessionParagraphs(c);
    ReadinessParagraphs(c);
    ReadFive(System(c), Ids(c), Platform(c), Readiness(c), Peers(c));
  }

  lemma MachineParagraphs(hw: Hardware)
    ensures ReadAll(Processor(hw)) == ProcessorSays(hw) && ReadAll(Surroundings(hw)) == SurroundingsSay(hw)
    ensures ReadAll(Machine(hw)) == ProcessorSays(hw) + SurroundingsSay(hw)
  {
    hide Said, Counted;
    ReadTogether(Processor(hw), Surroundings(hw));
  }

  lemma CountParagraphs(hw: Hardware)
    ensures ReadAll(Desk(hw)) == DeskSays(hw) && ReadAll(Links(hw)) == LinksSay(hw)
    ensures ReadAll(Drives(hw)) == DrivesSay(hw)
  {
    hide Counted;
  }

  lemma AvailabilityParagraph(c: Context)
    ensures ReadAll(Availability(c)) == [Marked("available", c.hardware.Some?)]
  {
    hide Marked;
  }

  lemma HardwareLineSays(c: Context)
    ensures Members(ObjectFields(HardwareLine(c))) == HardwareSays(c)
  {
    hide Said, Marked, ReadAll, Availability, Machine, Desk, Links, Drives, ObjectFields;
    hide ProcessorSays, SurroundingsSay, DeskSays, LinksSay, DrivesSay;
    ObjectIsRead(HardwareLine(c));
    AvailabilityParagraph(c);
    if c.hardware.Some? {
      var hw := c.hardware.value;
      MachineParagraphs(hw);
      CountParagraphs(hw);
      ReadFive(Availability(c), Machine(hw), Desk(hw), Links(hw), Drives(hw));
    }
  }

  lemma StorageParagraphs(st: StorageStatus)
    ensures ReadAll(StorageFlags(st)) ==
      [Marked("initialized", st.initialized), Marked("writable", st.writable),
       Marked("bootstrap_attempted", st.attempted), Marked("bootstrap_verified", st.verified)]
    ensures ReadAll(StorageTexts(st)) ==
      [Said("backend", Known(st.backend, "none")), Said("root_hint", Known(st.rootHint, "/vita")),
       Said("last_error", Known(st.lastError, "none"))]
  {
    hide Said, Marked;
  }

  lemma StorageLineSays(c: Context)
    ensures Members(ObjectFields(StorageLine(c))) == StorageSays(c)
  {
    hide Said, Marked, Known, ReadAll, StorageFlags, StorageTexts, ObjectFields;
    ObjectIsRead(StorageLine(c));
    StorageParagraphs(c.storage);
    ReadTogether(StorageFlags(c.storage), StorageTexts(c.storage));
  }

  lemma NetworkParagraphs(c: Context)
    ensures ReadAll(Adapters(c)) == AdaptersSay(c)
    ensures ReadAll(Transport(c)) ==
      [Said("transport_stage", if c.firmware == Hosted then "hosted_tcp_test_path" else "uefi_diagnostic_status_only"),
       Marked("dhcp_ready", false), Marked("wifi_credentials_ready", false)]
  {
    hide Said, Marked, Counted;
  }

  lemma NetworkLineSays(c: Context)
    ensures Members(ObjectFields(NetworkLine(c))) == NetworkSays(c)
  {
    hide Said, Marked, Counted, ReadAll, Adapters, Transport, AdaptersSay, ObjectFields;
    ObjectIsRead(NetworkLine(c));
    NetworkParagraphs(c);
    ReadTogether(Adapters(c), Transport(c));
  }

  lemma GatewayLineSays()
    ensures Members(ObjectFields(GatewayLine())) == GatewaySays()
  {
    hide Said, Marked, ObjectFields;
    ObjectIsRead(GatewayLine());
  }

  lemma PathParagraphs(c: Context, parts: seq<string>)
    ensures ReadAll(Folders()) == FoldersSay() && ReadAll(Parts(parts)) == PartsSay(parts)
    ensures ReadAll(TranscriptFiles(c)) ==
      [Said("transcript_txt_path", c.txtPath), Said("transcript_jsonl_path", c.jsonlPath)]
    ensures ReadAll(State(c)) == [Said("transcript_state", c.transcriptState)]
  {
    hide Said, Counted, ArrayText;
  }

  lemma PathsLineSays(c: Context, parts: seq<string>)
    ensures Members(ObjectFields(PathsLine(c, parts))) == PathsSay(c, parts)
  {
    hide Said, ReadAll, Folders, TranscriptFiles, Parts, State, FoldersSay, PartsSay, ObjectFields;
    ObjectIsRead(PathsLine(c, parts));
    PathParagraphs(c, parts);
    ReadTogether(Folders(), TranscriptFiles(c));
    ReadTogether(Folders() + TranscriptFiles(c), Parts(parts));
    ReadTogether(Folders() + TranscriptFiles(c) + Parts(parts), State(c));
  }

  lemma LimitationsLineSays()
    ensures Members(ObjectFields(LimitationsLine())) == LimitationsSay()
  {
    hide Said, Marked, ObjectFields;
    ObjectIsRead(LimitationsLine());
  }

  /** Each line reads as what is said. */
  predicate ReadAs(lines: seq<string>, says: seq<seq<Member>>) {
    |lines| == |says| && forall i :: 0 <= i < |lines| ==> ReadLine(lines[i]) == Some(says[i])
  }

  /** Whatever the kernel knew, within the sizes of its fields, a reader of the stored report finds it, line by line,
      under the names of the report. */
  lemma ReportSaysWhatIsKnown(c: Context, count: nat)
    requires Sized(c) && count <= PARTS_COUNTED
    ensures var parts := PartPaths(c.jsonlPath, count);
            ReadAs(SplitLines(ReportText(c, parts)), ReportSays(c, parts))
  {
    hide Report, ReportSays, ReportText, SplitLines, ReadLine, ObjectFields, Sized, PartPaths;
    var parts := PartPaths(c.jsonlPath, count);
    ReportReadsBack(c, count);
    LinesSay(c, parts);
  }

  lemma LinesSay(c: Context, parts: seq<string>)
    ensures var os, says := Report(c, parts), ReportSays(c, parts);
            |os| == |says| == 7 && forall i :: 0 <= i < 7 ==> Members(ObjectFields(os[i])) == says[i]
  {
    hide SessionLine, HardwareLine, StorageLine, NetworkLine, GatewayLine, PathsLine, LimitationsLine, ObjectFields;
    hide SessionSays, HardwareSays, StorageSays, NetworkSays, GatewaySays, PathsSay, LimitationsSay;
    SessionLineSays(c);
    HardwareLineSays(c);
    StorageLineSays(c);
    NetworkLineSays(c);
    GatewayLineSays();
    PathsLineSays(c, parts);
    LimitationsLineSays();
    var os, says := Report(c, parts), ReportSays(c, parts);
    forall i | 0 <= i < 7
      ensures Members(ObjectFields(os[i])) == says[i]
    {
      assert i == 0 || i == 1 || i == 2 || i == 3 || i == 4 || i == 5 || i == 6;
    }
  }
}
