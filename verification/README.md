# VitaOS verification model

VitaOS is an audit-first kernel slice: it hashes every audit event into a chain, writes a transcript and a
journal of every session, and lets an operator page, edit and save text on a firmware console. This project
models that logic in Dafny and proves what the code promises about it. `dafny verify dfyconfig.toml` checks
all of it.

Code that changes buffers and counters in place is modelled by classes and methods with loops, each proved
against a specification function over values; the theorems about whole runs are lemmas about those functions.
Calls into SQLite, the file system, the UEFI firmware, clocks and the keyboard are parameters: what they
answer is any value, so a theorem over all runs is a theorem over all patterns of failure.

## Parts

- `Fips180`, `Sha256`: the Secure Hash Standard (FIPS 180-4, sections 4.1.2, 4.2.2, 5.1.1, 5.2.1, 5.3.3 and
  6.2.2) as a reference, and the hand-written streaming hash proved to compute it. `Sha256Example`: the digest of
  the standard's own example, computed round by round.
- `AuditChain`, `SmokeCheck`, `AuditLog`: the hashed payload, the documented chain check and the smoke script's
  check of the stored columns, exactly which tampering each makes evident, and the log as a machine with an early
  buffer and inserts that may fail.
- `CText`, `TextBuffer`, `TextStore`: C strings, bounded buffers, and text files whose writes may fail.
- `JsonText`, `JsonLines`, `Search`, `FieldSearch`, `PartialSearch`: strings of RFC 8259 (section 7), a reader for
  the lines written here, why a plain substring search for a field is exact, and what it finds in a text cut short.
- `TranscriptRecord`, `TranscriptPaths`, `Transcript`, `TranscriptRuns`, `TranscriptNotes`: one record, the file
  names, the transcript as a machine that rotates its parts, its runs, and reading its text back.
- `Sessions`, `NameReuse`, `PreviousSession`: session names across boots, exactly when a name is taken twice and
  what is overwritten then, and the verdict on the previous session.
- `JsonlExport`, `SessionExport`, `ReportContents`: the bounded JSON builder, the exported report and the room it
  needs, and what a reader finds under each of its names.
- `Journal`, `JournalRecords`: the journal that redacts sensitive commands, and what it keeps of all others.
- `NeonTerminal`, `TerminalEditing`: the framebuffer terminal's ring of lines, wrapping, paging and layout, and its
  backspaces.
- `NoteEditor`, `LineEditor`: the note editor's guard against destructive saves, and the key-by-key line editor
  with its history.
- `StorageTree`, `Bmp`: accepted paths and the directories a UEFI write makes, and the boot splash decoder.

## What the proofs brought to light

- The audit payload is clipped at 1023 bytes before it is hashed (kernel/audit_core.c:462-472). A longer row can be
  replaced without any hash changing (`LongRowCanBeReplaced`); shorter ones are pinned down
  (`BoundExactlyBelowTheLimit`).
- The smoke script (tools/test/smoke-audit.sh:255-284) hashes nine stored columns joined by separators, so text can be
  moved between a summary that holds one and the columns beside it, and the script notices nothing
  (`ShellMissesAChange`, `PinnedInShellExactly`). It also rejects rows with an empty summary, as `read` drops empty
  columns, and hashes payloads whole that the writer clipped (`SmokeTestPassesExactly`).
- The transcript escapes quotes, backslashes, LF and CR only, so a TAB in user text makes its line illegal JSON
  (`EscapeLegal`); the exporter escapes TAB too and replaces the other control bytes.
- The exporter's path builder gives up one character earlier than the transcript's for long session ids
  (`PartPathsAgree`); the ids the system makes have at most 20 characters.
- A UEFI write deletes the file before it creates it anew, and when the creation is refused the text is lost
  (`WriteLosesExactly`). If that happens to a TXT transcript, the session's name is free again although its JSONL
  part is stored (`NextNameTakenExactly`), and the next boot overwrites the part (`RefusedCreationOverwrites`). If
  the deletion fails where the write succeeds, the end of a longer old text stays behind (`WriteRefinesStore`).
- A read that fails while the session number is chosen makes the boot take a name in use
  (`ChosenIsFreeExactly`, `StaleNameIsOverwritten`).
- The search for an unclean previous session reads 2047 bytes of each part, so a session whose end comes later is
  called unclean (`UncleanIsExact`).
- The export's buffer of 4096 bytes is large enough for every state the kernel's fields can hold
  (`ReportAlwaysFits`).
- Paths may hold a backslash, which the firmware takes for a separator but the making of parent directories does
  not (`WriteSucceedsExactly`); a plain file in the place of an expected leaf directory passes the repair and the
  check of the tree (`RepairSucceedsExactly`).
- The editor's guard against saving over a loaded note whose text was thrown away does not stop a `.saveas` to the
  note's own path (`UnconfirmedOverwriteExactly`, `SaveAsOverwrites`).
- The splash decoder's test of the file size holds what it should exactly when the number of bits in a row does not
  wrap 32 bits (`ReadsInsideExactly`, `SomeFileWraps`).
- The terminal's backspace stops at the beginning of a wrapped piece, so a stream whose backspaces cross a wrap leaves
  other text than its edited form (`CrossingShows`).
- Unreachable branches: the usage hint of `.saveas` (`SaveAsAlwaysHasAPath`), a rotation that fails after its
  flush, and an event that does not fit a fresh part.
- docs/audit/audit-hash-chain-verification.md:20-25 describes a check that the kernel's own command does not
  make; the chain check here is the documented one.

## Model

| member | source | states |
|---|---|---|
| Fips180.RoundConstantsAreCubeRoots | kernel/audit_core.c:68-77 | The 64 table constants are the first 32 bits of the fractional parts of the cube roots of the first 64 primes (section 4.2.2 of FIPS 180-4) |
| Fips180.InitialHashIsSquareRoots | kernel/audit_core.c:178-189 | The eight start values are the first 32 bits of the fractional parts of the square roots of the first eight primes (section 5.3.3) |
| Fips180.ZeroBytesIsLeast | kernel/audit_core.c:204-242 | The padding uses the least number of zero bytes that completes a block, as section 5.1.1 asks |
| Fips180.BigEndianIsTheNumber | kernel/audit_core.c:221-229 | The length bytes, read most significant first, are the length (section 3.1) |
| Fips180.HashBlocksInOrder | kernel/audit_core.c:191-202 | The hash value starts at the initial value and takes the blocks in order, each compressed into the value so far |
| Sha256.Context.Expand | kernel/audit_core.c:129-176 | The expanded array is the message schedule of section 6.2.2, word for word |
| Sha256.Context.Transform | kernel/audit_core.c:129-176 | One transform turns the eight state words into the compression of the block in the buffer |
| Sha256.Context.Update | kernel/audit_core.c:191-202 | Any cut of a message into update calls consumes exactly its bytes and keeps the invariant: bit count plus eight times the buffered length is the bits consumed, the state is the hash of the whole blocks so far |
| Sha256.Context.StoreLength | kernel/audit_core.c:221-229 | The last eight bytes of the block become the 64-bit bit count, most significant byte first |
| Sha256.Context.PadBlocks | kernel/audit_core.c:205-219 | Both padding branches: what was consumed, the 0x80 byte and the least number of zeros end up either in one block or in two |
| Sha256.Context.Final | kernel/audit_core.c:204-242 | The digest is the SHA-256 of everything consumed, for every message below 2^61 bytes and every way it was fed in |
| Sha256.ComputeHashHex | kernel/audit_core.c:244-259 | The audit digest of a C string is the hexadecimal SHA-256 of its bytes |
| Sha256.HexInjective | kernel/audit_core.c:244-258 | Two byte strings of one hexadecimal form are the same: comparing printed digests compares digests |
| Sha256Example.DigestOfAbc | kernel/audit_core.c:244-259 | The digest of the standard's own example, the message abc, computed word by word and round by round: ba7816bf 8f01cfea 414140de 5dae2223 b00361a3 96177a9c b410ff61 f20015ad |
| AuditChain.PayloadInjective | kernel/audit_core.c:462-470 | Two rows with one payload agree in all nine hashed columns, even when summaries hold any number of separators, as long as the other columns hold none |
| AuditChain.ChainExtends | kernel/audit_core.c:459-479 | A row with the next number, the last event hash as its previous hash and its own digest extends a valid chain |
| AuditChain.TamperEvident | docs/audit/audit-hash-chain-verification.md:20-25 | Let every payload of one log be shorter than 1023 bytes. Any other log, of rows of any length and any numbers, whose links and digests pass the documented check and which ends in the same event hash is equal to it row for row in every column that is hashed, or two hashed texts standing at the same place differ and have the same SHA-256 digest |
| AuditChain.LongRowCanBeReplaced | kernel/audit_core.c:462-472 | In every log that passes the check, any row whose payload is longer can be replaced by a different one, and the log still passes with every event hash and previous hash unchanged |
| AuditChain.BoundExactlyBelowTheLimit | kernel/audit_core.c:462-472 | So the last event hash pins a log down if and only if all its payloads are shorter than 1023 bytes |
| SmokeCheck.ColumnsAreReadBack | tools/test/smoke-audit.sh:263-272 | The shell splits a printed row into its ten columns exactly when none of them is empty, and then gets them as they were |
| SmokeCheck.RunLoop | tools/test/smoke-audit.sh:255-284 | The loop splits each printed line into its ten variables, compares and hashes what they hold, and accepts the log if and only if it passes the specified check of the nine stored columns |
| SmokeCheck.TamperEvidentInShell | tools/test/smoke-audit.sh:255-284 | Two logs that pass the script's check, with no separator in any column but the summary, and end in one event hash read the same in every column, or two payloads standing in them clash |
| SmokeCheck.SeparatorCanBeMoved | tools/test/smoke-audit.sh:274-280 | Without that condition the script misses changes: where a summary holds a separator, what stands on one side of it can be moved into a neighbouring column, and the log still passes with the same hashes |
| SmokeCheck.ShellMissesAChange | tools/test/smoke-audit.sh:274-280 | Two concrete logs of one row that differ, end in one event hash and both pass the script |
| SmokeCheck.PinnedInShellExactly | tools/test/smoke-audit.sh:255-284 | Against changes in any column the last event hash pins a plain log down in the script's check if and only if no summary holds a separator, or is one |
| SmokeCheck.ChecksAgree | tools/test/smoke-audit.sh:274-280 | For logs with the writer's constant columns: one that passes the documented check passes the script if and only if no column is empty and every payload was hashed whole; one that passes the script passes the documented check if and only if every payload was hashed whole |
| AuditLog.Log.AppendEvent | kernel/audit_core.c:446-481 | A row is appended exactly when the call reports success; a failed insert leaves the sequence number and the previous hash as they were |
| AuditLog.Log.EmitBootEvent | kernel/audit_core.c:490-504 | An event goes to the 32-entry early buffer, clipped, before the backend is live, and to the database afterwards |
| AuditLog.Log.InitPersistentBackend | kernel/audit_core.c:689-740 | Each failure leaves what the code leaves open; success makes the log live, flushes the early events in order and empties their buffer |
| AuditLog.FlushStoresKept | kernel/audit_core.c:731-737 | The flush stores exactly those early events whose insert succeeds, in order, as a valid chain |
| AuditLog.RunInvariant | kernel/audit_core.c:446-504 | Over every run the rows form a chain whose length and last hash are the two counters kept in memory |
| AuditLog.StoredRowsAreTheAcceptedEvents | kernel/audit_core.c:446-504 | Over every run of emits and openings, with any pattern of failures, the stored rows are a valid contiguous chain of exactly the accepted events in emission order: the first 32 early ones, clipped, then the later ones |
| AuditLog.RowsNameTheirOpening | kernel/audit_core.c:719-731 | Over every run, each stored row names the boot by the time of the latest opening that had succeeded when its event was accepted, and holds the writer's constants in the columns that never vary |
| AuditLog.SmokeTestPassesExactly | tools/test/smoke-audit.sh:255-284 | Over every run the smoke test accepts the stored rows if and only if none has an empty summary and all payloads were hashed whole |
| TextBuffer.Buffer.Append | kernel/session_transcript.c:75-80 | Appending keeps as much as fits and reports whether that was all; the text afterwards is the clipped concatenation |
| TextBuffer.Buffer.AppendWhole | kernel/session_transcript.c:129-138 | All of the text is appended or none of it, and all exactly when it fits |
| Search.Contains | kernel/session_transcript.c:63-74 | The nested loops find the needle if and only if it occurs somewhere, for a needle that is not empty |
| Search.OccursIffPair | kernel/session_transcript.c:445-446 | Cutting a text at its quotes, the pattern "key":"value" occurs exactly where the pieces key, colon and value follow each other |
| FieldSearch.LineSearchExact | kernel/session_transcript.c:445-446 | In a line of well-formed fields, escaped user text included, the pattern is found if and only if the line has that field |
| FieldSearch.BodySearchExact | kernel/session_transcript.c:63-74 | In a body of whole lines it is found if and only if one of the lines has the field: no match straddles two lines |
| JsonLines.ReadBack | kernel/session_transcript.c:230-273 | An RFC 8259 reader gets back every key and value of a written line |
| JsonLines.OneLineFeed | kernel/session_transcript.c:268-272 | A written line holds exactly one line feed, at its end |
| JsonLines.SplitConcat | kernel/session_transcript.c:169-172 | Splitting concatenated lines at their line feeds gives back the list of lines |
| JsonLines.OpenedAppend | kernel/session_transcript.c:232-272 | Writing piecewise, with the closing quote of a value in the literal that follows it, builds the same text as writing field by field |
| TranscriptRecord.SeqTextIsDecimal | kernel/session_transcript.c:223-229 | Below a million the six printed digits less their leading zeros are the decimal form of the number |
| TranscriptRecord.SeqDigits | kernel/session_transcript.c:223-229 | The in-place digit loops compute that text |
| TranscriptRecord.EscapeEncodes | kernel/session_transcript.c:258-270 | The escaped text between quotes is read as the text itself |
| TranscriptRecord.EscapeLegal | kernel/session_transcript.c:258-270 | The escaped text is a legal JSON string (section 7 of RFC 8259) if and only if the text has no control character other than LF and CR: a raw TAB makes the record illegal |
| TranscriptRecord.EscapeText | kernel/session_transcript.c:258-270 | The escaping loop writes the escaped form of the first 180 bytes |
| TranscriptRecord.FieldsWellFormed | kernel/session_transcript.c:230-273 | The record's fields are well formed whatever the user text holds, when the identity, type and actor hold no quote, backslash or line feed |
| TranscriptRecord.RecordLength | kernel/session_transcript.c:230-273 | The exact length of each kind of line, with the worst case of the escaped text |
| TranscriptRecord.NarrowFits | kernel/session_transcript.c:282-289 | An explicit bound on identity and type lengths keeps every line unclipped, whatever the text |
| TranscriptRecord.WholeExactlyWhenItFits | kernel/session_transcript.c:282-289 | A stored record is one whole line if and only if its line fits the local buffer |
| TranscriptRecord.WriteFields | kernel/session_transcript.c:230-273 | The sequence of clipped appends leaves the clipped unbounded line in the buffer |
| TranscriptRecord.BuildLine | kernel/session_transcript.c:230-273 | Building the line piece by piece gives the stored form of the record for all three kinds |
| TranscriptRecord.StoredReadsBack | kernel/session_transcript.c:230-273 | Reading a stored record gives its type, its actor, the first 180 bytes of its text and its number |
| TranscriptRecord.IdentityReadsBack | kernel/session_transcript.c:230-257 | Looking up the eleven identity names in a stored record gives the session's own values; a truncation record gives its session id alone |
| TranscriptRecord.BodyReadsBack | kernel/session_transcript.c:230-273 | Splitting a part at its line feeds and reading each line recovers the exact list of events and the session's identity |
| TranscriptRecord.EventTypeSearchExact | kernel/session_transcript.c:445-446 | The search for an event type succeeds if and only if some record really has that type, whatever users typed |
| TranscriptPaths.PartNamesClash | kernel/session_transcript.c:111-122 | Two parts of a session share a path exactly when both are rotated parts and their numbers agree modulo 10000 |
| TranscriptPaths.PartNamesDistinct | kernel/session_transcript.c:104-122 | Up to part 10001 all part paths of a session differ |
| TranscriptPaths.TxtIsNoPart | kernel/session_transcript.c:388-393 | No TXT path is ever a JSONL part's path |
| TranscriptPaths.SessionNamesDistinct | kernel/session_transcript.c:85-122 | Files of two numbered sessions never share a name, whatever the parts |
| TranscriptPaths.FilesAreNamed | kernel/session_transcript.c:104-122 | The names of a session's files, with a rotated part's number in four digits |
| TranscriptPaths.SessionsAreNamed | kernel/session_transcript.c:85-103 | A numbered session is called by its number in six digits |
| Transcript.Log.Flush | kernel/session_transcript.c:159-168 | Both texts are written, the second only if the first succeeded, and read back only when both are short; the result and the files are exactly those of the outcome |
| Transcript.Log.AppendRecord | kernel/session_transcript.c:129-138 | A record goes into the part whole or not at all, and exactly when there is room |
| Transcript.Log.AppendControl | kernel/session_transcript.c:173-209 | A control record of a fresh part always fits and takes the next number |
| Transcript.Log.RotateJsonlPart | kernel/session_transcript.c:210-222 | A rotation flushes first; on success the next part begins with its two control records and the number grows by two, on failure the number stays |
| Transcript.Log.ReportTruncatedOnce | kernel/session_transcript.c:139-158 | The first report marks both texts, locks the JSONL text and takes one number; later reports change nothing |
| Transcript.Log.RecordEvent | kernel/session_transcript.c:287-311 | The JSONL half of an event: the record, or a rotation and the record, or the truncation notice |
| Transcript.Log.Event | kernel/session_transcript.c:282-320 | One event moves the transcript from its state to the specified next state, flush and deactivation included |
| TranscriptRuns.RunKeeps | kernel/session_transcript.c:282-320 | After every run, under any pattern of failing writes, the parts hold whole records numbered without gap, and an active transcript's files equal its buffers |
| TranscriptRuns.StoredPartsAreTheRecords | kernel/session_transcript.c:129-222 | The stored parts joined in order are the records 1, 2, 3, ... with no gap or repeat, as long as the transcript is active |
| TranscriptRuns.EarlierPartsNeverChange | kernel/session_transcript.c:210-222 | From the event that rotated a part out on, the part has the same text after any further events, whatever fails |
| TranscriptRuns.NothingIsLost | kernel/session_transcript.c:282-320 | As long as the transcript is active and not truncated, its events are exactly those requested, in order |
| TranscriptRuns.TxtTellsTheSame | kernel/session_transcript.c:282-320 | While the transcript is active and not truncated, the TXT text is the header and one line per event, each with the number of its JSONL record, cut at the end of the buffer |
| TranscriptNotes.EventLineReadsBack | kernel/session_transcript.c:282-320 | The TXT line of an event gives its number, its type, and as much of its text as the line holds |
| TranscriptNotes.TruncationReadsBack | kernel/session_transcript.c:140-150 | The TXT line of a truncation gives its number, its type and its text |
| TranscriptNotes.TxtReadsBack | kernel/session_transcript.c:282-320 | Over every run that leaves the transcript active, not truncated and its TXT text whole, splitting the text behind the header and reading each line gives every event's type and text, with the number of its JSONL record |
| TranscriptRuns.StoredPartsReadBack | kernel/session_transcript.c:230-320 | Reading the stored parts back line by line gives every record with its type, actor, first 180 bytes, number and the session's own identity values |
| Sessions.ChosenIsFreeExactly | kernel/session_transcript.c:377-387 | The chosen number is free if and only if storage answered for every number before the first free one; then it is that one |
| Sessions.SessionIdsAreNamed | kernel/session_transcript.c:383-387 | A session's id is its number in six digits, or a fixed one when no number is free |
| Sessions.ChooseSession | kernel/session_transcript.c:377-387 | The search loop over storage, whatever reads fail, computes the chosen number and the session's name |
| Sessions.BootChangesNoOldFile | kernel/session_transcript.c:377-393 | A boot that starts with a name of which nothing is stored changes no file that existed, whatever its events and however its writes fail |
| Sessions.StepFrees | kernel/session_transcript.c:129-222 | One event leaves a part without its TXT file if and only if its writes of the TXT file, in the rotation and at the end, leave it lost and the parts are not lost as well |
| Sessions.RunFreesExactly | kernel/session_transcript.c:282-320 | A run from a fresh session ends with a part stored and the TXT file gone if and only if its last event to find the transcript active does that, after an earlier one left it active |
| Sessions.NextNameTakenExactly | kernel/session_transcript.c:377-387 | The next boot takes up a name in use if and only if this boot's events and write outcomes free the name: a condition on the boot's inputs alone |
| Sessions.AllStartFreshExactly | kernel/session_transcript.c:322-463 | Over any sequence of boots from empty storage with any failures, every boot starts a session of which nothing is stored if and only if its reads are answered and no boot before the last frees its name |
| Sessions.SessionsNeverOverwrite | kernel/session_transcript.c:322-463 | Then no later boot changes a file that an earlier one left |
| NameReuse.StaleNameIsOverwritten | kernel/session_transcript.c:377-393 | Whenever reads that fail, or a freed name, make a boot choose a number with a stored file, there are events whose logging changes that file |
| NameReuse.LosingTheTxtFreesTheName | kernel/session_transcript.c:129-162 | A boot of two events whose last TXT write ends lost leaves its part stored and its name free |
| NameReuse.SecondBootOverwrites | kernel/session_transcript.c:377-393 | The next boot, with nothing failing, takes that name and overwrites the part |
| NameReuse.RefusedCreationOverwrites | kernel/storage.c:908-921 | The firmware brings it about: a write that finds its directories, deletes the old TXT file and is refused the new one is such a lost write, and the next boot overwrites the part |
| PartialSearch.LineSearchClipped | kernel/session_transcript.c:445-446 | In the beginning of a line the pattern is found if and only if the line has the field and the cut comes after its closing quote |
| PartialSearch.BodySearchClipped | kernel/session_transcript.c:63-74 | However a body of whole records is cut, the search finds an event type if and only if some record has that type and lies, up to its type, inside |
| PreviousSession.PreviousUnclean | kernel/session_transcript.c:426-456 | The loop over up to 512 parts, whatever reads fail, reports the previous session exactly by the specified verdict |
| PreviousSession.UncleanIsExact | kernel/session_transcript.c:426-456 | A session of one part of any length is called unclean if and only if the part cannot be read or no record of an ending type lies within its first 2047 bytes, whatever texts were typed |
| PreviousSession.CleanIsSound | kernel/session_transcript.c:426-456 | A session of one part that is called clean really has a record that ends it |
| NeonTerminal.InputLinesAreTheInput | arch/x86_64/boot/uefi_neon_text.c:537-570 | The lines of a stream hold no line feed, and joined by line feeds they are the stream less its carriage returns and NULs |
| NeonTerminal.WrapLosesNothing | arch/x86_64/boot/uefi_neon_text.c:560-568 | Rejoining the wrapped pieces of a line gives the line, and no piece is wider than the terminal |
| NeonTerminal.TypedTextIsWrapped | arch/x86_64/boot/uefi_neon_text.c:537-570 | Without backspaces, writing a stream character by character gives its lines, each wrapped, with the last piece as current line |
| NeonTerminal.ShownTextIsTheEnd | arch/x86_64/boot/uefi_neon_text.c:440-463 | What the terminal retains of a stream is its last 97 wrapped pieces |
| TerminalEditing.BackspacesUndo | arch/x86_64/boot/uefi_neon_text.c:551-568 | From every state, a text that fits on the line followed by as many backspaces leaves what was there |
| TerminalEditing.BackspacesErase | arch/x86_64/boot/uefi_neon_text.c:551-558 | Any number of backspaces cuts that many characters off the current line, as far as it has them, and changes nothing else |
| TerminalEditing.CompletedLinesStay | arch/x86_64/boot/uefi_neon_text.c:536-585 | A completed line stays as it is, whatever is written after it |
| TerminalEditing.EditedTextIsWrapped | arch/x86_64/boot/uefi_neon_text.c:536-585 | A stream with backspaces leaves its edited form's lines, each wrapped, as long as no backspace crosses a wrap |
| TerminalEditing.CrossingShows | arch/x86_64/boot/uefi_neon_text.c:551-568 | After such a stream one more backspace agrees with the edited form if and only if it crosses no wrap either |
| NeonTerminal.PushedRing | arch/x86_64/boot/uefi_neon_text.c:440-452 | Storing in the next free slot, or over the oldest line, keeps the ring equal to the last 96 completed lines |
| NeonTerminal.Terminal.PushCompletedLine | arch/x86_64/boot/uefi_neon_text.c:440-452 | The ring then stands for all completed lines with the new one at the end |
| NeonTerminal.Terminal.LineAt | arch/x86_64/boot/uefi_neon_text.c:454-463 | Reading the ring by index gives the retained lines in order, and the current line after them |
| NeonTerminal.Terminal.AppendChar | arch/x86_64/boot/uefi_neon_text.c:537-570 | LF, CR, NUL, backspace, wrapping and plain characters act as on the unbounded text; the view returns to the live end |
| NeonTerminal.Terminal.WriteRaw | arch/x86_64/boot/uefi_neon_text.c:718-731 | A written text acts as the unbounded specification says, through the ring |
| NeonTerminal.Terminal.ComputeLayout | arch/x86_64/boot/uefi_neon_text.c:587-628 | On a screen of at least 320 by 240 the body is centred, lies on the screen, and holds the greatest grid of rows and columns that fits |
| NeonTerminal.Terminal.RenderBody | arch/x86_64/boot/uefi_neon_text.c:487-528 | Row r of a page shows the retained line of that position at its height; the offset is clamped; the banner appears exactly when scrolled back |
| NeonTerminal.RowFits | arch/x86_64/boot/uefi_neon_text.c:508-519 | Every visible row ends above the bottom of the body, so the drawing loop never stops early |
| NeonTerminal.BannerTouchesOnlyTheBottomRow | arch/x86_64/boot/uefi_neon_text.c:521-527 | The scrollback banner lies below every row but the bottom one |
| NeonTerminal.Terminal.ScrollUp | arch/x86_64/boot/uefi_neon_text.c:751-769 | PageUp moves by all but two rows, at least one, and stops at the top |
| NeonTerminal.PagingDownShowsTheRest | arch/x86_64/boot/uefi_neon_text.c:771-787 | From any page, PageDown reaches the live view, and on the way every line from the top of that page to the last one is shown clear of the banner |
| NeonTerminal.ScrollingStaysOnTheText | arch/x86_64/boot/uefi_neon_text.c:751-796 | Over every sequence of paging keys the view stays on the retained text: the offset is never clamped, and the page is full whenever there is text to fill it |
| NeonTerminal.PagingReachesTheTop | arch/x86_64/boot/uefi_neon_text.c:751-769 | Repeated PageUp reaches a fixed point, and there the first retained line is on the page |
| NeonTerminal.PageEndsAtTheOffset | arch/x86_64/boot/uefi_neon_text.c:469-485 | At the live end the page ends with the last line, and each row scrolled back moves it one line up |
| NeonTerminal.EveryRetainedLineIsShown | arch/x86_64/boot/uefi_neon_text.c:487-528 | With at least two rows, every retained line is on some page reached by PageUp, clear of the banner |
| NeonTerminal.PagesOverlap | arch/x86_64/boot/uefi_neon_text.c:751-769 | Consecutive pages share at least two rows, and exactly two if and only if the step was not cut short by the top |
| JsonlExport.JbAppend | kernel/session_jsonl_export.c:82-92 | The builder holds the beginning of the unbounded output, cut at its capacity |
| JsonlExport.JbJsonString | kernel/session_jsonl_export.c:94-120 | Also for an escaped string between its quotes |
| JsonlExport.JsonStringIsLegal | kernel/session_jsonl_export.c:94-120 | Every written string is legal under section 7 of RFC 8259 and reads as the text with control bytes other than LF, CR and TAB replaced by a question mark |
| JsonlExport.JbArray | kernel/session_jsonl_export.c:370-392 | The buffer is the clipped output with the bracketed list of quoted strings |
| JsonlExport.ArrayReadsBack | kernel/session_jsonl_export.c:389-400 | A written array reads back as its strings, with stray control characters replaced |
| JsonlExport.AppendObject | kernel/session_jsonl_export.c:149-187 | json_begin, the properties and json_end append the object's line to the unbounded output |
| JsonlExport.WriteDocument | kernel/session_jsonl_export.c:418-430 | After any sequence of objects the buffer is the beginning of the unbounded document |
| JsonlExport.DocumentReadsBack | kernel/session_jsonl_export.c:149-187 | A document that fits splits into its lines, and each reads back as the properties put in |
| SessionExport.BuildJsonlPartPath | kernel/session_jsonl_export.c:198-242 | The in-place path builder leaves the specified path, or the empty one when the suffix is wrong or room is short |
| SessionExport.PartPathsAgree | kernel/session_jsonl_export.c:198-242 | Exporter and transcript agree on a part's path exactly for the first part or session ids of up to 153 characters |
| SessionExport.CountParts | kernel/session_jsonl_export.c:378-388 | The reported count is the largest k up to 8 such that parts 2 to k can all be read, or none without the right suffix |
| SessionExport.WriteReport | kernel/session_jsonl_export.c:418-453 | The report that is written is the seven lines for the given state and the parts counted, cut at the buffer's end, and success means it was written and read back the same |
| SessionExport.ReportAlwaysFits | kernel/session_jsonl_export.c:271-416 | Whatever texts and numbers the kernel's fields hold, and with eight parts listed under the names the transcript gives them, the seven lines fit the buffer of 4096 bytes |
| SessionExport.ReportReadsBack | kernel/session_jsonl_export.c:418-450 | So the stored report is whole: its seven lines read back as the properties put in, in order |
| SessionExport.PartListReadsBack | kernel/session_jsonl_export.c:389-404 | For a session of the transcript's, reading the array of the paths line gives the transcript's own part paths |
| ReportContents.ReportSaysWhatIsKnown | kernel/session_jsonl_export.c:261-416 | Whatever the kernel knew, within the sizes of its fields, a reader of the stored report finds it line by line under the names of the report: every text, truth value and count |
| Journal.MappingCreatesNoMatch | kernel/session_journal.c:250-262 | A mapping that keeps the letters of the sensitive words creates no match that the source text did not have |
| Journal.SanitizedIsFree | kernel/session_journal.c:224-265 | The summary made from any command holds none of the nine sensitive words |
| Journal.NothingSensitiveIsStored | kernel/session_journal.c:367-433 | Over every start of the journal, verified or not, and every sequence of calls, whatever their texts and write outcomes, neither the JSONL nor the text journal ever holds one, as long as no event type does |
| Journal.InactiveStays | kernel/session_journal.c:367-389 | Once inactive, the journal takes no event and never comes back to life |
| JournalRecords.SensitiveIsTheNineWords | kernel/session_journal.c:208-222 | The sensitive words, written out |
| JournalRecords.SanitizedByCharacter | kernel/session_journal.c:224-265 | A sensitive summary is replaced as a whole; of any other the first 159 characters are kept, line breaks and TABs blanked and other unprintable characters replaced by a question mark |
| JournalRecords.HarmlessIsKept | kernel/session_journal.c:250-262 | A printable command of at most 159 characters with no sensitive word is journalled as it is |
| JournalRecords.RecordReadsBack | kernel/session_journal.c:294-310 | Reading a JSON record gives its number, its type, its summary and the truth of the redaction |
| JournalRecords.TextLineReadsBack | kernel/session_journal.c:312-334 | Reading a text line gives its number, its type, and its summary with the mark of a redaction |
| JournalRecords.TextLineIsWhole | kernel/session_journal.c:312-334 | A text line of up to 223 characters is stored whole |
| JournalRecords.JournalReadsBack | kernel/session_journal.c:367-433 | Over every start and every sequence of calls, as long as the journal is active and nothing was cut off, its JSON lines give one record for the start and one for each call, numbered in order |
| Journal.Log.LooksSensitive | kernel/session_journal.c:208-222 | The nine scans find a sensitive word if and only if one occurs |
| Journal.Log.SanitizeText | kernel/session_journal.c:224-265 | The mapping loop computes the sanitised summary and says whether it was redacted |
| Journal.Log.AppendToBuffer | kernel/session_journal.c:152-174 | What fits is kept and anything cut off is remembered |
| Journal.Log.AppendJsonRecord | kernel/session_journal.c:294-310 | The escaped record is appended, cut at the buffer's capacity |
| Journal.Log.AppendTextRecord | kernel/session_journal.c:312-334 | The text line is cut at its local buffer, then appended with its line feed |
| Journal.Log.Init | kernel/session_journal.c:391-433 | A start on verified storage resets both journals, writes their header and first event, and is active; otherwise the journal is inactive and empty |
| Journal.Log.Flush | kernel/session_journal.c:336-365 | Both journals are written; the call succeeds if and only if both writes do and both texts, being short enough for the read, read back the same |
| Journal.Log.AddEvent | kernel/session_journal.c:367-389 | An inactive journal ignores the call; an active one adds the sanitised record to both journals, takes the next number and writes them; the files equal the buffers after writes that succeed |
| NoteEditor.SaveAsAlwaysHasAPath | kernel/editor.c:447-453 | A trimmed .saveas line always carries a path: the usage hint is never reached |
| NoteEditor.BlanksAreCut | kernel/editor.c:514 | Blanks behind a line do not matter: blanks, TABs, returns and line feeds |
| NoteEditor.EnteredLineActs | kernel/editor.c:533-611 | The effect of every command but the saves, by the word that was typed |
| NoteEditor.OtherLinesAreText | kernel/editor.c:613-618 | Any line that is no command word and no .saveas is text: it is appended with a line feed if it fits, and otherwise changes nothing |
| NoteEditor.UnforcedSaveWritesExactly | kernel/editor.c:414-426 | Over every session, an unforced save writes if and only if the note was not loaded from a file, or nothing was thrown away, or a .confirm came after the last .clear or .replace |
| NoteEditor.RunningExactly | kernel/editor.c:505-620 | Over every session, whether it still runs is decided by the typed lines and the outcomes of the writes: .exit, .quit, exit and .cancel end it, and so does a .saveas or .wq that succeeds |
| NoteEditor.OwnFileIsWrittenExactly | kernel/editor.c:414-463 | Over every session, a typed line writes the note's own file if and only if the session still runs and the line is .save!, a .saveas to that path, or .save or .wq while the guard lets it pass |
| NoteEditor.UnconfirmedOverwriteExactly | kernel/editor.c:414-463 | Over every session, a loaded note is overwritten after its text was thrown away and with nothing confirmed since if and only if .save! or a .saveas to its own path came while the guard was up |
| NoteEditor.ThrownAwayNoteStays | kernel/editor.c:414-445 | Without those two and without a confirmation, a loaded note whose text was thrown away stays as stored over every further sequence of commands and outcomes |
| NoteEditor.SaveAsOverwrites | kernel/editor.c:447-463 | The two commands .clear and .saveas with the note's own path leave the loaded note empty, nothing confirmed |
| NoteEditor.SaveIsRefused | kernel/editor.c:421-426 | The two lines .clear and .save leave a loaded note as it is stored, whatever storage answers |
| NoteEditor.StorageTakesThePath | kernel/editor.c:180-200 | The editor accepts exactly the paths that storage accepts below /vita |
| NoteEditor.SessionText | kernel/editor.c:466-621 | Over every session the text is its base, perhaps one line feed, and the accepted lines with their line feeds, and never exceeds 1535 bytes; without .clear or .replace every written text begins with the loaded text |
| NoteEditor.Session.constructor | kernel/editor.c:481-498 | Opening loads an existing note, clipped to the buffer, and in append mode makes it end in a line feed |
| NoteEditor.Session.EnsureNewline | kernel/editor.c:340-352 | A line feed is added exactly when the text is not empty, lacks one and has room |
| NoteEditor.Session.AppendLine | kernel/editor.c:354-366 | A line is taken whole with its line feed, or refused, exactly by the room left |
| NoteEditor.Session.SaveToPath | kernel/editor.c:414-445 | A save writes only to an accepted, unblocked path and succeeds only if the text reads back the same |
| NoteEditor.Session.Submit | kernel/editor.c:505-620 | One submitted line has the effect specified for the command it means |
| NoteEditor.Session.RunLines | kernel/editor.c:466-621 | The command loop computes the specified run and stops where a command ends it |
| LineEditor.Console.HistoryPush | arch/x86_64/boot/uefi_entry.c:258-290 | The shifted array of eight lines holds the old entries and the new line, the oldest dropped when full, unless the line is empty or repeats the newest entry |
| LineEditor.Console.PressKey | arch/x86_64/boot/uefi_entry.c:342-389 | One key changes the line and the history cursor as specified: recall, erase, and typing of allowed characters that fit |
| LineEditor.Console.ReadLine | arch/x86_64/boot/uefi_entry.c:315-393 | Reading consumes keys up to the first Enter, returns the edited line and pushes it |
| LineEditor.HistoryIsTheLastLines | arch/x86_64/boot/uefi_entry.c:258-290 | Over every sequence of reads with any keys, the history is the last eight entries of the returned lines less empty ones and immediate repeats |
| LineEditor.HistoryIsCollapsed | arch/x86_64/boot/uefi_entry.c:258-290 | For buffers of the size all callers use, that is the last eight of the submitted lines with empties dropped and consecutive duplicates collapsed |
| LineEditor.LinesAreAllowed | arch/x86_64/boot/uefi_entry.c:209-223 | Every returned line and every history entry, typed or recalled, uses only the allowed alphabet |
| LineEditor.ReturnedLineFits | arch/x86_64/boot/uefi_entry.c:380-388 | Every returned line leaves room for its terminator in the caller's buffer |
| LineEditor.TypingGivesTheText | arch/x86_64/boot/uefi_entry.c:383-391 | A text of allowed characters that fits, typed and entered, is the line that is returned |
| LineEditor.UpsRecall | arch/x86_64/boot/uefi_entry.c:342-350 | n presses of Up and Enter submit the n-th newest entry, or the oldest when there are fewer |
| LineEditor.DownsRecall | arch/x86_64/boot/uefi_entry.c:353-366 | n presses of Down and Enter submit the entry that many places on, or nothing behind the newest one |
| LineEditor.UpsThenDowns | arch/x86_64/boot/uefi_entry.c:342-366 | m presses of Up and then fewer of Down submit the entry that many places back |
| LineEditor.ErasesShorten | arch/x86_64/boot/uefi_entry.c:373-381 | Backspace and Delete, in any mixture, cut as many characters off the line as it has |
| LineEditor.AlphabetExactly | arch/x86_64/boot/uefi_entry.c:209-223 | The characters that can be typed, one by one |
| LineEditor.OtherKeysAreIgnored | arch/x86_64/boot/uefi_entry.c:342-389 | Any other key, and a character for which there is no room, is passed over |
| LineEditor.RecallNewestChangesNothing | arch/x86_64/boot/uefi_entry.c:258-278 | Submitting the newest entry again leaves the history as it was |
| StorageTree.UefiNameStaysInVita | kernel/storage.c:591-609 | The firmware name of every accepted path, cut to its buffer, leads inside /vita at every component of the walk |
| StorageTree.HostPathStaysInVita | kernel/storage.c:487-497 | The same for the host path inside build/storage/vita |
| StorageTree.EnsureAllKeeps | kernel/storage.c:844-855 | Making directories keeps the tree closed under parent, changes nothing that was there, adds only what was asked for, and success means all of them exist; as it holds of every prefix, parents come first |
| StorageTree.Volume.PathToChar16 | kernel/storage.c:591-609 | The conversion loop leaves the path with backslashes, cut to the buffer, exactly for accepted paths |
| StorageTree.Volume.EnsureParentDirs | kernel/storage.c:822-862 | Cutting the path buffer short in place and restoring it asks for every ancestor of the path in order, and stops at the first refusal |
| StorageTree.WriteMakesAncestors | kernel/storage.c:884-938 | Whatever the firmware answers, a write keeps the tree closed, changes only its target and adds only its ancestors; after a success they are all directories and the target holds the text |
| StorageTree.WriteSucceedsExactly | kernel/storage.c:884-938 | When the firmware grants every call, a write succeeds if and only if the path is accepted and below /vita, no file stands where a directory is needed (behind a literal backslash the directory must exist already) and the target is no occupied directory |
| StorageTree.WriteRefinesStore | kernel/storage.c:864-938 | Seen as a store of texts a write changes one text, and it reports success exactly when the text was stored, unless an older, longer file outlived its deletion |
| StorageTree.OverwrittenInPlace | kernel/storage.c:905-925 | A text written over an older one that could not be deleted takes its beginning, character for character, and the rest of the older one stays |
| StorageTree.WriteLosesExactly | kernel/storage.c:908-921 | A rewrite of a stored text loses it if and only if the firmware opens the volume, has the directories, deletes the old file and refuses the new one |
| StorageTree.Volume.WriteText | kernel/storage.c:884-938 | The write, with the deletion before it, has exactly the specified outcome in the tree |
| StorageTree.RepairSucceedsExactly | kernel/storage.c:1433-1445 | After a successful repair every expected directory exists; under a granting firmware it succeeds if and only if none of the directories that hold others is a file |
| StorageTree.ExpectedParent | kernel/storage.c:405-428 | Every expected directory stands in one listed before it |
| StorageTree.Volume.RepairTree | kernel/storage.c:1433-1445 | The loop over the 22 directories stops at the first failure, with the specified tree |
| StorageTree.Volume.TreeCheck | kernel/storage.c:1447-1466 | The check passes exactly when all expected directories are there and answer |
| Bmp.DepthsExactly | arch/x86_64/boot/uefi_splash.c:340-357 | The smallest files of 1, 24 and 32 bits are drawn, and that of no other depth |
| Bmp.StrideHoldsRowExactly | arch/x86_64/boot/uefi_splash.c:402 | The 32-bit row stride has room for a row if and only if width times bits per pixel plus 31 does not wrap |
| Bmp.RowInside | arch/x86_64/boot/uefi_splash.c:410-415 | Every byte of every row of a drawn file lies inside the file |
| Bmp.RowsInFileOrder | arch/x86_64/boot/uefi_splash.c:412-415 | The rows follow each other in the file, the top one first when the height is negative and last otherwise |
| Bmp.PixelInside | arch/x86_64/boot/uefi_splash.c:417-433 | Every byte read for a pixel lies inside the file |
| Bmp.ReadsInsideExactly | arch/x86_64/boot/uefi_splash.c:402-433 | Of every file that is drawn, all bytes read for its pixels lie inside it if and only if width times bits per pixel plus 31 does not wrap; and then the height can be negated as well |
| Bmp.SomeFileWraps | arch/x86_64/boot/uefi_splash.c:402-405 | The other case exists: a file of 63 bytes passes every test of the code, and pixel bytes lie outside it |
| Bmp.Centred | arch/x86_64/boot/uefi_splash.c:407-408 | The margins, or the parts cut off, on opposite sides differ by at most one line, the odd one on the right or at the bottom, and the whole picture shows if and only if it fits the screen |
| Bmp.OverlaidExactly | arch/x86_64/boot/uefi_splash.c:410-437 | The frame shows each pixel of the picture at its centred place on the screen and is otherwise what it was |
| Bmp.PixelChannels | arch/x86_64/boot/uefi_splash.c:274-349 | A 24 or 32-bit pixel keeps blue first in the file, and its channels land where the mode wants them: red lowest in format 0, blue lowest otherwise |
| Bmp.PaletteChannels | arch/x86_64/boot/uefi_splash.c:417-425 | In a 1-bit file the bit that stands for a pixel chooses one of the two palette entries, and its channels land where the mode wants them |
| Bmp.BitsMakeTheByte | arch/x86_64/boot/uefi_splash.c:417-422 | The bits of a byte, the highest first, make up the byte |
| Bmp.PutPixel | arch/x86_64/boot/uefi_splash.c:298-325 | A pixel on the screen changes its one entry of the framebuffer; any other changes nothing |
| Bmp.DrawCentered | arch/x86_64/boot/uefi_splash.c:359-438 | For every file whose width does not wrap and whose height can be negated, the framebuffer afterwards is the old one overlaid with the centred, clipped picture |
| Bmp.BothOrdersDrawTheSame | arch/x86_64/boot/uefi_splash.c:395-415 | A file and its mirrored form, one top-down and one bottom-up, draw the same frame |

## Left out

- AuditChain.TamperEvident: boot ids and event types are taken to hold no separator; the writer's hold none.
- SmokeCheck.RunLoop: the lines are given as printed, shorter than 2^56 characters; a TAB or a line feed inside a column, which would shift the
  script's columns, is left out.
- AuditLog.Log.InitPersistentBackend: the schema and the boot-session insert are outcomes; nothing is said about
  what SQLite stores beyond the event rows.
- TranscriptRuns.StoredPartsReadBack: for sessions whose identity, types and actors hold no quote, backslash or
  line feed and stay within the stated lengths; the code itself escapes only the text.
- TranscriptRuns.StoredPartsAreTheRecords: up to 10001 parts, after which part names repeat
  (`PartNamesClash` says exactly when).
- Sessions.AllStartFreshExactly: for fewer than 999,999 boots; past that the code uses one fixed name.
- PreviousSession.UncleanIsExact: for a session of one part; a session of several is never called unclean once a
  rotated part can be read.
- SessionExport.ReportAlwaysFits: the architecture name, which the export reads from its caller, is taken to have at
  most 31 characters, as the transcript clips it to, and session ids at most 20, as all that the system makes have.
- SessionExport.WriteReport: the part paths are collected before the line that lists them, not in the middle of it;
  the console messages and the audit events around it are left out.
- Sha256.Context.Update: for messages below 2^61 bytes, the standard's own limit.
- TextStore.Store.WriteText: a write that reports success while the end of an older, longer file stays behind is
  no outcome of the store the transcript, journal and editor use; `WriteRefinesStore` says when the UEFI backend
  has it.
- StorageTree.WriteMakesAncestors: the firmware's tree takes names literally; that a volume may fold letter case,
  empty components or `.` is not modelled, so for paths with an empty component it says nothing about a real one.
- StorageTree.HostPathStaysInVita: the host's own directories and writes are not modelled, only the mapping.
- Bmp.DrawCentered: for files whose row width does not wrap 32 bits and whose height can be negated; by
  `ReadsInsideExactly` these are the files whose pixels can be read, and what the machine does with others is
  undefined in C.
- NoteEditor.SessionText: existing files over 1535 bytes are loaded clipped, and the base is what was loaded.
- The `busy` flag of the transcript: an event is never logged from inside another one in the model.
- The TXT header of a transcript is one given text, not the list of pieces it is made of; the discovery of
  identity fields is left out.
- `\u` escapes are never written here, so the reader does not know them; the arrays it knows hold strings and are
  not empty.
- Read-back confirms texts below 2048 bytes only; nothing is claimed about longer ones.
- Drawing of glyphs, frames, colours and prompts, the console's echo and redraw, help texts and bilingual wording.
- Sequence numbers of the TXT transcript: a truncation notice shares its number with the event that caused it.
- Choosing a writable volume (`uefi_try_select_writable_fs`) and the firmware's open, handle and close calls, which
  are one answer per operation.
- The kernel's audit-verify command and its report, which re-read no rows.
- Console completion, nodes, proposals, networking, AI gateway and power control: their state is small and would
  only add easy members.
