# Verified models of mcp-writ

mcp-writ is a policy-enforcing proxy for JSON-RPC tool servers. This project models
its self-contained cores in Dafny 4.11 and proves what their documentation promises
over every run, every chunking and every string. `dafny verify dfyconfig.toml` checks
the whole project.

| module | what it models |
|---|---|
| `AuditSink`, `FileWriter` | the audit writer's storage: buffer, file, synced prefix, directory entry, rotation; every operation may fail |
| `AuditLogger`, `AuditRuns`, `AuditCorners`, `ReopenOrder`, `AuditProgress` | the fail-closed logger as a step system over any number of concurrent calls and one writer: what every run keeps and what its calls achieve |
| `Framing`, `StderrRelay` | bounded line framing and the capped stderr relay, over any split of a stream into chunks |
| `Utf8`, `Percent`, `BoundedDecode` | lossy UTF-8, percent decoding, the audit-field encoder, the bounded decode-and-strip loop |
| `Text`, `Numerals`, `Ipv4`, `FsArgument`, `SecretPaths` | argument normalization and the secret-path overlay, in the current and in the frozen reference form |
| `FileUri`, `ReservedPaths` | the same two read on the text: the path a `file:` URI names, and the set of reserved paths |
| `JsonPointer`, `SchemaScan`, `SchemaScanner`, `SchemaCorners` | the JSON Schema scan: a depth-limited search with a visited set keyed by pointer text |
| `PayloadScan`, `InlineEval` | the payload boundary of a launch line under one or two option grammars, and which launch lines evaluate code |
| `CivilDate`, `ListState`, `ArtifactRotation` | date arithmetic, the tools/list collection state, crash-safe rotation of fuzzing evidence |
| `Bytes`, `Options` | shared definitions |

Conventions. The Unix build is modelled. Integers are unbounded; 32- and 64-bit limits,
saturation and Rust's truncating division are written out where they matter. A
nondeterministic answer of the operating system is a parameter (`Write`, `Outcome`,
`Swap`, `Weather`), so each statement covers every pattern of failures. NFKC, the IPv6
loopback test, path resolution, home directories and regex compilation are function
parameters; all that is asked of NFKC is that it leaves ASCII alone. Code that updates
state in place is a class or a loop proved equal to a specification function, and the
promises are proved about that function.

Where a comment and the code disagree the model follows the code: at
src/workload.rs:359-361 `:`-valued tokens are said to match nothing, but the part before
the colon is matched; at src/schema_spec.rs:161-163 invalid sequences are said to pass
through verbatim, which is true of malformed escapes, while decoded bytes that are no
UTF-8 become U+FFFD.

These promises turned out to hold only under a condition:

- `log_committed` covers the records queued up to its own. A `log` that returns after
  the acknowledgement but before the caller is told is not covered
  (`AuditCorners.CommitDoesNotCoverLateLog`).
- `shutdown` vouches for the log once the writer has ended. Another `shutdown`, cancelled
  while it waited for the writer, detaches the join handle, and then it may return Ok
  before that (`AuditCorners.ShutdownAfterCancelledShutdown`).
- Whatever fails, the log repeats and reorders nothing; of the records the writer has
  finished with it misses those whose `write_all` failed, and no others
  (`AuditRuns.RotationKeepsLog`).
- The comments at src/audit_log.rs:465-467 and src/audit_log/writer.rs:268-271 say that
  every record queued ahead of a reopen goes to the old file. The select loop looks at
  the record queue and then at the reopen queue, and on the multi-thread runtime a record
  and then a request can arrive in between; that record goes to the new file
  (`AuditCorners.ReopenOvertakesRecord`). That is the only exception: a reopen call can
  overtake a queued record in some run exactly when it begins between the two looks, with
  a record queued since the first, no other request waiting and the reopen channel open
  (`ReopenOrder.ReopenOrderExact`). Once the files are written, a record is in the old one
  exactly when the writer had finished with it when it took the request
  (`AuditRuns.ReopenSplitsLog`).
- The comment at src/schema_spec.rs:209 says that an empty scan means the schema can be
  evaluated as written. It fails for duplicate subschema names and for ones that
  percent-decode (`SchemaCorners.DuplicateNameHides`, `SchemaCorners.EscapedNameHides`);
  without those it holds, whatever names the data carries (`SchemaScan.EmptyScanIsSound`),
  and below the depth limit the scan is exact (`SchemaScan.ScanExact`).
- The early exit of `matches_reserved_form` changes no verdict exactly when no resolved
  alias can be matched by an unbroken name (`SecretPaths.EarlyExitExact`).
- The comment at src/pathutil.rs:265-267 says that `..` never silently disappears at a
  relative root. It does when a path climbs two levels (`FsArgument.TwoUpsVanish`), and
  only then (`FsArgument.RelativeExact`).
- Adding the resolved image hides no flag-spelled evaluation
  (`PayloadScan.ResolvedNeverHides`), but it can hide the implicit command of Windows
  PowerShell (`PayloadScan.ConflictHidesCommand`, `PayloadScan.ImplicitCommandExact`).
- Normalization is idempotent on non-empty results through ASCII intermediates
  (`FsArgument.NormalizeIdempotent`), and not beyond
  (`FsArgument.NormalizeMovesBeyondAscii`).

## Model

| member | source | states |
|---|---|---|
| `FileWriter.Writer.constructor` | src/audit_log/writer.rs:123-127 | a fresh writer: empty file, empty buffer, and an unsynced entry exactly when a parent handle came with the file |
| `FileWriter.Writer.Put` | src/audit_log/writer.rs:157-168 | one `write_all` through the 64 KiB buffer: spilled, buffered or written through, with any prefix on a failure, as the storage function says |
| `FileWriter.Writer.FlushAndPersist` | src/audit_log/writer.rs:171-226 | flush, fsync, entry fsync and visibility check in order, each gated on the ones before; success only if all succeeded |
| `FileWriter.Writer.WriteRecord` | src/audit_log/writer.rs:139-234 | the record arm leaves exactly the storage of `RecordArm`, acknowledges exactly when it does, and raises the flag on every fault |
| `FileWriter.Writer.Reopen` | src/audit_log/writer.rs:68-105 | flush, fsync and entry sync on the old handle before the swap; the new handle is live even if its own entry sync fails |
| `FileWriter.Writer.ServeReopen` | src/audit_log/writer.rs:272-367 | the reopen arm: swap, in-band marker, marker made durable before the reply; the reply is ok exactly when nothing failed |
| `FileWriter.Writer.TickFlush` | src/audit_log/writer.rs:368-376 | the flush tick acts only when something was buffered |
| `FileWriter.Writer.TickFsync` | src/audit_log/writer.rs:377-391 | the fsync tick syncs the file and an unsynced entry |
| `FileWriter.Writer.Close` | src/audit_log/writer.rs:235-265 | the final flush, fsync, entry sync and visibility check all run; any failure raises the flag |
| `AuditSink.RecordArmKept` | src/audit_log/writer.rs:139-234 | for every outcome the log only grows and stays intact; the record is its next line unless its own `write_all` failed, whatever flush, fsync, directory and visibility did, and a failed one faults and is remembered as lost; an acknowledgement means every line is settled in a named, synced file, and a record that must be synced is acknowledged or faults |
| `AuditSink.ReopenSinkKeeps` | src/audit_log/writer.rs:68-105 | the retired handle is flushed, synced and entry-synced before the swap; whatever fails, the lines of the log are the same, in the same order, and a fresh handle is empty |
| `AuditSink.ReopenArmKept` | src/audit_log/writer.rs:272-367 | for every outcome the recorded entries are unchanged and every handle survives; the marker is the next line of the log unless its own write failed; the reply is ok exactly when nothing faulted, and then the marker is durably the only line of the new handle |
| `AuditSink.CloseArmKept` | src/audit_log/writer.rs:235-265 | closing without a fault settles every line of every handle |
| `AuditSink.FlushTickKept` | src/audit_log/writer.rs:368-376 | the flush tick moves bytes from buffer to file and changes no line |
| `AuditSink.FsyncTickKept` | src/audit_log/writer.rs:377-391 | the fsync tick only grows the synced prefix |
| `AuditSink.SettledRecords` | src/audit_log/writer.rs:139-265 | in a settled sink every recorded entry has its bytes in the fsynced part of a file whose entry is synced |
| `AuditRuns.StepKeeps` | src/audit_log.rs:269-636 | every enabled step of every caller and of the writer keeps the twelve invariants: budget, slots, kinds, queue order, storage, acknowledgements, flag, call order, join handle, drain, replies, reopen splits; what the calls achieve is stated by `AuditProgress` |
| `AuditRuns.RunKeeps` | src/audit_log.rs:269-636 | every run keeps the invariants and the log only grows along it; `AuditProgress` states what a run achieves |
| `AuditRuns.CommittedIsDurable` | src/audit_log.rs:408-462 | in every run, when `log_committed` returns Ok, the bytes of its record, of every record queued before it and of every record of a logging call that returned before it started are in the fsynced part of a named file, for good |
| `AuditRuns.PressingIsDurable` | src/audit_log.rs:42-70 | in every run with the flag down, a record of High severity, or any record under EveryEvent, is durable with all before it once the writer has finished with it, for good |
| `AuditRuns.ShutdownIsDurable` | src/audit_log.rs:604-636 | in every run, when `shutdown` returns Ok and no other shutdown was cancelled mid-join or the writer has returned all the same, the bytes of every returned logging call and of every queued record are durable for good |
| `AuditRuns.RotationKeepsLog` | src/audit_log/writer.rs:68-105 | in every run of either mode the log, markers removed, is the dequeued records in queue order, each of a different call, without exactly those whose `write_all` failed; the segments before one that a marker heads hold exactly the records finished when that request was taken; until a `write_all` fails every segment with the buffer is byte for byte its lines and every swapped-in segment starts with a marker, and until a flush fails too no segment ends inside a line; retired segments are durable whatever failed |
| `AuditRuns.ReopenSplitsLog` | src/audit_log/writer.rs:268-313 | in every run a record that was not lost lies in a segment older than the one a reopen marker heads exactly when the writer had finished with it when it took the request, and in that segment or a newer one exactly otherwise |
| `AuditRuns.PromptReopenIsOrdered` | src/audit_log.rs:465-467 | every record queued before a reopen call began lies in no segment its marker heads nor a newer one, and in an older one unless its write was lost, if the call did not begin between the two looks of the writer with a record queued behind its back and no request ahead |
| `AuditRuns.BudgetIsConserved` | src/audit_log.rs:279-394 | permits plus the shares of waiting callers, queued records and the record in hand equal 32 MiB in every reachable state; channel slots likewise |
| `AuditRuns.DrainedQueueAdmits` | src/audit_log.rs:269-277 | no share exceeds the budget, so a drained queue can always grant a waiting caller all it needs |
| `AuditCorners.CommitDoesNotCoverLateLog` | src/audit_log.rs:408-462 | a run in which a log call returns before `log_committed` does and its record is not durable afterwards |
| `AuditCorners.ShutdownAfterCancelledShutdown` | src/audit_log.rs:604-636 | a run in which a shutdown returns Ok while a record is still queued, because an earlier shutdown was cancelled mid-join |
| `AuditCorners.ReopenOvertakesRecord` | src/audit_log/writer.rs:134-142 | a run in which a record whose call returned before the reopen call began lands behind its marker, in the new segment, because it was queued between the polls of the two arms |
| `ReopenOrder.ReopenOrderExact` | src/audit_log/writer.rs:268-272 | from every reached state, no run lets a reopen call that begins there overtake a queued record if and only if the call does not begin between the two looks of the writer with a record queued behind its back and no request ahead, or the reopen channel is closed |
| `AuditProgress.LogIsAccepted` | src/audit_log.rs:279-330 | from every state with bytes and a slot free, the sender stored and the writer running, a call that never waits returns with its record at the end of the queue, the counter and the flag as they were, in either mode |
| `AuditProgress.QueuedUnlessRefused` | src/audit_log.rs:279-330 | whatever else runs, a logging call that never waits has its record queued by the time it returns if and only if neither of its two steps met a lack of bytes, of a slot, of the sender or of the writer |
| `AuditProgress.DroppedIsOverflow` | src/audit_log.rs:281-304 | along every run the counter of dropped events grows by exactly the number of records turned away for want of bytes or of a slot |
| `AuditProgress.ErrorIsJustified` | src/audit_log.rs:345-462 | in every run of either mode a logging call returns an error only from a fail-closed logger whose flag is up or whose sender is gone |
| `AuditProgress.SmoothRun` | src/audit_log.rs:269-462 | in every run without a storage fault, a lack of room, a dead writer or a shutdown, the flag stays down, nothing is dropped, every logging call that returns returns Ok with its line queued, and the log is the queue history up to where the writer is |
| `AuditProgress.QueuedIsRecorded` | src/audit_log/writer.rs:139-234 | from every reached state with the writer alive, its own steps bring each queued record to the log, the flag and the counter unchanged |
| `AuditProgress.LogIsRecorded` | src/audit_log.rs:279-330 | from every reached state with room, in either mode, a `log` call returns and its line reaches the log |
| `AuditProgress.WaitingCallSucceeds` | src/audit_log.rs:345-462 | from every reached state with the sender stored, the flag down and room, `log_ordered` and `log_committed` return Ok with the line in the log |
| `Framing.Source.FillBuf` | src/fuzz.rs:54-70 | hands out the stream in arbitrary non-empty chunks; empty exactly at the end |
| `Framing.Source.Consume` | src/fuzz.rs:66-77 | drops exactly the given number of bytes from the stream |
| `Framing.Absorb` | src/framing.rs:130-167 | after any number of segments the two windows are the first and last min(8 KiB, length) bytes of the frame so far |
| `Framing.ReadFrameBounded` | src/framing.rs:108-188 | for every stream, chunking and limit: the outcome of splitting at the first newline, with exact length and windows, one CR stripped only before a newline, and exactly the frame and its newline consumed |
| `Framing.ReadLineBounded` | src/framing.rs:198-248 | agrees with the resumable reader within the limit; otherwise refuses at a length past the limit and at most the true frame length, with the newline unread |
| `Framing.DrainFrames` | src/fuzz.rs:120-151 | repeated resumable reads deliver every frame and consume the whole stream |
| `Framing.DrainLines` | src/fuzz.rs:158-184 | the fail-fast drain gives the same lines and stops exactly where the resumable one meets its first oversized frame |
| `Framing.FramesOfJoined` | src/framing.rs:92-107 | framing undoes joining: the frames of newline-joined pieces are the pieces, each judged on its own |
| `Framing.EveryStreamIsJoined` | src/framing.rs:92-107 | every stream is such a joined stream, so the statement above covers all inputs |
| `StderrRelay.LinesAppend` | src/termutil.rs:129-141 | splitting chunk by chunk with a carried rest is splitting the whole text |
| `StderrRelay.Relay.SplitAndWrite` | src/termutil.rs:132-141 | emits exactly the complete lines of pending plus chunk and carries the unterminated rest |
| `StderrRelay.Relay.FlushPending` | src/termutil.rs:145-150 | emits the rest exactly when it is not empty |
| `StderrRelay.Relay.Absorb` | src/termutil.rs:62-85 | one chunk against the budget keeps the relay state that the whole stream so far determines |
| `StderrRelay.RelayChildStderr` | src/termutil.rs:52-88 | for every chunking: the complete lines of the first 64 KiB, then one notice exactly when more arrived, then a non-empty rest; the pipe is always drained |
| `Utf8.LossyEncode` | src/pathutil.rs:611 | lossy decoding inverts UTF-8 encoding on every string |
| `Utf8.LossyCount` | src/pathutil.rs:611 | lossy decoding yields at most one character per well-formed character or stray byte |
| `Percent.PercentDecodeOnce` | src/pathutil.rs:594-611 | the decoding loop is one layer of percent decoding |
| `Percent.SchemaPercentDecode` | src/schema_spec.rs:164-192 | the independent decoder of the schema module equals `percent_decode_once` on every input |
| `Percent.DecodeFixed` | src/pathutil.rs:576-611 | one layer leaves a string unchanged exactly when it spells no escape, and otherwise shortens it |
| `Percent.DecodeSlash` | src/schema_spec.rs:130-136 | no escape and no character reaches across a slash: decoding works segment by segment |
| `Percent.EscapeValue` | src/pathutil.rs:576-611 | an escape spelled with digits of either case decodes to the byte of that value |
| `Percent.StrayPercent` | src/pathutil.rs:594-611 | a percent sign without two hexadecimal digits behind it stands for itself |
| `Percent.EncodeAuditFieldValue` | src/audit_log/event.rs:246-257 | the encoding loop writes each unreserved byte as itself and every other as an upper-case escape |
| `Percent.FieldRoundTrip` | src/audit_log/event.rs:246-257 | one layer of decoding undoes the field encoding on every string |
| `Percent.FieldInjective` | src/audit_log/event.rs:246-257 | different values have different encodings |
| `Percent.FieldWellEncoded` | src/audit_log/event.rs:240-245 | the output is unreserved bytes and %XX triples only (sections 2.1 and 2.3 of RFC 3986) |
| `Percent.WellEncodedInert` | src/audit_log/event.rs:240-245 | every byte of such an output is unreserved or the percent sign, so no space, equals sign, semicolon, quote or control can appear |
| `BoundedDecode.ReferenceBounded` | src/pathutil.rs:1420-1437 | the frozen owned loop computes the bounded decoding |
| `BoundedDecode.PercentDecodeBounded` | src/pathutil.rs:760-789 | the borrowing loop with its printable-ASCII early return computes the same on every input |
| `BoundedDecode.BoundedOk` | src/pathutil.rs:745-789 | Ok exactly when decode-then-strip reaches a fixed point within eight rounds with no NUL on the way |
| `BoundedDecode.BoundedStable` | src/pathutil.rs:745-789 | every Ok result has no escape, no stripped control and no NUL, and a second call returns it; only such strings are returned as they are |
| `Ipv4.ParseIpv4Whatwg` | src/pathutil.rs:921-946 | the parsing loops compute the specified value or refusal |
| `Ipv4.AddressFits` | src/pathutil.rs:934-946 | every accepted spelling has a value below 2^32, so the final cast truncates nothing |
| `Ipv4.WeightedIsHorner` | src/pathutil.rs:941-945 | adding parts at their powers of 256 is the positional value |
| `Ipv4.PrintedParses` | src/pathutil.rs:916-946 | every 32-bit address printed in one, two, three or four decimal parts parses back to itself (IPv4 parser, section 3.5 of the WHATWG URL Standard) |
| `Ipv4.SpelledParses` | src/pathutil.rs:916-946 | every 32-bit address in one to four parts, each in decimal, octal or hexadecimal, digits of either case and any leading zeros after the prefix, parses to that address |
| `FsArgument.LexicalNormalize` | src/pathutil.rs:268-316 | the component loop computes the lexical normal form |
| `FsArgument.SegmentsLexical` | src/pathutil.rs:268-328 | the components of the normal form are the resolved components of the path |
| `FsArgument.LexicalIdempotent` | src/pathutil.rs:265-267 | an absolute path has an absolute normal form without `..`, and normalizing again changes nothing |
| `FsArgument.NormalizeAgrees` | src/pathutil.rs:989-1023 | the current normalization equals the frozen one on every argument, for every NFKC that leaves ASCII alone; `FileUri` gives the values |
| `FsArgument.FileUriFront` | src/pathutil.rs:817-871 | a converted `file:` URI is an absolute or a drive path, whichever of its forms it came in; `FileUri` says which |
| `FsArgument.NormalizeIdempotent` | src/pathutil.rs:989-1023 | a result reached through ASCII intermediates is a fixed point exactly when it is not empty, on the plain, `file:` and compacted routes |
| `FsArgument.NormalizeMovesBeyondAscii` | src/secret_paths.rs:316-327 | a fullwidth percent sign folds to an escape after decoding is over, so a second pass moves |
| `FsArgument.RelativeExact` | src/pathutil.rs:265-287 | a relative path keeps its meaning exactly when it climbs at most one level |
| `FsArgument.TwoUpsVanish` | src/pathutil.rs:280-287 | two leading `..` vanish, although the comment says that `..` never silently disappears |
| `FsArgument.ParentCancels` | src/pathutil.rs:268-316 | a `..` takes back exactly the component before it and nothing else |
| `FsArgument.ParentOfRoot` | src/pathutil.rs:268-316 | a leading `..` of an absolute path does nothing |
| `FsArgument.ParentFolds` | src/pathutil.rs:268-316 | the same on the text of an absolute path |
| `FileUri.SlashForm` | src/pathutil.rs:817-871 | `file:/path`, the scheme in any case, is the path |
| `FileUri.EmptyAuthorityForm` | src/pathutil.rs:821-832 | `file:///path` is the path |
| `FileUri.LocalAuthorityForm` | src/pathutil.rs:833-858 | behind a local authority the path is the path |
| `FileUri.ForeignAuthorityRefused` | src/pathutil.rs:833-841 | any other host is refused, whatever follows it |
| `FileUri.ShareRefused` | src/pathutil.rs:821-857 | a share is refused behind an empty authority and behind any host |
| `FileUri.RelativeForm` | src/pathutil.rs:860-870 | without a slash in front the components are resolved from the root |
| `FileUri.DriveForm` | src/pathutil.rs:860-862 | a drive path is the path |
| `FileUri.BackslashIsSlash` | src/pathutil.rs:819-820 | a backslash converts as a slash in its place |
| `FileUri.QueryDropped` | src/pathutil.rs:817-818 | a query or a fragment is cut off, whatever it holds |
| `FileUri.NormalizeAbsolute` | src/pathutil.rs:989-1023 | a text that decodes, through any layers, to one of the absolute forms normalizes to the path it names |
| `FileUri.NormalizeRelative` | src/pathutil.rs:989-1023 | a text that decodes to the relative form normalizes to its components resolved from the root |
| `FsArgument.FileUriNeverUnc` | src/pathutil.rs:811-871 | a converted `file:` URI never names a share, and an authority in front of it is empty or local; `FileUri.ForeignAuthorityRefused` and `FileUri.ShareRefused` give the refusals |
| `SecretPaths.MarkersAgree` | src/secret_paths.rs:151-157 | the byte-slice test for the `.env.` marker equals lowering the segment and comparing its prefix |
| `SecretPaths.BareMatchesNothing` | src/secret_paths.rs:159-165 | a name without slash, dot or backslash matches nothing reserved, for all homes and all safe aliases |
| `SecretPaths.EarlyExitExact` | src/secret_paths.rs:159-165 | the early exit changes no verdict exactly when every resolved alias is out of reach of unbroken names |
| `SecretPaths.MatchesAgree` | src/secret_paths.rs:159-264 | the reserved-form test with its early exit and borrowed copies equals the frozen one, whose set `ReservedPaths.ReservedExact` gives |
| `SecretPaths.ReservedAgree` | src/secret_paths.rs:266-293 | skipping lexical normalization on unbroken names changes no verdict |
| `SecretPaths.IsSecretPathAgrees` | src/secret_paths.rs:296-311 | `is_secret_path` gives the frozen verdict on every input, for any resolver, homes and safe aliases; `ReservedPaths.SecretExact` gives the set |
| `SecretPaths.SharedCheck` | src/secret_paths.rs:328-352 | given a path and its own normal form, the shared check is the two-phase check |
| `SecretPaths.OverlayAgrees` | src/secret_paths.rs:371-405 | `overlay_denies` gives the frozen verdict, reason included, on every input; `ReservedPaths.ReservedIsSecret` says what it never clears |
| `SecretPaths.PreNormalizedAgrees` | src/secret_paths.rs:354-364 | `is_secret_path_pre_normalized` gives the frozen verdict on every result of normalization through ASCII intermediates |
| `ReservedPaths.SegmentHitExact` | src/secret_paths.rs:211-229 | the segment test is true exactly of the texts with a component that is, up to ASCII case, `.ssh`, `.gnupg`, `.env` or `.env.` with anything but `example` behind it, or an `.aws` with `credentials` as the next component |
| `ReservedPaths.EtcExact` | src/secret_paths.rs:191-209 | the test of a reserved file is true exactly when the folded, lowered text is that file or lies beneath it, with or without the leading slash, or matches its resolved alias |
| `ReservedPaths.HomeIsNamed` | src/secret_paths.rs:240-261 | whatever lies in a reserved place of a home has a reserved component, whatever the home |
| `ReservedPaths.ReservedExact` | src/secret_paths.rs:159-264 | a text is reserved exactly by a reserved component, by lying at or beneath one of the three files under `/etc`, or by a resolved alias of one |
| `ReservedPaths.ReservedIsSecret` | src/secret_paths.rs:266-311 | a text whose folded form is reserved is secret and denied on every host |
| `ReservedPaths.NormalIsSecret` | src/secret_paths.rs:296-311 | so is one whose normal form is reserved, and one that has no normal form |
| `ReservedPaths.SecretExact` | src/secret_paths.rs:296-311 | on a host that resolves nothing, a non-empty path without NUL is secret exactly when its folded form is reserved, its normal form is, or it has none |
| `ReservedPaths.SecretComponent` | src/secret_paths.rs:211-229 | a component with a reserved name makes an ASCII path without `..` secret and denied on every host, whatever stands around it |
| `JsonPointer.ResolveLocalRef` | src/schema_spec.rs:120-159 | the walking loop resolves a target as the recursive reading of its tokens does, errors included |
| `JsonPointer.EscapeRoundTrip` | src/schema_spec.rs:136-136 | unescaping undoes escaping on every name, and an escaped name is one segment (section 4 of RFC 6901) |
| `JsonPointer.EscapeAddsNoPercent` | src/schema_spec.rs:240-246 | escaping makes no percent escape that was not in the name |
| `JsonPointer.ResolveOn` | src/schema_spec.rs:133-157 | appending one escape-free segment to a target steps to the child it names |
| `JsonPointer.ResolveIndex` | src/schema_spec.rs:140-150 | an index is printed so that it parses back |
| `SchemaScan.FaultsExact` | src/schema_spec.rs:378-536 | a keyword is reported exactly when its value is malformed |
| `SchemaScan.NestsAtPosition` | src/schema_spec.rs:298-373 | the scan recurses into exactly the subschemas the document holds: the branches of anyOf, oneOf and allOf, the values of properties, definitions and $defs, and the schemas of items and additionalProperties |
| `SchemaScan.KeywordsExact` | src/schema_spec.rs:24-57 | a keyword has a class exactly when it is in the list of supported keywords |
| `SchemaScan.ShapesExact` | src/schema_spec.rs:378-536 | a value is accepted exactly when its keyword is supported and its kind and content are what that keyword asks for |
| `SchemaScan.KidResolves` | src/schema_spec.rs:298-373 | the pointer a subschema is scanned under resolves to that subschema |
| `SchemaScan.ScanSound` | src/schema_spec.rs:251-374 | the search keeps every finished pointer closed under schema steps while ancestors are open |
| `SchemaScan.EmptyScanIsSound` | src/schema_spec.rs:204-229 | where the reachable nodes hold their subschemas under distinct names that do not percent-decode, no findings means every node on every path of subschemas, as the document holds them, and local references is well formed |
| `SchemaScan.FaithfulIsFair` | src/schema_spec.rs:298-373 | a document whose member names are all distinct and free of escapes meets that condition |
| `SchemaScan.FindingsHaveCauses` | src/schema_spec.rs:231-238 | at most sixteen findings, each at the pointer of a scanned node that is malformed or beyond the depth limit, with a trail of distinct pointers to it |
| `SchemaScan.ScanExact` | src/schema_spec.rs:204-229 | where no trail exceeds the depth limit, the scan is empty exactly when every node reached through subschemas, as the document holds them, and local references is well formed |
| `SchemaScanner.Scanner.PushFinding` | src/schema_spec.rs:234-238 | findings are capped at sixteen |
| `SchemaScanner.Scanner.CheckType` | src/schema_spec.rs:389-423 | reports an empty list, each non-string and each unknown type name, in order |
| `SchemaScanner.Scanner.CheckKeywordShape` | src/schema_spec.rs:378-536 | pushes what the shape of one keyword calls for, and scans a resolvable reference |
| `SchemaScanner.Scanner.ScanSchema` | src/schema_spec.rs:251-374 | the in-place recursion leaves exactly the findings and visited set of the specification |
| `SchemaScanner.UnsupportedSchemaFindings` | src/schema_spec.rs:213-229 | the scan ends with at most sixteen findings, each with a cause, and an empty result is sound |
| `SchemaCorners.DuplicateNameHides` | src/schema_spec.rs:303-313 | a second property of the same name is never scanned: no findings, yet a malformed node is one step away |
| `SchemaCorners.EscapedNameHides` | src/schema_spec.rs:520-531 | a member name that percent-decodes takes another node's key: no findings, yet a reference reaches a malformed node |
| `PayloadScan.PayloadScanOne` | src/workload.rs:826-908 | the scanning loop computes the boundary of one grammar |
| `PayloadScan.FoundInRange` | src/workload.rs:826-908 | a boundary found is the index of a token after the command |
| `PayloadScan.FamilyDecides` | src/workload.rs:587-608 | a spelling matters only through its family: equal families scan every launch line alike |
| `PayloadScan.FamilySpellings` | src/workload.rs:507-524 | every modeled family among the spellings has exactly one representative |
| `PayloadScan.DistinctIsFirst` | src/workload.rs:507-524 | ... the first spelling of that family |
| `PayloadScan.MergedBoundary` | src/workload.rs:793-822 | a merged boundary is a real token and the answer of every modeled spelling by itself |
| `PayloadScan.EvalIsModeled` | src/workload.rs:390-417 | only a modeled family has inline-evaluation flags; `InlineEval.EvalExact` says which |
| `PayloadScan.ResolvedNeverHides` | src/workload.rs:330-341 | learning the resolved image never hides a flag-spelled inline evaluation that argv[0] alone reports; `InlineEval.LinesExact` says what is reported |
| `PayloadScan.ImplicitCommandExact` | src/workload.rs:342-357 | an implicit PowerShell command that argv[0] alone reports stays reported exactly when some flag evaluates or the spellings agree on the boundary |
| `PayloadScan.ConflictHidesCommand` | src/workload.rs:347-352 | a launch line on which a Python image behind `powershell` hides the implicit command |
| `InlineEval.EvalExact` | src/workload.rs:391-447 | a token evaluates code exactly when it is one of the spellings of its family, stated on the characters of the token: clusters for the shells, Python, Perl and Ruby, words for Python and Node, parameter prefixes for PowerShell, switches for cmd, nothing for npx and unmodeled names |
| `InlineEval.FamilyExact` | src/workload.rs:587-608 | a command has a family exactly when its stem is one of that family's names |
| `InlineEval.StemOfPath` | src/workload.rs:1155-1166 | the stem is the lowered file name without `.exe`, whatever directories stand before it |
| `InlineEval.StemOfWindowsPath` | src/workload.rs:1150-1160 | ... with a backslash as separator too |
| `InlineEval.ScanExact` | src/workload.rs:826-908 | the boundary is the one answer at which a walk over the options from the first argument stops, each option passed with its operand if it takes one |
| `InlineEval.ReachedIsReported` | src/workload.rs:330-341 | an evaluating token that the walk of the spelled command reaches is reported, whatever the resolved image is and whatever follows |
| `InlineEval.FirstIsReported` | src/workload.rs:330-341 | a first argument that evaluates is always reported |
| `InlineEval.LinesExact` | src/workload.rs:330-357 | a launch line is reported exactly when a token before the boundary is an evaluating spelling of one of its families, or it is an implicit PowerShell command |
| `CivilDate.EraFloors` | src/audit_log/emit.rs:172-174 | the adjusted truncating division rounds down for negative days too |
| `CivilDate.YearOfEraExact` | src/audit_log/emit.rs:175 | the year of the era is the one whose days contain the day of the era |
| `CivilDate.CivilCounts` | src/audit_log/emit.rs:168-183 | within the range the result is a valid Gregorian date whose day count is the input |
| `CivilDate.CivilInverts` | src/audit_log/emit.rs:162-183 | converting the day count of a valid date gives the date back |
| `CivilDate.CivilSteps` | src/audit_log/emit.rs:168-183 | successive days are successive dates of the calendar |
| `CivilDate.NoOverflow` | src/audit_log/emit.rs:174-182 | no unsigned step underflows or exceeds 32 bits, and the year fits a signed 32-bit integer |
| `CivilDate.EuclideanAgrees` | examples/capture_manifest_corpus.rs:1446-1456 | the copy with Euclidean division gives the same date on every day of the range |
| `ListState.Replace` | src/auditor/proxy_list_state.rs:152-171 | replacing a member trades its charge, keeps names distinct and changes only its own value |
| `ListState.S2cListState.HoldListChanged` | src/auditor/proxy_list_state.rs:56-66 | the latest notification is held, and a listing in flight queues a revalidation |
| `ListState.S2cListState.BeginRevalidation` | src/auditor/proxy_list_state.rs:68-73 | pages are reset, the wait is set, and client id, notification and queue stay |
| `ListState.S2cListState.AppendPage` | src/auditor/proxy_list_state.rs:114-126 | the page joins the collection in order; ok exactly within both caps |
| `ListState.S2cListState.RecordCursor` | src/auditor/proxy_list_state.rs:128-138 | accepted exactly when not accepted since the last reset |
| `ListState.S2cListState.RecordExtra` | src/auditor/proxy_list_state.rs:153-170 | charged bytes equal held bytes; refused exactly when a cap would break, and then the old value is gone |
| `ListState.S2cListState.RecordResultExtras` | src/auditor/proxy_list_state.rs:148-173 | an accepted batch leaves every name with its latest value and all others alone, within 32 members and 64 KiB |
| `ListState.S2cListState.NotePageBytes` | src/auditor/proxy_list_state.rs:178-184 | bytes accumulate with saturation; ok exactly within the budget |
| `ListState.S2cListState.TakeCompletedPages` | src/auditor/proxy_list_state.rs:188-196 | the tools are the concatenation, in order, of the pages since the last reset; notification and revalidation stay |
| `ListState.S2cListState.DiscardPages` | src/auditor/proxy_list_state.rs:200-208 | everything of the collection is reset and nothing else |
| `ListState.S2cListState.ReleaseCollectionFor` | src/auditor/proxy_list_state.rs:224-236 | a collection is dropped exactly for the client it is bound to, and the id it waited on is returned |
| `ListState.S2cListState.RecordVerifiedDigest` | src/auditor/proxy_list_state.rs:253-259 | the digest is recorded and reported as changed exactly when it differs |
| `ArtifactRotation.LiveArtifacts.RotateLeftover` | fuzz/src/lib.rs:278-342 | every intermediate state of the rotation is safe; refused exactly when the older generation cannot be stashed, its rename failing or landing on a grave that holds a file, or the rename of the leftover fails |
| `ArtifactRotation.LiveArtifacts.Open` | fuzz/src/lib.rs:262-386 | whatever fails, every state on the way is safe, and persistence is on exactly when rotation and creation succeeded |
| `ArtifactRotation.LiveArtifacts.Record` | fuzz/src/lib.rs:390-404 | a completed write leaves exactly the input; a run that does not persist writes nothing |
| `ArtifactRotation.LiveArtifacts.Clear` | fuzz/src/lib.rs:411-416 | a directory left by a refused rotation is never removed |
| `ArtifactRotation.LiveArtifacts.Fail` | fuzz/src/lib.rs:465-479 | the in-flight directory goes only after the final pair exists, and never one left by a refused rotation |
| `ArtifactRotation.RunOnce` | fuzz/src/lib.rs:262-416 | at every moment of every run the leftover is untouched or rotated aside; under a refusal it is never written or deleted and no older generation is lost |
| `ArtifactRotation.LatestSurvives` | fuzz/src/lib.rs:220-238 | over any number of runs and crashes the latest abandoned generation is still in flight or in prev |
| `ArtifactRotation.GraveStays` | fuzz/src/lib.rs:331-339 | a grave that some run found with a file in it is there, as it was, for every later one |

## Left out

- Tracing sink, sink opening, pinned handles and entry verification: operating-system calls, present only as operations that succeed or fail; the tracing writer adds no storage.
- Storage arms are single steps of the logger: no caller observes storage between two operations of one arm, and a failure inside an arm is an outcome of the arm.
- The writer's two interval ticks may fire at any time in the model; the source fires them by the clock, so the model has more runs than the source.
- A record pushed into the queue of a writer that has ended gives its byte share back at once; the source's channel keeps the record, its share and its oneshot until the last sender is dropped.
- A caller drops its sender clone in the step that ends its wait, and the writer may find the queue empty whoever holds one, so the model has more runs than the source.
- ReopenOrderExact: takes the writer's look at the queue as exact; in the source's lock-free queue a send that has claimed its place and not filled it hides later ones for a moment. `ReopenSplitsLog` does not depend on that.
- The failure watch channel: an observer of the flag that decides nothing.
- `AuditProgress` says what a run without a fault or a lack of room does, and that such a run exists; that the scheduler takes its steps is not modelled.
- `bound_audit_field`, `bound_wire_fields` and `wire_size`: a record's size is a parameter of the call, capped by the budget as `prepare` caps it.
- Record text, JSON serialization, clocks, session ids and error messages: findings, verdicts and faults carry their kind and place, not their wording.
- ReadFrameBounded and ReadLineBounded return a line's bytes; the lossy conversion to text that follows is modelled in `Utf8` and not applied again.
- `sanitize_for_terminal`: a character table applied to each relayed line after the relay has decided what to emit.
- Parsing of JSON text and of regular expressions: a document is a tree, a pattern compiles or not by a parameter; a fractional literal keeps only whether it is positive.
- LexicalIdempotent: stated for absolute paths; `RelativeExact` says what relative ones keep.
- `resolve_for_authorization`, `resolve_policy_pattern` and the cache of resolved aliases: file-system answers, taken as parameters.
- NormalizeIdempotent: stated for ASCII intermediates, because beyond ASCII a second pass can move (`NormalizeMovesBeyondAscii`).
- EmptyScanIsSound: one direction at the depth limit; `ScanExact` gives both directions below it.
- ResolvedNeverHides: flag-spelled evaluation only; `ImplicitCommandExact` covers the implicit command of Windows PowerShell.
- Shebang expansion, delegating launchers, image references and module detection in src/workload.rs: name tables with one-branch facts.
- `S2cListState` members that only read, set or take one or two fields (`idle`, `needs_client_binding`, `bind_client`, `is_internal_response`, `take_queued_revalidation`, `take_verified_notification` and the like): one-line definitions.
- `ArtifactRotation` takes `exists()` as exact, while `Path::exists` is also false when the metadata cannot be read.
- `ArtifactRotation` keeps a report's text as bytes; how the replay hint inside it is found and rewritten is not modelled.
- Windows branches throughout, the DNS and packet code, the command line, spawning and enforcement: operating-system plumbing or code outside these cores.
