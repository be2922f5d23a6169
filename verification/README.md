# Captain Who: verified models of the Core's state-keeping and canonicalising code

Captain Who's Core keeps a durable trace of conversations, grants and approves built-in capabilities, records context
compactions, mounts declared files for commands, and directs collaborating agents. This project models the parts of it
whose correctness spans several functions or a whole state machine, and proves what each is relied on for.

- **Durable trace projection** (`Utf8`, `Redaction`, `ByteRedaction`, `TraceProjection`, `ToolProjection`, `ToolResults`,
  `PatchProjection`, `RuntimeSanitizer`). A continuation re-projects an already projected prefix, so a projection should reproduce its own
  output. It does not always: replacing a payload shortens a text and can pull a later `;base64,` into the 512-byte window
  of an earlier `data:`. The project gives inputs on which this happens and, for redaction, for `bound_value` and for each
  of the read, web_fetch, run_command and apply_patch projections, an if-and-only-if whose condition is read off the texts
  before the call: a projection is a fixed point exactly when no `data:` that the scan skips and the truncation keeps has,
  after the cuts, a surviving base64 header in its window that the truncation keeps too ("lasting").
  What history shows of each result and call is stated key by key under literal limits, and a projection is proved to
  report a loss exactly when something was taken.
- **Built-in capability authority** (`CanonicalJson`, `Manifest`, `TargetBinding`). Canonical JSON as a complete
  invariant, manifests independent of tool order, and the target binding as a linear resource against an arbitrary
  provider, clock and cancellation.
- **Context-compaction receipt** (`CompactionReceipt`). The record as a class whose methods assign before they validate,
  and safety, provenance and token conservation over every run of successful calls.
- **Menu-bar refresh controller** (`MenuRefresh`). Timer, load, re-request, failure and dispose in every interleaving.
- **Declared file inputs** (`MountSet`, `FileInputs`). Prefix-free mount sets, the streaming copy, and materialisation of
  frozen bindings into a private tree.
- **Selector directory and wait admission** (`SelectorDirectory`), **latency histogram** (`LatencyHistogram`), **human
  answers** (`HumanAnswers`), **agent wakes** (`AgentWake`) and **pending-action identity** (`ActionIdentity`).

`Prelude`, `Text`, `Json` and `Sorting` hold what several of these share. `dafny verify dfyconfig.toml` checks everything.
In the table below the main results are marked; the other rows lead up to them or state single steps.

Modelling choices:

- Specifications are on text as a sequence of Unicode scalars with their UTF-8 widths. Redaction itself is modelled on
  the bytes, with the source's byte offsets; a slice is a function that demands character boundaries, so that every slice
  the loop takes is proved to be legal.
- A JSON object is the sequence of its members. Inserting follows an ordered map, which is what `serde_json` uses here
  (`Cargo.lock` enables no insertion-order feature). Where a lemma asks for `Ordered(value)`, it asks for no more than
  that map type guarantees. Canonical JSON is proved for members in any order (section 4 of RFC 8259).
- SHA-256, serialised byte lengths, UUID and URL checks, the apply_patch wire schema, single-field checks of tools,
  headers and approvals, provider replies, clocks and cancellation are parameters, so every theorem holds whatever they
  return. The apply_patch theorems assume that digests have their published form and that the wire schema refuses an empty
  request (`crates/core/src/tools/apply_patch/request.rs:336-346`).
- A release of a target binding, or a revocation of a grant, counts as done when it is asked for: the source discards the
  provider's answer to it, and so does the model.
- An event of the menu controller that awaits a load is split at the await; `applyMenu` does not throw.

Where the code does less than one might expect, the model follows the code:

- Redaction is not idempotent (`Redaction.SecondPassRedacts`, `Redaction.RedactIdempotentIff`).
- Nor, in consequence, are the projections (`TraceProjection.NestedLastsIff`, `ToolResults.ReadSecondPassRedacts`,
  `ToolResults.WebFetchSecondPassRedacts`, `ToolResults.RunCommandSecondPassRedacts`,
  `PatchProjection.ApplyPatchSecondPassRedacts`). Repeated on one text, redaction and bounding do
  settle (`Redaction.PassesSettle`, `TraceProjection.BoundPassesSettle`).
- Normalising a mount path is not idempotent when dropping the empty and `.` parts at its ends exposes white space
  (`MountSet.NormalFormChanges`, `MountSet.NormalizeAgainIff`).
- A minted activation is not revoked when the policy cannot be read again (`TargetBinding.MintedGrantCanLeak`,
  `TargetBinding.GrantsConserved`).
- A refreshed compaction receipt can still become applied or failed (`CompactionReceipt.RefreshedCanApply`,
  `CompactionReceipt.RefreshedCanFail`).

## Model

| member | source | states |
|---|---|---|
| `ByteRedaction.RedactBinaryText` | crates/core/src/conversation_trace_projection.rs:1252-1292 | **Main.** on the bytes of every text: the loop terminates, every slice it takes falls on a character boundary, and the result is the bytes and flag of `Redact`, whose meaning the rows below give |
| `ByteRedaction.Scan` | crates/core/src/conversation_trace_projection.rs:1256-1285 | the loop over the byte `cursor` and `output` yields the bytes of the rendered partition of the text; the flag is set exactly when a piece is cut |
| `ByteRedaction.TakeTurn` | crates/core/src/conversation_trace_projection.rs:1260-1284 | one turn strictly advances the byte cursor, to a boundary, and takes exactly the next piece: a `data:` passed over, or text kept and one URL replaced |
| `ByteRedaction.FindHeader` | crates/core/src/conversation_trace_projection.rs:1262-1270 | the search in the window finds a header exactly when one lies within 512 bytes, and its end as a byte offset |
| `ByteRedaction.SkippedBytes` | crates/core/src/conversation_trace_projection.rs:1267-1270 | a skipping turn slices on boundaries and keeps the bytes of its text |
| `ByteRedaction.CutBytes` | crates/core/src/conversation_trace_projection.rs:1271-1284 | a cutting turn slices on boundaries, keeps the bytes before the URL and adds the marker's |
| `ByteRedaction.HeaderEnd` | crates/core/src/conversation_trace_projection.rs:1262-1265 | backing off byte by byte finds the largest character boundary at most 512 bytes after the `data:` |
| `ByteRedaction.WindowChars` | crates/core/src/conversation_trace_projection.rs:1262-1266 | in characters: all text up to that boundary fits the window of 512 bytes, and one more character does not |
| `ByteRedaction.PayloadStop` | crates/core/src/conversation_trace_projection.rs:1271-1279 | the byte-wise payload loop ends on a boundary, where the payload's characters end |
| `ByteRedaction.FindBytesIs` | crates/core/src/conversation_trace_projection.rs:1258-1267 | searching the lowered bytes finds the first tag of the text, at its byte offset |
| `ByteRedaction.LiteralTag` | crates/core/src/conversation_trace_projection.rs:1260-1267 | a match in the lowered bytes always starts on a character boundary and is a tag of the text |
| `ByteRedaction.TagLiteral` | crates/core/src/conversation_trace_projection.rs:1260-1271 | a tag of the text is a match of the same size in the lowered bytes, so it also ends on a boundary |
| `ByteRedaction.StandaloneIff` | crates/core/src/conversation_trace_projection.rs:1294-1302 | the byte-wise standalone test decides the same as the test on characters |
| `Utf8.OffsetBoundary` | crates/core/src/conversation_trace_projection.rs:1263-1265 | every character offset is a boundary |
| `Utf8.BoundaryOffset` | crates/core/src/conversation_trace_projection.rs:1263-1265 | and every boundary is the offset of a character |
| `Utf8.DecodeEncode` | crates/core/src/conversation_trace_projection.rs:1252-1256 | the bytes of a text determine it |
| `Redaction.PiecesPartition` | crates/core/src/conversation_trace_projection.rs:1252-1292 | every text is the concatenation of its pieces; only base64 data URLs (section 3 of RFC 2397) are replaced, each with its payload taken to the end; an unflagged scan returns the text unchanged |
| `Redaction.QuietKept` | crates/core/src/conversation_trace_projection.rs:1260-1270 | a text with no `data:` that has a base64 header in its window is never cut |
| `Redaction.LoudChanged` | crates/core/src/conversation_trace_projection.rs:1260-1285 | a text with such a `data:` is always cut, and the cut always changes it |
| `Redaction.CutsLoseColons` | crates/core/src/conversation_trace_projection.rs:1260-1285 | the scan never adds a colon and every cut loses one, so a text that is cut is never its own redaction, even after truncation |
| `Redaction.RedactFixedIff` | crates/core/src/conversation_trace_projection.rs:1252-1302 | the fixed points of redaction are exactly the texts with no such `data:` that are not a bare base64 payload; they come back unflagged |
| `Redaction.RedactFlagIff` | crates/core/src/conversation_trace_projection.rs:1252-1292 | **Main.** the flag tells exactly whether the text was changed, for every text |
| `Redaction.WholeUrl` | crates/core/src/conversation_trace_projection.rs:1260-1291 | a base64 data URL on its own becomes exactly the marker, and is reported |
| `Redaction.WindowEdge` | crates/core/src/conversation_trace_projection.rs:1262-1270 | the window is 512 bytes: a header ending there is seen, one byte further it is not |
| `Redaction.PayloadAlphabet` | crates/core/src/conversation_trace_projection.rs:1273-1279 | which characters a payload is made of |
| `Redaction.BarePayloadIff` | crates/core/src/conversation_trace_projection.rs:1286-1302 | a text without `data:` is replaced exactly when, trimmed, it is a bare base64 payload, with its thresholds |
| `Redaction.RedactNotStandalone` | crates/core/src/conversation_trace_projection.rs:1286-1302 | what redaction returns is never itself a bare base64 payload |
| `Redaction.SurvivingReachRendered` | crates/core/src/conversation_trace_projection.rs:1260-1285 | the distance to the first surviving base64 header, computed on the pieces of the input, is its distance in the output |
| `Redaction.RenderedQuietIff` | crates/core/src/conversation_trace_projection.rs:1260-1285 | the output has nothing left to cut exactly when no skipped `data:` has a surviving header pulled into its window |
| `Redaction.RenderedQuietIn` | crates/core/src/conversation_trace_projection.rs:1260-1285 | the same where only part of the output is going to be kept: a skipped `data:` counts if it and the header both lie in that part |
| `Redaction.StableInAll` | crates/core/src/conversation_trace_projection.rs:1260-1285 | keeping less never leaves more to cut again; keeping everything is stability |
| `Redaction.RedactIdempotentIff` | crates/core/src/conversation_trace_projection.rs:1252-1292 | **Main.** redacting twice equals redacting once if and only if the input's pieces are stable in that sense |
| `Redaction.PassesSettle` | crates/core/src/conversation_trace_projection.rs:1252-1292 | **Main.** repeated redaction always settles, after no more passes than the text has colons, or after one if it is a bare payload |
| `Redaction.SecondPassRedacts` | crates/core/src/conversation_trace_projection.rs:1260-1285 | a concrete text on which a second pass redacts more: idempotence fails for some inputs |
| `Redaction.NoDataStable` | crates/core/src/conversation_trace_projection.rs:1252-1292 | texts without `data:` meet the condition |
| `TraceProjection.TruncateIdempotent` | crates/core/src/conversation_trace_projection.rs:1236-1250 | truncation is idempotent in head and tail mode for every text and limit, although its result is over-long |
| `TraceProjection.TruncateKeeps` | crates/core/src/conversation_trace_projection.rs:1236-1250 | which characters truncation keeps, and beside which notice |
| `TraceProjection.BoundTextFlagIff` | crates/core/src/conversation_trace_projection.rs:1230-1250 | the flag of a bounded text tells exactly whether it was changed or was over the limit to begin with |
| `TraceProjection.BoundTextUnflaggedIff` | crates/core/src/conversation_trace_projection.rs:1230-1250 | a text is bounded without a flag exactly when it is settled and within the limit, and then comes back as it is |
| `TraceProjection.TruncateSettled` | crates/core/src/conversation_trace_projection.rs:1236-1250 | truncating a settled text, from either end, never produces one that redaction would change |
| `TraceProjection.TruncateColons` | crates/core/src/conversation_trace_projection.rs:1236-1250 | truncation adds no colon |
| `TraceProjection.BoundTextFixedIff` | crates/core/src/conversation_trace_projection.rs:1230-1250 | **Main.** redact-then-truncate reproduces its own output if and only if, in the pieces of the input, no skipped `data:` that the truncation keeps has in its window a surviving header that the truncation keeps; it then reports a loss only where the first pass did |
| `TraceProjection.LastsIffQuiet` | crates/core/src/conversation_trace_projection.rs:1230-1250 | that condition on the input decides exactly whether the bounded output still holds something to redact |
| `TraceProjection.HeadQuietIff` | crates/core/src/conversation_trace_projection.rs:1248-1249 | a text cut at the end has the redactable spots of the original whose tag and header both lie before the cut |
| `TraceProjection.TailQuietIff` | crates/core/src/conversation_trace_projection.rs:1241-1247 | a tail has the redactable spots of the original that start in it |
| `TraceProjection.NestedLastsIff` | crates/core/src/conversation_trace_projection.rs:1230-1250 | the text of `Redaction.SecondPassRedacts` is changed by a second pass exactly when the limit is at least 136, in both modes |
| `TraceProjection.BoundPassesSettle` | crates/core/src/conversation_trace_projection.rs:1230-1250 | however often a text is projected it settles, after at most one pass more than it has colons |
| `TraceProjection.StableLasts` | crates/core/src/conversation_trace_projection.rs:1230-1250 | a text that redaction settles in one pass is reproduced under every limit, head or tail; a text that needs no truncation only then |
| `TraceProjection.BoundTextKept` | crates/core/src/conversation_trace_projection.rs:1230-1250 | a bounded text is the original or carries a bracketed notice |
| `TraceProjection.BoundTextSize` | crates/core/src/conversation_trace_projection.rs:1230-1250 | a bounded text has at most the limit plus the suffix in characters |
| `TraceProjection.BoundWithin` | crates/core/src/conversation_trace_projection.rs:1129-1185 | **Main.** for every value, limit and depth: at most eight levels, arrays at most 32, objects at most 64 fields, bounded texts, no hidden-reasoning key |
| `TraceProjection.BoundUnflaggedIff` | crates/core/src/conversation_trace_projection.rs:1129-1185 | **Main.** nothing is reported exactly when there is nothing to take, at any depth, and the value then comes back as it is |
| `TraceProjection.BoundScalar` | crates/core/src/conversation_trace_projection.rs:1129-1135 | null, booleans and numbers come through as they are down to the eighth level |
| `TraceProjection.BoundArrayKeeps` | crates/core/src/conversation_trace_projection.rs:1165-1177 | an array keeps its first 32 items, each bounded one level down, in order |
| `TraceProjection.BoundObjectKeeps` | crates/core/src/conversation_trace_projection.rs:1137-1164 | what an object shows under each of its first 64 keys, and that later ones are dropped |
| `TraceProjection.HiddenIff` | crates/core/src/conversation_trace_projection.rs:1315-1327 | the four names of hidden reasoning, compared by letters and digits only |
| `TraceProjection.BinaryKeyIff` | crates/core/src/conversation_trace_projection.rs:1304-1309 | which field names are binary, and which note is an earlier omission |
| `TraceProjection.CanonicalKeyAppend` | crates/core/src/conversation_trace_projection.rs:1322-1327 | keys are folded character by character |
| `TraceProjection.CanonicalKeyChar` | crates/core/src/conversation_trace_projection.rs:1322-1327 | letters are lowered, digits kept, anything else dropped |
| `TraceProjection.ContainsIff` | crates/core/src/conversation_trace_projection.rs:1304-1309 | the substring test finds exactly the occurrences |
| `TraceProjection.BoundFixed` | crates/core/src/conversation_trace_projection.rs:1129-1185 | bounding again at the same depth returns the same value and adds no loss, for every value whose surviving texts last |
| `TraceProjection.BoundItemsFixed` | crates/core/src/conversation_trace_projection.rs:1165-1177 | the same for a list of items |
| `TraceProjection.BoundMembersFixed` | crates/core/src/conversation_trace_projection.rs:1137-1164 | bounded members are in key order, no more than came in, and each is a fixed point under its own key rule |
| `TraceProjection.BoundMembersGet` | crates/core/src/conversation_trace_projection.rs:1137-1164 | what a bounded object holds under a key is the bounded field that stood there, or nothing if it was dropped |
| `TraceProjection.FixedLasting` | crates/core/src/conversation_trace_projection.rs:1129-1185 | conversely a value whose bounded form survives a second pass has only lasting texts in it |
| `TraceProjection.BoundFixedIff` | crates/core/src/conversation_trace_projection.rs:1129-1185 | **Main.** bounding is a fixed point on its own output, with no new loss, if and only if every text of the input that survives into it lasts |
| `TraceProjection.StableLasting` | crates/core/src/conversation_trace_projection.rs:1129-1185 | values whose texts settle in one pass are lasting at every limit and depth |
| `TraceProjection.NoDataStableTexts` | crates/core/src/conversation_trace_projection.rs:1129-1185 | values without `data:` in any text meet the condition |
| `ToolProjection.CopyFields` | crates/core/src/conversation_trace_projection.rs:1102-1123 | the loop over a field table is the ordered fold of single copies |
| `ToolProjection.CopyAllPresent` | crates/core/src/conversation_trace_projection.rs:1102-1123 | under a table key the output holds the bounded input field, or what was there if the input has none |
| `ToolProjection.CopyAllAbsent` | crates/core/src/conversation_trace_projection.rs:1102-1123 | keys outside the table are left alone |
| `ToolProjection.CopyAllShape` | crates/core/src/conversation_trace_projection.rs:1102-1123 | the output stays in key order and the flag is set exactly when some copied field lost something |
| `ToolProjection.MirrorAgain` | crates/core/src/conversation_trace_projection.rs:1102-1123 | copying from a copy reproduces it and loses nothing new when the copied fields are lasting |
| `ToolProjection.MirrorLasting` | crates/core/src/conversation_trace_projection.rs:1102-1123 | a copy that reproduces itself was made from lasting fields |
| `ToolProjection.CopyAgain` | crates/core/src/conversation_trace_projection.rs:1102-1123 | copying from any map that mirrors the input gives what copying from the input gave |
| `ToolProjection.SelectedFixedIff` | crates/core/src/conversation_trace_projection.rs:1094-1108 | a fixed field selection projects to itself if and only if what it selects is lasting |
| `ToolProjection.MirrorsShow` | crates/core/src/conversation_trace_projection.rs:1102-1123 | a copied table shows every published key under its published limit |
| `ToolProjection.LossyIffLost` | crates/core/src/conversation_trace_projection.rs:1102-1123 | the flag of a copied table is set exactly when a published field lost something |
| `ToolProjection.UnlostKept` | crates/core/src/conversation_trace_projection.rs:1102-1123 | where nothing published was lost, every published field is exactly the original |
| `ToolResults.ProjectReadResult` | crates/core/src/conversation_trace_projection.rs:912-1042 | the step-by-step projection of a read result computes `ReadResult` |
| `ToolResults.ReadShows` | crates/core/src/conversation_trace_projection.rs:912-1042 | **Main.** what history shows of a read result, key by key under literal limits, and nothing else; and exactly when a loss is reported |
| `ToolResults.ProjectWebFetchResult` | crates/core/src/conversation_trace_projection.rs:449-540 | the step-by-step projection of a web_fetch result computes `WebFetchResult` |
| `ToolResults.WebFetchShows` | crates/core/src/conversation_trace_projection.rs:449-540 | **Main.** the same for a web_fetch result, with its first ten failures |
| `ToolResults.SummariseBody` | crates/core/src/conversation_trace_projection.rs:1007-1036 | the body becomes `summary` with a flag that says cut now, cut before, or never summarised before |
| `ToolResults.ProjectRunCommandResult` | crates/core/src/conversation_trace_projection.rs:691-794 | rejected, running and exited results each take their own branch |
| `ToolResults.RejectedShows` | crates/core/src/conversation_trace_projection.rs:695-724 | the same for a rejected command |
| `ToolResults.RunningShows` | crates/core/src/conversation_trace_projection.rs:796-837 | the same for a running command, with the tail of its output |
| `ToolResults.ExitedShows` | crates/core/src/conversation_trace_projection.rs:729-794 | **Main.** the same for a finished command, with both stream tails; its exit code and other plain facts are the original ones |
| `ToolResults.UnreportedKept` | crates/core/src/conversation_trace_projection.rs:449-1042 | where a projection reports no loss, every published field is in history exactly as it was |
| `ToolResults.OthersBounded` | crates/core/src/conversation_trace_projection.rs:449-452 | a result that is not an object is bounded like any other value |
| `ToolResults.ProjectExited` | crates/core/src/conversation_trace_projection.rs:729-794 | early fields, the loop over the two streams, late fields, in this order |
| `ToolResults.ProjectStream` | crates/core/src/conversation_trace_projection.rs:754-779 | a stream becomes its tail under the history name with a flag that stays set |
| `ToolResults.ViewAgain` | crates/core/src/conversation_trace_projection.rs:912-1042 | viewing a view reproduces it: `summary` is read back in place of `content` or `text`, and the truncation flag sticks |
| `ToolResults.ViewLasting` | crates/core/src/conversation_trace_projection.rs:912-1042 | a view that is its own view was made from lasting fields and a lasting body |
| `ToolResults.ReadResultFixed` | crates/core/src/conversation_trace_projection.rs:912-1042 | a lasting read result in history projects to itself, and a loss is reported again only if it was before |
| `ToolResults.ReadResultFixedIff` | crates/core/src/conversation_trace_projection.rs:912-1042 | **Main.** it does so if and only if the fields and the body that survive are lasting, a condition on the texts of the input |
| `ToolResults.FailuresAgain` | crates/core/src/conversation_trace_projection.rs:521-533 | listing the first ten failed results again changes nothing and loses nothing new |
| `ToolResults.WebFetchResultFixed` | crates/core/src/conversation_trace_projection.rs:449-540 | a lasting web_fetch result in history projects to itself, with no new loss |
| `ToolResults.WebFetchResultFixedIff` | crates/core/src/conversation_trace_projection.rs:449-540 | **Main.** it does so if and only if fields, body and listed failures of the input are lasting |
| `ToolResults.StatusKept` | crates/core/src/conversation_trace_projection.rs:695-728 | the projected status equals `rejected` or `running` exactly when the original does |
| `ToolResults.SameBranch` | crates/core/src/conversation_trace_projection.rs:691-794 | so a second pass always takes the branch the first one took, whatever the texts |
| `ToolResults.RunningFixed` | crates/core/src/conversation_trace_projection.rs:796-837 | a lasting running result projects to itself |
| `ToolResults.ExitedFixed` | crates/core/src/conversation_trace_projection.rs:729-794 | a lasting exited result projects to itself: the stream tails are read back in place of the streams |
| `ToolResults.RunCommandResultFixed` | crates/core/src/conversation_trace_projection.rs:691-837 | a lasting run_command result, in any of its three forms, projects to itself, with no new loss |
| `ToolResults.RunCommandResultFixedIff` | crates/core/src/conversation_trace_projection.rs:691-837 | **Main.** and only a lasting one does |
| `ToolResults.ReadSecondPassRedacts` | crates/core/src/conversation_trace_projection.rs:912-1042 | a read result whose view in history is redacted further when it is projected again |
| `ToolResults.WebFetchSecondPassRedacts` | crates/core/src/conversation_trace_projection.rs:449-540 | the same for a web_fetch result |
| `ToolResults.RunCommandSecondPassRedacts` | crates/core/src/conversation_trace_projection.rs:691-794 | the same for the stdout of an exited command |
| `ToolResults.StableResultsFixed` | crates/core/src/conversation_trace_projection.rs:449-1042 | where every text settles in one redaction pass all three result projections are fixed points |
| `PatchProjection.DigestKept` | crates/core/src/file_change/digest.rs:7-29 | a digest in its published form is left alone by redaction and truncation |
| `PatchProjection.RequestShows` | crates/core/src/conversation_trace_projection.rs:305-393 | **Main.** what history shows of an accepted call: the mark, the published fields, size, digest and line counts of the change, and neither content nor edits |
| `PatchProjection.CallReported` | crates/core/src/conversation_trace_projection.rs:305-313 | exactly which calls are refused, and when a loss is reported |
| `PatchProjection.SingleEdit` | crates/core/src/conversation_trace_projection.rs:1337-1357 | a replacement adds the lines of its new text and deletes those of its old one; any other edit only adds |
| `PatchProjection.ReplacementCounts` | crates/core/src/conversation_trace_projection.rs:1337-1357 | one line replaced by two counts as two additions and one deletion |
| `PatchProjection.EditStatsAppend` | crates/core/src/conversation_trace_projection.rs:1337-1357 | the counts of two lists of edits are the capped sums of their counts |
| `PatchProjection.LinesIs` | crates/core/src/conversation_trace_projection.rs:1329-1357 | a text counts its lines, anything else counts for nothing |
| `PatchProjection.LineCountLaws` | crates/core/src/conversation_trace_projection.rs:1329-1335 | the empty text has no line, a text without line breaks one, and lines add up at a line break |
| `PatchProjection.RequestValidated` | crates/core/src/conversation_trace_projection.rs:395-418 | every projected request carries the host's mark and only allowed keys, so a second pass accepts it |
| `PatchProjection.ChangeAgain` | crates/core/src/conversation_trace_projection.rs:341-393 | the second pass reads kind and line counts from the first one's fields and finds no content or edits to digest |
| `PatchProjection.RequestFixed` | crates/core/src/conversation_trace_projection.rs:305-393 | a projected request with lasting fields projects to itself |
| `PatchProjection.ApplyPatchCallFixedIff` | crates/core/src/conversation_trace_projection.rs:305-418 | **Main.** the durable view of a call projects to itself if and only if the call is refused or its copied fields that no size or digest replaces are lasting |
| `PatchProjection.ApplyPatchCallFixed` | crates/core/src/conversation_trace_projection.rs:305-418 | in particular whenever every text settles in one redaction pass |
| `PatchProjection.ApplyPatchSecondPassRedacts` | crates/core/src/conversation_trace_projection.rs:305-393 | a commit call, accepted by the wire schema, whose view in history is redacted further when it is projected again |
| `PatchProjection.ValidatedSecondPassRedacts` | crates/core/src/conversation_trace_projection.rs:395-418 | the same of a request the host has marked as validated, whatever the wire schema says |
| `RuntimeSanitizer.SanitizeCleans` | crates/core/src/conversation_trace_projection.rs:1187-1228 | for every value no text at any depth still matches the data-URL test and binary-named fields hold only the marker |
| `RuntimeSanitizer.SanitizedKept` | crates/core/src/conversation_trace_projection.rs:1187-1228 | a sanitized value is left exactly as it is |
| `RuntimeSanitizer.SanitizeIdempotent` | crates/core/src/conversation_trace_projection.rs:88-101 | **Main.** sanitizing is idempotent on every value |
| `RuntimeSanitizer.UnflaggedKept` | crates/core/src/conversation_trace_projection.rs:1187-1228 | when nothing is reported nothing was changed |
| `RuntimeSanitizer.SanitizeFlagIff` | crates/core/src/conversation_trace_projection.rs:1187-1228 | something is reported exactly when there was something to take, at any depth |
| `RuntimeSanitizer.SanitizeMembersGet` | crates/core/src/conversation_trace_projection.rs:1187-1216 | what a sanitized object holds under each key |
| `RuntimeSanitizer.SanitizeText` | crates/core/src/conversation_trace_projection.rs:88-101 | when a text is replaced whole |
| `RuntimeSanitizer.RuntimeBinaryKeyIff` | crates/core/src/conversation_trace_projection.rs:1311-1313 | which field names are binary at run time |
| `CanonicalJson.CanonicalGet` | crates/core/src/builtin_capabilities.rs:2595-2609 | looking a key up in the canonical object is canonicalising what was there, and the keys ascend |
| `CanonicalJson.SameCanonical` | crates/core/src/builtin_capabilities.rs:2595-2609 | values equal up to member order at every level have one canonical form |
| `CanonicalJson.CanonicalSame` | crates/core/src/builtin_capabilities.rs:2595-2609 | values with one canonical form are equal up to member order at every level |
| `CanonicalJson.CanonicalIff` | crates/core/src/builtin_capabilities.rs:2588-2609 | **Main.** the canonical form, over which schema digests are taken, is a complete invariant |
| `CanonicalJson.CanonicalOrdered` | crates/core/src/builtin_capabilities.rs:2595-2609 | every object in the result is in key order |
| `CanonicalJson.CanonicalIdempotent` | crates/core/src/builtin_capabilities.rs:2595-2609 | canonicalising twice is canonicalising once |
| `CanonicalJson.CanonicalIsSame` | crates/core/src/builtin_capabilities.rs:2595-2609 | canonicalising changes nothing but the order of members |
| `Manifest.ValidateShape` | crates/core/src/builtin_capabilities.rs:454-495 | the loop over growing name sets and a running byte total accepts exactly the lists without repeated names, within count and byte limits, of valid tools |
| `Manifest.ShapePermutation` | crates/core/src/builtin_capabilities.rs:454-495 | acceptance does not depend on the order of the tools |
| `Manifest.BuildPermutation` | crates/core/src/builtin_capabilities.rs:419-443 | **Main.** any arrangement of the same tools builds the identical manifest and digest, or fails in both orders |
| `Manifest.BuildValid` | crates/core/src/builtin_capabilities.rs:419-452 | whatever is built passes `validate`, has the given header, holds exactly the given tools, and lists them in the order of their ids |
| `Manifest.TamperEvident` | crates/core/src/builtin_capabilities.rs:445-525 | **Main.** under a hash without collisions, a manifest whose header or tools were replaced validates only if nothing but the order of the tools was replaced |
| `Manifest.DigestIdentifies` | crates/core/src/builtin_capabilities.rs:497-525 | two valid manifests with one digest have one header and the same tools |
| `Manifest.ShapeMeans` | crates/core/src/builtin_capabilities.rs:454-495 | what a well-shaped list is, with its limits |
| `Manifest.BuildFailsIff` | crates/core/src/builtin_capabilities.rs:419-443 | a build fails exactly when the given list is badly shaped |
| `Manifest.ValidatePermutation` | crates/core/src/builtin_capabilities.rs:445-525 | permuting a manifest's tools does not change whether it validates |
| `TargetBinding.Provider.PrepareApproval` | crates/core/src/builtin_capabilities.rs:1398-1569 | the ordered effects on the provider, with every early return, are those of `Prepare` |
| `TargetBinding.PrepareLinear` | crates/core/src/builtin_capabilities.rs:1438-1569 | **Main.** against every provider, clock and cancellation: an acquired binding is released exactly once on each error exit and never on success |
| `TargetBinding.BindingsConserved` | crates/core/src/builtin_capabilities.rs:1438-1569 | **Main.** after any sequence of preparations exactly the bindings of the successful ones are outstanding |
| `TargetBinding.PrepareSucceedsIff` | crates/core/src/builtin_capabilities.rs:1398-1569 | for any provider and builder, exactly when preparation succeeds and with which approval |
| `TargetBinding.GivenIffAcquired` | crates/core/src/builtin_capabilities.rs:1398-1463 | exactly when a binding is acquired, and over which lifetime it was asked for |
| `TargetBinding.ReleaseReasons` | crates/core/src/builtin_capabilities.rs:1464-1569 | a binding is given back for a cancelled run or for a failed proposal, each exactly when that is so |
| `TargetBinding.DismissedIff` | crates/core/src/builtin_capabilities.rs:1530-1569 | a proposal is dismissed exactly when it was made for an honest binding and is not of the full lifetime |
| `TargetBinding.ShortenedIsRefused` | crates/core/src/builtin_capabilities.rs:2015-2065 | an expiry shortened by the grant's own is always refused and a binding taken for it is given back |
| `TargetBinding.StandardSuccessIff` | crates/core/src/builtin_capabilities.rs:1865-1917 | the exact conditions under which the standard preparation succeeds; the approval then lives exactly the full TTL and does not outlive the grant |
| `TargetBinding.ActivationKeeps` | crates/core/src/builtin_capabilities.rs:1260-1306 | an activation leaves its minted grant live exactly when it returns it or the policy could not be read again; a returned grant lives exactly one day under an unchanged policy |
| `TargetBinding.ActivationSucceedsIff` | crates/core/src/builtin_capabilities.rs:1260-1306 | exactly when an activation is approved, and with which grant |
| `TargetBinding.GrantsConserved` | crates/core/src/builtin_capabilities.rs:1260-1306 | **Main.** after any sequence of activations the live grants are exactly the returned ones and those leaked by a failed policy re-read |
| `TargetBinding.MintedGrantCanLeak` | crates/core/src/builtin_capabilities.rs:1288-1304 | a concrete run in which the policy re-read fails and the minted grant is left in place |
| `CompactionReceipt.ReceiptCell.constructor` | crates/core/src/context_compaction_receipt.rs:362-401 | a new record is the begun receipt, accepted exactly when it validates |
| `CompactionReceipt.ReceiptCell.Advance` | crates/core/src/context_compaction_receipt.rs:537-552 | the whole record after the call and whether it returned Ok, including calls that assign before validation fails |
| `CompactionReceipt.ReceiptCell.Attach` | crates/core/src/context_compaction_receipt.rs:554-573 | likewise: binds the source revision, then advances |
| `CompactionReceipt.ReceiptCell.Apply` | crates/core/src/context_compaction_receipt.rs:575-605 | likewise, with the token result |
| `CompactionReceipt.ReceiptCell.Refresh` | crates/core/src/context_compaction_receipt.rs:607-625 | likewise |
| `CompactionReceipt.ReceiptCell.Fail` | crates/core/src/context_compaction_receipt.rs:627-649 | likewise, for failure and cancellation, with the error's code and its message cut to 2000 characters |
| `CompactionReceipt.ReceiptCell.Interrupt` | crates/core/src/context_compaction_receipt.rs:651-663 | likewise; a finished record is left alone |
| `CompactionReceipt.StepMoves` | crates/core/src/context_compaction_receipt.rs:403-663 | a successful call keeps validity, identity and plan, never lowers the stage, and never reopens or revives a finished record |
| `CompactionReceipt.RunSafe` | crates/core/src/context_compaction_receipt.rs:403-663 | **Main.** the same between any two points of every run of successful calls |
| `CompactionReceipt.ErrorIsBounded` | crates/core/src/context_compaction_receipt.rs:627-692 | in every run an error is recorded exactly in the failing statuses, and its message has at most 2000 characters |
| `CompactionReceipt.ErrorRecorded` | crates/core/src/context_compaction_receipt.rs:627-692 | a recorded error is the code and the first 2000 characters of a failure of the run, or an interruption |
| `CompactionReceipt.ReachedShape` | crates/core/src/context_compaction_receipt.rs:403-535 | what every reached record looks like, by status and stage |
| `CompactionReceipt.StepRecords` | crates/core/src/context_compaction_receipt.rs:537-663 | what each successful call leaves in the record |
| `CompactionReceipt.BeginsIff` | crates/core/src/context_compaction_receipt.rs:362-401 | exactly when a receipt begins, and with what |
| `CompactionReceipt.PlanMeans` | crates/core/src/context_compaction_receipt.rs:157-178 | a plan is valid exactly when its tokens add up, something is left to free, and it names its revisions and cursor |
| `CompactionReceipt.IdentityMeans` | crates/core/src/context_compaction_receipt.rs:403-470 | what a valid identity is |
| `CompactionReceipt.RevisionAttached` | crates/core/src/context_compaction_receipt.rs:554-573 | any bound source revision was bound by an attach of exactly the planned prefix |
| `CompactionReceipt.OutcomeApplied` | crates/core/src/context_compaction_receipt.rs:575-605 | what an applied record shows was applied by some call of the run, when the draft's revision was bound, under an observation of exactly this operation and model, and kept since |
| `CompactionReceipt.AppliedProvenance` | crates/core/src/context_compaction_receipt.rs:554-605 | **Main.** every reachable applied record was preceded by an attach: first exactly the planned cursor and previous summary were attached, later a draft made from that revision was applied |
| `CompactionReceipt.ApplyAcceptedIff` | crates/core/src/context_compaction_receipt.rs:499-605 | exactly when a draft can be applied to a valid record; a refreshed record is not excluded |
| `CompactionReceipt.AdvanceAcceptedIff` | crates/core/src/context_compaction_receipt.rs:537-552 | exactly when a valid record can move to a stage: the later stages need a bound revision and the earlier ones none |
| `CompactionReceipt.AttachAcceptedIff` | crates/core/src/context_compaction_receipt.rs:554-573 | exactly when a prefix can be attached to a valid record |
| `CompactionReceipt.RefreshAcceptedIff` | crates/core/src/context_compaction_receipt.rs:607-625 | exactly when a valid record can be marked refreshed |
| `CompactionReceipt.FailAcceptedIff` | crates/core/src/context_compaction_receipt.rs:627-649 | exactly when a valid record can be marked failed or cancelled: whenever it is not applied |
| `CompactionReceipt.InterruptAcceptedIff` | crates/core/src/context_compaction_receipt.rs:651-663 | exactly when an interruption succeeds |
| `CompactionReceipt.RefreshedCanApply` | crates/core/src/context_compaction_receipt.rs:575-625 | refreshed is not final: from every begun record, attach, refresh and apply all succeed and end applied |
| `CompactionReceipt.RefreshedCanFail` | crates/core/src/context_compaction_receipt.rs:607-649 | nor is it safe from failing: refresh and then fail both succeed |
| `CompactionReceipt.TransitionBeginsIff` | crates/core/src/context_compaction_receipt.rs:286-360 | exactly when a receipt for a change of provider begins |
| `CompactionReceipt.TransitionAttaches` | crates/core/src/context_compaction_receipt.rs:286-360 | the prefix such a receipt was begun from can always be attached to it, and everything freed is reclaimed |
| `Text.BlankIff` | crates/core/src/context_compaction_receipt.rs:159-161 | the blank test is the one that trims and compares with the empty text |
| `CompactionReceipt.CourseApplies` | crates/core/src/context_compaction_receipt.rs:537-605 | from every begun record the planned course (prepare, attach, commit, apply) succeeds at every step and ends applied |
| `CompactionReceipt.TokensConserved` | crates/core/src/context_compaction_receipt.rs:157-178 | source = target + retained + reclaimed, and for an applied result source = replacement + reclaimed with reclaimed > 0; no subtraction saturates |
| `CompactionReceipt.RunConserves` | crates/core/src/context_compaction_receipt.rs:499-518 | **Main.** the same at the end of every run, against the plan the run began with |
| `MenuRefresh.MenuController.constructor` | src/main/menuBarRunningConversations.ts:85-94 | a new controller is fresh |
| `MenuRefresh.MenuController.OnStart` | src/main/menuBarRunningConversations.ts:96-100 | the whole state after `start` |
| `MenuRefresh.MenuController.OnDispose` | src/main/menuBarRunningConversations.ts:102-108 | the whole state after `dispose` |
| `MenuRefresh.MenuController.OnRefresh` | src/main/menuBarRunningConversations.ts:110-130 | the whole state after `refresh`, including the delay armed |
| `MenuRefresh.MenuController.OnTimer` | src/main/menuBarRunningConversations.ts:116-134 | the timer callback up to the awaited load |
| `MenuRefresh.MenuController.OnLoaded` | src/main/menuBarRunningConversations.ts:136-161 | the load's continuation, and whether the menu is applied |
| `MenuRefresh.MenuController.OnLoadFailed` | src/main/menuBarRunningConversations.ts:162-169 | a failed load |
| `MenuRefresh.MenuController.Finally` | src/main/menuBarRunningConversations.ts:166-169 | the settling block re-requests when asked to meanwhile |
| `MenuRefresh.DelayBounds` | src/main/menuBarRunningConversations.ts:122-128 | the back-off doubles from 100 ms up to its ceiling of 5000 ms |
| `MenuRefresh.StepSound` | src/main/menuBarRunningConversations.ts:96-170 | every callback keeps: timer and load never both pending; a live request always has one of them; nothing armed after dispose |
| `MenuRefresh.RunSound` | src/main/menuBarRunningConversations.ts:96-170 | **Main.** the same in every interleaving |
| `MenuRefresh.LoadIsFresh` | src/main/menuBarRunningConversations.ts:110-170 | while nothing is requested the last load began no earlier than the last invalidation |
| `MenuRefresh.IdleIsCurrent` | src/main/menuBarRunningConversations.ts:110-170 | **Main.** when idle after a successful load, the recorded signature is that load's, begun no earlier than the last invalidation |
| `MenuRefresh.DisposedIsFinal` | src/main/menuBarRunningConversations.ts:102-170 | **Main.** after dispose nothing is armed, loaded anew, recorded or applied |
| `MenuRefresh.DeferralIsBounded` | src/main/menuBarRunningConversations.ts:138-147 | a result is withheld exactly under a newer request within 500 ms of the first unpublished invalidation; otherwise its signature is taken over and the menu applied exactly if it differs |
| `MenuRefresh.TwoStepsToCurrent` | src/main/menuBarRunningConversations.ts:110-170 | from every live state with an armed timer, the timer and one good load lead to a current, idle menu |
| `MenuRefresh.FailuresCounted` | src/main/menuBarRunningConversations.ts:132-170 | the controller counts its failures in a row and waits accordingly |
| `MenuRefresh.FailureKeepsMenu` | src/main/menuBarRunningConversations.ts:162-169 | a failed load changes nothing of what is shown |
| `MenuRefresh.RequestsCoalesce` | src/main/menuBarRunningConversations.ts:110-114 | the first invalidation is remembered, and an armed timer or pending load is left alone |
| `MenuRefresh.StartsOnce` | src/main/menuBarRunningConversations.ts:96-100 | the interval starts once, with a first request |
| `MenuRefresh.SignatureIsApplied` | src/main/menuBarRunningConversations.ts:149-161 | the recorded signature always is that of the last menu applied |
| `MountSet.ValidateMountSet` | crates/core/src/file_input.rs:983-1014 | the growing-set loop accepts exactly the lists whose case-folded paths are pairwise distinct with none an ancestor of another |
| `MountSet.NormalizeValid` | crates/core/src/file_input.rs:1016-1072 | a normal form is a non-empty list of proper names |
| `MountSet.NormalizeAcceptsIff` | crates/core/src/file_input.rs:1016-1072 | exactly which paths are accepted: relative, at most 240 characters, no line break, no `..`, some name |
| `MountSet.NamedAppend` | crates/core/src/file_input.rs:1038-1063 | names are kept part by part, in order |
| `MountSet.NormalizeShrinks` | crates/core/src/file_input.rs:1016-1072 | a normal form is no longer than the trimmed text and brings in no new character but the slash |
| `MountSet.EdgesIff` | crates/core/src/file_input.rs:1016-1072 | the first and last characters of the normal form, read off the given text |
| `MountSet.NormalizeAgainIff` | crates/core/src/file_input.rs:1016-1072 | **Main.** normalising twice equals normalising once exactly when dropping the empty and `.` parts at both ends of the trimmed path exposes no white space; otherwise a frozen binding fails its own revalidation |
| `MountSet.NormalFormChanges` | crates/core/src/file_input.rs:1016-1072 | `./ a` normalises to a path that is not its own normal form |
| `MountSet.SlashedPrefix` | crates/core/src/file_input.rs:996-1003 | text prefixes of slash-terminated paths are component prefixes |
| `MountSet.ClashIff` | crates/core/src/file_input.rs:996-1003 | the textual test fires exactly when one path is a component prefix of the other |
| `MountSet.MountSetPrefixFree` | crates/core/src/file_input.rs:983-1014 | **Main.** for canonical mounts acceptance is exactly prefix-freeness without case, hence prefix-freeness on case-folding and case-keeping file systems |
| `FileInputs.StreamRegularFile` | crates/core/src/file_input.rs:1582-1650 | **Main.** the chunked loop succeeds exactly on an undisturbed delivery, then equals one whole copy and one hash; it reports too much exactly on an overrun; it never writes beyond the limit |
| `FileInputs.DeliversMeans` | crates/core/src/file_input.rs:1582-1650 | what an undisturbed delivery is, turn by turn |
| `FileInputs.ValidateBindings` | crates/core/src/file_input.rs:955-981 | accepts exactly well-formed bindings over a clash-free mount set |
| `FileInputs.BindingsMean` | crates/core/src/file_input.rs:955-981 | what accepted bindings are: at most 16, of the current version, canonical, free of path conflicts |
| `FileInputs.CreateParents` | crates/core/src/file_input.rs:1701-1755 | creates the missing ancestors, or refuses at a file standing in the way |
| `FileInputs.PlaceOne` | crates/core/src/file_input.rs:550-576 | one binding: parents, a new file, a copy checked against the frozen size and digest; every outcome |
| `FileInputs.ParentsHold` | crates/core/src/file_input.rs:1701-1755 | among prefix-free paths the parents of the next path never meet a file |
| `FileInputs.PlacedHolds` | crates/core/src/file_input.rs:1701-1768 | and the file's own place is always free |
| `FileInputs.ProgressOne` | crates/core/src/file_input.rs:550-576 | one successful binding extends the tree and evidence by exactly that binding |
| `FileInputs.Materialize` | crates/core/src/file_input.rs:525-582 | **Main.** the call succeeds exactly when bindings are well formed, nothing is cancelled and every source is unchanged; otherwise it stops at the first trouble with the reason for it; it never reports a name conflict |
| `FileInputs.MaterializedExactly` | crates/core/src/file_input.rs:525-582 | **Main.** on success every mount holds exactly its source's bytes, of the frozen size and digest, there is no other file, and the evidence gives mount, kind, size and digest of each |
| `SelectorDirectory.Bounded` | crates/core/src/agent_collaboration_harness.rs:87-120 | **Main.** terminates; keeps prefixes of the sorted lists; fits the byte budget unless even the empty directory does not; flags exactly when something was dropped or even nothing does not fit; drops nothing that fits; keeps lists it shortened balanced |
| `SelectorDirectory.BoundedValidates` | crates/core/src/agent_collaboration_harness.rs:139-175 | for well-formed inputs with distinct keys the result passes `validate` |
| `SelectorDirectory.ValidMeans` | crates/core/src/agent_collaboration_harness.rs:139-175 | what a directory that validates is: bounded, in strict order, well formed |
| `SelectorDirectory.WaitServices.TryAdmit` | crates/core/src/agent_collaboration_harness.rs:320-331 | the whole new set and the answer |
| `SelectorDirectory.WaitServices.Snapshot` | crates/core/src/agent_collaboration_harness.rs:333-344 | a snapshot resumes to exactly the state it was taken of when the directory validates and at most 1024 batches were admitted, and is refused otherwise |
| `SelectorDirectory.WaitServices.Restore` | crates/core/src/agent_collaboration_harness.rs:346-363 | directory and batches of a snapshot are taken over if and only if it validates; otherwise nothing changes |
| `SelectorDirectory.AdmittedOnce` | crates/core/src/agent_collaboration_harness.rs:320-331 | **Main.** in every run each batch asked for is told it is new exactly once, and batch zero never |
| `SelectorDirectory.SnapshotRestores` | crates/core/src/agent_collaboration_harness.rs:199-213 | a snapshot of any state reached by waits resumes unchanged exactly when at most 1024 batches were admitted |
| `SelectorDirectory.SnapshotIsReachable` | crates/core/src/agent_collaboration_harness.rs:333-363 | every snapshot that validates is a state some run reaches |
| `LatencyHistogram.Histogram.constructor` | src/shared/latencyHistogram.ts:7-11 | an empty histogram describes no samples |
| `LatencyHistogram.Histogram.Record` | src/shared/latencyHistogram.ts:13-20 | the counters go on describing exactly the samples recorded; other numbers are ignored |
| `LatencyHistogram.Histogram.Percentile` | src/shared/latencyHistogram.ts:23-32 | whatever the rounding of `count * fraction`: the loop finds the first bucket at which the cumulative count reaches the rank; the final fall-through is never reached |
| `LatencyHistogram.Histogram.Snapshot` | src/shared/latencyHistogram.ts:22-39 | in exact arithmetic the three percentiles each report their order statistic, and p50 <= p95 <= p99 |
| `LatencyHistogram.PercentileIsOrderStatistic` | src/shared/latencyHistogram.ts:22-39 | **Main.** for every fraction f: the ceil(f * n)-th smallest sample is at most the reported value and above every bucket bound below it |
| `LatencyHistogram.RecordDescribes` | src/shared/latencyHistogram.ts:13-20 | bumping the sample's bucket, the count and the maximum describes the samples with the new one |
| `LatencyHistogram.CountsAddUp` | src/shared/latencyHistogram.ts:13-20 | bucket counts sum to `count` |
| `LatencyHistogram.PercentileBrackets` | src/shared/latencyHistogram.ts:22-32 | the exact order statistic of that rank is at most the reported value and above the previous bucket bound |
| `LatencyHistogram.BoundsGrow` | src/shared/latencyHistogram.ts:2-5 | the bounds run from 0.05 ms to 1024000 ms and grow at most 2.5-fold |
| `LatencyHistogram.PercentileIsClose` | src/shared/latencyHistogram.ts:22-32 | so within the bounds a percentile is reported at most 2.5 times too high |
| `LatencyHistogram.PercentilesMonotone` | src/shared/latencyHistogram.ts:33-39 | a larger product is never reported lower: p50 <= p95 <= p99 |
| `LatencyHistogram.ExactProduct` | src/shared/latencyHistogram.ts:25-39 | exact arithmetic meets the two conditions on the products |
| `LatencyHistogram.RankRange` | src/shared/latencyHistogram.ts:25 | the rank lies between one and the count |
| `HumanAnswers.ValidateAnswers` | crates/core/src/human_interaction.rs:447-494 | **Main.** accepts exactly the acceptable batches and returns a permutation with answer i belonging to question i |
| `HumanAnswers.AcceptedMeans` | crates/core/src/human_interaction.rs:447-494 | what acceptance means for each answer in its place, and for the size of the batch |
| `HumanAnswers.FitsIff` | crates/core/src/human_interaction.rs:473-491 | exactly which answers fit a question |
| `HumanAnswers.OrderedIsAll` | crates/core/src/human_interaction.rs:469-493 | answers picked per question use up the whole batch, by counting |
| `HumanAnswers.OrderIsUnique` | crates/core/src/human_interaction.rs:469-493 | the ordered result is determined by the batch |
| `HumanAnswers.AcceptablePermutation` | crates/core/src/human_interaction.rs:447-494 | acceptance does not depend on submission order |
| `HumanAnswers.SubmissionOrderIrrelevant` | crates/core/src/human_interaction.rs:447-494 | **Main.** every permutation of the same answers gives the same verdict and result |
| `HumanAnswers.RevalidationKeeps` | crates/core/src/human_interaction.rs:447-494 | revalidating a result accepts it unchanged |
| `HumanAnswers.IdsMatch` | crates/core/src/human_interaction.rs:447-494 | acceptance is a bijection between answer ids and question ids |
| `AgentWake.TerminalStays` | crates/core/src/agent_graph.rs:185-231 | in every history a terminal status is never left |
| `AgentWake.RunningNeverReturns` | crates/core/src/agent_graph.rs:198-231 | once running, never again queued, claimed or satisfied |
| `AgentWake.RunningWasClaimed` | crates/core/src/agent_graph.rs:198-231 | running or waiting implies claimed and then running earlier |
| `AgentWake.CompletedWasRun` | crates/core/src/agent_graph.rs:198-231 | **Main.** completed implies claimed and then running before it |
| `AgentWake.SatisfiedFromQueue` | crates/core/src/agent_graph.rs:198-231 | satisfied is entered only straight from the queue, with only queued and claimed before |
| `AgentWake.TransitionsExactly` | crates/core/src/agent_graph.rs:198-231 | the permitted moves, one by one |
| `AgentWake.TerminalIff` | crates/core/src/agent_graph.rs:185-196 | a status is terminal exactly when no other can follow it |
| `AgentWake.EveryStatusReached` | crates/core/src/agent_graph.rs:198-231 | every status is reached by some history |
| `ActionIdentity.DecimalInjective` | crates/core/src/lib.rs:274-276 | different lengths print differently |
| `ActionIdentity.DecimalReadsBack` | crates/core/src/lib.rs:274-276 | a printed length is read back as the length |
| `ActionIdentity.IdSpelledOut` | crates/core/src/lib.rs:274-276 | one id spelled out |
| `ActionIdentity.ActionIdInjective` | crates/core/src/lib.rs:272-276 | **Main.** one id names one run and one call, for all strings |
| `ActionIdentity.AcceptedIff` | crates/core/src/lib.rs:278-287 | the checker accepts an id for a run exactly when some non-empty call prints to it |
| `ActionIdentity.OneRun` | crates/core/src/lib.rs:278-287 | no id is accepted for two different runs |

## Left out

- web_search results: `resultCoverage` is recomputed from the shortened list (`crates/core/src/conversation_trace_projection.rs:607-614`), so that projection is not a fixed point beyond ten results.
- The remaining projections (command sessions, skill resources, apply_patch results) and the dispatch on tool names: further field tables of the kinds proved here.
- Receipts after a failed call: the methods may leave a half-assigned record, which the class contracts state; the run theorems speak of successful calls only.
- Monotone `updated_at` across the completing receipt methods: the code does not enforce it.
- CompactionReceipt.ReceiptCell.constructor: takes any identity and plan; how an ordinary compaction's plan is computed from a context is not modelled.
- SelectorDirectory.Bounded: the length of the escaped JSON is a parameter, so that the empty directory fits the budget is not proved.
- SelectorDirectory.WaitServices.Restore: the authorization lookup table derived from the restored directory is not modelled.
- LatencyHistogram.Histogram.Record: samples and the total are reals, so rounding in the running total is not modelled; the rounding of `count * fraction` is, as a parameter.
- FileInputs.Materialize: the tree is a map from paths to nodes; permissions, symbolic links, fsync, temporary-directory cleanup and Windows path rules are not modelled, and reads and writes are given by the source's behaviour.
- TargetBinding.Provider.PrepareApproval: the checks before the binding is taken, and field checks of bindings and approvals, are single verdicts.
- JSON numbers are integers or reals without a textual form; nothing modelled computes with them.
- Locks and sharing of the wait-admission set between clones: admission is one atomic step.
- Storage, command execution, Git helpers, Electron wiring, menu building, selector authorization lookups and flat field validators: foreign calls, or facts of one branch.
