# GPAO-T runtime: a verified model

A Dafny model of the parts of the GPAO-T runtime that decide something: which memory may anchor an
answer, what the append-only logs always say, which welcome files the local server lets itself write and
where these land, and how text is escaped, parsed and hashed. Verify it with `dafny verify dfyconfig.toml`.

The modules follow the source files.

| module | models |
|---|---|
| `AdmissionPolicy` | the target of a turn and the permitted uses of a memory cell |
| `Admission` | the score and role of a retrieved cell, and the admission packet |
| `CapturedMemory` | the cells of captured memory, from their words to their verdict |
| `ContextRuntime` | the cells a turn retrieves, two of them built in |
| `TaskContextPacket` | the packet a language model answers from: safe anchors, warnings, deduplication |
| `Jsonl` | newline-framed log files and their two readers |
| `ApprovalAudit` | the approval and audit logs, and their replay |
| `ProgressLog`, `LiveRuntime` | the progress log, and the live turns and dry runs that write it |
| `RunStatuses` | the counters of the run summaries |
| `GrowthLoop` | the memory growth loop as a protocol over an arbitrary memory queue |
| `FileSystem`, `CanonicalPath`, `WelcomeBoundary` | path resolution with links, canonical paths, the welcome-write check |
| `HtmlEscape`, `Cookies`, `TextHash` | the escapers, the cookie parser, the two text hashes |
| `Prelude`, `Text`, `Numerals` | the JavaScript array, string and number methods these use |

Six things the model shows about the code as it stands:

- A path whose lookup runs out of links (the kernel follows a limited number in one lookup) may be
  canonicalised to a path that exists and is itself a link. Canonicalising is idempotent exactly
  when this does not happen, and it is the only way to reach the "symlink escape" rejection, which can
  be reached whatever the limit is. This assumes that `realpathSync` resolves as the kernel does. The
  JavaScript `realpathSync` of Node.js resolves `..` inside the text of a link lexically, so with such
  links it may disagree with `existsSync` before any lookup runs out of links.
- The welcome check looks at files that exist. A link to a missing file does not exist in this sense, so
  it passes, and the write then creates the file the link names. In an existing workspace this is the only
  way in which a file that passed is written anywhere but at its own entry.
- Replaying an approval returns another write's audit record exactly when a newer approval among the
  newest hundred is for the same proposal.
- Blocking a use of a memory cell can move the cell up, from dropped or rejected to candidate, though never
  into the admitted cells. This happens exactly when the cell was stale, the blocked use takes its support
  but not its evidence, and the penalty for being stale was all that kept it below.
- Captured memory is never an anchor, a conflict or a mere candidate. In a turn of one of its three kinds it is
  support whatever the turn is about; in another it needs one matching word, or three for a stale release cell.
- The parser loses a cookie named `__proto__`, and a dry run of a name every object inherits throws
  before it logs anything.

## Model

| member | source | states |
|---|---|---|
| AdmissionPolicy.ConversationTarget | src/core/context-admission-policy.js:14-61 | after any conversation the active target is the one chosen by the words of the last turn that named the release or was no follow-up (release, artifact or general); without such a turn, the prior target, or what the first turn chose |
| AdmissionPolicy.CarriedTarget | src/core/context-admission-policy.js:21-60 | a carried target equals the prior one and is never stale; only a turn that chooses its own target calls the prior one stale; the same target is called stale only by an artifact request |
| AdmissionPolicy.ReleaseTargetIff | src/core/context-admission-policy.js:21-60 | the release becomes the target exactly when the turn names it, carries it from before, or is an artifact request that mentions it |
| AdmissionPolicy.RequestTypeIff | src/core/context-admission-policy.js:14-61 | for every turn and prior target: the request type, where the target comes from, and when the prior one is carried or stale |
| AdmissionPolicy.RetrievalAgrees | src/core/memory-wiki.js:124-139 | retrieval's second classification always agrees with the session on the target, and on the request type unless a follow-up had no prior flow |
| AdmissionPolicy.BlockingMoreForbidsMore | src/core/context-admission-policy.js:119-162 | enlarging the set of blocked uses never grants a permission |
| AdmissionPolicy.AllowedUsesNest | src/core/context-admission-policy.js:130-152 | uses that allow anchoring allow support, and uses that allow support allow evidence |
| AdmissionPolicy.AnchorPermitIff | src/core/context-admission-policy.js:119-156 | which words in a cell's lists, blanks around them aside, and which lifecycles permit or deny it as an anchor |
| AdmissionPolicy.SupportPermitIff | src/core/context-admission-policy.js:136-159 | the same for support, where the lifecycle does not matter |
| AdmissionPolicy.EvidencePermitIff | src/core/context-admission-policy.js:142-162 | the same for evidence |
| AdmissionPolicy.TagIff | src/core/context-admission-policy.js:63-117 | exactly which tag a cell gets: blocked without evidence, stale only with support, anchor even without it |
| AdmissionPolicy.MeshScoreByTag | src/core/memory-wiki.js:235-256 | the mesh score by tag: only an anchor with a name gains, only a stale cell loses |
| Admission.ScoreAdmission | src/core/admission.js:57-106 | the total is the sum of its breakdown, which has an entry, once and in order, for exactly the signals whose conditions hold; each of the nine conditions and values is spelled out, roundings included |
| Admission.ScoreRange | src/core/admission.js:57-106 | for confidence in [0,1] and a non-negative mesh score the total lies in [-125, 121] |
| Admission.AnchorIff | src/core/admission.js:108-138 | exactly which cells become anchors; the score threshold of 5 never decides it |
| Admission.RoleIff | src/core/admission.js:108-138 | exactly which cells are in conflict, kept as candidates, admitted, and so rejected |
| Admission.NoUpgrade | src/core/admission.js:108-138 | on blocked < candidate < support < anchor a role never exceeds the policy's tag, for any score |
| Admission.BlockedTagOfAdmitted | src/core/context-admission-policy.js:63-117 | with more uses blocked, the tag of a cell that stays admitted is unchanged, or falls from anchor to support |
| Admission.DroppedIff | src/core/memory-wiki.js:235-256 | exactly which stored cells retrieval drops for lack of a positive score |
| Admission.StoredAnchorIff | src/core/admission.js:57-138 | exactly which stored cells anchor an answer, from their words to their role: named after the target, permitted everything, not contradicting and not high-risk |
| Admission.BlockingNeverAdmits | src/core/admission.js:57-138 | through retrieval, policy, score and role, blocking more never admits a cell and never makes one an anchor |
| Admission.BlockingLiftsIff | src/core/admission.js:57-138 | blocking more moves a cell up exactly when it was tagged stale, loses support but not evidence, and passes retrieval and threshold only without the penalty for being stale; it then ends as candidate |
| Admission.BlockingCanLiftToCandidate | src/core/admission.js:74-77 | both such moves occur: of a rejected cell, and of one that retrieval drops |
| Admission.PacketMembers | src/core/admission.js:11-28 | the admitted side holds exactly the decisions on retrieved cells with role anchor or support, the rejected side exactly the others |
| Admission.PacketPartition | src/core/admission.js:11-54 | the two sides of the packet are the decisions on the retrieved cells, each in retrieval order, and it is ready exactly when some cell is an anchor |
| Admission.StrongestIsFirst | src/core/admission.js:39-43 | the strongest anchor is the first in retrieval order, whatever the scores |
| ContextRuntime.BuiltInsAdmitted | src/core/context-runtime.js:18-35 | both built-in cells are admitted in every session, and each is an anchor exactly for its own target |
| ContextRuntime.BuiltInsInPacket | src/core/context-runtime.js:13-35 | whatever the mesh retrieves, both built-in cells are on the admitted side |
| ContextRuntime.ContinuityRole | src/core/session-continuity.js:94-140 | the continuity cell of a recovered referent is an anchor when carried automatically and support otherwise |
| ContextRuntime.ReleaseTurnReady | src/core/admission.js:27-36 | a turn about the release is ready whatever else was retrieved |
| ContextRuntime.StrongestAnchorOfTurn | src/core/context-runtime.js:13-35 | in a turn about the release the strongest anchor is a carried referent, or else the release cell |
| CapturedMemory.CapturedVerdict | src/core/memory-wiki.js:167-214 | for every captured cell and turn: support in a turn of its kinds or about it, or with enough matching words (three if stale, one otherwise); dropped or rejected else; never an anchor |
| TaskContextPacket.DedupeLaw | src/core/llm-ready-task-context-packet.js:362-364 | deduplication keeps the same ids, one cell each, the last value of an id, in the order ids first appear |
| TaskContextPacket.SafeAnchorIff | src/core/llm-ready-task-context-packet.js:340-360 | the last filter refuses an admitted anchor only for one more lifecycle, one more blocked use, or allowed uses that match only when trimmed |
| TaskContextPacket.PacketLists | src/core/llm-ready-task-context-packet.js:34-39 | admitted and excluded memory, support, conflict boundaries and anchors each pick the retrieved cells of their roles, all of them, in retrieval order, with their authority unchanged |
| TaskContextPacket.PacketRoles | src/core/llm-ready-task-context-packet.js:38-39 | a cell is in the support exactly when it shows a retrieved cell of role support, and the same for conflicts |
| TaskContextPacket.BlockedCandidatesAre | src/core/llm-ready-task-context-packet.js:40-45 | the blocked candidates are the refused cells and then the ineligible ones, deduplicated |
| TaskContextPacket.BlockedCandidateIff | src/core/llm-ready-task-context-packet.js:40-45 | the ids of the blocked candidates: refused without a conflict, or found ineligible |
| TaskContextPacket.PacketAnchorOrigin | src/core/llm-ready-task-context-packet.js:34-37 | every anchor of the packet shows a retrieved cell that is a safe anchor |
| TaskContextPacket.SafeAnchorShown | src/core/llm-ready-task-context-packet.js:34-37 | every retrieved safe anchor is an anchor of the packet |
| TaskContextPacket.WarnedIff | src/core/llm-ready-task-context-packet.js:39-45 | the packet warns about exactly the ids of refused or ineligible cells |
| TaskContextPacket.DisjointIff | src/core/llm-ready-task-context-packet.js:37-45 | anchors and warnings share no id exactly when cells with the same id agree |
| TaskContextPacket.UniqueIdsDisjoint | src/core/llm-ready-task-context-packet.js:242-245 | with unique retrieved ids no anchor is also a conflict boundary or blocked candidate |
| TaskContextPacket.AnchorPermittedByPolicy | src/core/context-admission-policy.js:89-96 | every anchor from the mesh was tagged and permitted as answer anchor by the policy |
| TaskContextPacket.TurnAnchors | src/core/llm-ready-task-context-packet.js:27-37 | from turn to packet: every anchor is about the active target or referent, fully permitted, not contradicting and not high-risk; a stored one is about the turn's own target |
| TaskContextPacket.ReleaseTurnHasAnchor | src/core/context-runtime.js:15-23 | a turn about the release has a safe answer anchor whatever else was retrieved |
| Jsonl.FramingRoundTrip | src/core/approval-audit-records.js:255-268 | reading a file back gives exactly the records appended to it |
| Jsonl.NewestIsReversedLast | src/core/live-turn-absorption-bridge.js:475-483 | the reader that reverses and takes is the reversal of the one that slices, for every limit but zero |
| Jsonl.JsonlFile.Append | src/core/approval-audit-records.js:255-258 | appending adds one record and keeps the file framed |
| Jsonl.JsonlFile.ReadLast | src/core/live-turn-absorption-bridge.js:475-483 | the slicing reader returns the end of the records, oldest first |
| Jsonl.JsonlFile.ReadNewest | src/core/approval-audit-records.js:260-268 | the other reader returns it newest first |
| ApprovalAudit.NoFindingsIff | src/core/approval-audit-records.js:179-189 | a write is allowed exactly for a complete, confirmed proposal of no blocked authority or action |
| ApprovalAudit.FindingsIff | src/core/approval-audit-records.js:179-189 | each finding is reported exactly when its check fails |
| ApprovalAudit.RecordIdParts | src/core/approval-audit-records.js:247-253 | the stamp is at most fourteen digits, the proposal part is the first 72 characters with each unsafe one replaced, and safe names pass unchanged |
| ApprovalAudit.StampIsPrefix | src/core/approval-audit-records.js:248 | the stamp is the first fourteen digits of the time, or all if fewer, or the clock if none |
| ApprovalAudit.RecordIdEqual | src/core/approval-audit-records.js:247-253 | two ids of one kind are equal exactly when stamp and safe proposal name are |
| ApprovalAudit.RecordIdToTheSecond | src/core/approval-audit-records.js:247-253 | for full time stamps the ids of one proposal are equal exactly when the first fourteen digits agree |
| ApprovalAudit.ReplayLinks | src/core/approval-audit-records.js:131-154 | replay finds the newest record asked for exactly when one is among the newest hundred; the audit returned is that of the newest approval for the same proposal, so it is the record's own exactly when no newer one is for it |
| ApprovalAudit.ReplayOfNothing | src/core/approval-audit-records.js:131-148 | an id that is not found still shows the newest audit and its rollback reference |
| ApprovalAudit.ReplayJustWritten | src/core/approval-audit-records.js:105-121 | replay right after a write returns exactly the pair written |
| ApprovalAudit.ReplayTakenOver | src/core/approval-audit-records.js:131-137 | writing the same proposal again changes which audit the first record replays |
| ApprovalAudit.ApprovalAuditStore.WriteRecords | src/core/approval-audit-records.js:83-121 | in every run the logs stay in lockstep: one linked pair is appended that tells all of the proposal, or a failed validation changes neither |
| ApprovalAudit.ApprovalAuditStore.BuildReplay | src/core/approval-audit-records.js:131-154 | replay reads the two files and computes the specified result |
| ProgressLog.MidProgressIff | src/core/live-turn-absorption-bridge.js:434-443 | in any suffix of a paced log, work before completion is reported exactly when a completion is shown and is not first |
| ProgressLog.MidProgressMeans | src/core/live-turn-absorption-bridge.js:438-443 | for any events the flag says that other work stands before the first completion |
| ProgressLog.MatchingPicks | src/core/live-turn-absorption-bridge.js:429-430 | the filters pick exactly the events of the session and run asked for, where an empty key asks for all |
| ProgressLog.WindowRefinesFilter | src/core/live-turn-absorption-bridge.js:421-432 | the windowed reader returns a suffix of the filtered log, and its last entries exactly when the window holds enough matches |
| ProgressLog.UnfilteredWindow | src/core/live-turn-absorption-bridge.js:421-432 | without a filter the window never loses an entry |
| ProgressLog.LaneMidProgress | src/core/live-turn-absorption-bridge.js:434-443 | the same characterisation for what the lane shows |
| LiveRuntime.StatusesAddUp | src/core/live-turn-absorption-bridge.js:489-498 | the three run statuses account for every run |
| LiveRuntime.LiveRuntime.RunTurn | src/core/live-turn-absorption-bridge.js:159-326 | the phases of a turn in order for the three kinds of turn, its recorded status, and the log invariants kept |
| LiveRuntime.ApprovalReadyIff | src/core/execution-runtime.js:380-402 | an approval is ready exactly when confirmed for this command, for a dry run, without mutation |
| LiveRuntime.ApprovalFindingsIff | src/core/execution-runtime.js:380-402 | each of the five findings is reported exactly when its part of the approval is wrong |
| LiveRuntime.ClearedIff | src/core/execution-runtime.js:22-50 | which commands can be cleared, under which title, and that only the work surface check needs its surface allowed |
| LiveRuntime.InheritedIff | src/core/execution-runtime.js:134 | the names for which the lookup finds something that is no command |
| LiveRuntime.LiveRuntime.InvokeDryRun | src/core/execution-runtime.js:128-299 | a command starts exactly when listed and approved by name for a dry run, and is blocked with findings exactly when the approval has some; what starts completes or fails; over every run starts equal ends, and each start has its clearance |
| LiveRuntime.StartHasClearance | src/core/execution-runtime.js:128-299 | in the log of any sequence of turns and dry runs, the k-th start is that of a listed command which the k-th recorded clearance approved |
| LiveRuntime.LiveRuntime.ReadProgress | src/core/live-turn-absorption-bridge.js:421-432 | the reader returns the specified window of the log |
| LiveRuntime.LiveRuntime.BuildLane | src/core/live-turn-absorption-bridge.js:434-473 | after any turns and dry runs the lane asks for review exactly when the log ends with a blocked turn, and its mid-progress flag has its exact meaning |
| LiveRuntime.LiveRuntime.BuildSummary | src/core/live-turn-absorption-bridge.js:485-506 | recorded, waiting and blocked runs sum to the total, and blocked runs ask for review |
| GrowthLoop.AuthorizedAppend | src/core/auto-memory-growth-loop.js:261-343 | however a run goes, an apply only follows the recorded approval of the same request, which was awaiting it |
| GrowthLoop.ReachIff | src/core/auto-memory-growth-loop.js:261-353 | a run makes none, four, five or all six calls, and exactly when |
| GrowthLoop.EndingsAddUp | src/core/auto-memory-growth-loop.js:459-476 | five statuses account for every run and none is rolled back |
| RunStatuses.CountersAddUp | src/core/auto-memory-growth-loop.js:466-472 | counters of different statuses add up to the runs that have one of them |
| GrowthLoop.GrowthLoop.CallQueue | src/core/auto-memory-growth-loop.js:227-343 | the calls on the queue are a prefix of the protocol, as long as the answers allow |
| GrowthLoop.GrowthLoop.RunLoop | src/core/auto-memory-growth-loop.js:130-445 | a run's effects and its status in terms of text, target, boundary reasons, growth signal, approval and the queue's answers: a foreign target or a crossed boundary always ends in approval required, names its reasons and has no effect; memory is applied only after all six calls, each favourably answered |
| GrowthLoop.GrowthLoop.BuildSummary | src/core/auto-memory-growth-loop.js:459-476 | the counters miss exactly the blocked runs, and no run counts as rolled back |
| FileSystem.FileSystem.WalkAppend | src/core/control-center-serving.js:1927-1933 | a lookup of a longer path continues the lookup of its front, with the links left over |
| FileSystem.FileSystem.WalkCreateAppend | src/core/runtime-workspace-welcome.js:148-151 | in front of its last segment a write resolves as a lookup does |
| FileSystem.FileSystem.WrittenExistsOrFresh | src/core/runtime-workspace-welcome.js:148-151 | a write to what exists goes to its real path; any other write that succeeds creates an entry that was not there |
| FileSystem.FileSystem.RealPathIsReal | src/core/control-center-serving.js:1933 | a real path has no link in it and is its own real path |
| CanonicalPath.LongestExisting | src/core/control-center-serving.js:1925-1932 | there is a longest existing prefix, and nothing longer exists |
| CanonicalPath.CanonicalizePathAllowMissing | src/core/control-center-serving.js:1923-1935 | the result is the real path of the longest existing prefix followed by every missing segment |
| CanonicalPath.RevivedRanOutOfLinks | src/core/control-center-serving.js:1927-1933 | a missing segment that exists under the real path is a link whose first lookup ran out of links |
| CanonicalPath.CanonicalIsReal | src/core/control-center-serving.js:1923-1935 | a result that exists is its own real path exactly when the lookup was not revived |
| CanonicalPath.CanonicalIdempotent | src/core/control-center-serving.js:1923-1935 | canonicalising twice changes nothing exactly when the lookup was not revived |
| CanonicalPath.CanonicalFixedIff | src/core/control-center-serving.js:1923-1935 | a path is left alone exactly when what exists of it is its own real path |
| CanonicalPath.MissingTailsStayDifferent | src/core/control-center-serving.js:1930-1934 | paths that continue from the same directory with different missing segments stay different |
| CanonicalPath.CanonicalStable | src/core/control-center-serving.js:1923-1935 | lookups that never run out of links are canonicalised once and for all |
| CanonicalPath.CanonicalNotIdempotent | src/core/control-center-serving.js:1923-1935 | whatever the limit on links, some path is not canonicalised for good |
| WelcomeBoundary.InsideIsPrefix | src/core/control-center-serving.js:1937-1940 | containment is by segments, except that names beginning with two dots are refused |
| WelcomeBoundary.OutsideUnreachable | src/core/control-center-serving.js:1888-1892 | no welcome file is ever reported outside its workspace |
| WelcomeBoundary.EscapeIffRevived | src/core/control-center-serving.js:1898-1901 | the escape rejection fires exactly when the root's lookup was revived and the target is no link |
| WelcomeBoundary.NoProblemIffHarmless | src/core/control-center-serving.js:1888-1905 | a file passes exactly when no lookup finds it or it is a regular file at its own real path |
| WelcomeBoundary.ProblemByEntry | src/core/control-center-serving.js:1893-1904 | otherwise the entry decides: link rejected, regular file accepted, anything else rejected |
| WelcomeBoundary.VerifyTargets | src/core/control-center-serving.js:1888-1905 | the first file with a problem ends the loop with that problem |
| WelcomeBoundary.VerifyWelcomeWorkspaceBoundary | src/core/control-center-serving.js:1865-1911 | ready exactly when the caller names the same root, the root is missing or a directory, and every welcome file that exists is a regular file at its own real path |
| WelcomeBoundary.CollectWrites | src/core/runtime-workspace-welcome.js:132-143 | the files an owner's answers cause to be written, in order |
| WelcomeBoundary.CheckedAreWritable | src/core/control-center-serving.js:181-188 | the files checked are exactly those that some answers cause to be written |
| WelcomeBoundary.WrittenInPlaceIff | src/core/runtime-workspace-welcome.js:148-151 | a file that passed is written at its entry in the workspace exactly unless that entry is a link; a write through the link creates a new file |
| WelcomeBoundary.WrittenElsewhereIff | src/core/control-center-serving.js:1893 | for a root that is its own real path, a file that passed is written elsewhere exactly when its entry is a link to something missing |
| WelcomeBoundary.ReadyWritesInPlaceIff | src/core/control-center-serving.js:1888-1911 | after a ready verdict on an existing root all welcome files are written in place exactly when none of them is a link |
| WelcomeBoundary.ReadyWritesElsewhere | src/core/control-center-serving.js:1893 | whatever the limit on links, a ready verdict does not keep every write inside the workspace |
| WelcomeBoundary.EscapeReachable | src/core/control-center-serving.js:1898-1901 | whatever the limit on links, some configured root has a welcome file rejected as an escape |
| HtmlEscape.EscapeIsSubstitution | src/core/control-center-serving.js:2322-2329 | the five passes equal one substitution per character |
| HtmlEscape.EscapeRoundTrip | src/core/core-work-surface.js:3363-3370 | decoding character references recovers the text, in both spellings of the apostrophe |
| HtmlEscape.EscapeInjective | src/core/core-work-surface.js:3363-3370 | different texts escape differently, even across the two escapers |
| HtmlEscape.EscapeIsInert | src/core/control-center-serving.js:2322-2329 | the output has no markup character, and each ampersand begins a reference |
| HtmlEscape.EscapeTwice | src/core/control-center-serving.js:2322-2329 | escaping twice differs from once exactly on texts that needed escaping |
| Cookies.ParseCookies | src/core/control-center-serving.js:1839-1849 | the accumulator loop collects the parts from left to right |
| Cookies.CookieRoundTrip | src/core/control-center-serving.js:1839-1849 | parsing a printed list of pairs gives the last-wins map, whatever `=` the values contain |
| Cookies.NamelessPartIgnored | src/core/control-center-serving.js:1845-1846 | a part without a name or without `=` changes nothing, wherever it stands |
| Cookies.CookieLost | src/core/control-center-serving.js:1846 | a cookie of a printed header is lost exactly when it is named `__proto__` |
| TextHash.LocalLoopHashText | src/core/first-local-work-loop.js:322-328 | the unsigned loop prints the polynomial sum of code units mod 2^32 |
| TextHash.PreviewHashText | src/core/core-work-surface.js:739-745 | the signed loop prints the magnitude of the same polynomial as a signed word |
| TextHash.Horner | src/core/first-local-work-loop.js:322-328 | one more code unit multiplies the polynomial by 31 and adds it |
| TextHash.UnsignedStep | src/core/first-local-work-loop.js:324-326 | a step commutes with wrapping and stays below 2^53 |
| TextHash.SignedStep | src/core/core-work-surface.js:741-743 | shift and subtract is multiplication by 31 modulo 2^32, and stays exact |
| TextHash.UnsignedTextFixed | src/core/first-local-work-loop.js:327 | the text is exactly eight digits and reads back as the hash |
| TextHash.SignedTextFixed | src/core/core-work-surface.js:744 | the text is exactly six digits, never cut, and reads back as the magnitude |
| TextHash.UnsignedTextEqual | src/core/first-local-work-loop.js:322-328 | texts collide exactly when their polynomials agree mod 2^32 |
| TextHash.SignedTextEqual | src/core/core-work-surface.js:739-745 | texts collide exactly when their polynomials agree or are opposite mod 2^32 |
| TextHash.SignedCoarser | src/core/core-work-surface.js:739-745 | equal record hashes give equal preview hashes |
| TextHash.SignedStrictlyCoarser | src/core/core-work-surface.js:739-745 | the converse fails |

## Left out

- HTTP routing, rendering, tokens and CSRF injection: no decision of theirs is modelled.
- Contract, design and verification builders, connector governance and the command line: constant records.
- Patterns over text: whether a text names the release, reads like a follow-up, or carries a growth or risk
  signal is an input of a turn. Explanatory text (reasons, hints, labels, next safe actions) is left out.
- `String(value ?? "")` and other coercions: texts are strings. Text is a sequence of characters, and only
  `TextHash` works on UTF-16 code units, so a sanitised id holds one `_` for a character outside the basic plane.
- Numbers: scores and weights are reals, so rounding of binary fractions is not modelled; NaN is not modelled.
- Memory wiki, review queue, preflight and replay records, identity maps: their results are arbitrary inputs.
- Order of retrieved cells: `resolveContextMesh` sorts by score; the theorems hold for every order.
- Uses given as one string instead of an array: the cell model has arrays only.
- JSON itself: an encoder with the three properties `Jsonl.Lawful` asks for. Failed or partial writes, and
  writers in other processes, are not modelled.
- File system: it does not change during a call; permissions, Windows paths and case-insensitive names are not
  modelled; the default workspace path is an argument. Where welcome files are written is stated for a root that
  exists (`mkdirSync` is not modelled), for one write at a time in the file system as it was checked.
- Progress events from the gateway: its route that appends any tool event it is sent is not a writer of the
  model's log, so the lane theorems are about logs of turns and dry runs.
- Status of the packet: it follows the authority decision on the request, which is not modelled.
- Dry run subprocess: it succeeds or fails; an append that fails after success is not modelled.
- Growth loop: the wording of the captured memory is not modelled.
- LiveRuntime.LiveRuntime.RunTurn: does not model the preflight and replay stores it also appends to, because their modules are arbitrary here.
- LiveRuntime.LiveRuntime.BuildLane: does not model the visible items and the three-second target, because texts and elapsed times of events are not modelled, nor the body log findings, because every writer here uses the one allowed policy.
- GrowthLoop.GrowthLoop.RunLoop: does not model the audit events, the self-growth candidate, or a queue call that throws, because their modules are arbitrary here.
- FileSystem.FileSystem.RealPathIsReal: states `realpathSync` as the kernel resolves paths, because the lexical treatment of `..` inside link texts by the JavaScript one of Node.js is not modelled.
