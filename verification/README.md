# Agent claim state machine

A Dafny model of `AgentUpdater` in `agent-scripts/agent-template.cjs`: the per-agent script of
a multi-agent editing setup. Each agent keeps one state file. The file holds either an idle
record, or an active record whose `currentWork` lists the claimed files, the task and the
start time. Four operations change it:

- `ensureStateFile` creates the idle record on first use.
- `start(files, task)` claims files. It refuses the whole claim if the unified view's
  `fileOwnership` table gives any requested file to another agent.
- `complete()` moves active work into `lastCompleted` and returns to idle.
- `heartbeat()` refreshes an active record's `lastHeartbeat`.

Every write stamps the agent's name and the current time.

The model is functional. The state file is a `Slot`: `Missing`, `Unreadable` or
`Stored(AgentState)`. Each operation is a pure function from the slot, the already-read
unified view, the clock `now` (integer milliseconds) and a write-success flag to a reply and
the new slot.

Modules:

- `Optional`: the `Option` type, standing for JavaScript `null`.
- `StateStore`: the record, the slot, `readState` and `writeState`, and the structural
  invariant `WellFormed` (`currentWork` is present exactly when the status is `active`).
- `Ownership`: conflict detection over the `fileOwnership` table, and the property-lookup
  defect described under Findings.
- `ClaimProtocol`: `ensureStateFile`, `start`, `complete` and `heartbeat`.
- `Lifecycle`: whole runs of the script as written. The constructor's `ensureStateFile` runs
  before each command, and `start` is the as-written `ClaimProtocol.StartAsWritten`. Lemmas relate several operations.

Three behaviours of the code worth noting:

- `start` does not reject an empty file list.
- `start` writes a record without `lastCompleted`, so a new claim drops the previous
  completion record.
- `complete` on a record marked `active` whose `currentWork` is `null` does not report "no
  active work". Reading `started` from `null` throws, and the process dies with nothing
  written. This is the `Crashed` reply, which `Lifecycle.ReachableNeverCrashes` shows cannot
  happen on any state the script itself produces.

## Model

| member | source | states |
|---|---|---|
| StateStore.WriteState | agent-scripts/agent-template.cjs:42-53 | a successful write stores the given record with `agent` set to this agent and `lastHeartbeat` set to now, everything else kept; a failed write changes nothing and returns false; a well-shaped record keeps the slot well-formed |
| ClaimProtocol.EnsureStateFile | agent-scripts/agent-template.cjs:18-31 | only a missing state file is written, with an idle record that has no `currentWork`, stamped with this agent and now; an existing file, even unreadable, is never overwritten |
| Ownership.Conflicts | agent-scripts/agent-template.cjs:70-78 | every reported conflict is a requested file that the table gives to another agent, paired with that agent's ownership record; never more conflicts than requested files |
| Ownership.ConflictsComplete | agent-scripts/agent-template.cjs:71-78 | every requested file owned by another agent is reported |
| Ownership.ConflictsEmptyIff | agent-scripts/agent-template.cjs:70-80 | the conflict list is empty exactly when no requested file is owned by another agent |
| Ownership.UnownedNeverConflicts | agent-scripts/agent-template.cjs:72 | a file absent from the table, or owned by this same agent, never produces a conflict |
| Ownership.ConflictsAppend | agent-scripts/agent-template.cjs:71-78 | the conflicts of two concatenated requests are the first request's conflicts followed by the second's |
| Ownership.ConflictPositions | agent-scripts/agent-template.cjs:71-78 | the positions of the conflicting requests are strictly increasing, lie within the request, and there is one per conflict |
| Ownership.ConflictPositionsMatch | agent-scripts/agent-template.cjs:71-78 | the k-th conflict names the requested file at the k-th conflicting position |
| Ownership.ConflictPositionsCover | agent-scripts/agent-template.cjs:71-78 | every position whose file another agent owns is a conflicting position |
| Ownership.ConflictsInRequestOrder | agent-scripts/agent-template.cjs:70-78 | the conflict list is exactly the subsequence of requested files owned by another agent, in request order |
| Ownership.CollectConflicts | agent-scripts/agent-template.cjs:70-78 | the `forEach`/`push` loop, with the intended own-entry test, builds the same list as the recursive definition |
| Ownership.FlaggedFilesAsWritten | agent-scripts/agent-template.cjs:72 | the files the scan flags as written, using a plain object lookup: each is requested, and is either owned by another agent or an inherited `Object.prototype` name |
| Ownership.PrototypeNameFalseConflict | agent-scripts/agent-template.cjs:72 | the lookup as written flags an unowned file named `constructor`, while the intended test reports no conflict |
| Ownership.FlaggedComplete | agent-scripts/agent-template.cjs:71-78 | every requested file that passes the truthy-lookup test as written is listed by the scan as written |
| Ownership.FlaggedEmptyIff | agent-scripts/agent-template.cjs:71-80 | the scan as written finds nothing exactly when no requested file passes its truthy-lookup test |
| Ownership.AsWrittenAgreesOffPrototypeNames | agent-scripts/agent-template.cjs:72 | when no requested file is an inherited name missing from the table, the lookup as written and the intended test flag the same files in the same order |
| ClaimProtocol.ClaimConflicts | agent-scripts/agent-template.cjs:68-80 | with the intended own-entry lookup, conflicts exist exactly when the view and its `fileOwnership` are present and some requested file is owned by another agent; with no view or no table, nothing is checked |
| ClaimProtocol.Start | agent-scripts/agent-template.cjs:66-113 | with the intended own-entry lookup, the claim is rejected exactly when some requested file is owned by another agent, and then nothing is written; otherwise, after a successful write, the slot holds an active record with these files, this task, started now, stamped with this agent and now, and start returns true; a failed write returns false and changes nothing |
| ClaimProtocol.StartAsWritten | agent-scripts/agent-template.cjs:66-113 | with the plain property read as written: if any requested file is flagged, start returns false and writes nothing; otherwise it returns the write's result and, on success, stores the active record for these files and task started now; the structural invariant and the agent stamp are preserved |
| ClaimProtocol.StartAsWrittenAgrees | agent-scripts/agent-template.cjs:66-113 | unless a requested file is an inherited property name missing from the table, start as written and the corrected `Start` give the same answer and the same state file |
| ClaimProtocol.StartAsWrittenRejectsPrototypeName | agent-scripts/agent-template.cjs:72 | start as written refuses an unowned file named `constructor` against an empty table and writes nothing, while the corrected `Start` claims it when the write succeeds |
| ClaimProtocol.RoundMinutes | agent-scripts/agent-template.cjs:122 | `Math.round` of the elapsed minutes is within half a minute of the elapsed time, halves rounded up |
| ClaimProtocol.RoundMinutesUnique | agent-scripts/agent-template.cjs:122 | the rounded minute count is the only whole number with that property |
| ClaimProtocol.Complete | agent-scripts/agent-template.cjs:115-144 | with no readable record, or a status other than `active`, complete returns false and writes nothing; otherwise a successful write stores an idle record with no `currentWork`, whose `lastCompleted` copies the files and task and holds the elapsed time rounded to minutes; a failed write returns false and leaves the file unchanged; the invariant is preserved |
| ClaimProtocol.Heartbeat | agent-scripts/agent-template.cjs:196-204 | an active record is rewritten with only `agent` and `lastHeartbeat` changed; an idle, missing or unreadable one is left untouched |
| Lifecycle.Invoke | agent-scripts/agent-template.cjs:207-240 | one run of the script as written (`ensureStateFile` from the constructor, then `start` with the plain property read, `complete`, `heartbeat`, or a command with no write of its own such as `check`) preserves the structural invariant and the agent stamp |
| Lifecycle.RunKeepsInvariant | agent-scripts/agent-template.cjs:18-204 | after any sequence of runs of the script as written from a well-formed slot stamped by this agent, `currentWork` is present exactly when the status is active, and the record names this agent |
| Lifecycle.ReachableNeverCrashes | agent-scripts/agent-template.cjs:122 | on any state the script as written can reach from a fresh agent, `complete` never reads `started` from a missing `currentWork` |
| Lifecycle.ClaimThenComplete | agent-scripts/agent-template.cjs:94-137 | a successful claim by `start` as written followed by a successful completion leaves an idle record whose `lastCompleted` holds the claimed files, the task and the rounded elapsed minutes |
| Lifecycle.CompleteTwiceRefused | agent-scripts/agent-template.cjs:115-120 | after a completion, a second `complete` reports no active work and writes nothing |
| Lifecycle.HeartbeatsCollapse | agent-scripts/agent-template.cjs:196-204 | two successful heartbeats leave the same record as the later one alone |
| Lifecycle.HeartbeatKeepsWork | agent-scripts/agent-template.cjs:196-199 | a heartbeat never changes status, `currentWork` or `lastCompleted` |
| Lifecycle.FreshAgentCannotComplete | agent-scripts/agent-template.cjs:115-120 | a `complete` run by an agent with no state file only creates the idle record |
| Lifecycle.HeldFileRefusesOthers | agent-scripts/agent-template.cjs:66-90 | with `start` as written, when the view's ownership table, whatever else it holds, gives a requested file to another agent, the claim is refused and the claimant's file is untouched |
| Lifecycle.NoViewNoConflict | agent-scripts/agent-template.cjs:68-69 | with `start` as written and no unified view, or one without `fileOwnership`, a claim succeeds exactly when its write succeeds |

## Left out

- File-system access and JSON. `existsSync`, `mkdirSync`, `readFileSync`, `writeFileSync`,
  `JSON.parse` and `JSON.stringify` become the `Slot` value and a write-success flag.
  `readUnifiedView` becomes an `Option<View>` input.
- A failed `writeFileSync` is modelled as leaving the file unchanged. A partially written
  file is not modelled.
- Timestamps. ISO strings and `Date` become integer milliseconds. One operation reads the
  clock several times; the model uses a single `now` for all of those reads.
- Floating point. `Math.round(ms / 1000 / 60)` is computed exactly on integers. The two
  agree whenever the float divisions are exact near the half-minute boundaries, which holds
  for realistic times.
- Unknown JSON fields. A record read from disk may hold fields other than `agent`, `status`,
  `currentWork`, `lastHeartbeat` and `lastCompleted`; `heartbeat` would carry them along.
  The record type has only these five.
- Records whose fields are missing or have the wrong type. `status` may be any text, but
  `currentWork` is always absent or a complete `{files, task, started}`.
- `check()` (lines 146-194). It only prints a report and changes no state.
- CLI argument handling, the comma split of `--files`, `process.exit`, and all console
  output (lines 207-257). Only the constructor-then-command order is kept.
- The value of `AGENT_NAME`. It is a template placeholder (line 7), modelled as the parameter `self`.
- Building the unified view, stale agents, `force`, `progress`, `release` and the handoff
  log. This script does none of them; it only reads `fileOwnership`.
- ClaimProtocol.Start: uses the intended own-entry lookup of `fileOwnership`, not the plain
  property read at line 72, so it claims an unowned file named like an `Object.prototype`
  member that the source refuses. The behaviour as written is `ClaimProtocol.StartAsWritten`;
  `ClaimProtocol.StartAsWrittenAgrees` shows the two agree on every other input.
- ClaimProtocol.ClaimConflicts: same corrected lookup as `ClaimProtocol.Start`. The scan as
  written is `Ownership.FlaggedFilesAsWritten`.
- Concurrency between agent processes. Each run is a single step that runs to completion.

## Findings

| source | as written | input that shows it | evidently intended | confidence | as-written member | corrected member |
|---|---|---|---|---|---|---|
| agent-scripts/agent-template.cjs:72 | `unified.fileOwnership[file]` is a plain property read on a parsed object, so a name inherited from `Object.prototype` yields a truthy value (a function, or the prototype object for `__proto__`) whose `agent` is undefined, and the file is reported as claimed | `start(["constructor"], task)` with `fileOwnership = {}` is rejected as a conflict | only files with an own entry in `fileOwnership` naming another agent conflict | high; not executed | Ownership.FlaggedFilesAsWritten and ClaimProtocol.StartAsWritten (shown by Ownership.PrototypeNameFalseConflict and ClaimProtocol.StartAsWrittenRejectsPrototypeName) | Ownership.Conflicts (with Ownership.UnownedNeverConflicts), used by ClaimProtocol.Start |
