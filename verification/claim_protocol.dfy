/** The per-agent claim operations of `AgentUpdater`: `ensureStateFile`, `start`, `complete`
    and `heartbeat`, each a pure transition of the agent's state slot.

    `self` is the agent's configured name, `now` the clock in milliseconds, `writeOk` whether
    the file write the operation attempts succeeds. The unified view is passed in already
    read: `None` when it is missing or unparsable. */
module ClaimProtocol {
  import opened Optional
  import opened StateStore
  import opened Ownership

  /** The parts of the unified view a claim consults. */
  datatype View = View(fileOwnership: Option<Ownerships>)

  /** A requested file blocks the claim: the view and its ownership table exist, and the table
      assigns the file to another agent. */
  predicate Blocks(view: Option<View>, self: string, file: string) {
    view.Some? && view.value.fileOwnership.Some? && OwnedByOther(view.value.fileOwnership.value, self, file)
  }

  /** The record a fresh agent starts from. */
  function InitialState(self: string, now: int): (st: AgentState) {
    AgentState(self, Idle, None, now, None)
  }

  /** `ensureStateFile`: writes the idle record when no state file exists yet; an existing
      file, readable or not, is never touched. The write's own result is ignored. */
  function EnsureStateFile(self: string, slot: Slot, now: int, writeOk: bool): (r: Slot)
    ensures slot != Missing ==> r == slot
    ensures slot == Missing && writeOk ==> r == Stored(InitialState(self, now))
    ensures slot == Missing && !writeOk ==> r == Missing
    ensures WellFormed(slot) ==> WellFormed(r)
  {
    if slot.Missing? then WriteState(self, slot, InitialState(self, now), now, writeOk).1 else slot
  }

  /** The conflicts `start` reports: none are looked for when the view or its ownership table
      is missing. */
  function ClaimConflicts(view: Option<View>, files: seq<string>, self: string): (cs: seq<Conflict>)
    ensures cs != [] <==> exists i :: 0 <= i < |files| && Blocks(view, self, files[i])
    ensures forall k :: 0 <= k < |cs| ==> cs[k].file in files && Blocks(view, self, cs[k].file)
  {
    if view.Some? && view.value.fileOwnership.Some? then
      var fo := view.value.fileOwnership.value;
      ConflictsEmptyIff(files, fo, self);
      Conflicts(files, fo, self)
    else []
  }

  /** The outcome of `start`; the source returns `true` exactly for `Claimed`. */
  datatype StartReply = Claimed | Rejected(conflicts: seq<Conflict>) | NotWritten

  /** `start(files, task)`: rejects the whole claim when any requested file is held by another
      agent, and otherwise writes an active record for `files` and `task` started at `now`. */
  function Start(self: string, slot: Slot, view: Option<View>, files: seq<string>, task: string,
                 now: int, writeOk: bool): (r: (StartReply, Slot))
    ensures r.0.Rejected? <==> exists i :: 0 <= i < |files| && Blocks(view, self, files[i])
    ensures r.0.Rejected? ==> r.1 == slot && r.0.conflicts != []
    ensures r.0.Rejected? ==> forall k :: 0 <= k < |r.0.conflicts| ==>
      r.0.conflicts[k].file in files && Blocks(view, self, r.0.conflicts[k].file)
    ensures !r.0.Rejected? ==> (r.0.Claimed? <==> writeOk)
    ensures r.0.Claimed? ==> r.1 == Stored(AgentState(self, Active, Some(Work(files, task, now)), now, None))
    ensures r.0.NotWritten? ==> r.1 == slot
    ensures WellFormed(slot) ==> WellFormed(r.1)
    ensures StampedBy(self, slot) ==> StampedBy(self, r.1)
  {
    var conflicts := ClaimConflicts(view, files, self);
    if |conflicts| > 0 then (Rejected(conflicts), slot)
    else
      var claim := AgentState(self, Active, Some(Work(files, task, now)), now, None);
      var (ok, slot') := WriteState(self, slot, claim, now, writeOk);
      (if ok then Claimed else StartReply.NotWritten, slot')
  }

  /** A requested file fails the scan as written: the view and its ownership table exist, and
      the plain property read of the file's name is truthy with an `agent` other than `self`. */
  predicate FlaggedByView(view: Option<View>, self: string, file: string) {
    view.Some? && view.value.fileOwnership.Some? && FlaggedAsWritten(view.value.fileOwnership.value, self, file)
  }

  /** `start(files, task)` exactly as written, including the plain property read of
      `fileOwnership`; returns the source's boolean and the new state file. */
  function StartAsWritten(self: string, slot: Slot, view: Option<View>, files: seq<string>, task: string,
                          now: int, writeOk: bool): (r: (bool, Slot))
    ensures (exists i :: 0 <= i < |files| && FlaggedByView(view, self, files[i])) ==> r == (false, slot)
    ensures (forall i :: 0 <= i < |files| ==> !FlaggedByView(view, self, files[i])) ==>
      && r.0 == writeOk
      && r.1 == (if writeOk then Stored(AgentState(self, Active, Some(Work(files, task, now)), now, None)) else slot)
    ensures WellFormed(slot) ==> WellFormed(r.1)
    ensures StampedBy(self, slot) ==> StampedBy(self, r.1)
  {
    var flagged :=
      if view.Some? && view.value.fileOwnership.Some? then
        var fo := view.value.fileOwnership.value;
        FlaggedEmptyIff(files, fo, self);
        FlaggedFilesAsWritten(files, fo, self)
      else [];
    if |flagged| > 0 then (false, slot)
    else WriteState(self, slot, AgentState(self, Active, Some(Work(files, task, now)), now, None), now, writeOk)
  }

  /** Unless a requested file is an inherited property name missing from the table, `start` as
      written and the corrected `Start` return the same answer and leave the same state file. */
  lemma StartAsWrittenAgrees(self: string, slot: Slot, view: Option<View>, files: seq<string>, task: string,
                             now: int, writeOk: bool)
    requires view.Some? && view.value.fileOwnership.Some? ==>
      forall i :: 0 <= i < |files| ==> files[i] in view.value.fileOwnership.value || files[i] !in ObjectPrototypeNames
    ensures var r := Start(self, slot, view, files, task, now, writeOk);
      StartAsWritten(self, slot, view, files, task, now, writeOk) == (r.0.Claimed?, r.1)
  {
    forall i | 0 <= i < |files| ensures FlaggedByView(view, self, files[i]) == Blocks(view, self, files[i]) {
    }
  }

  /** `start` as written refuses to claim an unowned file named `constructor`, writing nothing,
      while the corrected `Start` claims it whenever the write succeeds. */
  lemma StartAsWrittenRejectsPrototypeName(self: string, slot: Slot, task: string, now: int, writeOk: bool)
    ensures var view := Some(View(Some(map[])));
      && StartAsWritten(self, slot, view, ["constructor"], task, now, writeOk) == (false, slot)
      && (Start(self, slot, view, ["constructor"], task, now, writeOk).0.Claimed? <==> writeOk)
  {
    var view: Option<View> := Some(View(Some(map[])));
    assert "constructor" in ObjectPrototypeNames;
    assert FlaggedByView(view, self, ["constructor"][0]);
  }

  /** `Math.round(ms / 1000 / 60)` on a whole number of milliseconds: the nearest whole minute,
      halves rounded up. */
  function RoundMinutes(ms: int): (m: int)
    ensures m * 60000 - 30000 <= ms < m * 60000 + 30000
  {
    (ms + 30000) / 60000
  }

  /** Only one whole number of minutes lies within half a minute of `ms`, halves rounded up. */
  lemma RoundMinutesUnique(ms: int, m: int)
    requires m * 60000 - 30000 <= ms < m * 60000 + 30000
    ensures RoundMinutes(ms) == m
  {
    var n := RoundMinutes(ms);
    assert n * 60000 - 30000 <= ms < n * 60000 + 30000;
  }

  /** The outcome of `complete`. The source returns `true` exactly for `Completed`;
      `Crashed` is the uncaught error from reading `started` of a missing `currentWork`. */
  datatype CompleteReply = Completed(duration: int) | NoActiveWork | NotWritten | Crashed

  /** `complete()`: moves an active record's work into `lastCompleted`, with its length in
      rounded minutes, and returns to idle. */
  function Complete(self: string, slot: Slot, now: int, writeOk: bool): (r: (CompleteReply, Slot))
    ensures !slot.Stored? || slot.state.status != Active ==> r == (NoActiveWork, slot)
    ensures r.0.Crashed? <==> slot.Stored? && slot.state.status == Active && slot.state.currentWork.None?
    ensures !r.0.Completed? ==> r.1 == slot
    ensures slot.Stored? && slot.state.status == Active && slot.state.currentWork.Some? && !writeOk ==>
      r.0 == CompleteReply.NotWritten
    ensures slot.Stored? && slot.state.status == Active && slot.state.currentWork.Some? ==>
      (r.0.Completed? <==> writeOk)
    ensures r.0.Completed? ==>
      var w := slot.state.currentWork.value;
      && r.1.Stored?
      && r.1.state.status == Idle && r.1.state.currentWork == None
      && r.1.state.agent == self && r.1.state.lastHeartbeat == now
      && r.1.state.lastCompleted == Some(Completion(w.files, w.task, r.0.duration, now))
      && r.0.duration * 60000 - 30000 <= now - w.started < r.0.duration * 60000 + 30000
    ensures WellFormed(slot) ==> WellFormed(r.1)
    ensures StampedBy(self, slot) ==> StampedBy(self, r.1)
  {
    match ReadState(slot)
    case None => (NoActiveWork, slot)
    case Some(current) =>
      if current.status != Active then (NoActiveWork, slot)
      else if current.currentWork.None? then (Crashed, slot)
      else
        var w := current.currentWork.value;
        var duration := RoundMinutes(now - w.started);
        var done := AgentState(self, Idle, None, now, Some(Completion(w.files, w.task, duration, now)));
        var (ok, slot') := WriteState(self, slot, done, now, writeOk);
        (if ok then Completed(duration) else CompleteReply.NotWritten, slot')
  }

  /** The outcome of `heartbeat`: whether it took the "heartbeat sent" branch. */
  datatype HeartbeatReply = Sent | Skipped

  /** `heartbeat()`: rewrites an active record as it is, so only the stamps change; leaves an
      idle, missing or unreadable one alone. */
  function Heartbeat(self: string, slot: Slot, now: int, writeOk: bool): (r: (HeartbeatReply, Slot))
    ensures r.0.Sent? <==> slot.Stored? && slot.state.status == Active
    ensures r.0.Skipped? || !writeOk ==> r.1 == slot
    ensures r.0.Sent? && writeOk ==>
      r.1 == Stored(slot.state.(agent := self, lastHeartbeat := now))
    ensures WellFormed(slot) ==> WellFormed(r.1)
    ensures StampedBy(self, slot) ==> StampedBy(self, r.1)
  {
    match ReadState(slot)
    case Some(st) =>
      if st.status == Active then (Sent, WriteState(self, slot, st, now, writeOk).1) else (Skipped, slot)
    case None => (Skipped, slot)
  }
}
