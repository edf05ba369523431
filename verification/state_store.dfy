/** The per-agent state record and the file slot that persists it.

    Each agent owns one state file. Reading it yields the parsed record, or nothing when the
    file is missing or cannot be parsed; writing it always stamps the agent's own name and a
    fresh heartbeat time before saving. Timestamps are integer milliseconds. */
module StateStore {
  import opened Optional

  /** Status texts other than "idle" and "active", so that each text has one encoding. */
  type OtherText = t: string | t != "active" && t != "idle" witness "stale"

  /** The `status` field. Only the text "active" drives any decision; a parsed record may
      carry any other text, which every operation treats as "not active". */
  datatype Status = Idle | Active | Other(text: OtherText)

  /** `currentWork`: the files claimed, the task, and when the claim started. */
  datatype Work = Work(files: seq<string>, task: string, started: int)

  /** `lastCompleted`: what the last finished claim covered, its length in whole minutes,
      and when it finished. */
  datatype Completion = Completion(files: seq<string>, task: string, duration: int, completed: int)

  datatype AgentState = AgentState(
    agent: string,
    status: Status,
    currentWork: Option<Work>,
    lastHeartbeat: int,
    lastCompleted: Option<Completion>)

  /** What the agent's state file holds: nothing yet, something that does not parse, or a record. */
  datatype Slot = Missing | Unreadable | Stored(state: AgentState)

  /** The structural invariant: `currentWork` is present exactly when the status is active. */
  predicate WellShaped(s: AgentState) {
    s.currentWork.Some? <==> s.status == Active
  }

  /** A slot whose record, if it has one, keeps the structural invariant. */
  predicate WellFormed(slot: Slot) {
    slot.Stored? ==> WellShaped(slot.state)
  }

  /** Every record in the slot carries this agent's name. */
  predicate StampedBy(self: string, slot: Slot) {
    slot.Stored? ==> slot.state.agent == self
  }

  /** Two records agree on everything a write does not stamp. */
  predicate SameContent(a: AgentState, b: AgentState) {
    && a.status == b.status
    && a.currentWork == b.currentWork
    && a.lastCompleted == b.lastCompleted
  }

  /** `readState`: the parsed record, or `null` when the file is missing or unparsable. */
  function ReadState(slot: Slot): (r: Option<AgentState>) {
    if slot.Stored? then Some(slot.state) else None
  }

  /** `writeState`: stamps `agent` and `lastHeartbeat`, then saves. `writeOk` says whether the
      underlying file write succeeds; a failed write leaves the file as it was. The boolean is
      the value the source returns. */
  function WriteState(self: string, slot: Slot, st: AgentState, now: int, writeOk: bool): (r: (bool, Slot))
    ensures r.0 == writeOk
    ensures writeOk ==> r.1.Stored? && r.1.state.agent == self && r.1.state.lastHeartbeat == now
    ensures writeOk ==> SameContent(r.1.state, st)
    ensures !writeOk ==> r.1 == slot
    ensures WellFormed(slot) && WellShaped(st) ==> WellFormed(r.1)
    ensures StampedBy(self, slot) ==> StampedBy(self, r.1)
  {
    if writeOk then (true, Stored(st.(agent := self, lastHeartbeat := now))) else (false, slot)
  }
}
