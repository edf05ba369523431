/** Runs of the agent script over time. Every run constructs a fresh `AgentUpdater`, whose
    constructor calls `ensureStateFile`, and then performs one command. The lemmas here
    relate several operations: the structural invariant holds in every reachable state,
    a claim completes into a matching `lastCompleted`, and so on. */
module Lifecycle {
  import opened Optional
  import opened StateStore
  import opened Ownership
  import opened ClaimProtocol

  /** A command of the script, as far as the agent's state is concerned. */
  datatype Command =
    | StartCmd(view: Option<View>, files: seq<string>, task: string)
    | CompleteCmd
    | HeartbeatCmd
    | OtherCmd  // `check`, the usage text, or `start` without `--files`/`--task`: no write of its own

  /** One run: the command, the clock, and whether the constructor's write and the command's
      write succeed. */
  datatype Invocation = Invocation(cmd: Command, now: int, ensureOk: bool, writeOk: bool)

  /** The state file after one run of the script as written: `start` is `StartAsWritten`,
      with the plain property read of `fileOwnership`. */
  function Invoke(self: string, slot: Slot, run: Invocation): (r: Slot)
    ensures WellFormed(slot) ==> WellFormed(r)
    ensures StampedBy(self, slot) ==> StampedBy(self, r)
  {
    var ready := EnsureStateFile(self, slot, run.now, run.ensureOk);
    match run.cmd
    case StartCmd(view, files, task) => StartAsWritten(self, ready, view, files, task, run.now, run.writeOk).1
    case CompleteCmd => Complete(self, ready, run.now, run.writeOk).1
    case HeartbeatCmd => Heartbeat(self, ready, run.now, run.writeOk).1
    case OtherCmd => ready
  }

  /** The state file after a sequence of runs. */
  function Run(self: string, slot: Slot, runs: seq<Invocation>): (r: Slot)
    decreases |runs|
  {
    if |runs| == 0 then slot else Run(self, Invoke(self, slot, runs[0]), runs[1..])
  }

  /** `currentWork` is present exactly when the status is active, and the record names this
      agent, after any sequence of runs that starts from a slot where both already hold —
      in particular from an agent with no state file yet. */
  lemma {:induction false} RunKeepsInvariant(self: string, slot: Slot, runs: seq<Invocation>)
    requires WellFormed(slot) && StampedBy(self, slot)
    ensures WellFormed(Run(self, slot, runs)) && StampedBy(self, Run(self, slot, runs))
    decreases |runs|
  {
    if |runs| > 0 {
      RunKeepsInvariant(self, Invoke(self, slot, runs[0]), runs[1..]);
    }
  }

  /** On any state reachable from a fresh agent, `complete` never hits the missing
      `currentWork` of an active record. */
  lemma ReachableNeverCrashes(self: string, runs: seq<Invocation>, now: int, writeOk: bool)
    ensures !Complete(self, Run(self, Missing, runs), now, writeOk).0.Crashed?
  {
    RunKeepsInvariant(self, Missing, runs);
  }

  /** A successful claim followed by a successful completion records the claimed files and
      task in `lastCompleted`, with the claim's length rounded to minutes. */
  lemma ClaimThenComplete(self: string, slot: Slot, view: Option<View>, files: seq<string>,
                          task: string, t1: int, t2: int)
    requires StartAsWritten(self, slot, view, files, task, t1, true).0
    ensures var c := Complete(self, StartAsWritten(self, slot, view, files, task, t1, true).1, t2, true);
      && c.0 == Completed(RoundMinutes(t2 - t1))
      && c.1 == Stored(AgentState(self, Idle, None, t2, Some(Completion(files, task, RoundMinutes(t2 - t1), t2))))
  {
  }

  /** Once work is completed, a second `complete` finds nothing to complete and writes nothing. */
  lemma CompleteTwiceRefused(self: string, slot: Slot, t1: int, t2: int, writeOk: bool)
    requires Complete(self, slot, t1, true).0.Completed?
    ensures var s1 := Complete(self, slot, t1, true).1;
      Complete(self, s1, t2, writeOk) == (NoActiveWork, s1)
  {
  }

  /** Two successful heartbeats leave the same record as the later one alone. */
  lemma HeartbeatsCollapse(self: string, slot: Slot, t1: int, t2: int)
    ensures Heartbeat(self, Heartbeat(self, slot, t1, true).1, t2, true).1 == Heartbeat(self, slot, t2, true).1
  {
  }

  /** A heartbeat never changes what an agent is working on. */
  lemma HeartbeatKeepsWork(self: string, slot: Slot, now: int, writeOk: bool)
    requires slot.Stored?
    ensures var r := Heartbeat(self, slot, now, writeOk).1;
      r.Stored? && SameContent(r.state, slot.state)
  {
  }

  /** A fresh agent's `complete` run only creates the idle record: there is nothing to complete. */
  lemma FreshAgentCannotComplete(self: string, now: int, ensureOk: bool, writeOk: bool)
    ensures Invoke(self, Missing, Invocation(CompleteCmd, now, ensureOk, writeOk)) ==
      (if ensureOk then Stored(InitialState(self, now)) else Missing)
  {
  }

  /** When the view's ownership table gives a requested file to another agent, the claim is
      refused, whatever else is requested, and the claimant's state file is untouched. */
  lemma HeldFileRefusesOthers(self: string, fo: Ownerships, slot: Slot, files: seq<string>,
                              file: string, task: string, now: int, writeOk: bool)
    requires file in files && file in fo && fo[file].agent != self
    ensures StartAsWritten(self, slot, Some(View(Some(fo))), files, task, now, writeOk) == (false, slot)
  {
    var i :| 0 <= i < |files| && files[i] == file;
    assert FlaggedByView(Some(View(Some(fo))), self, files[i]);
  }

  /** With no unified view, or one without an ownership table, a claim is never refused. */
  lemma NoViewNoConflict(self: string, slot: Slot, view: Option<View>, files: seq<string>,
                         task: string, now: int, writeOk: bool)
    requires view.None? || view.value.fileOwnership.None?
    ensures StartAsWritten(self, slot, view, files, task, now, writeOk).0 <==> writeOk
  {
  }
}
