/** What the probes were told, against what the per-pid history says was added. */
module IoLedger {
  import opened Common
  import opened Sums
  import opened IoAccounting

  /** What a call is worth to one counter. */
  function Worth(call: Call, k: Counter): int {
    match (call, k)
    case (FileIo(_, read, _), FileRead) => read
    case (FileIo(_, _, write), FileWrite) => write
    case (NetIo(_, _, _, rx, _), NetRx) => rx
    case (NetIo(_, _, _, _, tx), NetTx) => tx
    case _ => 0
  }

  /** What a step reports for `pid`: a probe begins, on a pid other than 0 and, for the network, with a socket. */
  function ReportedBy(step: Step, pid: Pid, k: Counter): int {
    if step.Enter? && step.call.pid == pid && pid != 0 && (step.call.NetIo? ==> step.call.sock.Some?)
    then Worth(step.call, k) else 0
  }

  /** Everything reported for `pid` over a run. */
  function Reported(steps: seq<Step>, pid: Pid, k: Counter): int
    decreases steps
  {
    if steps == [] then 0 else ReportedBy(steps[0], pid, k) + Reported(steps[1..], pid, k)
  }

  /** Bytes of a handler that has looked its entry up and not yet updated it. */
  function Uncommitted(h: Handler, pid: Pid, k: Counter): int {
    if (h.IoHit? || h.IoMiss?) && h.call.pid == pid then Worth(h.call, k) else 0
  }

  function UncommittedSeq(cpus: seq<Handler>, pid: Pid, k: Counter): seq<int> {
    seq(|cpus|, c requires 0 <= c < |cpus| => Uncommitted(cpus[c], pid, k))
  }

  function UncommittedAll(cpus: seq<Handler>, pid: Pid, k: Counter): int {
    SumSeq(UncommittedSeq(cpus, pid, k))
  }

  lemma SetUncommitted(cpus: seq<Handler>, c: nat, h: Handler, pid: Pid, k: Counter)
    requires c < |cpus|
    ensures UncommittedAll(cpus[c := h], pid, k)
         == UncommittedAll(cpus, pid, k) - Uncommitted(cpus[c], pid, k) + Uncommitted(h, pid, k)
  {
    SumSeqUpdate(UncommittedSeq(cpus, pid, k), c, Uncommitted(h, pid, k));
    assert UncommittedSeq(cpus[c := h], pid, k) == UncommittedSeq(cpus, pid, k)[c := Uncommitted(h, pid, k)];
  }

  lemma CallIoIsWorth(call: Call, k: Counter)
    ensures Get(CallIo(call), k) == Worth(call, k)
  {
  }

  /** What has been added, with what is still to be. */
  function Booked(s: State, pid: Pid, k: Counter): int {
    Get(IoOf(s.added, pid), k) + UncommittedAll(s.cpus, pid, k)
  }

  /** Crediting a handler's call takes it off what is uncommitted. */
  lemma PaidIn(cpus: seq<Handler>, added: map<Pid, IoStat>, c: nat, h: Handler, pid: Pid, k: Counter)
    requires c < |cpus| && (cpus[c].IoHit? || cpus[c].IoMiss?) && !h.IoHit? && !h.IoMiss?
    ensures var call := cpus[c].call;
      Get(IoOf(Credit(added, call.pid, CallIo(call)), pid), k) + UncommittedAll(cpus[c := h], pid, k)
      == Get(IoOf(added, pid), k) + UncommittedAll(cpus, pid, k)
  {
    var call := cpus[c].call;
    SetUncommitted(cpus, c, h, pid, k);
    CreditCounts(added, call.pid, CallIo(call), pid, k);
    CallIoIsWorth(call, k);
  }

  lemma CommitBalances(s: State, c: nat, inserted: bool, pid: Pid, k: Counter)
    requires WellFormed(s) && Enabled(s, CommitIo(c, inserted))
    ensures Booked(IoCommitted(s, c, inserted), pid, k) == Booked(s, pid, k)
  {
    var call := s.cpus[c].call;
    PaidIn(s.cpus, s.added, c, if call.NetIo? then AtGate(call) else Idle, pid, k);
  }

  lemma EnterBalances(s: State, c: nat, call: Call, pid: Pid, k: Counter)
    requires WellFormed(s) && Enabled(s, Enter(c, call))
    ensures Booked(Apply(s, Enter(c, call)), pid, k) == Booked(s, pid, k) + ReportedBy(Enter(c, call), pid, k)
  {
    if Accounts(call) {
      SetUncommitted(s.cpus, c, if call.pid in s.io then IoHit(call, s.io[call.pid].gen) else IoMiss(call), pid, k);
    }
  }

  /** Past the per-pid counters a handler has nothing left for them. */
  lemma FlowStepBalances(s: State, step: Step, pid: Pid, k: Counter)
    requires WellFormed(s) && Enabled(s, step)
    requires step.CheckGate? || step.LookFlow? || step.AddFlow? || step.CreateFlow?
    ensures Booked(Apply(s, step), pid, k) == Booked(s, pid, k)
  {
    SetUncommitted(s.cpus, step.cpu, Apply(s, step).cpus[step.cpu], pid, k);
  }

  lemma StepBalances(s: State, step: Step, pid: Pid, k: Counter)
    requires WellFormed(s) && Enabled(s, step)
    ensures Booked(Apply(s, step), pid, k) == Booked(s, pid, k) + ReportedBy(step, pid, k)
  {
    match step
    case Enter(c, call) => EnterBalances(s, c, call, pid, k);
    case CommitIo(c, inserted) => CommitBalances(s, c, inserted, pid, k);
    case Evict(_) =>
    case Trace(_, _) =>
    case _ => FlowStepBalances(s, step, pid, k);
  }

  /** Between any two states: what was added, with what is still to be, is what was reported. */
  lemma {:induction false} RunBalances(s: State, steps: seq<Step>, pid: Pid, k: Counter)
    requires WellFormed(s) && Runs(s, steps)
    ensures Booked(Exec(s, steps), pid, k) == Booked(s, pid, k) + Reported(steps, pid, k)
    decreases steps
  {
    if steps != [] {
      StepBalances(s, steps[0], pid, k);
      StepKeepsWellFormed(s, steps[0]);
      RunBalances(Apply(s, steps[0]), steps[1..], pid, k);
    }
  }

  lemma AddedIsWhatWasReported(cpus: nat, steps: seq<Step>, pid: Pid, k: Counter)
    requires Runs(Init(cpus), steps)
    ensures Booked(Exec(Init(cpus), steps), pid, k) == Reported(steps, pid, k)
  {
    RunBalances(Init(cpus), steps, pid, k);
    SumSeqOfZeros(UncommittedSeq(Init(cpus).cpus, pid, k));
  }
}
