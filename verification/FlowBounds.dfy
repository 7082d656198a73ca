/** The shared flow map: what it can miss, and how it relates to the per-CPU counters. */
module FlowBounds {
  import opened Common
  import opened Sums
  import opened IoAccounting
  import FlowLedger
  import opened IoConservation

  function CounterOf(d: Direction): Counter {
    if d.Rx? then NetRx else NetTx
  }

  function Amount(call: Call, d: Direction): int {
    if call.FileIo? then 0 else if d.Rx? then call.rx else call.tx
  }

  // ---------------------------------------------------------------------------------
  // Flows never show more bytes than the per-pid counters.

  ghost function PidFlows(flows: map<FlowKey, Flow>, pid: Pid, d: Direction): map<FlowKey, int> {
    map k | k in flows && k.pid == pid :: Bytes(flows[k].stat, d)
  }

  /** Bytes over all flows of a pid. */
  ghost function FlowTotal(flows: map<FlowKey, Flow>, pid: Pid, d: Direction): int {
    SumMap(PidFlows(flows, pid, d))
  }

  /** Bytes a handler has counted for `pid` but not yet put into a flow. */
  function Pending(h: Handler, pid: Pid, d: Direction): int {
    if h.Idle? || h.IoHit? || h.IoMiss? || h.call.pid != pid then 0
    else if h.FlowHit? && h.stage > (if d.Rx? then 0 else 2) then 0
    else Amount(h.call, d)
  }

  function PendingSeq(cpus: seq<Handler>, pid: Pid, d: Direction): seq<int> {
    seq(|cpus|, c requires 0 <= c < |cpus| => Pending(cpus[c], pid, d))
  }

  ghost predicate Covered(s: State, pid: Pid, d: Direction) {
    FlowTotal(s.flows, pid, d) + SumSeq(PendingSeq(s.cpus, pid, d)) <= Get(IoOf(s.added, pid), CounterOf(d))
  }

  ghost predicate NonNegative(flows: map<FlowKey, Flow>) {
    forall k | k in flows :: 0 <= flows[k].stat.rxBytes && 0 <= flows[k].stat.txBytes
  }

  lemma SetFlow(flows: map<FlowKey, Flow>, key: FlowKey, flow: Flow, pid: Pid, d: Direction)
    ensures FlowTotal(flows[key := flow], pid, d) == FlowTotal(flows, pid, d)
      + (if key.pid != pid then 0 else Bytes(flow.stat, d) - (if key in flows then Bytes(flows[key].stat, d) else 0))
  {
    var m := PidFlows(flows, pid, d);
    if key.pid == pid {
      SumMapUpdate(m, key, Bytes(flow.stat, d));
      assert PidFlows(flows[key := flow], pid, d) == m[key := Bytes(flow.stat, d)];
    } else {
      assert PidFlows(flows[key := flow], pid, d) == m;
    }
  }

  lemma SetPending(cpus: seq<Handler>, c: nat, h: Handler, pid: Pid, d: Direction)
    requires c < |cpus|
    ensures SumSeq(PendingSeq(cpus[c := h], pid, d))
         == SumSeq(PendingSeq(cpus, pid, d)) - Pending(cpus[c], pid, d) + Pending(h, pid, d)
  {
    SumSeqUpdate(PendingSeq(cpus, pid, d), c, Pending(h, pid, d));
    assert PendingSeq(cpus[c := h], pid, d) == PendingSeq(cpus, pid, d)[c := Pending(h, pid, d)];
  }

  lemma CommitKeepsCovered(s: State, c: nat, inserted: bool, pid: Pid, d: Direction)
    requires WellFormed(s) && Enabled(s, CommitIo(c, inserted)) && Covered(s, pid, d)
    ensures Covered(IoCommitted(s, c, inserted), pid, d)
  {
    var h := s.cpus[c];
    SetPending(s.cpus, c, if h.call.NetIo? then AtGate(h.call) else Idle, pid, d);
    CreditCounts(s.added, h.call.pid, CallIo(h.call), pid, CounterOf(d));
  }

  /** A found flow still in the map takes over exactly the bytes that the handler no longer has pending. */
  lemma AdditionMoves(flows: map<FlowKey, Flow>, h: Handler, pid: Pid, d: Direction)
    requires h.FlowHit? && Sensible(h)
    ensures var key := KeyOf(h.call);
      var t := FlowTotal(FlowsAfterAdd(flows, key, h.gen, Delta(h.call, h.stage)), pid, d)
               + Pending(AfterDelta(h.call, h.gen, h.stage), pid, d);
      var before := FlowTotal(flows, pid, d) + Pending(h, pid, d);
      t <= before && (key in flows && flows[key].gen == h.gen ==> t == before)
  {
    var key, delta := KeyOf(h.call), Delta(h.call, h.stage);
    if key in flows && flows[key].gen == h.gen {
      AddedStat(flows, key, h.gen, delta, d);
      SetFlow(flows, key, FlowsAfterAdd(flows, key, h.gen, delta)[key], pid, d);
    }
  }

  lemma AddFlowKeepsCovered(s: State, c: nat, pid: Pid, d: Direction)
    requires WellFormed(s) && Enabled(s, AddFlow(c)) && Covered(s, pid, d)
    ensures Covered(FlowAdded(s, c), pid, d)
  {
    var h := s.cpus[c];
    SetPending(s.cpus, c, AfterDelta(h.call, h.gen, h.stage), pid, d);
    AdditionMoves(s.flows, h, pid, d);
  }

  lemma CreateFlowKeepsCovered(s: State, c: nat, inserted: bool, pid: Pid, d: Direction)
    requires WellFormed(s) && Enabled(s, CreateFlow(c, inserted)) && Covered(s, pid, d) && NonNegative(s.flows)
    ensures Covered(FlowCreated(s, c, inserted), pid, d)
  {
    var call := s.cpus[c].call;
    SetPending(s.cpus, c, Idle, pid, d);
    SetFlow(s.flows, KeyOf(call), Flow(s.nextGen, NewFlow(call)), pid, d);
  }

  /** Lookups move a handler on without touching a map. */
  ghost predicate Quiet(step: Step) {
    step.Enter? || step.CheckGate? || step.LookFlow?
  }

  lemma QuietKeepsCovered(s: State, step: Step, pid: Pid, d: Direction)
    requires WellFormed(s) && Enabled(s, step) && Covered(s, pid, d) && Quiet(step)
    ensures Covered(Apply(s, step), pid, d)
  {
    SetPending(s.cpus, step.cpu, Apply(s, step).cpus[step.cpu], pid, d);
  }

  lemma StepKeepsNonNegative(s: State, step: Step)
    requires WellFormed(s) && Enabled(s, step) && NonNegative(s.flows)
    ensures NonNegative(Apply(s, step).flows)
  {
  }

  lemma StepKeepsCovered(s: State, step: Step, pid: Pid, d: Direction)
    requires WellFormed(s) && Enabled(s, step) && Covered(s, pid, d) && NonNegative(s.flows)
    ensures Covered(Apply(s, step), pid, d)
  {
    match step
    case CommitIo(c, inserted) => CommitKeepsCovered(s, c, inserted, pid, d);
    case AddFlow(c) => AddFlowKeepsCovered(s, c, pid, d);
    case CreateFlow(c, inserted) => CreateFlowKeepsCovered(s, c, inserted, pid, d);
    case Evict(_) =>
    case Trace(_, _) =>
    case _ => QuietKeepsCovered(s, step, pid, d);
  }

  lemma {:induction false} RunKeepsCovered(s: State, steps: seq<Step>, pid: Pid, d: Direction)
    requires WellFormed(s) && Runs(s, steps) && Covered(s, pid, d) && NonNegative(s.flows)
    ensures Covered(Exec(s, steps), pid, d)
    decreases steps
  {
    if steps != [] {
      StepKeepsCovered(s, steps[0], pid, d);
      StepKeepsNonNegative(s, steps[0]);
      StepKeepsWellFormed(s, steps[0]);
      RunKeepsCovered(Apply(s, steps[0]), steps[1..], pid, d);
    }
  }

  lemma PendingNonNegative(cpus: seq<Handler>, pid: Pid, d: Direction)
    ensures 0 <= SumSeq(PendingSeq(cpus, pid, d))
  {
    SumSeqNonNegative(PendingSeq(cpus, pid, d));
  }

  lemma StartsCovered(cpus: nat, pid: Pid, d: Direction)
    ensures Covered(Init(cpus), pid, d)
  {
    SumSeqOfZeros(PendingSeq(Init(cpus).cpus, pid, d));
    assert PidFlows(map[], pid, d) == map[];
  }

  /** In every state of every run: flows never hold more than was ever added for the pid. */
  lemma FlowsNeverExceedWhatWasAdded(cpus: nat, steps: seq<Step>, pid: Pid, d: Direction)
    requires Runs(Init(cpus), steps)
    ensures var e := Exec(Init(cpus), steps);
      FlowTotal(e.flows, pid, d) <= Get(IoOf(e.added, pid), CounterOf(d))
  {
    StartsCovered(cpus, pid, d);
    RunKeepsCovered(Init(cpus), steps, pid, d);
    PendingNonNegative(Exec(Init(cpus), steps).cpus, pid, d);
  }

  /** While the pid's entry is not evicted: never more than the counters summed over CPUs. */
  lemma FlowsNeverExceedTheCounters(cpus: nat, steps: seq<Step>, pid: Pid, d: Direction)
    requires Runs(Init(cpus), steps) && KeepingRun(Init(cpus), steps, pid)
    ensures var e := Exec(Init(cpus), steps);
      FlowTotal(e.flows, pid, d) <= IoTotal(e.io, pid, CounterOf(d))
  {
    FlowsNeverExceedWhatWasAdded(cpus, steps, pid, d);
    TotalIsExact(cpus, steps, pid, CounterOf(d));
  }

  // ---------------------------------------------------------------------------------
  // Packets.

  /** A handler between the byte and the packet addition of one flow. */
  function Between(h: Handler, key: FlowKey, gen: nat, d: Direction): int {
    if h.FlowHit? && h.gen == gen && h.stage == (if d.Rx? then 1 else 3) && Accounts(h.call) && h.call.NetIo? && KeyOf(h.call) == key
    then 1 else 0
  }

  function BetweenSeq(cpus: seq<Handler>, key: FlowKey, gen: nat, d: Direction): seq<int> {
    seq(|cpus|, c requires 0 <= c < |cpus| => Between(cpus[c], key, gen, d))
  }

  /** Counting the additions in flight, packets are no more than bytes, and none iff none. */
  ghost predicate PacketsFit(cpus: seq<Handler>, flows: map<FlowKey, Flow>, key: FlowKey, d: Direction) {
    key in flows ==>
      var f := flows[key];
      var packets := Packets(f.stat, d) + SumSeq(BetweenSeq(cpus, key, f.gen, d));
      && 0 <= Packets(f.stat, d)
      && packets <= Bytes(f.stat, d)
      && (packets == 0 <==> Bytes(f.stat, d) == 0)
  }

  lemma SetBetween(cpus: seq<Handler>, c: nat, h: Handler, key: FlowKey, gen: nat, d: Direction)
    requires c < |cpus|
    ensures SumSeq(BetweenSeq(cpus[c := h], key, gen, d))
         == SumSeq(BetweenSeq(cpus, key, gen, d)) - Between(cpus[c], key, gen, d) + Between(h, key, gen, d)
  {
    SumSeqUpdate(BetweenSeq(cpus, key, gen, d), c, Between(h, key, gen, d));
    assert BetweenSeq(cpus[c := h], key, gen, d) == BetweenSeq(cpus, key, gen, d)[c := Between(h, key, gen, d)];
  }

  lemma BetweenNonNegative(cpus: seq<Handler>, key: FlowKey, gen: nat, d: Direction)
    ensures 0 <= SumSeq(BetweenSeq(cpus, key, gen, d))
  {
    SumSeqNonNegative(BetweenSeq(cpus, key, gen, d));
  }

  /** Whatever its stage, an addition brings packets, landed or in flight, iff it brings bytes. */
  lemma AdditionIsBalanced(h: Handler, key: FlowKey, gen: nat, d: Direction)
    requires h.FlowHit? && Sensible(h) && KeyOf(h.call) == key && h.gen == gen
    ensures var delta := Delta(h.call, h.stage);
      var packets := Packets(delta, d) + Between(AfterDelta(h.call, h.gen, h.stage), key, gen, d) - Between(h, key, gen, d);
      0 <= packets <= Bytes(delta, d) && (packets == 0 <==> Bytes(delta, d) == 0) && 0 <= Packets(delta, d)
  {
  }

  lemma AdditionKeepsPacketsFit(cpus: seq<Handler>, flows: map<FlowKey, Flow>, c: nat, key: FlowKey, d: Direction)
    requires c < |cpus| && cpus[c].FlowHit? && Sensible(cpus[c]) && PacketsFit(cpus, flows, key, d)
    ensures var h := cpus[c];
      PacketsFit(cpus[c := AfterDelta(h.call, h.gen, h.stage)],
                 FlowsAfterAdd(flows, KeyOf(h.call), h.gen, Delta(h.call, h.stage)), key, d)
  {
    var h := cpus[c];
    if key in flows {
      SetBetween(cpus, c, AfterDelta(h.call, h.gen, h.stage), key, flows[key].gen, d);
      BetweenNonNegative(cpus, key, flows[key].gen, d);
      if KeyOf(h.call) == key && h.gen == flows[key].gen {
        AdditionIsBalanced(h, key, h.gen, d);
        AddedStat(flows, key, h.gen, Delta(h.call, h.stage), d);
      }
    }
  }

  lemma AddedStat(flows: map<FlowKey, Flow>, key: FlowKey, gen: nat, delta: FlowStat, d: Direction)
    requires key in flows && flows[key].gen == gen
    ensures var f := FlowsAfterAdd(flows, key, gen, delta);
      && key in f && f[key].gen == gen
      && Bytes(f[key].stat, d) == Bytes(flows[key].stat, d) + Bytes(delta, d)
      && Packets(f[key].stat, d) == Packets(flows[key].stat, d) + Packets(delta, d)
  {
  }

  lemma CreationKeepsPacketsFit(cpus: seq<Handler>, flows: map<FlowKey, Flow>, c: nat, gen: nat, key: FlowKey, d: Direction)
    requires c < |cpus| && cpus[c].FlowMiss? && Sensible(cpus[c]) && PacketsFit(cpus, flows, key, d)
    requires forall e | 0 <= e < |cpus| && cpus[e].FlowHit? :: cpus[e].gen < gen
    ensures PacketsFit(cpus[c := Idle], flows[KeyOf(cpus[c].call) := Flow(gen, NewFlow(cpus[c].call))], key, d)
    ensures PacketsFit(cpus[c := Idle], flows, key, d)
  {
    SumSeqOfZeros(BetweenSeq(cpus[c := Idle], key, gen, d));
    if key in flows {
      SetBetween(cpus, c, Idle, key, flows[key].gen, d);
    }
  }

  lemma QuietKeepsPacketsFit(cpus: seq<Handler>, flows: map<FlowKey, Flow>, c: nat, h: Handler, key: FlowKey, d: Direction)
    requires c < |cpus| && PacketsFit(cpus, flows, key, d)
    requires !cpus[c].FlowHit? && (h.FlowHit? ==> h.stage == 0)
    ensures PacketsFit(cpus[c := h], flows, key, d)
  {
    if key in flows {
      SetBetween(cpus, c, h, key, flows[key].gen, d);
    }
  }

  lemma StepKeepsPacketsFit(s: State, step: Step, key: FlowKey, d: Direction)
    requires WellFormed(s) && Enabled(s, step) && PacketsFit(s.cpus, s.flows, key, d)
    ensures PacketsFit(Apply(s, step).cpus, Apply(s, step).flows, key, d)
  {
    match step
    case AddFlow(c) => AdditionKeepsPacketsFit(s.cpus, s.flows, c, key, d);
    case CreateFlow(c, inserted) => CreationKeepsPacketsFit(s.cpus, s.flows, c, s.nextGen, key, d);
    case Evict(_) =>
    case Trace(_, _) =>
    case CommitIo(c, _) => QuietKeepsPacketsFit(s.cpus, s.flows, c, Apply(s, step).cpus[c], key, d);
    case _ => QuietKeepsPacketsFit(s.cpus, s.flows, step.cpu, Apply(s, step).cpus[step.cpu], key, d);
  }

  lemma {:induction false} RunKeepsPacketsFit(s: State, steps: seq<Step>, key: FlowKey, d: Direction)
    requires WellFormed(s) && Runs(s, steps) && PacketsFit(s.cpus, s.flows, key, d)
    ensures PacketsFit(Exec(s, steps).cpus, Exec(s, steps).flows, key, d)
    decreases steps
  {
    if steps != [] {
      StepKeepsPacketsFit(s, steps[0], key, d);
      StepKeepsWellFormed(s, steps[0]);
      RunKeepsPacketsFit(Apply(s, steps[0]), steps[1..], key, d);
    }
  }

  /**
   * Packets never exceed bytes, and they vanish together exactly when there is a packet already or no handler
   * is between the byte and the packet addition of this flow.
   */
  lemma PacketsWithinBytes(cpus: nat, steps: seq<Step>, key: FlowKey, d: Direction)
    requires Runs(Init(cpus), steps) && key in Exec(Init(cpus), steps).flows
    ensures var e := Exec(Init(cpus), steps); var f := e.flows[key];
      && 0 <= Packets(f.stat, d) <= Bytes(f.stat, d)
      && ((Packets(f.stat, d) == 0 <==> Bytes(f.stat, d) == 0)
          <==> Packets(f.stat, d) > 0 || forall c | 0 <= c < |e.cpus| :: Between(e.cpus[c], key, f.gen, d) == 0)
  {
    RunKeepsPacketsFit(Init(cpus), steps, key, d);
    var e := Exec(Init(cpus), steps);
    var between := BetweenSeq(e.cpus, key, e.flows[key].gen, d);
    BetweenNonNegative(e.cpus, key, e.flows[key].gen, d);
    if forall c | 0 <= c < |e.cpus| :: Between(e.cpus[c], key, e.flows[key].gen, d) == 0 {
      SumSeqOfZeros(between);
    } else {
      var c :| 0 <= c < |e.cpus| && Between(e.cpus[c], key, e.flows[key].gen, d) != 0;
      SumSeqAtLeast(between, c);
    }
  }

  // ---------------------------------------------------------------------------------
  // A flow only ever under-counts.

  ghost predicate FlowConserved(s: State, key: FlowKey, d: Direction) {
    && Bytes(FlowStatOf(s, key), d) + Bytes(FlowOf(s.dropped, key), d) == Bytes(FlowOf(s.credited, key), d)
    && 0 <= Bytes(FlowStatOf(s, key), d) && 0 <= Bytes(FlowOf(s.dropped, key), d)
  }

  lemma CreditFlowCounts(m: map<FlowKey, FlowStat>, who: FlowKey, stat: FlowStat, key: FlowKey, d: Direction)
    ensures Bytes(FlowOf(CreditFlow(m, who, stat), key), d) == Bytes(FlowOf(m, key), d) + (if key == who then Bytes(stat, d) else 0)
  {
  }

  lemma AddFlowConserves(s: State, c: nat, key: FlowKey, d: Direction)
    requires WellFormed(s) && Enabled(s, AddFlow(c)) && FlowConserved(s, key, d)
    ensures FlowConserved(FlowAdded(s, c), key, d)
  {
    var h := s.cpus[c];
    CreditFlowCounts(s.credited, KeyOf(h.call), Delta(h.call, h.stage), key, d);
    CreditFlowCounts(s.dropped, KeyOf(h.call), Delta(h.call, h.stage), key, d);
  }

  lemma CreateFlowConserves(s: State, c: nat, inserted: bool, key: FlowKey, d: Direction)
    requires WellFormed(s) && Enabled(s, CreateFlow(c, inserted)) && FlowConserved(s, key, d)
    ensures FlowConserved(FlowCreated(s, c, inserted), key, d)
  {
    var call := s.cpus[c].call;
    CreditFlowCounts(s.credited, KeyOf(call), NewFlow(call), key, d);
    CreditFlowCounts(s.dropped, KeyOf(call), if inserted then FlowStatOf(s, KeyOf(call)) else NewFlow(call), key, d);
  }

  lemma StepConservesFlow(s: State, step: Step, key: FlowKey, d: Direction)
    requires WellFormed(s) && Enabled(s, step) && FlowConserved(s, key, d)
    ensures FlowConserved(Apply(s, step), key, d)
  {
    match step
    case AddFlow(c) => AddFlowConserves(s, c, key, d);
    case CreateFlow(c, inserted) => CreateFlowConserves(s, c, inserted, key, d);
    case _ =>
  }

  lemma {:induction false} RunConservesFlow(s: State, steps: seq<Step>, key: FlowKey, d: Direction)
    requires WellFormed(s) && Runs(s, steps) && FlowConserved(s, key, d)
    ensures FlowConserved(Exec(s, steps), key, d)
    decreases steps
  {
    if steps != [] {
      StepConservesFlow(s, steps[0], key, d);
      StepKeepsWellFormed(s, steps[0]);
      RunConservesFlow(Apply(s, steps[0]), steps[1..], key, d);
    }
  }

  function BytesOf(d: Direction): FlowLedger.Field {
    if d.Rx? then FlowLedger.RxBytes else FlowLedger.TxBytes
  }

  /** The bytes of all calls that looked the flow up, but for those still on their way to it. */
  ghost function Told(cpus: nat, steps: seq<Step>, key: FlowKey, d: Direction): int
    requires Runs(Init(cpus), steps)
  {
    FlowLedger.Asked(Init(cpus), steps, key, BytesOf(d)) - FlowLedger.OwedAll(Exec(Init(cpus), steps).cpus, key, BytesOf(d))
  }

  lemma CreditedIsTold(cpus: nat, steps: seq<Step>, key: FlowKey, d: Direction)
    requires Runs(Init(cpus), steps)
    ensures Bytes(FlowOf(Exec(Init(cpus), steps).credited, key), d) == Told(cpus, steps, key, d)
  {
    FlowLedger.CreditedIsWhatWasAsked(cpus, steps, key, BytesOf(d));
  }

  /** Whatever races there are, a flow never shows more than it was credited with. */
  lemma FlowUndercounts(cpus: nat, steps: seq<Step>, key: FlowKey, d: Direction)
    requires Runs(Init(cpus), steps)
    ensures var e := Exec(Init(cpus), steps);
      && Bytes(FlowStatOf(e, key), d) + Bytes(FlowOf(e.dropped, key), d) == Bytes(FlowOf(e.credited, key), d)
      && 0 <= Bytes(FlowStatOf(e, key), d) <= Bytes(FlowOf(e.credited, key), d)
    ensures var e := Exec(Init(cpus), steps);
      && Bytes(FlowStatOf(e, key), d) + Bytes(FlowOf(e.dropped, key), d) == Told(cpus, steps, key, d)
      && Bytes(FlowStatOf(e, key), d) <= Told(cpus, steps, key, d)
  {
    CreditedIsTold(cpus, steps, key, d);
    RunConservesFlow(Init(cpus), steps, key, d);
  }

  /**
   * A step that loses bytes of `key`: an addition to a flow that has left the map, a creation the map refuses,
   * or a creation that replaces a flow with bytes in it.
   */
  ghost predicate DropsBytes(s: State, step: Step, key: FlowKey, d: Direction)
    requires WellFormed(s) && Enabled(s, step)
  {
    match step
    case AddFlow(c) =>
      var h := s.cpus[c];
      KeyOf(h.call) == key && Bytes(Delta(h.call, h.stage), d) > 0 && !(key in s.flows && s.flows[key].gen == h.gen)
    case CreateFlow(c, inserted) =>
      var call := s.cpus[c].call;
      KeyOf(call) == key && Bytes(if inserted then FlowStatOf(s, key) else NewFlow(call), d) > 0
    case _ => false
  }

  ghost predicate LosslessFlowRun(s: State, steps: seq<Step>, key: FlowKey, d: Direction)
    requires WellFormed(s) && Runs(s, steps)
    decreases steps
  {
    steps == [] ||
    (!DropsBytes(s, steps[0], key, d) && (StepKeepsWellFormed(s, steps[0]); LosslessFlowRun(Apply(s, steps[0]), steps[1..], key, d)))
  }

  lemma StepDrops(s: State, step: Step, key: FlowKey, d: Direction)
    requires WellFormed(s) && Enabled(s, step) && FlowConserved(s, key, d)
    ensures Bytes(FlowOf(Apply(s, step).dropped, key), d) >= Bytes(FlowOf(s.dropped, key), d)
    ensures Bytes(FlowOf(Apply(s, step).dropped, key), d) == Bytes(FlowOf(s.dropped, key), d) <==> !DropsBytes(s, step, key, d)
  {
    match step
    case AddFlow(c) =>
      var h := s.cpus[c];
      CreditFlowCounts(s.dropped, KeyOf(h.call), Delta(h.call, h.stage), key, d);
    case CreateFlow(c, inserted) =>
      var call := s.cpus[c].call;
      CreditFlowCounts(s.dropped, KeyOf(call), if inserted then FlowStatOf(s, KeyOf(call)) else NewFlow(call), key, d);
    case _ =>
  }

  lemma {:induction false} RunDrops(s: State, steps: seq<Step>, key: FlowKey, d: Direction)
    requires WellFormed(s) && Runs(s, steps) && FlowConserved(s, key, d)
    ensures Bytes(FlowOf(Exec(s, steps).dropped, key), d) >= Bytes(FlowOf(s.dropped, key), d)
    ensures Bytes(FlowOf(Exec(s, steps).dropped, key), d) == Bytes(FlowOf(s.dropped, key), d)
       <==> LosslessFlowRun(s, steps, key, d)
    decreases steps
  {
    if steps != [] {
      StepDrops(s, steps[0], key, d);
      StepConservesFlow(s, steps[0], key, d);
      StepKeepsWellFormed(s, steps[0]);
      RunDrops(Apply(s, steps[0]), steps[1..], key, d);
    }
  }

  /** A flow shows exactly the bytes it was told of if and only if no step of the run lost any. */
  lemma FlowIsExactExactly(cpus: nat, steps: seq<Step>, key: FlowKey, d: Direction)
    requires Runs(Init(cpus), steps)
    ensures var e := Exec(Init(cpus), steps);
      Bytes(FlowStatOf(e, key), d) == Told(cpus, steps, key, d) <==> LosslessFlowRun(Init(cpus), steps, key, d)
  {
    CreditedIsTold(cpus, steps, key, d);
    RunConservesFlow(Init(cpus), steps, key, d);
    RunDrops(Init(cpus), steps, key, d);
  }

  ghost predicate Creating(s: State, c: nat, key: FlowKey)
    requires WellFormed(s) && c < |s.cpus|
  {
    s.cpus[c].FlowMiss? && KeyOf(s.cpus[c].call) == key
  }

  /** Of two overlapping creations the later wins: the flow misses exactly what the earlier one brought. */
  lemma OverlapLosesTheFirst(s: State, a: nat, b: nat, key: FlowKey, d: Direction)
    requires WellFormed(s) && a < |s.cpus| && b < |s.cpus| && a != b && Creating(s, a, key) && Creating(s, b, key)
    requires FlowConserved(s, key, d) && key !in s.flows
    ensures WellFormed(FlowCreated(s, a, true)) && Enabled(FlowCreated(s, a, true), CreateFlow(b, true))
    ensures var t := FlowCreated(FlowCreated(s, a, true), b, true);
      && Bytes(FlowStatOf(t, key), d) == Amount(s.cpus[b].call, d)
      && Bytes(FlowOf(t.dropped, key), d) == Bytes(FlowOf(s.dropped, key), d) + Amount(s.cpus[a].call, d)
      && Bytes(FlowOf(t.credited, key), d) == Bytes(FlowOf(s.credited, key), d) + Amount(s.cpus[a].call, d) + Amount(s.cpus[b].call, d)
  {
    CreateFlowKeepsWellFormed(s, a, true);
    var m := FlowCreated(s, a, true);
    assert m.cpus[b] == s.cpus[b];
    CreationCredits(s, a, key, d);
    CreationCredits(m, b, key, d);
  }

  lemma CreationCredits(s: State, c: nat, key: FlowKey, d: Direction)
    requires WellFormed(s) && c < |s.cpus| && Creating(s, c, key)
    ensures var t := FlowCreated(s, c, true);
      && key in t.flows && Bytes(t.flows[key].stat, d) == Amount(s.cpus[c].call, d)
      && Bytes(FlowOf(t.credited, key), d) == Bytes(FlowOf(s.credited, key), d) + Amount(s.cpus[c].call, d)
      && Bytes(FlowOf(t.dropped, key), d) == Bytes(FlowOf(s.dropped, key), d) + Bytes(FlowStatOf(s, key), d)
  {
    var call := s.cpus[c].call;
    CreditFlowCounts(s.credited, key, NewFlow(call), key, d);
    CreditFlowCounts(s.dropped, key, FlowStatOf(s, key), key, d);
  }

  /** No second creation of `key` begins while one is under way, and creations succeed. */
  ghost predicate OneCreator(s: State, step: Step, key: FlowKey)
    requires WellFormed(s) && Enabled(s, step)
  {
    && (step.LookFlow? && KeyOf(s.cpus[step.cpu].call) == key && key !in s.flows ==>
          forall c | 0 <= c < |s.cpus| :: !Creating(s, c, key))
    && (step.CreateFlow? && Creating(s, step.cpu, key) ==> step.inserted)
  }

  ghost predicate OneCreatorRun(s: State, steps: seq<Step>, key: FlowKey)
    requires WellFormed(s) && Runs(s, steps)
    decreases steps
  {
    steps == [] ||
    (OneCreator(s, steps[0], key) && (StepKeepsWellFormed(s, steps[0]); OneCreatorRun(Apply(s, steps[0]), steps[1..], key)))
  }

  /** At most one creator, none once the flow exists; finders point at the flow in the map. */
  ghost predicate Orderly(s: State, key: FlowKey)
    requires WellFormed(s)
  {
    && (forall c | 0 <= c < |s.cpus| && Creating(s, c, key) :: key !in s.flows)
    && (forall c, e | 0 <= c < |s.cpus| && 0 <= e < |s.cpus| && Creating(s, c, key) && Creating(s, e, key) :: c == e)
    && (forall c | 0 <= c < |s.cpus| && s.cpus[c].FlowHit? && KeyOf(s.cpus[c].call) == key ::
          key in s.flows && s.flows[key].gen == s.cpus[c].gen)
    && FlowOf(s.dropped, key) == NO_FLOW
  }

  /** What keeps `Orderly`: creators do not appear, and finders still point at the flow. */
  lemma OrderlyAfter(s: State, t: State, key: FlowKey)
    requires WellFormed(s) && WellFormed(t) && Orderly(s, key) && |t.cpus| == |s.cpus|
    requires forall c | 0 <= c < |t.cpus| && Creating(t, c, key) :: Creating(s, c, key) && key !in t.flows
    requires forall c | 0 <= c < |t.cpus| && t.cpus[c].FlowHit? && KeyOf(t.cpus[c].call) == key ::
      key in t.flows && t.flows[key].gen == t.cpus[c].gen
    requires FlowOf(t.dropped, key) == NO_FLOW
    ensures Orderly(t, key)
  {
  }

  lemma AddFlowKeepsOrderly(s: State, c: nat, key: FlowKey)
    requires WellFormed(s) && Enabled(s, AddFlow(c)) && Orderly(s, key)
    ensures WellFormed(FlowAdded(s, c)) && Orderly(FlowAdded(s, c), key)
  {
    AddFlowKeepsWellFormed(s, c);
    var t := FlowAdded(s, c);
    forall e | 0 <= e < |t.cpus| && Creating(t, e, key) ensures Creating(s, e, key) && key !in t.flows {
      assert t.cpus[e] == s.cpus[e];
      assert Creating(s, e, key);
    }
    OrderlyAfter(s, t, key);
  }

  lemma OnlyCreatorDropsNothing(s: State, c: nat, inserted: bool, key: FlowKey)
    requires WellFormed(s) && Enabled(s, CreateFlow(c, inserted)) && Orderly(s, key)
    requires Creating(s, c, key) ==> inserted
    ensures FlowOf(FlowCreated(s, c, inserted).dropped, key) == NO_FLOW
  {
    var call := s.cpus[c].call;
    if KeyOf(call) == key {
      assert Creating(s, c, key) && key !in s.flows;
    }
  }

  lemma CreateFlowKeepsOrderly(s: State, c: nat, inserted: bool, key: FlowKey)
    requires WellFormed(s) && Enabled(s, CreateFlow(c, inserted)) && Orderly(s, key)
    requires Creating(s, c, key) ==> inserted
    ensures WellFormed(FlowCreated(s, c, inserted)) && Orderly(FlowCreated(s, c, inserted), key)
  {
    CreateFlowKeepsWellFormed(s, c, inserted);
    OnlyCreatorDropsNothing(s, c, inserted, key);
    var t := FlowCreated(s, c, inserted);
    assert forall e | 0 <= e < |t.cpus| && e != c :: t.cpus[e] == s.cpus[e];
    if KeyOf(s.cpus[c].call) == key {
      assert Creating(s, c, key);
      forall e | 0 <= e < |t.cpus| && Creating(t, e, key) ensures false {
        assert Creating(s, e, key);
      }
    } else {
      assert key in t.flows <==> key in s.flows;
      assert key in s.flows ==> t.flows[key] == s.flows[key];
      forall e | 0 <= e < |t.cpus| && Creating(t, e, key) ensures Creating(s, e, key) && key !in t.flows {
        assert Creating(s, e, key);
      }
    }
    OrderlyAfter(s, t, key);
  }

  lemma LookFlowKeepsOrderly(s: State, c: nat, key: FlowKey)
    requires WellFormed(s) && Enabled(s, LookFlow(c)) && Orderly(s, key) && OneCreator(s, LookFlow(c), key)
    ensures WellFormed(Apply(s, LookFlow(c))) && Orderly(Apply(s, LookFlow(c)), key)
  {
    StepKeepsWellFormed(s, LookFlow(c));
    var t := Apply(s, LookFlow(c));
    forall e | 0 <= e < |t.cpus| && Creating(t, e, key)
      ensures key !in t.flows && (e == c || Creating(s, e, key))
      ensures e != c && KeyOf(s.cpus[c].call) == key ==> key in s.flows
    {
      if e != c {
        assert t.cpus[e] == s.cpus[e];
        assert Creating(s, e, key);
      }
    }
  }

  lemma StepKeepsOrderly(s: State, step: Step, key: FlowKey)
    requires WellFormed(s) && Enabled(s, step) && Orderly(s, key) && OneCreator(s, step, key)
    ensures WellFormed(Apply(s, step)) && Orderly(Apply(s, step), key)
  {
    match step
    case AddFlow(c) => AddFlowKeepsOrderly(s, c, key);
    case CreateFlow(c, inserted) => CreateFlowKeepsOrderly(s, c, inserted, key);
    case LookFlow(c) => LookFlowKeepsOrderly(s, c, key);
    case CommitIo(c, inserted) => CommitKeepsOrderly(s, c, inserted, key);
    case Enter(c, call) => EnterKeepsOrderly(s, c, call, key);
    case _ =>
      StepKeepsWellFormed(s, step);
      ElsewhereKeepsOrderly(s, Apply(s, step), key);
  }

  lemma CommitKeepsOrderly(s: State, c: nat, inserted: bool, key: FlowKey)
    requires WellFormed(s) && Enabled(s, CommitIo(c, inserted)) && Orderly(s, key)
    ensures WellFormed(IoCommitted(s, c, inserted)) && Orderly(IoCommitted(s, c, inserted), key)
  {
    CommitKeepsWellFormed(s, c, inserted);
    ElsewhereKeepsOrderly(s, IoCommitted(s, c, inserted), key);
  }

  lemma EnterKeepsOrderly(s: State, c: nat, call: Call, key: FlowKey)
    requires WellFormed(s) && Enabled(s, Enter(c, call)) && Orderly(s, key)
    ensures WellFormed(Apply(s, Enter(c, call))) && Orderly(Apply(s, Enter(c, call)), key)
  {
    StepKeepsWellFormed(s, Enter(c, call));
    ElsewhereKeepsOrderly(s, Apply(s, Enter(c, call)), key);
  }

  /** Steps before the flow lookup concern no flow. */
  lemma ElsewhereKeepsOrderly(s: State, t: State, key: FlowKey)
    requires WellFormed(s) && WellFormed(t) && Orderly(s, key)
    requires t.flows == s.flows && t.dropped == s.dropped && |t.cpus| == |s.cpus|
    requires forall c | 0 <= c < |t.cpus| && (t.cpus[c].FlowHit? || t.cpus[c].FlowMiss?) :: t.cpus[c] == s.cpus[c]
    ensures Orderly(t, key)
  {
    forall e | 0 <= e < |t.cpus| && Creating(t, e, key) ensures Creating(s, e, key) && key !in t.flows {
      assert t.cpus[e] == s.cpus[e];
      assert Creating(s, e, key);
    }
    OrderlyAfter(s, t, key);
  }

  lemma OneCreatorLosesNothing(s: State, step: Step, key: FlowKey, d: Direction)
    requires WellFormed(s) && Enabled(s, step) && Orderly(s, key) && OneCreator(s, step, key)
    ensures !DropsBytes(s, step, key, d)
  {
    if step.CreateFlow? && KeyOf(s.cpus[step.cpu].call) == key {
      assert Creating(s, step.cpu, key);
    }
  }

  lemma {:induction false} OneCreatorRunIsLossless(s: State, steps: seq<Step>, key: FlowKey, d: Direction)
    requires WellFormed(s) && Runs(s, steps) && Orderly(s, key) && OneCreatorRun(s, steps, key)
    ensures LosslessFlowRun(s, steps, key, d)
    decreases steps
  {
    if steps != [] {
      OneCreatorLosesNothing(s, steps[0], key, d);
      StepKeepsOrderly(s, steps[0], key);
      OneCreatorRunIsLossless(Apply(s, steps[0]), steps[1..], key, d);
    }
  }

  /** In particular a flow is exact when creations of its key do not overlap. */
  lemma FlowIsExactWithoutOverlap(cpus: nat, steps: seq<Step>, key: FlowKey, d: Direction)
    requires Runs(Init(cpus), steps) && OneCreatorRun(Init(cpus), steps, key)
    ensures var e := Exec(Init(cpus), steps);
      Bytes(FlowStatOf(e, key), d) == Told(cpus, steps, key, d)
  {
    OneCreatorRunIsLossless(Init(cpus), steps, key, d);
    FlowIsExactExactly(cpus, steps, key, d);
  }
}
