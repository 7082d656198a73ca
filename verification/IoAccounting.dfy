/**
 * Byte accounting in the kernel programs, one map operation at a time.
 *
 * Every CPU runs at most one accounting handler, and handlers on different CPUs
 * interleave between their lookups and their updates. `process_io_stats` has one slot per
 * CPU; `process_net_flow_stats` is shared.
 */
module IoAccounting {
  import opened Common
  import opened Sums

  datatype IoStat = IoStat(fileRead: int, fileWrite: int, netRx: int, netTx: int)

  datatype FlowStat = FlowStat(rxBytes: int, txBytes: int, rxPackets: int, txPackets: int)

  datatype FlowKey = FlowKey(pid: Pid, saddr: nat, daddr: nat, sport: nat, dport: nat, family: nat, protocol: nat)

  /** The fields of a kernel socket; `portBe` is in network byte order. */
  datatype Sock = Sock(saddr: nat, daddr: nat, num: nat, portBe: nat, family: nat)

  datatype Call =
    | FileIo(pid: Pid, read: nat, write: nat)
    | NetIo(pid: Pid, sock: Option<Sock>, protocol: nat, rx: nat, tx: nat)

  /** Where a CPU's handler stands. A found element is remembered by its generation. */
  datatype Handler =
    | Idle
    | IoHit(call: Call, gen: nat)
    | IoMiss(call: Call)
    | AtGate(call: Call)
    | AtFlow(call: Call)
    | FlowHit(call: Call, gen: nat, stage: nat)
    | FlowMiss(call: Call)

  datatype Slots = Slots(gen: nat, perCpu: seq<IoStat>)

  datatype Flow = Flow(gen: nat, stat: FlowStat)

  /**
   * `added` and `credited` are history: all bytes ever accounted to a pid or a flow.
   * So are `lost` and `dropped`: bytes that were evicted, overwritten, refused by a full
   * map, or added to an element that had left its map.
   */
  datatype State = State(
    cpus: seq<Handler>,
    io: map<Pid, Slots>,
    flows: map<FlowKey, Flow>,
    traced: set<Pid>,
    nextGen: nat,
    added: map<Pid, IoStat>,
    lost: map<Pid, IoStat>,
    credited: map<FlowKey, FlowStat>,
    dropped: map<FlowKey, FlowStat>)

  datatype Step =
    | Enter(cpu: nat, call: Call)
    | CommitIo(cpu: nat, inserted: bool)
    | CheckGate(cpu: nat)
    | LookFlow(cpu: nat)
    | AddFlow(cpu: nat)
    | CreateFlow(cpu: nat, inserted: bool)
    | Evict(pid: Pid)
    | Trace(pid: Pid, on: bool)

  const NO_IO := IoStat(0, 0, 0, 0)
  const NO_FLOW := FlowStat(0, 0, 0, 0)

  datatype Counter = FileRead | FileWrite | NetRx | NetTx

  function Get(io: IoStat, k: Counter): int {
    match k
    case FileRead => io.fileRead
    case FileWrite => io.fileWrite
    case NetRx => io.netRx
    case NetTx => io.netTx
  }

  datatype Direction = Rx | Tx

  function Bytes(stat: FlowStat, d: Direction): int {
    if d.Rx? then stat.rxBytes else stat.txBytes
  }

  function Packets(stat: FlowStat, d: Direction): int {
    if d.Rx? then stat.rxPackets else stat.txPackets
  }

  /** One counter as seen by each CPU. */
  function Column(slots: seq<IoStat>, k: Counter): seq<int> {
    seq(|slots|, c requires 0 <= c < |slots| => Get(slots[c], k))
  }

  function IoOf(m: map<Pid, IoStat>, pid: Pid): IoStat {
    if pid in m then m[pid] else NO_IO
  }

  function FlowOf(m: map<FlowKey, FlowStat>, key: FlowKey): FlowStat {
    if key in m then m[key] else NO_FLOW
  }

  function Credit(m: map<Pid, IoStat>, pid: Pid, io: IoStat): map<Pid, IoStat> {
    var was := IoOf(m, pid);
    m[pid := IoStat(was.fileRead + io.fileRead, was.fileWrite + io.fileWrite, was.netRx + io.netRx, was.netTx + io.netTx)]
  }

  function CreditFlow(m: map<FlowKey, FlowStat>, key: FlowKey, stat: FlowStat): map<FlowKey, FlowStat> {
    var was := FlowOf(m, key);
    m[key := FlowStat(was.rxBytes + stat.rxBytes, was.txBytes + stat.txBytes,
                      was.rxPackets + stat.rxPackets, was.txPackets + stat.txPackets)]
  }

  lemma CreditCounts(m: map<Pid, IoStat>, who: Pid, io: IoStat, pid: Pid, k: Counter)
    ensures Get(IoOf(Credit(m, who, io), pid), k) == Get(IoOf(m, pid), k) + (if pid == who then Get(io, k) else 0)
  {
  }

  /** A CPU adds to its own slot. */
  function SlotAdded(slots: seq<IoStat>, c: nat, io: IoStat): seq<IoStat>
    requires c < |slots|
  {
    var was := slots[c];
    slots[c := IoStat(was.fileRead + io.fileRead, was.fileWrite + io.fileWrite, was.netRx + io.netRx, was.netTx + io.netTx)]
  }

  /** What userspace reads for a pid: one counter, summed over the CPUs. */
  function IoTotal(io: map<Pid, Slots>, pid: Pid, k: Counter): int {
    if pid in io then SumSeq(Column(io[pid].perCpu, k)) else 0
  }

  function FlowStatOf(s: State, key: FlowKey): FlowStat {
    if key in s.flows then s.flows[key].stat else NO_FLOW
  }

  function CallIo(call: Call): IoStat {
    match call
    case FileIo(_, read, write) => IoStat(read, write, 0, 0)
    case NetIo(_, _, _, rx, tx) => IoStat(0, 0, rx, tx)
  }

  /** The handlers' first line: nothing is accounted to pid 0 or without a socket. */
  predicate Accounts(call: Call) {
    call.pid != 0 && (call.NetIo? ==> call.sock.Some?)
  }

  function Ntohs(x: nat): nat {
    (x % 256) * 256 + x / 256 % 256
  }

  function KeyOf(call: Call): FlowKey
    requires call.NetIo? && call.sock.Some?
  {
    var sk := call.sock.value;
    FlowKey(call.pid, sk.saddr, sk.daddr, sk.num, Ntohs(sk.portBe), sk.family, call.protocol)
  }

  function NewFlow(call: Call): FlowStat
    requires call.NetIo?
  {
    FlowStat(call.rx, call.tx, if call.rx > 0 then 1 else 0, if call.tx > 0 then 1 else 0)
  }

  /** A found flow takes up to four separate atomic additions; this is the one at `stage`. */
  function Delta(call: Call, stage: nat): FlowStat
    requires call.NetIo?
  {
    if stage == 0 then FlowStat(call.rx, 0, 0, 0)
    else if stage == 1 then FlowStat(0, 0, 1, 0)
    else if stage == 2 then FlowStat(0, call.tx, 0, 0)
    else FlowStat(0, 0, 0, 1)
  }

  function AfterDelta(call: Call, gen: nat, stage: nat): Handler
    requires call.NetIo?
  {
    if stage == 0 then FlowHit(call, gen, if call.rx > 0 then 1 else 2)
    else if stage == 1 then FlowHit(call, gen, 2)
    else if stage == 2 && call.tx > 0 then FlowHit(call, gen, 3)
    else Idle
  }

  /** Everything an evicted entry had counted. */
  function EvictedInto(s: State, pid: Pid): map<Pid, IoStat> {
    if pid in s.io then CreditAll(s.lost, pid, s.io[pid].perCpu) else s.lost
  }

  function CreditAll(m: map<Pid, IoStat>, pid: Pid, slots: seq<IoStat>): map<Pid, IoStat>
    decreases slots
  {
    if |slots| == 0 then m else CreditAll(Credit(m, pid, slots[0]), pid, slots[1..])
  }

  predicate Enabled(s: State, step: Step) {
    match step
    case Enter(c, _) => c < |s.cpus| && s.cpus[c].Idle?
    case CommitIo(c, _) => c < |s.cpus| && (s.cpus[c].IoHit? || s.cpus[c].IoMiss?)
    case CheckGate(c) => c < |s.cpus| && s.cpus[c].AtGate?
    case LookFlow(c) => c < |s.cpus| && s.cpus[c].AtFlow?
    case AddFlow(c) => c < |s.cpus| && s.cpus[c].FlowHit?
    case CreateFlow(c, _) => c < |s.cpus| && s.cpus[c].FlowMiss?
    case Evict(_) => true
    case Trace(_, _) => true
  }

  /** Handlers carry calls they accept, and past the counters only network calls. */
  predicate Sensible(h: Handler) {
    !h.Idle? ==> Accounts(h.call) && (h.IoHit? || h.IoMiss? || h.call.NetIo?) && (h.FlowHit? ==> h.stage <= 3)
  }

  ghost predicate WellFormed(s: State) {
    && (forall c | 0 <= c < |s.cpus| :: Sensible(s.cpus[c]))
    && (forall p | p in s.io :: |s.io[p].perCpu| == |s.cpus| && s.io[p].gen < s.nextGen)
    && (forall k | k in s.flows :: s.flows[k].gen < s.nextGen)
    && (forall c | 0 <= c < |s.cpus| && (s.cpus[c].IoHit? || s.cpus[c].FlowHit?) :: s.cpus[c].gen < s.nextGen)
  }

  /** A handler remembers the element it found, if any. */
  function Found(h: Handler): Option<nat> {
    if h.IoHit? || h.FlowHit? then Some(h.gen) else None
  }

  predicate Alive(io: map<Pid, Slots>, pid: Pid, found: Option<nat>) {
    found.Some? && pid in io && io[pid].gen == found.value
  }

  /**
   * The update that follows the lookup in `process_io_stats`. Inserting a new entry zeroes
   * the other CPUs' slots; updating an existing one sets this CPU's slot only.
   */
  function IoAfter(io: map<Pid, Slots>, cpus: nat, gen: nat, c: nat, pid: Pid, found: Option<nat>, amount: IoStat, inserted: bool): map<Pid, Slots>
    requires c < cpus && (pid in io ==> |io[pid].perCpu| == cpus)
  {
    if found.Some? then
      if Alive(io, pid, found) then io[pid := Slots(found.value, SlotAdded(io[pid].perCpu, c, amount))] else io
    else if !inserted then io
    else if pid in io then io[pid := Slots(io[pid].gen, io[pid].perCpu[c := amount])]
    else io[pid := Slots(gen, seq(cpus, _ => NO_IO)[c := amount])]
  }

  /** What that update fails to count, or overwrites. */
  function IoLoss(io: map<Pid, Slots>, c: nat, pid: Pid, found: Option<nat>, amount: IoStat, inserted: bool): IoStat
    requires pid in io ==> c < |io[pid].perCpu|
  {
    if found.Some? then
      if Alive(io, pid, found) then NO_IO else amount
    else if !inserted then amount
    else if pid in io then io[pid].perCpu[c]
    else NO_IO
  }

  function IoCommitted(s: State, c: nat, inserted: bool): State
    requires WellFormed(s) && Enabled(s, CommitIo(c, inserted))
  {
    var h := s.cpus[c];
    var pid, amount := h.call.pid, CallIo(h.call);
    s.(cpus := s.cpus[c := if h.call.NetIo? then AtGate(h.call) else Idle],
       io := IoAfter(s.io, |s.cpus|, s.nextGen, c, pid, Found(h), amount, inserted),
       nextGen := s.nextGen + 1,
       added := Credit(s.added, pid, amount),
       lost := Credit(s.lost, pid, IoLoss(s.io, c, pid, Found(h), amount, inserted)))
  }

  /** One atomic addition to a found flow, if it is still the one in the map. */
  function FlowsAfterAdd(flows: map<FlowKey, Flow>, key: FlowKey, gen: nat, delta: FlowStat): map<FlowKey, Flow> {
    if key in flows && flows[key].gen == gen then
      var was := flows[key].stat;
      flows[key := Flow(gen, FlowStat(was.rxBytes + delta.rxBytes, was.txBytes + delta.txBytes,
                                      was.rxPackets + delta.rxPackets, was.txPackets + delta.txPackets))]
    else flows
  }

  function FlowAdded(s: State, c: nat): State
    requires WellFormed(s) && Enabled(s, AddFlow(c))
  {
    var h := s.cpus[c];
    var key, delta := KeyOf(h.call), Delta(h.call, h.stage);
    s.(cpus := s.cpus[c := AfterDelta(h.call, h.gen, h.stage)],
       flows := FlowsAfterAdd(s.flows, key, h.gen, delta),
       credited := CreditFlow(s.credited, key, delta),
       dropped := if key in s.flows && s.flows[key].gen == h.gen then s.dropped else CreditFlow(s.dropped, key, delta))
  }

  /** Creating a flow replaces one that appeared since the lookup. */
  function FlowCreated(s: State, c: nat, inserted: bool): State
    requires WellFormed(s) && Enabled(s, CreateFlow(c, inserted))
  {
    var call := s.cpus[c].call;
    var key, stat := KeyOf(call), NewFlow(call);
    s.(cpus := s.cpus[c := Idle],
       flows := if inserted then s.flows[key := Flow(s.nextGen, stat)] else s.flows,
       nextGen := s.nextGen + 1,
       credited := CreditFlow(s.credited, key, stat),
       dropped := CreditFlow(s.dropped, key, if inserted then FlowStatOf(s, key) else stat))
  }

  function Apply(s: State, step: Step): State
    requires WellFormed(s) && Enabled(s, step)
  {
    match step
    case Enter(c, call) =>
      if !Accounts(call) then s
      else s.(cpus := s.cpus[c := if call.pid in s.io then IoHit(call, s.io[call.pid].gen) else IoMiss(call)])
    case CommitIo(c, inserted) => IoCommitted(s, c, inserted)
    case CheckGate(c) =>
      s.(cpus := s.cpus[c := if s.cpus[c].call.pid in s.traced then AtFlow(s.cpus[c].call) else Idle])
    case LookFlow(c) =>
      var key := KeyOf(s.cpus[c].call);
      s.(cpus := s.cpus[c := if key in s.flows then FlowHit(s.cpus[c].call, s.flows[key].gen, 0) else FlowMiss(s.cpus[c].call)])
    case AddFlow(c) => FlowAdded(s, c)
    case CreateFlow(c, inserted) => FlowCreated(s, c, inserted)
    case Evict(pid) => s.(io := s.io - {pid}, lost := EvictedInto(s, pid))
    case Trace(pid, on) => s.(traced := if on then s.traced + {pid} else s.traced - {pid})
  }

  /** A step changes one handler, and generations only grow. */
  lemma OneHandlerKeepsWellFormed(s: State, t: State, c: nat, h: Handler)
    requires WellFormed(s) && c < |s.cpus| && t.cpus == s.cpus[c := h]
    requires Sensible(h) && (h.IoHit? || h.FlowHit? ==> h.gen < s.nextGen) && s.nextGen <= t.nextGen
    requires forall p | p in t.io :: |t.io[p].perCpu| == |s.cpus| && t.io[p].gen < t.nextGen
    requires forall k | k in t.flows :: t.flows[k].gen < t.nextGen
    ensures WellFormed(t)
  {
  }

  lemma CommitKeepsWellFormed(s: State, c: nat, inserted: bool)
    requires WellFormed(s) && Enabled(s, CommitIo(c, inserted))
    ensures WellFormed(IoCommitted(s, c, inserted))
  {
    var t := IoCommitted(s, c, inserted);
    OneHandlerKeepsWellFormed(s, t, c, t.cpus[c]);
  }

  lemma AddFlowKeepsWellFormed(s: State, c: nat)
    requires WellFormed(s) && Enabled(s, AddFlow(c))
    ensures WellFormed(FlowAdded(s, c))
  {
    var t := FlowAdded(s, c);
    OneHandlerKeepsWellFormed(s, t, c, t.cpus[c]);
  }

  lemma CreateFlowKeepsWellFormed(s: State, c: nat, inserted: bool)
    requires WellFormed(s) && Enabled(s, CreateFlow(c, inserted))
    ensures WellFormed(FlowCreated(s, c, inserted))
  {
    var t := FlowCreated(s, c, inserted);
    OneHandlerKeepsWellFormed(s, t, c, t.cpus[c]);
  }

  lemma StepKeepsWellFormed(s: State, step: Step)
    requires WellFormed(s) && Enabled(s, step)
    ensures WellFormed(Apply(s, step)) && |Apply(s, step).cpus| == |s.cpus|
  {
    var t := Apply(s, step);
    match step
    case CommitIo(c, inserted) => CommitKeepsWellFormed(s, c, inserted);
    case AddFlow(c) => AddFlowKeepsWellFormed(s, c);
    case CreateFlow(c, inserted) => CreateFlowKeepsWellFormed(s, c, inserted);
    case Evict(_) =>
    case Trace(_, _) =>
    case _ => OneHandlerKeepsWellFormed(s, t, step.cpu, t.cpus[step.cpu]);
  }

  ghost predicate Runs(s: State, steps: seq<Step>)
    requires WellFormed(s)
    decreases steps
  {
    steps == [] ||
    (Enabled(s, steps[0]) && (StepKeepsWellFormed(s, steps[0]); Runs(Apply(s, steps[0]), steps[1..])))
  }

  ghost function Exec(s: State, steps: seq<Step>): (t: State)
    requires WellFormed(s) && Runs(s, steps)
    ensures WellFormed(t)
    decreases steps
  {
    if steps == [] then s else
      StepKeepsWellFormed(s, steps[0]);
      Exec(Apply(s, steps[0]), steps[1..])
  }

  ghost function Init(cpus: nat): (s: State)
    ensures WellFormed(s)
  {
    State(seq(cpus, _ => Idle), map[], map[], {}, 0, map[], map[], map[], map[])
  }
}
