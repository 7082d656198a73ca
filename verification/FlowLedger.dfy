/** What the probes were told about a flow, against what its history says was credited. */
module FlowLedger {
  import opened Common
  import opened Sums
  import opened IoAccounting

  datatype Field = RxBytes | RxPackets | TxBytes | TxPackets

  function Of(stat: FlowStat, f: Field): int {
    match f
    case RxBytes => stat.rxBytes
    case RxPackets => stat.rxPackets
    case TxBytes => stat.txBytes
    case TxPackets => stat.txPackets
  }

  /** What a call brings to its flow: its bytes, and one packet for each direction it moved bytes in. */
  function Due(call: Call, f: Field): int
    requires call.NetIo?
  {
    match f
    case RxBytes => call.rx
    case RxPackets => if call.rx > 0 then 1 else 0
    case TxBytes => call.tx
    case TxPackets => if call.tx > 0 then 1 else 0
  }

  /** The addition that brings a field. */
  function Turn(f: Field): nat {
    match f case RxBytes => 0 case RxPackets => 1 case TxBytes => 2 case TxPackets => 3
  }

  predicate Concerns(h: Handler, key: FlowKey) {
    (h.FlowHit? || h.FlowMiss?) && h.call.NetIo? && h.call.sock.Some? && KeyOf(h.call) == key
  }

  /** What a handler past its lookup still owes to `key`. */
  function Owes(h: Handler, key: FlowKey, f: Field): int {
    if !Concerns(h, key) then 0
    else if h.FlowMiss? || h.stage < Turn(f) then Due(h.call, f)
    else if h.stage > Turn(f) then 0
    else if f.RxPackets? || f.TxPackets? then 1
    else Due(h.call, f)
  }

  function OwesSeq(cpus: seq<Handler>, key: FlowKey, f: Field): seq<int> {
    seq(|cpus|, c requires 0 <= c < |cpus| => Owes(cpus[c], key, f))
  }

  function OwedAll(cpus: seq<Handler>, key: FlowKey, f: Field): int {
    SumSeq(OwesSeq(cpus, key, f))
  }

  lemma SetOwes(cpus: seq<Handler>, c: nat, h: Handler, key: FlowKey, f: Field)
    requires c < |cpus|
    ensures OwedAll(cpus[c := h], key, f) == OwedAll(cpus, key, f) - Owes(cpus[c], key, f) + Owes(h, key, f)
  {
    SumSeqUpdate(OwesSeq(cpus, key, f), c, Owes(h, key, f));
    assert OwesSeq(cpus[c := h], key, f) == OwesSeq(cpus, key, f)[c := Owes(h, key, f)];
  }

  lemma CreditFlowAdds(m: map<FlowKey, FlowStat>, who: FlowKey, stat: FlowStat, key: FlowKey, f: Field)
    ensures Of(FlowOf(CreditFlow(m, who, stat), key), f) == Of(FlowOf(m, key), f) + (if key == who then Of(stat, f) else 0)
  {
  }

  /** What a step asks for: a handler looks the key up. */
  function AskedBy(s: State, step: Step, key: FlowKey, f: Field): int
    requires WellFormed(s) && Enabled(s, step)
  {
    if step.LookFlow? && KeyOf(s.cpus[step.cpu].call) == key then Due(s.cpus[step.cpu].call, f) else 0
  }

  /** What all calls that looked the key up in a run were told to bring. */
  ghost function Asked(s: State, steps: seq<Step>, key: FlowKey, f: Field): int
    requires WellFormed(s) && Runs(s, steps)
    decreases steps
  {
    if steps == [] then 0
    else
      StepKeepsWellFormed(s, steps[0]);
      AskedBy(s, steps[0], key, f) + Asked(Apply(s, steps[0]), steps[1..], key, f)
  }

  /** What has been credited to the key, with what is still owed to it. */
  function Booked(s: State, key: FlowKey, f: Field): int {
    Of(FlowOf(s.credited, key), f) + OwedAll(s.cpus, key, f)
  }

  /** An addition pays exactly what it takes off what the handler owes. */
  lemma AdditionPays(h: Handler, key: FlowKey, f: Field)
    requires h.FlowHit? && Sensible(h)
    ensures Owes(h, key, f)
         == Owes(AfterDelta(h.call, h.gen, h.stage), key, f)
            + if KeyOf(h.call) == key then Of(Delta(h.call, h.stage), f) else 0
  {
  }

  lemma AddBalances(s: State, c: nat, key: FlowKey, f: Field)
    requires WellFormed(s) && Enabled(s, AddFlow(c))
    ensures Booked(FlowAdded(s, c), key, f) == Booked(s, key, f)
  {
    var h := s.cpus[c];
    AdditionPays(h, key, f);
    SetOwes(s.cpus, c, AfterDelta(h.call, h.gen, h.stage), key, f);
    CreditFlowAdds(s.credited, KeyOf(h.call), Delta(h.call, h.stage), key, f);
  }

  lemma CreateBalances(s: State, c: nat, inserted: bool, key: FlowKey, f: Field)
    requires WellFormed(s) && Enabled(s, CreateFlow(c, inserted))
    ensures Booked(FlowCreated(s, c, inserted), key, f) == Booked(s, key, f)
  {
    var call := s.cpus[c].call;
    SetOwes(s.cpus, c, Idle, key, f);
    CreditFlowAdds(s.credited, KeyOf(call), NewFlow(call), key, f);
  }

  /** A handler that does not concern a flow before or after a step leaves the books alone. */
  lemma ElsewhereBalances(s: State, t: State, c: nat, h: Handler, key: FlowKey, f: Field)
    requires c < |s.cpus| && t.cpus == s.cpus[c := h] && t.credited == s.credited
    requires Owes(s.cpus[c], key, f) == 0 && Owes(h, key, f) == 0
    ensures Booked(t, key, f) == Booked(s, key, f)
  {
    SetOwes(s.cpus, c, h, key, f);
  }

  lemma EnterBalances(s: State, c: nat, call: Call, key: FlowKey, f: Field)
    requires WellFormed(s) && Enabled(s, Enter(c, call))
    ensures Booked(Apply(s, Enter(c, call)), key, f) == Booked(s, key, f)
  {
    if Accounts(call) {
      var h := if call.pid in s.io then IoHit(call, s.io[call.pid].gen) else IoMiss(call);
      ElsewhereBalances(s, Apply(s, Enter(c, call)), c, h, key, f);
    }
  }

  lemma CommitBalances(s: State, c: nat, inserted: bool, key: FlowKey, f: Field)
    requires WellFormed(s) && Enabled(s, CommitIo(c, inserted))
    ensures Booked(IoCommitted(s, c, inserted), key, f) == Booked(s, key, f)
  {
    var call := s.cpus[c].call;
    ElsewhereBalances(s, IoCommitted(s, c, inserted), c, if call.NetIo? then AtGate(call) else Idle, key, f);
  }

  lemma GateBalances(s: State, c: nat, key: FlowKey, f: Field)
    requires WellFormed(s) && Enabled(s, CheckGate(c))
    ensures Booked(Apply(s, CheckGate(c)), key, f) == Booked(s, key, f)
  {
    var call := s.cpus[c].call;
    ElsewhereBalances(s, Apply(s, CheckGate(c)), c, if call.pid in s.traced then AtFlow(call) else Idle, key, f);
  }

  lemma LookBalances(s: State, c: nat, key: FlowKey, f: Field)
    requires WellFormed(s) && Enabled(s, LookFlow(c))
    ensures Booked(Apply(s, LookFlow(c)), key, f) == Booked(s, key, f) + AskedBy(s, LookFlow(c), key, f)
  {
    var call := s.cpus[c].call;
    var at := KeyOf(call);
    SetOwes(s.cpus, c, if at in s.flows then FlowHit(call, s.flows[at].gen, 0) else FlowMiss(call), key, f);
  }

  lemma StepBalances(s: State, step: Step, key: FlowKey, f: Field)
    requires WellFormed(s) && Enabled(s, step)
    ensures Booked(Apply(s, step), key, f) == Booked(s, key, f) + AskedBy(s, step, key, f)
  {
    match step
    case Enter(c, call) => EnterBalances(s, c, call, key, f);
    case CommitIo(c, inserted) => CommitBalances(s, c, inserted, key, f);
    case CheckGate(c) => GateBalances(s, c, key, f);
    case LookFlow(c) => LookBalances(s, c, key, f);
    case AddFlow(c) => AddBalances(s, c, key, f);
    case CreateFlow(c, inserted) => CreateBalances(s, c, inserted, key, f);
    case Evict(_) =>
    case Trace(_, _) =>
  }

  lemma {:induction false} RunBalances(s: State, steps: seq<Step>, key: FlowKey, f: Field)
    requires WellFormed(s) && Runs(s, steps)
    ensures Booked(Exec(s, steps), key, f) == Booked(s, key, f) + Asked(s, steps, key, f)
    decreases steps
  {
    if steps != [] {
      StepBalances(s, steps[0], key, f);
      StepKeepsWellFormed(s, steps[0]);
      RunBalances(Apply(s, steps[0]), steps[1..], key, f);
    }
  }

  /**
   * In every run, what has been credited to a flow, bytes and packets, with what handlers past the lookup still
   * owe it, is what all calls that looked it up were told to bring.
   */
  lemma CreditedIsWhatWasAsked(cpus: nat, steps: seq<Step>, key: FlowKey, f: Field)
    requires Runs(Init(cpus), steps)
    ensures Booked(Exec(Init(cpus), steps), key, f) == Asked(Init(cpus), steps, key, f)
  {
    RunBalances(Init(cpus), steps, key, f);
    SumSeqOfZeros(OwesSeq(Init(cpus).cpus, key, f));
  }

  // ---------------------------------------------------------------------------------
  // Keys.

  /** A key is the pid and the whole tuple: two calls share one exactly when they agree on all of it. */
  lemma KeyIsTheTuple(a: Call, b: Call)
    requires a.NetIo? && b.NetIo? && a.sock.Some? && b.sock.Some?
    requires a.sock.value.portBe < 0x1_0000 && b.sock.value.portBe < 0x1_0000
    ensures KeyOf(a) == KeyOf(b)
       <==> && a.pid == b.pid && a.protocol == b.protocol
            && a.sock.value.saddr == b.sock.value.saddr && a.sock.value.daddr == b.sock.value.daddr
            && a.sock.value.num == b.sock.value.num && a.sock.value.portBe == b.sock.value.portBe
            && a.sock.value.family == b.sock.value.family
  {
    NtohsTwice(a.sock.value.portBe);
    NtohsTwice(b.sock.value.portBe);
  }

  /** Each part of the tuple is in its own field, the local port as it is. */
  lemma KeyFields(call: Call)
    requires call.NetIo? && call.sock.Some?
    ensures var key, sk := KeyOf(call), call.sock.value;
      && key.pid == call.pid && key.saddr == sk.saddr && key.daddr == sk.daddr && key.sport == sk.num
      && key.family == sk.family && key.protocol == call.protocol
  {
  }

  /** The remote port's two bytes change places. */
  lemma NtohsSwaps(hi: nat, lo: nat)
    requires hi < 256 && lo < 256
    ensures Ntohs(hi * 256 + lo) == lo * 256 + hi
  {
    assert (hi * 256 + lo) % 256 == lo && (hi * 256 + lo) / 256 == hi;
  }

  lemma NtohsTwice(x: nat)
    requires x < 0x1_0000
    ensures Ntohs(Ntohs(x)) == x
  {
    NtohsSwaps(x / 256, x % 256);
    NtohsSwaps(x % 256, x / 256);
    assert x == x / 256 * 256 + x % 256;
  }
}
