/** Concrete runs in which the shared flow map is caught out. */
module FlowWitnesses {
  import opened Common
  import opened IoAccounting
  import opened FlowBounds

  lemma Unfold(s: State, step: Step, rest: seq<Step>)
    requires WellFormed(s) && Enabled(s, step) && WellFormed(Apply(s, step)) && Runs(Apply(s, step), rest)
    ensures Runs(s, [step] + rest) && Exec(s, [step] + rest) == Exec(Apply(s, step), rest)
  {
    assert ([step] + rest)[1..] == rest;
  }

  lemma One(s: State, step: Step) returns (steps: seq<Step>)
    requires WellFormed(s) && Enabled(s, step)
    ensures WellFormed(Apply(s, step)) && Runs(s, steps) && Exec(s, steps) == Apply(s, step)
  {
    StepKeepsWellFormed(s, step);
    Unfold(s, step, []);
    steps := [step] + [];
  }

  lemma Reattach(a: seq<Step>, b: seq<Step>)
    requires |a| > 0
    ensures [a[0]] + (a[1..] + b) == a + b
  {
  }

  lemma {:induction false} RunsConcat(s: State, a: seq<Step>, b: seq<Step>)
    requires WellFormed(s) && Runs(s, a) && Runs(Exec(s, a), b)
    ensures Runs(s, a + b) && Exec(s, a + b) == Exec(Exec(s, a), b)
    decreases |a|
  {
    if |a| == 0 {
      assert a + b == b;
    } else {
      StepKeepsWellFormed(s, a[0]);
      RunsConcat(Apply(s, a[0]), a[1..], b);
      Unfold(s, a[0], a[1..] + b);
      Reattach(a, b);
    }
  }

  /** Same but for what the counters hold. */
  ghost predicate SameFlows(s: State, t: State) {
    && |t.cpus| == |s.cpus| && t.flows == s.flows && t.traced == s.traced
    && t.credited == s.credited && t.dropped == s.dropped
  }

  lemma Count(s: State, c: nat, call: Call) returns (steps: seq<Step>, t: State)
    requires WellFormed(s) && c < |s.cpus| && s.cpus[c].Idle? && call.NetIo? && Accounts(call)
    ensures WellFormed(t) && Runs(s, steps) && t == Exec(s, steps) && SameFlows(s, t)
    ensures t.cpus == s.cpus[c := AtGate(call)]
  {
    var first := One(s, Enter(c, call));
    var m := Apply(s, Enter(c, call));
    var second := One(m, CommitIo(c, true));
    t := Apply(m, CommitIo(c, true));
    RunsConcat(s, first, second);
    steps := first + second;
  }

  lemma FindFlow(s: State, c: nat, call: Call) returns (steps: seq<Step>, t: State)
    requires WellFormed(s) && c < |s.cpus| && call.NetIo? && Accounts(call) && s.cpus[c] == AtGate(call) && call.pid in s.traced
    ensures WellFormed(t) && Runs(s, steps) && t == Exec(s, steps) && SameFlows(s, t)
    ensures t.cpus == s.cpus[c := if KeyOf(call) in s.flows then FlowHit(call, s.flows[KeyOf(call)].gen, 0) else FlowMiss(call)]
  {
    var first := One(s, CheckGate(c));
    var m := Apply(s, CheckGate(c));
    var second := One(m, LookFlow(c));
    t := Apply(m, LookFlow(c));
    RunsConcat(s, first, second);
    steps := first + second;
  }

  /** A handler runs up to where it has looked its flow up. */
  lemma ReachFlow(s: State, c: nat, call: Call) returns (steps: seq<Step>, t: State)
    requires WellFormed(s) && c < |s.cpus| && s.cpus[c].Idle? && call.NetIo? && Accounts(call) && call.pid in s.traced
    ensures WellFormed(t) && Runs(s, steps) && t == Exec(s, steps) && SameFlows(s, t)
    ensures t.cpus == s.cpus[c := if KeyOf(call) in s.flows then FlowHit(call, s.flows[KeyOf(call)].gen, 0) else FlowMiss(call)]
  {
    var first, m := Count(s, c, call);
    var second, u := FindFlow(m, c, call);
    t := u;
    RunsConcat(s, first, second);
    steps := first + second;
  }

  /** `s` is where the run `steps` leads. */
  ghost predicate Reached(cpus: nat, steps: seq<Step>, s: State) {
    Runs(Init(cpus), steps) && s == Exec(Init(cpus), steps)
  }

  lemma Begin(cpus: nat, pid: Pid) returns (steps: seq<Step>, s: State)
    ensures WellFormed(s) && Reached(cpus, steps, s)
    ensures |s.cpus| == cpus && pid in s.traced && s.flows == map[] && s.credited == map[] && s.dropped == map[]
    ensures forall c | 0 <= c < cpus :: s.cpus[c].Idle?
  {
    steps := One(Init(cpus), Trace(pid, true));
    s := Apply(Init(cpus), Trace(pid, true));
  }

  lemma ThenReachFlow(cpus: nat, before: seq<Step>, s: State, c: nat, call: Call) returns (steps: seq<Step>, t: State)
    requires WellFormed(s) && Reached(cpus, before, s)
    requires c < |s.cpus| && s.cpus[c].Idle? && call.NetIo? && Accounts(call) && call.pid in s.traced
    ensures WellFormed(t) && Reached(cpus, steps, t) && SameFlows(s, t)
    ensures t.cpus == s.cpus[c := if KeyOf(call) in s.flows then FlowHit(call, s.flows[KeyOf(call)].gen, 0) else FlowMiss(call)]
  {
    var more, u := ReachFlow(s, c, call);
    t := u;
    RunsConcat(Init(cpus), before, more);
    steps := before + more;
  }

  lemma Then(cpus: nat, before: seq<Step>, s: State, step: Step) returns (steps: seq<Step>)
    requires WellFormed(s) && Reached(cpus, before, s) && Enabled(s, step)
    ensures WellFormed(Apply(s, step)) && Reached(cpus, steps, Apply(s, step))
  {
    var more := One(s, step);
    RunsConcat(Init(cpus), before, more);
    steps := before + more;
  }

  lemma ThenCreate(cpus: nat, before: seq<Step>, s: State, c: nat, call: Call) returns (steps: seq<Step>, t: State)
    requires WellFormed(s) && Reached(cpus, before, s)
    requires c < |s.cpus| && call.NetIo? && Accounts(call) && s.cpus[c] == FlowMiss(call)
    ensures WellFormed(t) && Reached(cpus, steps, t) && t.cpus == s.cpus[c := Idle] && t.traced == s.traced
    ensures t.flows == s.flows[KeyOf(call) := Flow(s.nextGen, NewFlow(call))]
  {
    steps := Then(cpus, before, s, CreateFlow(c, true));
    t := Apply(s, CreateFlow(c, true));
  }

  lemma ThenAdd(cpus: nat, before: seq<Step>, s: State, c: nat, call: Call) returns (steps: seq<Step>, t: State)
    requires WellFormed(s) && Reached(cpus, before, s)
    requires c < |s.cpus| && call.NetIo? && Accounts(call) && KeyOf(call) in s.flows
    requires s.cpus[c] == FlowHit(call, s.flows[KeyOf(call)].gen, 0)
    ensures WellFormed(t) && Reached(cpus, steps, t) && KeyOf(call) in t.flows
    ensures t.flows[KeyOf(call)].stat.rxBytes == s.flows[KeyOf(call)].stat.rxBytes + call.rx
    ensures t.flows[KeyOf(call)].stat.rxPackets == s.flows[KeyOf(call)].stat.rxPackets
  {
    steps := Then(cpus, before, s, AddFlow(c));
    t := Apply(s, AddFlow(c));
  }

  /**
   * On one CPU, for any send and receive of one flow: the send creates the flow, and the receive has added its
   * bytes but not yet its packet.
   */
  lemma BytesWithoutPackets(send: Call, receive: Call) returns (steps: seq<Step>)
    requires send.NetIo? && receive.NetIo? && Accounts(send) && Accounts(receive) && KeyOf(send) == KeyOf(receive)
    requires send.rx == 0 && receive.rx > 0
    ensures Runs(Init(1), steps) && KeyOf(send) in Exec(Init(1), steps).flows
    ensures var stat := Exec(Init(1), steps).flows[KeyOf(send)].stat; stat.rxBytes == receive.rx && stat.rxPackets == 0
  {
    var r0, s0 := Begin(1, send.pid);
    var r1, s1 := ThenReachFlow(1, r0, s0, 0, send);
    var r2, s2 := ThenCreate(1, r1, s1, 0, send);
    var r3, s3 := ThenReachFlow(1, r2, s2, 0, receive);
    var r4, s4 := ThenAdd(1, r3, s3, 0, receive);
    steps := r4;
  }

  lemma OverlappingCreations(first: Call, second: Call) returns (steps: seq<Step>, s: State)
    requires first.NetIo? && second.NetIo? && Accounts(first) && Accounts(second) && KeyOf(first) == KeyOf(second)
    ensures WellFormed(s) && Reached(2, steps, s) && |s.cpus| == 2
    ensures s.cpus[0] == FlowMiss(first) && s.cpus[1] == FlowMiss(second)
    ensures KeyOf(first) !in s.flows && FlowOf(s.credited, KeyOf(first)) == NO_FLOW && FlowOf(s.dropped, KeyOf(first)) == NO_FLOW
  {
    var r0, s0 := Begin(2, first.pid);
    var r1, s1 := ThenReachFlow(2, r0, s0, 0, first);
    steps, s := ThenReachFlow(2, r1, s1, 1, second);
  }

  lemma BothCreate(before: seq<Step>, s: State) returns (steps: seq<Step>)
    requires WellFormed(s) && Reached(2, before, s) && |s.cpus| == 2 && s.cpus[0].FlowMiss? && s.cpus[1].FlowMiss?
    ensures WellFormed(FlowCreated(s, 0, true)) && Enabled(FlowCreated(s, 0, true), CreateFlow(1, true))
    ensures Reached(2, steps, FlowCreated(FlowCreated(s, 0, true), 1, true))
  {
    var r := Then(2, before, s, CreateFlow(0, true));
    steps := Then(2, r, Apply(s, CreateFlow(0, true)), CreateFlow(1, true));
  }

  /**
   * On two CPUs, for any two calls of one flow: both miss the flow, both create it, and it shows the bytes of
   * the second alone.
   */
  lemma OverlapShowsTheSecond(first: Call, second: Call, d: Direction) returns (steps: seq<Step>)
    requires first.NetIo? && second.NetIo? && Accounts(first) && Accounts(second) && KeyOf(first) == KeyOf(second)
    ensures Runs(Init(2), steps)
    ensures var e := Exec(Init(2), steps);
      && Bytes(FlowStatOf(e, KeyOf(first)), d) == Amount(second, d)
      && Bytes(FlowOf(e.credited, KeyOf(first)), d) == Amount(first, d) + Amount(second, d)
  {
    var looked, s := OverlappingCreations(first, second);
    RunConservesFlow(Init(2), looked, KeyOf(first), d);
    steps := BothCreate(looked, s);
    OverlapLosesTheFirst(s, 0, 1, KeyOf(first), d);
  }
}
