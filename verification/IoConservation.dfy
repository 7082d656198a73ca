/** The per-CPU counters add up, although lookup and update are separate steps. */
module IoConservation {
  import opened Common
  import opened Sums
  import opened IoAccounting
  import opened IoLedger

  /** What is counted and what was lost make up what was added. */
  ghost predicate Conserved(s: State, pid: Pid, k: Counter) {
    IoTotal(s.io, pid, k) + Get(IoOf(s.lost, pid), k) == Get(IoOf(s.added, pid), k)
  }

  lemma {:induction false} CreditAllCounts(m: map<Pid, IoStat>, who: Pid, slots: seq<IoStat>, pid: Pid, k: Counter)
    ensures Get(IoOf(CreditAll(m, who, slots), pid), k)
         == Get(IoOf(m, pid), k) + (if pid == who then SumSeq(Column(slots, k)) else 0)
    decreases slots
  {
    if |slots| > 0 {
      CreditCounts(m, who, slots[0], pid, k);
      CreditAllCounts(Credit(m, who, slots[0]), who, slots[1..], pid, k);
      assert Column(slots, k)[1..] == Column(slots[1..], k);
    }
  }

  lemma SlotSet(slots: seq<IoStat>, c: nat, io: IoStat, k: Counter)
    requires c < |slots|
    ensures SumSeq(Column(slots[c := io], k)) == SumSeq(Column(slots, k)) - Get(slots[c], k) + Get(io, k)
  {
    SumSeqUpdate(Column(slots, k), c, Get(io, k));
    assert Column(slots[c := io], k) == Column(slots, k)[c := Get(io, k)];
  }

  /** For its own pid, an update counts the new bytes or reports them lost. */
  lemma UpdateConserves(io: map<Pid, Slots>, cpus: nat, gen: nat, c: nat, pid: Pid, found: Option<nat>, amount: IoStat, inserted: bool, k: Counter)
    requires c < cpus && (pid in io ==> |io[pid].perCpu| == cpus)
    ensures IoTotal(IoAfter(io, cpus, gen, c, pid, found, amount, inserted), pid, k)
            + Get(IoLoss(io, c, pid, found, amount, inserted), k)
         == IoTotal(io, pid, k) + Get(amount, k)
  {
    if pid in io {
      var slots := io[pid].perCpu;
      SlotSet(slots, c, SlotAdded(slots, c, amount)[c], k);
      SlotSet(slots, c, amount, k);
    } else {
      var zeros := seq(cpus, _ => NO_IO);
      SumSeqOfZeros(Column(zeros, k));
      SlotSet(zeros, c, amount, k);
    }
  }

  lemma CommitConserves(s: State, c: nat, inserted: bool, pid: Pid, k: Counter)
    requires WellFormed(s) && Enabled(s, CommitIo(c, inserted)) && Conserved(s, pid, k)
    ensures Conserved(IoCommitted(s, c, inserted), pid, k)
  {
    var h := s.cpus[c];
    var who, amount := h.call.pid, CallIo(h.call);
    UpdateConserves(s.io, |s.cpus|, s.nextGen, c, who, Found(h), amount, inserted, k);
    CreditCounts(s.added, who, amount, pid, k);
    CreditCounts(s.lost, who, IoLoss(s.io, c, who, Found(h), amount, inserted), pid, k);
  }

  lemma EvictConserves(s: State, who: Pid, pid: Pid, k: Counter)
    requires WellFormed(s) && Conserved(s, pid, k)
    ensures Conserved(Apply(s, Evict(who)), pid, k)
  {
    if who in s.io {
      CreditAllCounts(s.lost, who, s.io[who].perCpu, pid, k);
    }
  }

  lemma StepConserves(s: State, step: Step, pid: Pid, k: Counter)
    requires WellFormed(s) && Enabled(s, step) && Conserved(s, pid, k)
    ensures Conserved(Apply(s, step), pid, k)
  {
    match step
    case CommitIo(c, inserted) => CommitConserves(s, c, inserted, pid, k);
    case Evict(who) => EvictConserves(s, who, pid, k);
    case _ =>
  }

  lemma {:induction false} RunConserves(s: State, steps: seq<Step>, pid: Pid, k: Counter)
    requires WellFormed(s) && Runs(s, steps) && Conserved(s, pid, k)
    ensures Conserved(Exec(s, steps), pid, k)
    decreases steps
  {
    if steps != [] {
      StepConserves(s, steps[0], pid, k);
      StepKeepsWellFormed(s, steps[0]);
      RunConserves(Apply(s, steps[0]), steps[1..], pid, k);
    }
  }

  /** For every interleaving, with evictions and refused inserts. */
  lemma EveryByteIsCountedOrLost(cpus: nat, steps: seq<Step>, pid: Pid, k: Counter)
    requires Runs(Init(cpus), steps)
    ensures Conserved(Exec(Init(cpus), steps), pid, k)
    ensures var e := Exec(Init(cpus), steps);
      IoTotal(e.io, pid, k) + Get(IoOf(e.lost, pid), k) + UncommittedAll(e.cpus, pid, k) == Reported(steps, pid, k)
  {
    AddedIsWhatWasReported(cpus, steps, pid, k);
    RunConserves(Init(cpus), steps, pid, k);
  }

  // ---------------------------------------------------------------------------------
  // Nothing is lost while the entry is neither evicted nor refused.

  ghost predicate Keeps(s: State, step: Step, pid: Pid)
    requires Enabled(s, step)
  {
    step != Evict(pid) && (step.CommitIo? && s.cpus[step.cpu].call.pid == pid ==> step.inserted)
  }

  ghost predicate KeepingRun(s: State, steps: seq<Step>, pid: Pid)
    requires WellFormed(s) && Runs(s, steps)
    decreases steps
  {
    steps == [] || (Keeps(s, steps[0], pid) && (StepKeepsWellFormed(s, steps[0]); KeepingRun(Apply(s, steps[0]), steps[1..], pid)))
  }

  /**
   * Handlers half-way through: one that found the entry still points at it, and one that
   * did not has an empty slot if another CPU created the entry meanwhile.
   */
  ghost predicate Placed(s: State, pid: Pid)
    requires WellFormed(s)
  {
    forall c | 0 <= c < |s.cpus| ::
      && (s.cpus[c].IoHit? && s.cpus[c].call.pid == pid ==> pid in s.io && s.io[pid].gen == s.cpus[c].gen)
      && (s.cpus[c].IoMiss? && s.cpus[c].call.pid == pid && pid in s.io ==> s.io[pid].perCpu[c] == NO_IO)
  }

  lemma CreditOfNothing(m: map<Pid, IoStat>, who: Pid, io: IoStat, pid: Pid)
    requires who == pid ==> io == NO_IO
    ensures IoOf(Credit(m, who, io), pid) == IoOf(m, pid)
  {
  }

  lemma CommitKeepsPlaced(s: State, c: nat, inserted: bool, pid: Pid)
    requires WellFormed(s) && Enabled(s, CommitIo(c, inserted)) && Placed(s, pid)
    requires s.cpus[c].call.pid == pid ==> inserted
    ensures WellFormed(IoCommitted(s, c, inserted)) && Placed(IoCommitted(s, c, inserted), pid)
  {
    CommitKeepsWellFormed(s, c, inserted);
  }

  lemma CommitLosesNothing(s: State, c: nat, inserted: bool, pid: Pid)
    requires WellFormed(s) && Enabled(s, CommitIo(c, inserted)) && Placed(s, pid)
    requires s.cpus[c].call.pid == pid ==> inserted
    ensures IoOf(IoCommitted(s, c, inserted).lost, pid) == IoOf(s.lost, pid)
  {
    var h := s.cpus[c];
    CreditOfNothing(s.lost, h.call.pid, IoLoss(s.io, c, h.call.pid, Found(h), CallIo(h.call), inserted), pid);
  }

  lemma StepKeepsPlaced(s: State, step: Step, pid: Pid)
    requires WellFormed(s) && Enabled(s, step) && Placed(s, pid) && Keeps(s, step, pid)
    ensures WellFormed(Apply(s, step)) && Placed(Apply(s, step), pid)
    ensures IoOf(Apply(s, step).lost, pid) == IoOf(s.lost, pid)
  {
    StepKeepsWellFormed(s, step);
    match step
    case CommitIo(c, inserted) =>
      CommitKeepsPlaced(s, c, inserted, pid);
      CommitLosesNothing(s, c, inserted, pid);
    case Evict(who) =>
      if who in s.io {
        CreditAllElsewhere(s.lost, who, s.io[who].perCpu, pid);
      }
    case _ =>
  }

  lemma {:induction false} CreditAllElsewhere(m: map<Pid, IoStat>, who: Pid, slots: seq<IoStat>, pid: Pid)
    requires who != pid
    ensures IoOf(CreditAll(m, who, slots), pid) == IoOf(m, pid)
    decreases slots
  {
    if |slots| > 0 {
      CreditAllElsewhere(Credit(m, who, slots[0]), who, slots[1..], pid);
    }
  }

  lemma {:induction false} KeepingRunLosesNothing(s: State, steps: seq<Step>, pid: Pid)
    requires WellFormed(s) && Runs(s, steps) && Placed(s, pid) && KeepingRun(s, steps, pid)
    ensures Placed(Exec(s, steps), pid)
    ensures IoOf(Exec(s, steps).lost, pid) == IoOf(s.lost, pid)
    decreases steps
  {
    if steps != [] {
      StepKeepsPlaced(s, steps[0], pid);
      KeepingRunLosesNothing(Apply(s, steps[0]), steps[1..], pid);
    }
  }

  /** The sum over CPUs is exactly what was added. */
  lemma TotalIsExact(cpus: nat, steps: seq<Step>, pid: Pid, k: Counter)
    requires Runs(Init(cpus), steps) && KeepingRun(Init(cpus), steps, pid)
    ensures IoTotal(Exec(Init(cpus), steps).io, pid, k) == Get(IoOf(Exec(Init(cpus), steps).added, pid), k)
    ensures var e := Exec(Init(cpus), steps);
      IoTotal(e.io, pid, k) + UncommittedAll(e.cpus, pid, k) == Reported(steps, pid, k)
  {
    AddedIsWhatWasReported(cpus, steps, pid, k);
    KeepingRunLosesNothing(Init(cpus), steps, pid);
    RunConserves(Init(cpus), steps, pid, k);
  }

  ghost predicate SlotsNonNegative(slots: seq<IoStat>) {
    forall c, k | 0 <= c < |slots| :: 0 <= Get(slots[c], k)
  }

  ghost predicate CountersNonNegative(io: map<Pid, Slots>) {
    forall p | p in io :: SlotsNonNegative(io[p].perCpu)
  }

  /**
   * A step that loses bytes of `pid`: the update of a handler whose entry has left the map, one the map refuses,
   * one that overwrites a slot with bytes in it, or the eviction of an entry with bytes in it.
   */
  ghost predicate LosesBytes(s: State, step: Step, pid: Pid, k: Counter)
    requires WellFormed(s) && Enabled(s, step)
  {
    match step
    case CommitIo(c, inserted) =>
      var h := s.cpus[c];
      h.call.pid == pid && Get(IoLoss(s.io, c, pid, Found(h), CallIo(h.call), inserted), k) > 0
    case Evict(who) => who == pid && IoTotal(s.io, pid, k) > 0
    case _ => false
  }

  ghost predicate LosslessIoRun(s: State, steps: seq<Step>, pid: Pid, k: Counter)
    requires WellFormed(s) && Runs(s, steps)
    decreases steps
  {
    steps == [] ||
    (!LosesBytes(s, steps[0], pid, k) && (StepKeepsWellFormed(s, steps[0]); LosslessIoRun(Apply(s, steps[0]), steps[1..], pid, k)))
  }

  lemma UpdateKeepsNonNegative(io: map<Pid, Slots>, cpus: nat, gen: nat, c: nat, pid: Pid, found: Option<nat>, call: Call, inserted: bool)
    requires c < cpus && (pid in io ==> |io[pid].perCpu| == cpus) && CountersNonNegative(io)
    ensures CountersNonNegative(IoAfter(io, cpus, gen, c, pid, found, CallIo(call), inserted))
    ensures forall k :: 0 <= Get(IoLoss(io, c, pid, found, CallIo(call), inserted), k)
  {
    assert forall k :: 0 <= Get(CallIo(call), k) && Get(NO_IO, k) == 0;
    if pid in io {
      var slots := io[pid].perCpu;
      assert forall k :: Get(SlotAdded(slots, c, CallIo(call))[c], k) == Get(slots[c], k) + Get(CallIo(call), k);
      assert SlotsNonNegative(slots);
      assert SlotsNonNegative(SlotAdded(slots, c, CallIo(call)));
    }
  }

  lemma StepKeepsNonNegative(s: State, step: Step)
    requires WellFormed(s) && Enabled(s, step) && CountersNonNegative(s.io)
    ensures CountersNonNegative(Apply(s, step).io)
  {
    if step.CommitIo? {
      var h := s.cpus[step.cpu];
      UpdateKeepsNonNegative(s.io, |s.cpus|, s.nextGen, step.cpu, h.call.pid, Found(h), h.call, step.inserted);
    }
  }

  lemma CommitLoses(s: State, c: nat, inserted: bool, pid: Pid, k: Counter)
    requires WellFormed(s) && Enabled(s, CommitIo(c, inserted)) && CountersNonNegative(s.io)
    ensures var lost := Get(IoOf(IoCommitted(s, c, inserted).lost, pid), k) - Get(IoOf(s.lost, pid), k);
      lost >= 0 && (lost == 0 <==> !LosesBytes(s, CommitIo(c, inserted), pid, k))
  {
    var h := s.cpus[c];
    UpdateKeepsNonNegative(s.io, |s.cpus|, s.nextGen, c, h.call.pid, Found(h), h.call, inserted);
    CreditCounts(s.lost, h.call.pid, IoLoss(s.io, c, h.call.pid, Found(h), CallIo(h.call), inserted), pid, k);
  }

  lemma EvictLoses(s: State, who: Pid, pid: Pid, k: Counter)
    requires WellFormed(s) && CountersNonNegative(s.io)
    ensures var lost := Get(IoOf(Apply(s, Evict(who)).lost, pid), k) - Get(IoOf(s.lost, pid), k);
      lost >= 0 && (lost == 0 <==> !LosesBytes(s, Evict(who), pid, k))
  {
    if who in s.io {
      CreditAllCounts(s.lost, who, s.io[who].perCpu, pid, k);
      SumSeqNonNegative(Column(s.io[who].perCpu, k));
    }
  }

  lemma StepLoses(s: State, step: Step, pid: Pid, k: Counter)
    requires WellFormed(s) && Enabled(s, step) && CountersNonNegative(s.io)
    ensures var lost := Get(IoOf(Apply(s, step).lost, pid), k) - Get(IoOf(s.lost, pid), k);
      lost >= 0 && (lost == 0 <==> !LosesBytes(s, step, pid, k))
  {
    match step
    case CommitIo(c, inserted) => CommitLoses(s, c, inserted, pid, k);
    case Evict(who) => EvictLoses(s, who, pid, k);
    case _ =>
  }

  lemma {:induction false} RunLoses(s: State, steps: seq<Step>, pid: Pid, k: Counter)
    requires WellFormed(s) && Runs(s, steps) && CountersNonNegative(s.io)
    ensures Get(IoOf(Exec(s, steps).lost, pid), k) >= Get(IoOf(s.lost, pid), k)
    ensures Get(IoOf(Exec(s, steps).lost, pid), k) == Get(IoOf(s.lost, pid), k) <==> LosslessIoRun(s, steps, pid, k)
    decreases steps
  {
    if steps != [] {
      StepLoses(s, steps[0], pid, k);
      StepKeepsNonNegative(s, steps[0]);
      StepKeepsWellFormed(s, steps[0]);
      RunLoses(Apply(s, steps[0]), steps[1..], pid, k);
    }
  }

  /** The sum over CPUs is all that was ever added if and only if no step of the run lost any of it. */
  lemma TotalIsExactExactly(cpus: nat, steps: seq<Step>, pid: Pid, k: Counter)
    requires Runs(Init(cpus), steps)
    ensures var e := Exec(Init(cpus), steps);
      IoTotal(e.io, pid, k) + UncommittedAll(e.cpus, pid, k) == Reported(steps, pid, k)
      <==> LosslessIoRun(Init(cpus), steps, pid, k)
  {
    AddedIsWhatWasReported(cpus, steps, pid, k);
    RunConserves(Init(cpus), steps, pid, k);
    RunLoses(Init(cpus), steps, pid, k);
  }

  /** Between evictions, the reading grows by exactly what is added. */
  lemma GrowthIsExact(s: State, steps: seq<Step>, pid: Pid, k: Counter)
    requires WellFormed(s) && Runs(s, steps) && Conserved(s, pid, k) && Placed(s, pid) && KeepingRun(s, steps, pid)
    ensures var e := Exec(s, steps);
      IoTotal(e.io, pid, k) - IoTotal(s.io, pid, k) == Get(IoOf(e.added, pid), k) - Get(IoOf(s.added, pid), k)
  {
    KeepingRunLosesNothing(s, steps, pid);
    RunConserves(s, steps, pid, k);
  }

  /** Eviction starts a new such stretch, unless a handler still points at the old entry. */
  lemma EvictionStartsAfresh(s: State, pid: Pid, k: Counter)
    requires WellFormed(s) && Conserved(s, pid, k)
    ensures var t := Apply(s, Evict(pid));
      && WellFormed(t) && Conserved(t, pid, k) && IoTotal(t.io, pid, k) == 0
      && (Placed(t, pid) <==> forall c | 0 <= c < |s.cpus| :: !(s.cpus[c].IoHit? && s.cpus[c].call.pid == pid))
  {
    StepKeepsWellFormed(s, Evict(pid));
    StepConserves(s, Evict(pid), pid, k);
  }

  /** No counter exceeds the total, so none overflows before the total does. */
  lemma SlotWithinTotal(slots: seq<IoStat>, c: nat, k: Counter)
    requires c < |slots| && forall i | 0 <= i < |slots| :: 0 <= Get(slots[i], k)
    ensures Get(slots[c], k) <= SumSeq(Column(slots, k))
  {
    SumSeqAtLeast(Column(slots, k), c);
  }

  // ---------------------------------------------------------------------------------
  // Userspace.

  ghost predicate IsSum(acc: IoStat, values: seq<IoStat>) {
    forall k :: Get(acc, k) == SumSeq(Column(values, k))
  }

  method SumPerCpu(values: seq<IoStat>) returns (acc: IoStat)
    ensures IsSum(acc, values)
  {
    acc := NO_IO;
    for i := 0 to |values|
      invariant IsSum(acc, values[..i])
    {
      var next := IoStat(acc.fileRead + values[i].fileRead, acc.fileWrite + values[i].fileWrite,
                         acc.netRx + values[i].netRx, acc.netTx + values[i].netTx);
      forall k ensures Get(next, k) == SumSeq(Column(values[..i + 1], k)) {
        SumSeqAppend(Column(values[..i], k), Get(values[i], k));
        assert Get(acc, k) == SumSeq(Column(values[..i], k));
        assert Column(values[..i + 1], k) == Column(values[..i], k) + [Get(values[i], k)];
      }
      acc := next;
    }
    assert values[..|values|] == values;
  }

  /** What walking a map yields, step by step; a step that fails yields nothing. */
  type Walk = seq<Option<(Pid, seq<IoStat>)>>

  /** The walk failed nowhere and met every entry of `io` once, in some order. */
  ghost predicate Enumerates(walk: Walk, io: map<Pid, Slots>) {
    && (forall i | 0 <= i < |walk| :: walk[i].Some? && walk[i].value.0 in io && walk[i].value.1 == io[walk[i].value.0].perCpu)
    && (forall i, j | 0 <= i < j < |walk| && walk[i].Some? && walk[j].Some? :: walk[i].value.0 != walk[j].value.0)
    && forall p | p in io :: exists i :: 0 <= i < |walk| && walk[i].Some? && walk[i].value.0 == p
  }

  /** `io_stats_summed`: the first step that fails fails the whole reading. */
  method IoStatsSummed(walk: Walk) returns (out: Option<seq<(Pid, IoStat)>>)
    ensures out.None? <==> exists i :: 0 <= i < |walk| && walk[i].None?
    ensures out.Some? ==> |out.value| == |walk|
    ensures out.Some? ==> forall i | 0 <= i < |walk| ::
      walk[i].Some? && out.value[i].0 == walk[i].value.0 && IsSum(out.value[i].1, walk[i].value.1)
  {
    var sums: seq<(Pid, IoStat)> := [];
    for n := 0 to |walk|
      invariant |sums| == n
      invariant forall i | 0 <= i < n ::
        walk[i].Some? && sums[i].0 == walk[i].value.0 && IsSum(sums[i].1, walk[i].value.1)
    {
      if walk[n].None? {
        return None;
      }
      var sum := SumPerCpu(walk[n].value.1);
      sums := sums + [(walk[n].value.0, sum)];
    }
    out := Some(sums);
  }

  /** Whatever the order of the walk, every pid comes out once, with its totals. */
  lemma EveryPidOnce(walk: Walk, io: map<Pid, Slots>, out: seq<(Pid, IoStat)>, p: Pid, k: Counter)
    requires Enumerates(walk, io) && |out| == |walk|
    requires forall i | 0 <= i < |walk| ::
      walk[i].Some? && out[i].0 == walk[i].value.0 && IsSum(out[i].1, walk[i].value.1)
    ensures forall i, j | 0 <= i < j < |out| :: out[i].0 != out[j].0
    ensures p in io <==> exists i :: 0 <= i < |out| && out[i].0 == p
    ensures forall i | 0 <= i < |out| && out[i].0 == p :: Get(out[i].1, k) == IoTotal(io, p, k)
  {
    if p in io {
      var i :| 0 <= i < |walk| && walk[i].Some? && walk[i].value.0 == p;
      assert out[i].0 == p;
    }
  }
}
