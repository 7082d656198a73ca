/** From the probes to the published numbers. */
module EndToEnd {
  import opened Common
  import opened IoAccounting
  import opened IoLedger
  import opened IoConservation
  import Rates

  /** A poll of the kernel's counters: every entry once, summed over the CPUs. */
  ghost predicate Polled(s: State, sample: Rates.Sample) {
    sample.Keys == s.io.Keys && forall p | p in s.io :: IsSum(sample[p], s.io[p].perCpu)
  }

  lemma PollReadsTotals(s: State, sample: Rates.Sample, p: Pid, k: Counter)
    requires Polled(s, sample)
    ensures Rates.Val(sample, p, k) == IoTotal(s.io, p, k)
  {
  }

  lemma {:induction false} AddedGrows(s: State, steps: seq<Step>, pid: Pid, k: Counter)
    requires WellFormed(s) && Runs(s, steps)
    ensures Get(IoOf(s.added, pid), k) <= Get(IoOf(Exec(s, steps).added, pid), k)
    decreases steps
  {
    if steps != [] {
      StepAdds(s, steps[0], pid, k);
      StepKeepsWellFormed(s, steps[0]);
      AddedGrows(Apply(s, steps[0]), steps[1..], pid, k);
    }
  }

  lemma StepAdds(s: State, step: Step, pid: Pid, k: Counter)
    requires WellFormed(s) && Enabled(s, step)
    ensures Get(IoOf(s.added, pid), k) <= Get(IoOf(Apply(s, step).added, pid), k)
  {
    if step.CommitIo? {
      var call := s.cpus[step.cpu].call;
      CreditCounts(s.added, call.pid, CallIo(call), pid, k);
    }
  }

  /**
   * What the poller takes for a pid's traffic between two polls is exactly what the
   * probes added in between, as long as its entry stayed in the map.
   */
  lemma PolledGrowthIsTraffic(s: State, steps: seq<Step>, before: Rates.Sample, after: Rates.Sample, pid: Pid, k: Counter)
    requires WellFormed(s) && Runs(s, steps) && Conserved(s, pid, k) && Placed(s, pid) && KeepingRun(s, steps, pid)
    requires Polled(s, before) && Polled(Exec(s, steps), after)
    ensures Rates.PollDelta(before, after, pid, k)
         == Get(IoOf(Exec(s, steps).added, pid), k) - Get(IoOf(s.added, pid), k)
    ensures Rates.PollDelta(before, after, pid, k) + UncommittedAll(Exec(s, steps).cpus, pid, k)
         == UncommittedAll(s.cpus, pid, k) + Reported(steps, pid, k)
  {
    RunBalances(s, steps, pid, k);
    GrowthIsExact(s, steps, pid, k);
    AddedGrows(s, steps, pid, k);
    PollReadsTotals(s, before, pid, k);
    PollReadsTotals(Exec(s, steps), after, pid, k);
  }
}
