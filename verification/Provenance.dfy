/** Where the entries of `target_pids` come from. */
module Provenance {
  import opened Common
  import opened Tracing
  import opened Subscriptions

  ghost predicate OnceSubscribed(s: State, pid: Pid) {
    exists i :: 0 <= i < |s.subs| && s.subs[i].pid == pid
  }

  /** A chain of traced fork events from a once-subscribed pid, ending in `pid`. */
  ghost predicate Chain(s: State, chain: seq<Pid>, pid: Pid) {
    && |chain| > 0
    && OnceSubscribed(s, chain[0])
    && chain[|chain| - 1] == pid
    && forall k | 0 < k < |chain| :: (chain[k - 1], chain[k]) in s.forks
  }

  ghost predicate Linked(s: State, pid: Pid) {
    exists chain :: Chain(s, chain, pid)
  }

  /** Every entry, and every entry about to be written, descends from a subscriber. */
  ghost predicate Rooted(s: State) {
    && (forall p | p in s.targets :: Linked(s, p))
    && (forall cpu | cpu in s.forking ::
          Linked(s, s.forking[cpu].parent) && (s.forking[cpu].parent, s.forking[cpu].child) in s.forks)
  }

  /** ... and carries the metrics bit. */
  ghost predicate Metered(s: State) {
    && (forall p | p in s.targets :: ShouldTrace(s.targets, p))
    && (forall cpu | cpu in s.forking && s.forking[cpu].Looked? :: s.forking[cpu].flags & METRICS != 0)
  }

  ghost predicate Provenanced(s: State) {
    Rooted(s) && Metered(s)
  }

  lemma LinkedLater(s: State, t: State, pid: Pid)
    requires Linked(s, pid) && s.forks <= t.forks
    requires |s.subs| <= |t.subs| && forall i | 0 <= i < |s.subs| :: t.subs[i].pid == s.subs[i].pid
    ensures Linked(t, pid)
  {
    var chain :| Chain(s, chain, pid);
    var i :| 0 <= i < |s.subs| && s.subs[i].pid == chain[0];
    assert t.subs[i].pid == chain[0];
    assert Chain(t, chain, pid);
  }

  lemma LinkedChild(s: State, parent: Pid, child: Pid)
    requires Linked(s, parent) && (parent, child) in s.forks
    ensures Linked(s, child)
  {
    var chain :| Chain(s, chain, parent);
    assert Chain(s, chain + [child], child);
  }

  lemma LinkedSubscriber(s: State, pid: Pid, i: nat)
    requires i < |s.subs| && s.subs[i].pid == pid
    ensures Linked(s, pid)
  {
    assert Chain(s, [pid], pid);
  }

  lemma AllHasBoth()
    ensures ALL & METRICS != 0 && ALL & EVENTS != 0 && METRICS & METRICS != 0
  {
  }

  lemma SubsKeepPids(s: State, step: Step)
    requires Enabled(s, step)
    ensures var t := Apply(s, step);
      && s.forks <= t.forks && |s.subs| <= |t.subs|
      && forall i | 0 <= i < |s.subs| :: t.subs[i].pid == s.subs[i].pid
  {
  }

  lemma StepKeepsMetered(s: State, step: Step)
    requires Metered(s) && Enabled(s, step)
    ensures Metered(Apply(s, step))
  {
    AllHasBoth();
  }

  lemma StepKeepsRooted(s: State, step: Step)
    requires Rooted(s) && Enabled(s, step)
    ensures Rooted(Apply(s, step))
  {
    var t := Apply(s, step);
    SubsKeepPids(s, step);
    forall p | Linked(s, p) ensures Linked(t, p) {
      LinkedLater(s, t, p);
    }
    match step {
      case Subscribe(pid, _) =>
        LinkedSubscriber(t, pid, |s.subs|);
      case Fork(parent, child, _) =>
        if ShouldTrace(s.targets, parent) {
          LinkedChild(t, parent, child);
        }
      case ForkWrite(cpu, _) =>
        LinkedChild(t, s.forking[cpu].parent, s.forking[cpu].child);
      case _ =>
    }
  }

  lemma {:induction false} RunKeepsProvenance(s: State, steps: seq<Step>)
    requires Provenanced(s) && Runs(s, steps)
    ensures Provenanced(Exec(s, steps))
    decreases steps
  {
    if steps != [] {
      StepKeepsRooted(s, steps[0]);
      StepKeepsMetered(s, steps[0]);
      RunKeepsProvenance(Apply(s, steps[0]), steps[1..]);
    }
  }

  /** Nobody is traced who does not descend, by traced forks, from a subscribed pid. */
  lemma EveryTargetDescendsFromASubscriber(steps: seq<Step>)
    requires Runs(INIT, steps)
    ensures var e := Exec(INIT, steps);
      forall p | p in e.targets :: Linked(e, p) && e.targets[p] & METRICS != 0
  {
    RunKeepsProvenance(INIT, steps);
  }

  /**
   * However fork handlers interleave: in every state of a run each entry, and each entry about to be written, has
   * both flags, if and only if no handler found its parent gone at its second lookup.
   */
  lemma EveryTargetIsFullyTracedExactly(steps: seq<Step>)
    requires Runs(INIT, steps)
    ensures AlwaysFull(INIT, steps) <==> NoParentLost(INIT, steps)
  {
    AlwaysFullExactly(INIT, steps);
  }

  /** So a run in which no handler lost its parent ends with both flags on every entry. */
  lemma EveryTargetIsFullyTraced(steps: seq<Step>)
    requires Runs(INIT, steps) && NoParentLost(INIT, steps)
    ensures var e := Exec(INIT, steps); forall p | p in e.targets :: e.targets[p] == ALL
  {
    FullAtTheEnd(INIT, steps);
  }
}
