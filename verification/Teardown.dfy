/** What is left behind when subscriptions go away. */
module Teardown {
  import opened Common
  import opened Subscriptions

  /** The declared field order of a subscription: its receiver goes before its guard. */
  ghost predicate InFieldOrder(s: State, step: Step)
    requires Enabled(s, step)
  {
    step.DropGuard? ==> !s.subs[step.sub].listening
  }

  ghost predicate FieldOrderRun(s: State, steps: seq<Step>)
    requires Runs(s, steps)
    decreases steps
  {
    steps == [] || (InFieldOrder(s, steps[0]) && FieldOrderRun(Apply(s, steps[0]), steps[1..]))
  }

  ghost predicate HasGuard(s: State, pid: Pid) {
    exists i :: 0 <= i < |s.subs| && s.subs[i].guard.Held? && s.subs[i].pid == pid
  }

  /** Every subscription of `pid` is gone, receiver and guard. */
  ghost predicate AllGone(s: State, pid: Pid) {
    !HasGuard(s, pid) && !HasReceiver(s, pid) && !Closing(s, pid)
  }

  /** Somebody is still responsible for every pid in `streams`. */
  ghost predicate Guarded(s: State) {
    && (forall p | p in s.streams :: HasGuard(s, p))
    && (forall i | 0 <= i < |s.subs| && s.subs[i].listening :: s.subs[i].guard.Held?)
  }

  /** Every entry that a fork did not write last is subscribed, or about to be removed. */
  ghost predicate Accounted(s: State) {
    forall p | p in s.targets && p !in s.inherited :: p in s.streams || Closing(s, p)
  }

  lemma ReceiversStayGuarded(s: State, step: Step)
    requires Guarded(s) && Enabled(s, step) && InFieldOrder(s, step)
    ensures var t := Apply(s, step); forall i | 0 <= i < |t.subs| && t.subs[i].listening :: t.subs[i].guard.Held?
  {
  }

  /** A guard dropped while its pid stays in `streams` leaves another guard behind. */
  lemma AnotherGuard(s: State, p: Pid, g: nat)
    requires Inv(s) && Guarded(s) && Enabled(s, DropGuard(g)) && InFieldOrder(s, DropGuard(g))
    requires p in Apply(s, DropGuard(g)).streams
    ensures HasGuard(Apply(s, DropGuard(g)), p)
  {
    var t := Apply(s, DropGuard(g));
    if s.subs[g].pid == p {
      var j :| 0 <= j < |s.subs| && s.subs[j].listening && s.subs[j].sender == s.streams[p];
      assert t.subs[j].guard.Held? && t.subs[j].pid == p;
    } else {
      var i :| 0 <= i < |s.subs| && s.subs[i].guard.Held? && s.subs[i].pid == p;
      assert t.subs[i].guard.Held? && t.subs[i].pid == p;
    }
  }

  lemma FieldOrderKeepsGuarded(s: State, step: Step)
    requires Inv(s) && Guarded(s) && Enabled(s, step) && InFieldOrder(s, step)
    ensures Guarded(Apply(s, step))
  {
    var t := Apply(s, step);
    ReceiversStayGuarded(s, step);
    forall p | p in t.streams ensures HasGuard(t, p) {
      if step.DropGuard? {
        AnotherGuard(s, p, step.sub);
      } else if step.Subscribe? && step.pid == p {
        assert t.subs[|s.subs|].guard.Held? && t.subs[|s.subs|].pid == p;
      } else {
        var i :| 0 <= i < |s.subs| && s.subs[i].guard.Held? && s.subs[i].pid == p;
        assert t.subs[i].guard.Held? && t.subs[i].pid == p;
      }
    }
  }

  lemma StepKeepsAccounted(s: State, step: Step)
    requires Accounted(s) && Enabled(s, step)
    ensures Accounted(Apply(s, step))
  {
    var t := Apply(s, step);
    forall p | p in t.targets && p !in t.inherited && p !in t.streams ensures Closing(t, p) {
      assert p in s.targets && p !in s.inherited;
      if p in s.streams {
        assert t.subs[step.sub].guard.Unmapping? && t.subs[step.sub].pid == p;
      } else {
        var i :| 0 <= i < |s.subs| && s.subs[i].guard.Unmapping? && s.subs[i].pid == p;
        assert t.subs[i].guard.Unmapping? && t.subs[i].pid == p;
      }
    }
  }

  lemma {:induction false} FieldOrderRunKeeps(s: State, steps: seq<Step>)
    requires Inv(s) && Guarded(s) && Accounted(s) && Runs(s, steps) && FieldOrderRun(s, steps)
    ensures var e := Exec(s, steps); Inv(e) && Guarded(e) && Accounted(e)
    decreases steps
  {
    if steps != [] {
      StepKeepsInv(s, steps[0]);
      FieldOrderKeepsGuarded(s, steps[0]);
      StepKeepsAccounted(s, steps[0]);
      FieldOrderRunKeeps(Apply(s, steps[0]), steps[1..]);
    }
  }

  /**
   * With receivers dropped before guards, a pid whose subscriptions are all gone is in
   * neither map, except for an entry a later fork wrote.
   */
  lemma TeardownIsComplete(steps: seq<Step>, pid: Pid)
    requires Runs(INIT, steps) && FieldOrderRun(INIT, steps) && AllGone(Exec(INIT, steps), pid)
    ensures var e := Exec(INIT, steps); pid !in e.streams && (pid in e.targets ==> pid in e.inherited)
  {
    FieldOrderRunKeeps(INIT, steps);
  }

  predicate ForksInto(step: Step, pid: Pid) {
    (step.Fork? && step.child == pid) || (step.ForkGate? && step.child == pid)
  }

  /** `inherited` means what it says: without a fork into `pid`, it never holds `pid`. */
  lemma {:induction false} InheritedNeedsAFork(s: State, steps: seq<Step>, pid: Pid)
    requires Runs(s, steps) && forall k | 0 <= k < |steps| :: !ForksInto(steps[k], pid)
    requires pid !in s.inherited && forall cpu | cpu in s.forking :: s.forking[cpu].child != pid
    ensures pid !in Exec(s, steps).inherited
    decreases steps
  {
    if steps != [] {
      assert !ForksInto(steps[0], pid);
      InheritedNeedsAFork(Apply(s, steps[0]), steps[1..], pid);
    }
  }

  /** Once everything is gone, `streams` is empty and so is `target_pids` but for forks. */
  lemma NothingIsLeft(steps: seq<Step>)
    requires Runs(INIT, steps) && FieldOrderRun(INIT, steps)
    requires forall p :: AllGone(Exec(INIT, steps), p)
    ensures Exec(INIT, steps).streams == map[]
    ensures forall p | p in Exec(INIT, steps).targets :: exists k :: 0 <= k < |steps| && ForksInto(steps[k], p)
  {
    var e := Exec(INIT, steps);
    forall p | p in e.streams ensures false {
      TeardownIsComplete(steps, p);
    }
    forall p | p in e.targets ensures exists k :: 0 <= k < |steps| && ForksInto(steps[k], p) {
      TeardownIsComplete(steps, p);
      if forall k | 0 <= k < |steps| :: !ForksInto(steps[k], p) {
        InheritedNeedsAFork(INIT, steps, p);
      }
    }
  }

  // ---------------------------------------------------------------------------------
  // Callers that separate the two, as the event-stream route does.

  lemma {:induction false} UntouchedStream(s: State, steps: seq<Step>, pid: Pid)
    requires Runs(s, steps)
    requires forall k | 0 <= k < |steps| :: !(steps[k].Subscribe? && steps[k].pid == pid)
    requires !HasGuard(s, pid)
    ensures !HasGuard(Exec(s, steps), pid)
    ensures pid in Exec(s, steps).streams <==> pid in s.streams
    decreases steps
  {
    if steps != [] {
      var t := Apply(s, steps[0]);
      assert !(steps[0].Subscribe? && steps[0].pid == pid);
      forall i | 0 <= i < |t.subs| && t.subs[i].pid == pid ensures !t.subs[i].guard.Held? {
        assert i < |s.subs| && s.subs[i].pid == pid;
      }
      if steps[0].DropGuard? {
        assert s.subs[steps[0].sub].pid != pid;
      }
      UntouchedStream(t, steps[1..], pid);
    }
  }

  lemma LastGuardLeaves(s: State, g: nat, pid: Pid)
    requires Inv(s) && Enabled(s, DropGuard(g)) && s.subs[g].pid == pid
    requires forall i | 0 <= i < |s.subs| && s.subs[i].guard.Held? && s.subs[i].pid == pid :: i == g
    ensures var t := Apply(s, DropGuard(g)); !HasGuard(t, pid) && (pid in t.streams <==> HasReceiver(s, pid))
  {
    var t := Apply(s, DropGuard(g));
    forall i | 0 <= i < |t.subs| && t.subs[i].pid == pid ensures !t.subs[i].guard.Held? {
      assert s.subs[i].pid == pid;
    }
    if pid in s.streams {
      assert Evicts(s, g) <==> !HasReceiver(s, pid);
    }
  }

  lemma LeakSettles(s: State, g: nat, after: seq<Step>, pid: Pid)
    requires Inv(s) && Enabled(s, DropGuard(g)) && s.subs[g].pid == pid && Runs(Apply(s, DropGuard(g)), after)
    requires forall i | 0 <= i < |s.subs| && s.subs[i].guard.Held? && s.subs[i].pid == pid :: i == g
    requires forall k | 0 <= k < |after| :: !(after[k].Subscribe? && after[k].pid == pid)
    ensures pid in Exec(Apply(s, DropGuard(g)), after).streams <==> HasReceiver(s, pid)
  {
    LastGuardLeaves(s, g, pid);
    UntouchedStream(Apply(s, DropGuard(g)), after, pid);
  }

  lemma DropThenRest(s: State, before: seq<Step>, step: Step, after: seq<Step>)
    requires Runs(s, before + [step] + after)
    ensures Runs(s, before) && Enabled(Exec(s, before), step) && Runs(Apply(Exec(s, before), step), after)
    ensures Exec(s, before + [step] + after) == Exec(Apply(Exec(s, before), step), after)
  {
    ExecSplit(s, before + [step], after);
    ExecSplit(s, before, [step]);
    assert [step][1..] == [];
  }

  /**
   * Exactly when a pid leaks: nobody holds a guard for it any more, yet it stays in
   * `streams` for good, if and only if some receiver was listening when its last guard went.
   */
  lemma LeakExactlyWhenAReceiverOutlivesTheLastGuard(before: seq<Step>, g: nat, after: seq<Step>)
    requires Runs(INIT, before + [DropGuard(g)] + after)
    requires Runs(INIT, before) && g < |Exec(INIT, before).subs|
    requires var s := Exec(INIT, before); var pid := s.subs[g].pid;
      && (forall i | 0 <= i < |s.subs| && s.subs[i].guard.Held? && s.subs[i].pid == pid :: i == g)
      && (forall k | 0 <= k < |after| :: !(after[k].Subscribe? && after[k].pid == pid))
    ensures var s := Exec(INIT, before); var pid := s.subs[g].pid;
      pid in Exec(INIT, before + [DropGuard(g)] + after).streams <==> HasReceiver(s, pid)
  {
    DropThenRest(INIT, before, DropGuard(g), after);
    RunKeepsInv(INIT, before);
    LeakSettles(Exec(INIT, before), g, after, Exec(INIT, before).subs[g].pid);
  }

  // What the kernel goes on doing: the entry in `target_pids`.

  lemma {:induction false} RunKeepsAccounted(s: State, steps: seq<Step>)
    requires Accounted(s) && Runs(s, steps)
    ensures Accounted(Exec(s, steps))
    decreases steps
  {
    if steps != [] {
      StepKeepsAccounted(s, steps[0]);
      RunKeepsAccounted(Apply(s, steps[0]), steps[1..]);
    }
  }

  /** Steps that are about `pid` and could write its entry. */
  predicate Writes(step: Step, pid: Pid) {
    (step.Subscribe? && step.pid == pid) || ForksInto(step, pid)
  }

  ghost predicate NoForkUnderWay(s: State, pid: Pid) {
    forall cpu | cpu in s.forking :: s.forking[cpu].child != pid
  }

  /** An entry is gone, or on its way out. */
  ghost predicate Leaving(s: State, pid: Pid) {
    Closing(s, pid) || pid !in s.targets
  }

  lemma StepKeepsLeaving(s: State, step: Step, pid: Pid)
    requires Enabled(s, step) && Leaving(s, pid) && NoForkUnderWay(s, pid) && !Writes(step, pid)
    ensures Leaving(Apply(s, step), pid) && NoForkUnderWay(Apply(s, step), pid)
  {
    var t := Apply(s, step);
    if Closing(s, pid) && pid in t.targets {
      var i :| 0 <= i < |s.subs| && s.subs[i].guard.Unmapping? && s.subs[i].pid == pid;
      assert t.subs[i].guard.Unmapping? && t.subs[i].pid == pid;
    }
  }

  lemma {:induction false} RunKeepsLeaving(s: State, steps: seq<Step>, pid: Pid)
    requires Runs(s, steps) && Leaving(s, pid) && NoForkUnderWay(s, pid)
    requires forall k | 0 <= k < |steps| :: !Writes(steps[k], pid)
    ensures Leaving(Exec(s, steps), pid)
    decreases steps
  {
    if steps != [] {
      assert !Writes(steps[0], pid);
      StepKeepsLeaving(s, steps[0], pid);
      RunKeepsLeaving(Apply(s, steps[0]), steps[1..], pid);
    }
  }

  /** Nobody is left who could remove the entry. */
  ghost predicate Orphaned(s: State, pid: Pid) {
    !HasGuard(s, pid) && !Closing(s, pid) && pid in s.targets
  }

  lemma StepKeepsOrphaned(s: State, step: Step, pid: Pid)
    requires Enabled(s, step) && Orphaned(s, pid) && !(step.Subscribe? && step.pid == pid)
    ensures Orphaned(Apply(s, step), pid)
  {
    var t := Apply(s, step);
    forall i | 0 <= i < |t.subs| && t.subs[i].pid == pid ensures t.subs[i].guard.Dropped? {
      assert i < |s.subs| && s.subs[i].pid == pid && s.subs[i].guard.Dropped?;
    }
    if step.Unmap? {
      assert s.subs[step.sub].pid != pid;
    }
  }

  lemma {:induction false} RunKeepsOrphaned(s: State, steps: seq<Step>, pid: Pid)
    requires Runs(s, steps) && Orphaned(s, pid)
    requires forall k | 0 <= k < |steps| :: !(steps[k].Subscribe? && steps[k].pid == pid)
    ensures Orphaned(Exec(s, steps), pid)
    decreases steps
  {
    if steps != [] {
      assert !(steps[0].Subscribe? && steps[0].pid == pid);
      StepKeepsOrphaned(s, steps[0], pid);
      RunKeepsOrphaned(Apply(s, steps[0]), steps[1..], pid);
    }
  }

  lemma {:induction false} NoForkBegins(s: State, steps: seq<Step>, pid: Pid)
    requires Runs(s, steps) && NoForkUnderWay(s, pid) && forall k | 0 <= k < |steps| :: !ForksInto(steps[k], pid)
    ensures NoForkUnderWay(Exec(s, steps), pid)
    decreases steps
  {
    if steps != [] {
      assert !ForksInto(steps[0], pid);
      NoForkBegins(Apply(s, steps[0]), steps[1..], pid);
    }
  }

  /** The drop of the last guard orphans the entry, or sets it on its way out. */
  lemma LastGuardDecides(s: State, g: nat, pid: Pid)
    requires Inv(s) && Accounted(s) && pid !in s.inherited && Enabled(s, DropGuard(g)) && s.subs[g].pid == pid
    requires forall i | 0 <= i < |s.subs| && s.subs[i].guard.Held? && s.subs[i].pid == pid :: i == g
    ensures var t := Apply(s, DropGuard(g));
      if pid in s.targets && HasReceiver(s, pid) && !Closing(s, pid) then Orphaned(t, pid) else Leaving(t, pid)
  {
    var t := Apply(s, DropGuard(g));
    if Closing(s, pid) {
      var i :| 0 <= i < |s.subs| && s.subs[i].guard.Unmapping? && s.subs[i].pid == pid;
      assert t.subs[i].guard.Unmapping? && t.subs[i].pid == pid;
    } else if pid in s.targets {
      assert pid in s.streams;
      assert Evicts(s, g) <==> !HasReceiver(s, pid);
      if Evicts(s, g) {
        assert t.subs[g].guard.Unmapping? && t.subs[g].pid == pid;
      }
    }
  }

  /**
   * Exactly when the kernel goes on tracing a pid that nobody holds a guard for, once every drop has run to its
   * end and no fork re-added it: it was armed, a receiver was listening when its last guard went, and no earlier
   * guard was still closing it.
   */
  lemma TracingLeaksExactly(before: seq<Step>, g: nat, after: seq<Step>)
    requires Runs(INIT, before + [DropGuard(g)] + after)
    requires Runs(INIT, before) && g < |Exec(INIT, before).subs|
    requires var s := Exec(INIT, before); var pid := s.subs[g].pid;
      && (forall i | 0 <= i < |s.subs| && s.subs[i].guard.Held? && s.subs[i].pid == pid :: i == g)
      && (forall k | 0 <= k < |before| :: !ForksInto(before[k], pid))
      && (forall k | 0 <= k < |after| :: !Writes(after[k], pid))
      && !Closing(Exec(INIT, before + [DropGuard(g)] + after), pid)
    ensures var s := Exec(INIT, before); var pid := s.subs[g].pid;
      pid in Exec(INIT, before + [DropGuard(g)] + after).targets
      <==> pid in s.targets && HasReceiver(s, pid) && !Closing(s, pid)
  {
    DropThenRest(INIT, before, DropGuard(g), after);
    var s := Exec(INIT, before);
    var pid := s.subs[g].pid;
    RunKeepsInv(INIT, before);
    RunKeepsAccounted(INIT, before);
    InheritedNeedsAFork(INIT, before, pid);
    NoForkBegins(INIT, before, pid);
    LastGuardDecides(s, g, pid);
    LastGuardSettles(Apply(s, DropGuard(g)), after, pid);
  }

  lemma LastGuardSettles(t: State, after: seq<Step>, pid: Pid)
    requires Runs(t, after) && (Orphaned(t, pid) || Leaving(t, pid)) && NoForkUnderWay(t, pid)
    requires forall k | 0 <= k < |after| :: !Writes(after[k], pid)
    requires !Closing(Exec(t, after), pid)
    ensures pid in Exec(t, after).targets <==> Orphaned(t, pid)
  {
    if Orphaned(t, pid) {
      assert forall k | 0 <= k < |after| :: !Writes(after[k], pid) && !(after[k].Subscribe? && after[k].pid == pid);
      RunKeepsOrphaned(t, after, pid);
    } else {
      RunKeepsLeaving(t, after, pid);
    }
  }

  /** A run from the start that leaves a pid in both maps with nobody left: the guard goes first. */
  lemma LeakRun(pid: Pid)
    ensures var steps := [Subscribe(pid, true), DropGuard(0), DropReceiver(0)];
      && Runs(INIT, steps) && AllGone(Exec(INIT, steps), pid)
      && pid in Exec(INIT, steps).streams && pid in Exec(INIT, steps).targets
  {
    var a, b, c := Subscribe(pid, true), DropGuard(0), DropReceiver(0);
    var steps := [a, b, c];
    var s1 := Apply(INIT, a);
    var s2 := Apply(s1, b);
    var s3 := Apply(s2, c);
    assert steps[1..] == [b, c] && steps[1..][1..] == [c] && steps[1..][1..][1..] == [];
    assert Runs(s2, steps[1..][1..]);
    assert Runs(s1, steps[1..]);
    assert Exec(INIT, steps) == Exec(s1, steps[1..]) == Exec(s2, steps[1..][1..]) == s3;
  }

  /** A stranded sender, with no receiver and no guard, betrays a guard dropped out of order. */
  lemma StrandedMeansOutOfOrder(steps: seq<Step>, pid: Pid)
    requires Runs(INIT, steps) && pid in Exec(INIT, steps).streams && AllGone(Exec(INIT, steps), pid)
    ensures !FieldOrderRun(INIT, steps)
  {
    if FieldOrderRun(INIT, steps) {
      TeardownIsComplete(steps, pid);
    }
  }
}
