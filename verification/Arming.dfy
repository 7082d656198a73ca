/**
 * When is a subscribed pid really traced?
 *
 * The last guard of a pid leaves `streams` under one lock and clears `target_pids` under
 * another. A `subscribe` that falls in between re-arms the pid and is then disarmed.
 */
module Arming {
  import opened Common
  import opened Tracing
  import opened Subscriptions

  ghost predicate ArmedIfSubscribed(s: State, pid: Pid) {
    pid in s.streams ==> pid in s.targets && s.targets[pid] == ALL
  }

  /**
   * A step that loses no parent, and that subscribes `pid` only with a map insert that succeeds and while none
   * of its guards is closing.
   */
  ghost predicate Orderly(s: State, step: Step, pid: Pid)
    requires Enabled(s, step)
  {
    !LosesParent(s, step) && (step.Subscribe? && step.pid == pid ==> step.inserted && !Closing(s, pid))
  }

  ghost predicate OrderlyRun(s: State, steps: seq<Step>, pid: Pid)
    requires Runs(s, steps)
    decreases steps
  {
    steps == [] || (Orderly(s, steps[0], pid) && OrderlyRun(Apply(s, steps[0]), steps[1..], pid))
  }

  /** What orderly steps keep: while subscribed, `pid` is armed and nobody is closing it. */
  ghost predicate Safe(s: State, pid: Pid) {
    Full(s) && ArmedIfSubscribed(s, pid) && (pid in s.streams ==> !Closing(s, pid))
  }

  /** A guard closes a pid only while it is out of `streams`. */
  lemma ClosingAfter(s: State, step: Step, pid: Pid)
    requires Enabled(s, step) && Closing(Apply(s, step), pid)
    ensures Closing(s, pid) || (step.DropGuard? && s.subs[step.sub].pid == pid && Evicts(s, step.sub))
  {
    var t := Apply(s, step);
    var i :| 0 <= i < |t.subs| && t.subs[i].guard.Unmapping? && t.subs[i].pid == pid;
    match step
    case Subscribe(_, _) => assert t.subs[i] == s.subs[i];
    case Forward(event) => assert s.subs[i].guard == t.subs[i].guard && s.subs[i].pid == t.subs[i].pid;
    case _ =>
  }

  lemma OrderlyKeepsSafe(s: State, step: Step, pid: Pid)
    requires Inv(s) && Safe(s, pid) && Enabled(s, step) && Orderly(s, step, pid)
    ensures Safe(Apply(s, step), pid)
  {
    var t := Apply(s, step);
    StepKeepsFullExactly(s, step);
    if pid in t.streams && Closing(t, pid) {
      ClosingAfter(s, step, pid);
    }
    if step.Unmap? {
      assert s.subs[step.sub].guard.Unmapping?;
    }
  }

  lemma {:induction false} OrderlyRunKeepsSafe(s: State, steps: seq<Step>, pid: Pid)
    requires Inv(s) && Safe(s, pid) && Runs(s, steps) && OrderlyRun(s, steps, pid)
    ensures Safe(Exec(s, steps), pid)
    decreases steps
  {
    if steps != [] {
      StepKeepsInv(s, steps[0]);
      OrderlyKeepsSafe(s, steps[0], pid);
      OrderlyRunKeepsSafe(Apply(s, steps[0]), steps[1..], pid);
    }
  }

  /** Subscribed implies armed, in every state of every orderly run. */
  lemma SubscribedImpliesArmed(steps: seq<Step>, pid: Pid)
    requires Runs(INIT, steps) && OrderlyRun(INIT, steps, pid)
    ensures ArmedIfSubscribed(Exec(INIT, steps), pid)
  {
    OrderlyRunKeepsSafe(INIT, steps, pid);
  }

  /** Whatever the rest of the system orderly does from `s`, `pid` is armed while subscribed. */
  ghost predicate StaysArmed(s: State, pid: Pid) {
    forall steps | Runs(s, steps) && OrderlyRun(s, steps, pid) :: ArmedIfSubscribed(Exec(s, steps), pid)
  }

  /**
   * The window is exactly what matters: a `subscribe` is safe for ever after if and only
   * if no earlier guard of that pid is still closing.
   */
  lemma SubscribeIsSafeExactlyOutsideTheWindow(s: State, pid: Pid)
    requires Inv(s) && Full(s) && ArmedIfSubscribed(s, pid)
    ensures StaysArmed(Apply(s, Subscribe(pid, true)), pid) <==> !Closing(s, pid)
  {
    var t := Apply(s, Subscribe(pid, true));
    StepKeepsInv(s, Subscribe(pid, true));
    if Closing(s, pid) {
      var i :| 0 <= i < |s.subs| && s.subs[i].guard.Unmapping? && s.subs[i].pid == pid;
      assert t.subs[i] == s.subs[i];
      var steps := [Unmap(i)];
      var u := Apply(t, Unmap(i));
      assert steps[1..] == [];
      assert Runs(u, []) && OrderlyRun(u, [], pid);
      assert Runs(t, steps) && OrderlyRun(t, steps, pid);
      assert Exec(t, steps) == u;
      assert !ArmedIfSubscribed(u, pid);
    } else {
      OrderlyKeepsSafe(s, Subscribe(pid, true), pid);
      forall steps | Runs(t, steps) && OrderlyRun(t, steps, pid)
        ensures ArmedIfSubscribed(Exec(t, steps), pid)
      {
        OrderlyRunKeepsSafe(t, steps, pid);
      }
    }
  }

  /**
   * Whatever a run has been through, leaks and windows included, the next subscription of a pid that nobody
   * listens to leaves it with both flags, if the map takes the entry; one that finds a listener changes no entry.
   */
  lemma NextSubscriberRepairs(steps: seq<Step>, pid: Pid)
    requires Runs(INIT, steps)
    ensures Runs(INIT, steps + [Subscribe(pid, true)])
    ensures var s, t := Exec(INIT, steps), Exec(INIT, steps + [Subscribe(pid, true)]);
      if HasReceiver(s, pid) then t.targets == s.targets else pid in t.targets && t.targets[pid] == ALL
  {
    var s := Exec(INIT, steps);
    RunKeepsInv(INIT, steps);
    SubscribeArms(s, pid, true);
    assert [Subscribe(pid, true)][1..] == [];
    RunsConcat(INIT, steps, [Subscribe(pid, true)]);
  }

  /** A run from the start in which a live subscriber ends up untraced. */
  lemma WindowRun(pid: Pid)
    ensures var steps := [Subscribe(pid, true), DropReceiver(0), DropGuard(0), Subscribe(pid, true), Unmap(0)];
      && Runs(INIT, steps)
      && |Exec(INIT, steps).subs| == 2 && Exec(INIT, steps).subs[1].listening
      && pid in Exec(INIT, steps).streams
      && pid !in Exec(INIT, steps).targets
  {
    var a, b, c := Subscribe(pid, true), DropReceiver(0), DropGuard(0);
    var steps := [a, b, c, a, Unmap(0)];
    var s1 := Apply(INIT, a);
    var s2 := Apply(s1, b);
    var s3 := Apply(s2, c);
    var s4 := Apply(s3, a);
    var s5 := Apply(s4, Unmap(0));
    assert steps[1..] == [b, c, a, Unmap(0)];
    assert steps[1..][1..] == [c, a, Unmap(0)];
    assert steps[1..][1..][1..] == [a, Unmap(0)];
    assert steps[1..][1..][1..][1..] == [Unmap(0)];
    assert steps[1..][1..][1..][1..][1..] == [];
    assert Runs(s4, steps[1..][1..][1..][1..]);
    assert Runs(s3, steps[1..][1..][1..]);
    assert Runs(s2, steps[1..][1..]);
    assert Runs(s1, steps[1..]);
    assert Exec(INIT, steps) == Exec(s1, steps[1..]) == Exec(s2, steps[1..][1..])
        == Exec(s3, steps[1..][1..][1..]) == Exec(s4, steps[1..][1..][1..][1..]) == s5;
  }
}
