/**
 * The subscription protocol as a state machine over its critical sections.
 *
 * A subscription is a receiver and a guard, which callers may drop separately. Dropping
 * the guard takes two critical sections under two different locks, and the kernel's fork
 * handler writes `target_pids` under neither.
 */
module Subscriptions {
  import opened Common
  import opened Tracing

  datatype Event = Event(pid: Pid, body: nat)

  /** `Unmapping`: the pid has left `streams`, its removal from `target_pids` is still to come. */
  datatype Guard = Held | Unmapping | Dropped

  /** `received` is everything the receiver has been sent, oldest first. */
  datatype Subscription = Subscription(pid: Pid, sender: nat, listening: bool, guard: Guard, received: seq<Event>)

  /** A fork handler on its way, between its lookups and its update. */
  datatype Forking = Gated(parent: Pid, child: Pid) | Looked(parent: Pid, child: Pid, flags: bv8)

  /**
   * `streams` names the current broadcast sender of a pid. Subscriptions are numbered by
   * their position in `subs`, for ever. `forks` and `inherited` are history: the traced
   * fork events so far, and the pids whose entry was last written by the fork handler.
   */
  datatype State = State(
    streams: map<Pid, nat>,
    targets: Targets,
    subs: seq<Subscription>,
    nextSender: nat,
    forking: map<nat, Forking>,
    forks: set<(Pid, Pid)>,
    inherited: set<Pid>)

  /** `inserted` is whether the map update of that step succeeds. */
  datatype Step =
    | Subscribe(pid: Pid, inserted: bool)
    | DropReceiver(sub: nat)
    | DropGuard(sub: nat)
    | Unmap(sub: nat)
    | Forward(event: Event)
    | Fork(parent: Pid, child: Pid, inserted: bool)
    | ForkGate(cpu: nat, parent: Pid, child: Pid)
    | ForkLook(cpu: nat)
    | ForkWrite(cpu: nat, inserted: bool)

  const INIT: State := State(map[], map[], [], 0, map[], {}, {})

  /** `receiver_count() == 0` */
  predicate NoReceivers(subs: seq<Subscription>, sender: nat) {
    forall i | 0 <= i < |subs| :: !(subs[i].listening && subs[i].sender == sender)
  }

  predicate Enabled(s: State, step: Step) {
    match step
    case Subscribe(_, _) => true
    case DropReceiver(i) => i < |s.subs| && s.subs[i].listening
    case DropGuard(i) => i < |s.subs| && s.subs[i].guard.Held?
    case Unmap(i) => i < |s.subs| && s.subs[i].guard.Unmapping?
    case Forward(_) => true
    case Fork(_, _, _) => true
    case ForkGate(cpu, _, _) => cpu !in s.forking
    case ForkLook(cpu) => cpu in s.forking && s.forking[cpu].Gated?
    case ForkWrite(cpu, _) => cpu in s.forking && s.forking[cpu].Looked?
  }

  predicate NeedsArm(s: State, pid: Pid) {
    pid !in s.streams || NoReceivers(s.subs, s.streams[pid])
  }

  function Subscribed(s: State, pid: Pid, inserted: bool): State {
    var sender := if pid in s.streams then s.streams[pid] else s.nextSender;
    var armed := NeedsArm(s, pid) && inserted;
    s.(streams := s.streams[pid := sender],
       targets := Updated(s.targets, pid, ALL, armed),
       subs := s.subs + [Subscription(pid, sender, true, Held, [])],
       nextSender := if pid in s.streams then s.nextSender else s.nextSender + 1,
       inherited := if armed then s.inherited - {pid} else s.inherited)
  }

  predicate Evicts(s: State, i: nat)
    requires i < |s.subs|
  {
    var pid := s.subs[i].pid;
    pid in s.streams && NoReceivers(s.subs, s.streams[pid])
  }

  function GuardDropped(s: State, i: nat): State
    requires i < |s.subs|
  {
    if Evicts(s, i) then
      s.(streams := s.streams - {s.subs[i].pid}, subs := s.subs[i := s.subs[i].(guard := Unmapping)])
    else
      s.(subs := s.subs[i := s.subs[i].(guard := Dropped)])
  }

  function Unmapped(s: State, i: nat): State
    requires i < |s.subs|
  {
    var pid := s.subs[i].pid;
    s.(targets := s.targets - {pid},
       subs := s.subs[i := s.subs[i].(guard := Dropped)],
       inherited := s.inherited - {pid})
  }

  /** What the channel does with a send: every attached receiver gets the event. */
  function Sent(sub: Subscription, sender: nat, event: Event): Subscription {
    if sub.listening && sub.sender == sender then sub.(received := sub.received + [event]) else sub
  }

  function Forwarded(s: State, event: Event): State {
    if event.pid in s.streams then
      s.(subs := seq(|s.subs|, i requires 0 <= i < |s.subs| => Sent(s.subs[i], s.streams[event.pid], event)))
    else s
  }

  function ForkWritten(s: State, child: Pid, flags: bv8, inserted: bool): State {
    s.(targets := Updated(s.targets, child, flags, inserted),
       inherited := if inserted then s.inherited + {child} else s.inherited)
  }

  function Apply(s: State, step: Step): State
    requires Enabled(s, step)
  {
    match step
    case Subscribe(pid, inserted) => Subscribed(s, pid, inserted)
    case DropReceiver(i) => s.(subs := s.subs[i := s.subs[i].(listening := false)])
    case DropGuard(i) => GuardDropped(s, i)
    case Unmap(i) => Unmapped(s, i)
    case Forward(event) => Forwarded(s, event)
    case Fork(parent, child, inserted) =>
      if ShouldTrace(s.targets, parent) then
        ForkWritten(s.(forks := s.forks + {(parent, child)}), child, InheritedFlags(s.targets, parent), inserted)
      else s
    case ForkGate(cpu, parent, child) =>
      if ShouldTrace(s.targets, parent) then
        s.(forking := s.forking[cpu := Gated(parent, child)], forks := s.forks + {(parent, child)})
      else s
    case ForkLook(cpu) =>
      var f := s.forking[cpu];
      s.(forking := s.forking[cpu := Looked(f.parent, f.child, InheritedFlags(s.targets, f.parent))])
    case ForkWrite(cpu, inserted) =>
      var f := s.forking[cpu];
      ForkWritten(s.(forking := s.forking - {cpu}), f.child, f.flags, inserted)
  }

  predicate Runs(s: State, steps: seq<Step>)
    decreases steps
  {
    steps == [] || (Enabled(s, steps[0]) && Runs(Apply(s, steps[0]), steps[1..]))
  }

  function Exec(s: State, steps: seq<Step>): State
    requires Runs(s, steps)
    decreases steps
  {
    if steps == [] then s else Exec(Apply(s, steps[0]), steps[1..])
  }

  lemma {:induction false} ExecSplit(s: State, first: seq<Step>, second: seq<Step>)
    requires Runs(s, first + second)
    ensures Runs(s, first) && Runs(Exec(s, first), second)
    ensures Exec(s, first + second) == Exec(Exec(s, first), second)
    decreases first
  {
    if first == [] {
      assert first + second == second;
    } else {
      assert (first + second)[1..] == first[1..] + second;
      ExecSplit(Apply(s, first[0]), first[1..], second);
    }
  }

  lemma {:induction false} RunsConcat(s: State, first: seq<Step>, second: seq<Step>)
    requires Runs(s, first) && Runs(Exec(s, first), second)
    ensures Runs(s, first + second) && Exec(s, first + second) == Exec(Exec(s, first), second)
    decreases first
  {
    if first == [] {
      assert first + second == second;
    } else {
      assert (first + second)[1..] == first[1..] + second;
      RunsConcat(Apply(s, first[0]), first[1..], second);
    }
  }

  /** A child whose parent has the metrics bit gets its parent's very flags; any other fork changes nothing. */
  lemma ForkCopiesTheEntry(s: State, parent: Pid, child: Pid, inserted: bool)
    ensures var t := Apply(s, Fork(parent, child, inserted));
      if parent in s.targets && s.targets[parent] & METRICS != 0
      then t.targets == (if inserted then s.targets[child := s.targets[parent]] else s.targets) && (parent, child) in t.forks
      else t == s
  {
  }

  /** The atomic fork step is the three micro-steps of the handler run back to back. */
  lemma AtomicForkIsTheHandler(s: State, cpu: nat, parent: Pid, child: Pid, inserted: bool)
    requires cpu !in s.forking && ShouldTrace(s.targets, parent)
    ensures Runs(s, [ForkGate(cpu, parent, child), ForkLook(cpu), ForkWrite(cpu, inserted)])
    ensures Exec(s, [ForkGate(cpu, parent, child), ForkLook(cpu), ForkWrite(cpu, inserted)])
         == Apply(s, Fork(parent, child, inserted))
  {
    var s1 := Apply(s, ForkGate(cpu, parent, child));
    var s2 := Apply(s1, ForkLook(cpu));
    var s3 := Apply(s2, ForkWrite(cpu, inserted));
    assert s3.forking == s.forking;
    var steps := [ForkGate(cpu, parent, child), ForkLook(cpu), ForkWrite(cpu, inserted)];
    assert steps[1..] == [ForkLook(cpu), ForkWrite(cpu, inserted)];
    assert steps[1..][1..] == [ForkWrite(cpu, inserted)];
    assert steps[1..][1..][1..] == [];
    assert Runs(s2, steps[1..][1..]);
    assert Runs(s1, steps[1..]);
    assert Exec(s, steps) == Exec(s1, steps[1..]) == Exec(s2, steps[1..][1..]) == Exec(s3, steps[1..][1..][1..]);
  }

  // ---------------------------------------------------------------------------------
  // Attachment: holds under every interleaving and every drop order.

  /** Every live receiver of a pid is attached to the sender that `forward` would use. */
  ghost predicate Attached(s: State) {
    forall i | 0 <= i < |s.subs| && s.subs[i].listening ::
      s.subs[i].pid in s.streams && s.subs[i].sender == s.streams[s.subs[i].pid]
  }

  /** A sender serves one pid, and senders are never reused. */
  ghost predicate OwnSender(s: State) {
    && (forall p | p in s.streams :: s.streams[p] < s.nextSender)
    && (forall p, q | p in s.streams && q in s.streams && s.streams[p] == s.streams[q] :: p == q)
    && (forall i | 0 <= i < |s.subs| :: s.subs[i].sender < s.nextSender)
    && (forall i, p | 0 <= i < |s.subs| && p in s.streams && s.subs[i].sender == s.streams[p] :: s.subs[i].pid == p)
  }

  ghost predicate Inv(s: State) {
    Attached(s) && OwnSender(s)
  }

  lemma SubscribeKeepsInv(s: State, pid: Pid, inserted: bool)
    requires Inv(s)
    ensures Inv(Subscribed(s, pid, inserted))
  {
    var t := Subscribed(s, pid, inserted);
    assert forall i | 0 <= i < |s.subs| :: t.subs[i] == s.subs[i];
    assert Attached(t);
    assert OwnSender(t);
  }

  lemma GuardDropKeepsInv(s: State, i: nat)
    requires Inv(s) && i < |s.subs|
    ensures Inv(GuardDropped(s, i))
  {
  }

  lemma StepKeepsInv(s: State, step: Step)
    requires Inv(s) && Enabled(s, step)
    ensures Inv(Apply(s, step))
  {
    match step
    case Subscribe(pid, inserted) => SubscribeKeepsInv(s, pid, inserted);
    case DropGuard(i) => GuardDropKeepsInv(s, i);
    case _ => SameShapeKeepsInv(s, Apply(s, step));
  }

  /** Steps that leave `streams` alone and at most silence receivers. */
  lemma SameShapeKeepsInv(s: State, t: State)
    requires Inv(s)
    requires t.streams == s.streams && t.nextSender == s.nextSender && |t.subs| == |s.subs|
    requires forall i | 0 <= i < |s.subs| ::
      && t.subs[i].pid == s.subs[i].pid && t.subs[i].sender == s.subs[i].sender
      && (t.subs[i].listening ==> s.subs[i].listening)
    ensures Inv(t)
  {
  }

  lemma {:induction false} RunKeepsInv(s: State, steps: seq<Step>)
    requires Inv(s) && Runs(s, steps)
    ensures Inv(Exec(s, steps))
    decreases steps
  {
    if steps != [] {
      StepKeepsInv(s, steps[0]);
      RunKeepsInv(Apply(s, steps[0]), steps[1..]);
    }
  }

  /** Under every interleaving, whatever order callers drop receivers and guards. */
  lemma AlwaysAttached(steps: seq<Step>)
    requires Runs(INIT, steps)
    ensures Attached(Exec(INIT, steps))
  {
    RunKeepsInv(INIT, steps);
  }

  /** Somebody is listening for `pid`. */
  ghost predicate HasReceiver(s: State, pid: Pid) {
    exists i :: 0 <= i < |s.subs| && s.subs[i].listening && s.subs[i].pid == pid
  }

  /** Some guard of `pid` has left `streams` but not yet `target_pids`. */
  ghost predicate Closing(s: State, pid: Pid) {
    exists i :: 0 <= i < |s.subs| && s.subs[i].guard.Unmapping? && s.subs[i].pid == pid
  }

  /** Nobody listens on the sender of a pid exactly when nobody listens for the pid. */
  lemma ListenersOfTheSender(s: State, pid: Pid)
    requires Inv(s)
    ensures HasReceiver(s, pid) <==> pid in s.streams && !NoReceivers(s.subs, s.streams[pid])
  {
    if HasReceiver(s, pid) {
      var i :| 0 <= i < |s.subs| && s.subs[i].listening && s.subs[i].pid == pid;
      assert s.subs[i].sender == s.streams[pid];
    }
  }

  /**
   * What a subscription does to `target_pids`: it arms its pid, with both flags, exactly when nobody listened for
   * it yet and the map takes the entry.
   */
  lemma SubscribeArms(s: State, pid: Pid, inserted: bool)
    requires Inv(s)
    ensures Apply(s, Subscribe(pid, inserted)).targets
         == if !HasReceiver(s, pid) && inserted then s.targets[pid := ALL] else s.targets
  {
    ListenersOfTheSender(s, pid);
  }

  // ---------------------------------------------------------------------------------
  // Delivery.

  /** What a live receiver of `pid`, subscription `i`, is owed by a stretch of run. */
  function Owed(steps: seq<Step>, i: nat, pid: Pid): seq<Event> {
    if steps == [] || steps[0] == DropReceiver(i) then []
    else if steps[0].Forward? && steps[0].event.pid == pid then [steps[0].event] + Owed(steps[1..], i, pid)
    else Owed(steps[1..], i, pid)
  }

  /** One `forward` reaches exactly the live receivers of its pid. */
  lemma ForwardReachesExactly(s: State, event: Event, i: nat)
    requires Inv(s) && i < |s.subs|
    ensures Apply(s, Forward(event)).subs[i]
         == if s.subs[i].listening && s.subs[i].pid == event.pid
            then s.subs[i].(received := s.subs[i].received + [event]) else s.subs[i]
  {
  }

  lemma StepKeepsSubscription(s: State, step: Step, i: nat)
    requires Inv(s) && Enabled(s, step) && i < |s.subs|
    ensures var t := Apply(s, step);
      && i < |t.subs| && t.subs[i].pid == s.subs[i].pid
      && t.subs[i].listening == (s.subs[i].listening && step != DropReceiver(i))
      && t.subs[i].received == s.subs[i].received
         + (if step.Forward? && s.subs[i].listening && step.event.pid == s.subs[i].pid then [step.event] else [])
  {
    if step.Forward? {
      ForwardReachesExactly(s, step.event, i);
    }
  }

  lemma {:induction false} DeadReceiverIsSilent(s: State, steps: seq<Step>, i: nat)
    requires Inv(s) && Runs(s, steps) && i < |s.subs| && !s.subs[i].listening
    ensures i < |Exec(s, steps).subs| && Exec(s, steps).subs[i].received == s.subs[i].received
    decreases steps
  {
    if steps != [] {
      StepKeepsInv(s, steps[0]);
      StepKeepsSubscription(s, steps[0], i);
      DeadReceiverIsSilent(Apply(s, steps[0]), steps[1..], i);
    }
  }

  lemma {:induction false} LiveReceiverGetsWhatItIsOwed(s: State, steps: seq<Step>, i: nat)
    requires Inv(s) && Runs(s, steps) && i < |s.subs| && s.subs[i].listening
    ensures i < |Exec(s, steps).subs|
    ensures Exec(s, steps).subs[i].received == s.subs[i].received + Owed(steps, i, s.subs[i].pid)
    decreases steps
  {
    if steps != [] {
      var t := Apply(s, steps[0]);
      StepKeepsInv(s, steps[0]);
      StepKeepsSubscription(s, steps[0], i);
      if steps[0] == DropReceiver(i) {
        DeadReceiverIsSilent(t, steps[1..], i);
      } else {
        LiveReceiverGetsWhatItIsOwed(t, steps[1..], i);
      }
    }
  }

  /**
   * Over any run, a subscription receives exactly the events of its pid forwarded between
   * its own `subscribe` and the drop of its receiver, in forwarding order.
   */
  lemma DeliveryIsExact(before: seq<Step>, pid: Pid, inserted: bool, after: seq<Step>)
    requires Runs(INIT, before + [Subscribe(pid, inserted)] + after)
    ensures Runs(INIT, before)
    ensures var i := |Exec(INIT, before).subs|;
      var end := Exec(INIT, before + [Subscribe(pid, inserted)] + after);
      i < |end.subs| && end.subs[i].pid == pid && end.subs[i].received == Owed(after, i, pid)
  {
    var step := Subscribe(pid, inserted);
    ExecSplit(INIT, before + [step], after);
    ExecSplit(INIT, before, [step]);
    var s := Exec(INIT, before);
    var t := Apply(s, step);
    assert [step][1..] == [];
    RunKeepsInv(INIT, before);
    StepKeepsInv(s, step);
    LiveReceiverGetsWhatItIsOwed(t, after, |s.subs|);
    SubscriptionKeepsPid(t, after, |s.subs|);
  }

  lemma {:induction false} SubscriptionKeepsPid(s: State, steps: seq<Step>, i: nat)
    requires Inv(s) && Runs(s, steps) && i < |s.subs|
    ensures i < |Exec(s, steps).subs| && Exec(s, steps).subs[i].pid == s.subs[i].pid
    decreases steps
  {
    if steps != [] {
      StepKeepsInv(s, steps[0]);
      StepKeepsSubscription(s, steps[0], i);
      SubscriptionKeepsPid(Apply(s, steps[0]), steps[1..], i);
    }
  }

  // ---------------------------------------------------------------------------------
  // What interrupting the fork handler can do.

  /** Every entry has both flags, and so does every entry a fork handler is about to write. */
  ghost predicate Full(s: State) {
    && (forall p | p in s.targets :: s.targets[p] == ALL)
    && (forall cpu | cpu in s.forking && s.forking[cpu].Looked? :: s.forking[cpu].flags == ALL)
  }

  /** A fork handler whose parent passed the gate finds it gone at the second lookup. */
  predicate LosesParent(s: State, step: Step)
    requires Enabled(s, step)
  {
    step.ForkLook? && s.forking[step.cpu].parent !in s.targets
  }

  /** That is the one step that makes an entry with less than both flags. */
  lemma StepKeepsFullExactly(s: State, step: Step)
    requires Full(s) && Enabled(s, step)
    ensures Full(Apply(s, step)) <==> !LosesParent(s, step)
  {
    var t := Apply(s, step);
    assert METRICS != ALL;
    if LosesParent(s, step) {
      assert t.forking[step.cpu].Looked? && t.forking[step.cpu].flags == METRICS;
    }
  }

  predicate NoParentLost(s: State, steps: seq<Step>)
    requires Runs(s, steps)
    decreases steps
  {
    steps == [] || (!LosesParent(s, steps[0]) && NoParentLost(Apply(s, steps[0]), steps[1..]))
  }

  /** `Full` in every state a run goes through. */
  ghost predicate AlwaysFull(s: State, steps: seq<Step>)
    requires Runs(s, steps)
    decreases steps
  {
    Full(s) && (steps == [] || AlwaysFull(Apply(s, steps[0]), steps[1..]))
  }

  /** However fork handlers interleave, both flags are everywhere exactly as long as none loses its parent. */
  lemma {:induction false} AlwaysFullExactly(s: State, steps: seq<Step>)
    requires Full(s) && Runs(s, steps)
    ensures AlwaysFull(s, steps) <==> NoParentLost(s, steps)
    decreases steps
  {
    if steps != [] {
      StepKeepsFullExactly(s, steps[0]);
      if !LosesParent(s, steps[0]) {
        AlwaysFullExactly(Apply(s, steps[0]), steps[1..]);
      } else {
        NotFullAtFirst(Apply(s, steps[0]), steps[1..]);
      }
    }
  }

  lemma NotFullAtFirst(s: State, steps: seq<Step>)
    requires Runs(s, steps) && !Full(s)
    ensures !AlwaysFull(s, steps)
  {
  }

  lemma {:induction false} FullAtTheEnd(s: State, steps: seq<Step>)
    requires Full(s) && Runs(s, steps) && NoParentLost(s, steps)
    ensures Full(Exec(s, steps))
    decreases steps
  {
    if steps != [] {
      StepKeepsFullExactly(s, steps[0]);
      FullAtTheEnd(Apply(s, steps[0]), steps[1..]);
    }
  }

  predicate WholeFork(step: Step) {
    !step.ForkGate? && !step.ForkLook? && !step.ForkWrite?
  }

  /** Handlers that are never interrupted keep both flags everywhere. */
  lemma WholeForksKeepFullFlags(s: State, step: Step)
    requires Full(s) && s.forking == map[] && Enabled(s, step) && WholeFork(step)
    ensures Full(Apply(s, step)) && Apply(s, step).forking == map[]
  {
    StepKeepsFullExactly(s, step);
  }

  /** In particular no parent is lost by handlers that are never interrupted. */
  lemma {:induction false} WholeForksLoseNoParent(s: State, steps: seq<Step>)
    requires Runs(s, steps) && forall k | 0 <= k < |steps| :: WholeFork(steps[k])
    ensures NoParentLost(s, steps)
    decreases steps
  {
    if steps != [] {
      assert WholeFork(steps[0]);
      WholeForksLoseNoParent(Apply(s, steps[0]), steps[1..]);
    }
  }
}
