/**
 * The two kernel programs. They assign the same fields to the same events, but nine
 * handlers ask for different flags: x86_64 wants EVENTS where arm64 wants METRICS.
 */
module Gates {
  import opened Common
  import opened Tracing
  import opened Subscriptions
  import opened Provenance
  import Arming

  datatype Arch = X86 | Arm64

  /** `Uniform` is any handler whose code is the same on both sides, by its event type. */
  datatype Hook =
    | Execve | Exit | Read | Write | Close | Connect | Accept
    | Chroot | PivotRoot | Setns | Unshare | SignalGenerate
    | Uniform(eventType: nat)

  /** One firing: who was running, what the context held, and whether the ring had room. */
  datatype Probe = Probe(hook: Hook, tgid: Pid, tid: Pid, args: seq<int>, room: bool)

  datatype Record = Record(pid: Pid, tgid: Pid, eventType: nat, fields: seq<int>)

  function Type(hook: Hook): nat {
    match hook
    case Execve => 4 case Exit => 4 case Read => 5 case Write => 6 case Close => 7
    case Connect => 3 case Accept => 30 case Chroot => 8 case PivotRoot => 9
    case Setns => 10 case Unshare => 11 case SignalGenerate => 31
    case Uniform(eventType) => eventType
  }

  /** The flags of a process event come first: is_exec, is_fork, is_exit. */
  function Fields(hook: Hook, args: seq<int>): seq<int> {
    match hook
    case Execve => [1, 0, 0] + args
    case Exit => [0, 0, 1] + args
    case Connect => [2] + args
    case Accept => [2] + args
    case _ => args
  }

  /** Which of the two flags a handler asks for. */
  function Gate(arch: Arch, hook: Hook): bv8 {
    match hook
    case Exit => METRICS
    case Accept => METRICS
    case SignalGenerate => EVENTS
    case Uniform(_) => EVENTS
    case _ => if arch.X86? then EVENTS else METRICS
  }

  predicate Passes(arch: Arch, targets: Targets, probe: Probe) {
    if Gate(arch, probe.hook) == METRICS then ShouldTrace(targets, probe.tgid)
    else ShouldTraceEvents(targets, probe.tgid)
  }

  /** `inet_csk_accept` reports nothing when it was handed no socket. */
  predicate HasSubject(probe: Probe) {
    probe.hook.Accept? ==> |probe.args| > 0 && probe.args[0] != 0
  }

  function Emits(arch: Arch, targets: Targets, probe: Probe): seq<Record> {
    if Passes(arch, targets, probe) && HasSubject(probe) && probe.room then
      [Record(probe.tid, probe.tgid, Type(probe.hook), Fields(probe.hook, probe.args))]
    else []
  }

  // ---------------------------------------------------------------------------------
  // What one firing reports, told by the entry of the process that fired.

  /** Nothing, or one record of the thread and the process that fired. */
  lemma ReportsItself(arch: Arch, targets: Targets, probe: Probe)
    ensures var out := Emits(arch, targets, probe);
      && |out| <= 1
      && forall r | r in out :: r.pid == probe.tid && r.tgid == probe.tgid && r.tgid in targets
  {
  }

  /** With both flags on its process a probe reports, whatever thread fires it. */
  lemma BothFlagsReport(arch: Arch, targets: Targets, probe: Probe)
    requires probe.tgid in targets && targets[probe.tgid] == ALL
    ensures |Emits(arch, targets, probe)| == 1
       <==> probe.room && (probe.hook.Accept? ==> |probe.args| > 0 && probe.args[0] != 0)
  {
    AllHasBoth();
  }

  /**
   * Otherwise the bit decides: exit and accept ask for the first on both programs, signals and the hooks with the
   * same code for the second, all others for the second on x86_64 and for the first on arm64.
   */
  lemma BitDecides(arch: Arch, targets: Targets, probe: Probe)
    requires probe.room && (probe.hook.Accept? ==> |probe.args| > 0 && probe.args[0] != 0)
    ensures probe.tgid !in targets ==> Emits(arch, targets, probe) == []
    ensures probe.tgid in targets ==>
      var reports, flags := |Emits(arch, targets, probe)| == 1, targets[probe.tgid];
      && (probe.hook.Exit? || probe.hook.Accept? ==> (reports <==> flags & 1 != 0))
      && (probe.hook.SignalGenerate? || probe.hook.Uniform? ==> (reports <==> flags & 2 != 0))
      && (!(probe.hook.Exit? || probe.hook.Accept? || probe.hook.SignalGenerate? || probe.hook.Uniform?) ==>
            (reports <==> if arch.X86? then flags & 2 != 0 else flags & 1 != 0))
  {
  }

  /** A record tells which hook wrote it and with what in hand. */
  lemma RecordTellsTheProbe(arch: Arch, targets: Targets, p: Probe, q: Probe)
    requires !p.hook.Uniform? && !q.hook.Uniform?
    requires |Emits(arch, targets, p)| == 1 && Emits(arch, targets, p) == Emits(arch, targets, q)
    ensures p.hook == q.hook && p.tgid == q.tgid && p.tid == q.tid && p.args == q.args
  {
    var r := Emits(arch, targets, p)[0];
    assert r == Emits(arch, targets, q)[0];
    FieldsTell(p.hook, p.args, q.hook, q.args);
  }

  lemma FieldsTell(g: Hook, a: seq<int>, h: Hook, b: seq<int>)
    requires !g.Uniform? && !h.Uniform?
    requires Type(g) == Type(h) && Fields(g, a) == Fields(h, b)
    ensures g == h && a == b
  {
    assert (g.Execve? || g.Exit?) && (h.Execve? || h.Exit?) ==> Fields(g, a)[0] == Fields(h, b)[0];
    var k := |Fields(g, a)| - |a|;
    assert Fields(g, a)[k..] == a && Fields(h, b)[k..] == b;
  }

  /** Both flags or neither. */
  ghost predicate Even(flags: bv8) {
    (flags & METRICS != 0) <==> (flags & EVENTS != 0)
  }

  /** The programs are interchangeable exactly when no entry carries one flag only. */
  lemma ProgramsAgreeExactlyOnEvenMaps(targets: Targets)
    ensures (forall probe :: Emits(X86, targets, probe) == Emits(Arm64, targets, probe))
       <==> (forall p | p in targets :: Even(targets[p]))
  {
    if p :| p in targets && !Even(targets[p]) {
      var probe := Probe(Read, p, p, [], true);
      assert |Emits(X86, targets, probe)| != |Emits(Arm64, targets, probe)|;
    }
  }

  /** Something happens: a step of the subscription machinery, or a probe fires. */
  datatype Act = Sys(step: Step, room: bool) | Fire(probe: Probe)

  predicate Happens(s: State, acts: seq<Act>)
    decreases acts
  {
    acts == [] ||
    match acts[0]
    case Sys(step, _) => Enabled(s, step) && Happens(Apply(s, step), acts[1..])
    case Fire(_) => Happens(s, acts[1..])
  }

  /** The fork handler reports the fork itself after its update, on either architecture. */
  function ForkRecord(s: State, step: Step, room: bool): seq<Record>
    requires Enabled(s, step)
  {
    if !room then []
    else match step
      case Fork(parent, child, _) =>
        if ShouldTrace(s.targets, parent) then [Record(parent, parent, 4, [0, 1, 0, child])] else []
      case ForkWrite(cpu, _) =>
        var f := s.forking[cpu];
        [Record(f.parent, f.parent, 4, [0, 1, 0, f.child])]
      case _ => []
  }

  /** Everything one program writes to the ring buffer over a run. */
  function Output(arch: Arch, s: State, acts: seq<Act>): seq<Record>
    requires Happens(s, acts)
    decreases acts
  {
    if acts == [] then []
    else match acts[0]
      case Sys(step, room) => ForkRecord(s, step, room) + Output(arch, Apply(s, step), acts[1..])
      case Fire(probe) => Emits(arch, s.targets, probe) + Output(arch, s, acts[1..])
  }

  /** The steps of a run that probes fire into. */
  function StepsOf(acts: seq<Act>): seq<Step>
    decreases acts
  {
    if acts == [] then []
    else if acts[0].Sys? then [acts[0].step] + StepsOf(acts[1..])
    else StepsOf(acts[1..])
  }

  lemma {:induction false} StepsRun(s: State, acts: seq<Act>)
    requires Happens(s, acts)
    ensures Runs(s, StepsOf(acts))
    decreases acts
  {
    if acts != [] {
      match acts[0]
      case Sys(step, _) =>
        StepsRun(Apply(s, step), acts[1..]);
        assert StepsOf(acts)[0] == step && StepsOf(acts)[1..] == StepsOf(acts[1..]);
      case Fire(_) =>
        StepsRun(s, acts[1..]);
    }
  }

  // ---------------------------------------------------------------------------------
  // What a whole run reports.

  /** Somewhere in the run a probe of `r`'s process fired, or that process forked, while it was in the map. */
  ghost predicate Accounted(s: State, acts: seq<Act>, r: Record)
    requires Happens(s, acts)
    decreases acts
  {
    acts != [] &&
    match acts[0]
    case Fire(probe) =>
      || (r.pid == probe.tid && r.tgid == probe.tgid && probe.tgid in s.targets)
      || Accounted(s, acts[1..], r)
    case Sys(step, _) =>
      || (step.Fork? && r.pid == r.tgid == step.parent && step.parent in s.targets)
      || (step.ForkWrite? && r.pid == r.tgid == s.forking[step.cpu].parent)
      || Accounted(Apply(s, step), acts[1..], r)
  }

  /** On either program a record names a process that was in the map when its probe fired, or that passed the gate to fork. */
  lemma {:induction false} EveryRecordIsAccounted(arch: Arch, s: State, acts: seq<Act>, r: Record)
    requires Happens(s, acts) && r in Output(arch, s, acts)
    ensures Accounted(s, acts, r)
    decreases acts
  {
    match acts[0]
    case Sys(step, room) =>
      if r !in ForkRecord(s, step, room) {
        EveryRecordIsAccounted(arch, Apply(s, step), acts[1..], r);
      }
    case Fire(probe) =>
      if r !in Emits(arch, s.targets, probe) {
        EveryRecordIsAccounted(arch, s, acts[1..], r);
      }
  }

  lemma {:induction false} LinkedThroughout(s: State, acts: seq<Act>, pid: Pid)
    requires Happens(s, acts) && Runs(s, StepsOf(acts)) && Linked(s, pid)
    ensures Linked(Exec(s, StepsOf(acts)), pid)
    decreases acts
  {
    if acts != [] {
      match acts[0]
      case Sys(step, _) =>
        FirstStep(acts);
        SubsKeepPids(s, step);
        LinkedLater(s, Apply(s, step), pid);
        LinkedThroughout(Apply(s, step), acts[1..], pid);
      case Fire(_) =>
        LinkedThroughout(s, acts[1..], pid);
    }
  }

  lemma FirstStep(acts: seq<Act>)
    requires acts != [] && acts[0].Sys?
    ensures var steps := StepsOf(acts);
      steps != [] && steps[0] == acts[0].step && steps[1..] == StepsOf(acts[1..])
  {
  }

  lemma {:induction false} AccountedIsLinked(s: State, acts: seq<Act>, r: Record)
    requires Rooted(s) && Happens(s, acts) && Runs(s, StepsOf(acts)) && Accounted(s, acts, r)
    ensures Linked(Exec(s, StepsOf(acts)), r.tgid)
    decreases acts
  {
    if Linked(s, r.tgid) {
      LinkedThroughout(s, acts, r.tgid);
    } else {
      match acts[0]
      case Sys(step, _) =>
        FirstStep(acts);
        StepKeepsRooted(s, step);
        AccountedIsLinked(Apply(s, step), acts[1..], r);
      case Fire(_) =>
        AccountedIsLinked(s, acts[1..], r);
    }
  }

  /** Whatever either program writes, in whatever run, is about a process that descends from a subscribed one. */
  lemma ReportsOnlyDescendants(arch: Arch, acts: seq<Act>, r: Record)
    requires Happens(INIT, acts) && Runs(INIT, StepsOf(acts)) && r in Output(arch, INIT, acts)
    ensures Linked(Exec(INIT, StepsOf(acts)), r.tgid)
  {
    EveryRecordIsAccounted(arch, INIT, acts, r);
    AccountedIsLinked(INIT, acts, r);
  }

  /** The records of every firing in a process that is in the map, and of every fork of one. */
  ghost function Due(s: State, acts: seq<Act>): seq<Record>
    requires Happens(s, acts)
    decreases acts
  {
    if acts == [] then []
    else match acts[0]
      case Sys(Fork(parent, child, inserted), room) =>
        (if room && parent in s.targets then [Record(parent, parent, 4, [0, 1, 0, child])] else [])
          + Due(Apply(s, Fork(parent, child, inserted)), acts[1..])
      case Sys(ForkWrite(cpu, inserted), room) =>
        (if room then [Record(s.forking[cpu].parent, s.forking[cpu].parent, 4, [0, 1, 0, s.forking[cpu].child])] else [])
          + Due(Apply(s, ForkWrite(cpu, inserted)), acts[1..])
      case Sys(step, _) => Due(Apply(s, step), acts[1..])
      case Fire(probe) =>
        (if probe.room && probe.tgid in s.targets && (probe.hook.Accept? ==> |probe.args| > 0 && probe.args[0] != 0)
         then [Record(probe.tid, probe.tgid, Type(probe.hook), Fields(probe.hook, probe.args))] else [])
          + Due(s, acts[1..])
  }

  /** No entry carries one flag only. */
  ghost predicate EvenMap(targets: Targets) {
    forall p | p in targets :: Even(targets[p])
  }

  /** A fork handler writes an entry with one flag only. */
  ghost predicate WritesOneFlag(s: State, step: Step)
    requires Enabled(s, step)
  {
    step.ForkWrite? && step.inserted && !Even(s.forking[step.cpu].flags)
  }

  lemma StepKeepsEvenExactly(s: State, step: Step)
    requires EvenMap(s.targets) && Enabled(s, step)
    ensures EvenMap(Apply(s, step).targets) <==> !WritesOneFlag(s, step)
  {
    var t := Apply(s, step);
    assert Even(ALL);
    if WritesOneFlag(s, step) {
      assert s.forking[step.cpu].child in t.targets;
      assert !Even(t.targets[s.forking[step.cpu].child]);
    }
  }

  ghost predicate NeverOneFlag(s: State, steps: seq<Step>)
    requires Runs(s, steps)
    decreases steps
  {
    steps == [] || (!WritesOneFlag(s, steps[0]) && NeverOneFlag(Apply(s, steps[0]), steps[1..]))
  }

  lemma {:induction false} EvenRunsAgree(s: State, acts: seq<Act>)
    requires EvenMap(s.targets) && Happens(s, acts) && Runs(s, StepsOf(acts)) && NeverOneFlag(s, StepsOf(acts))
    ensures Output(X86, s, acts) == Output(Arm64, s, acts)
    decreases acts
  {
    if acts != [] {
      match acts[0]
      case Sys(step, _) =>
        var steps := StepsOf(acts);
        assert steps[0] == step && steps[1..] == StepsOf(acts[1..]);
        StepKeepsEvenExactly(s, step);
        EvenRunsAgree(Apply(s, step), acts[1..]);
      case Fire(probe) =>
        ProgramsAgreeExactlyOnEvenMaps(s.targets);
        EvenRunsAgree(s, acts[1..]);
    }
  }

  lemma {:induction false} SilentRun(s: State, steps: seq<Step>) returns (acts: seq<Act>)
    requires Runs(s, steps)
    ensures Happens(s, acts) && StepsOf(acts) == steps && Output(X86, s, acts) == Output(Arm64, s, acts)
    decreases steps
  {
    acts := [];
    if steps != [] {
      var rest := SilentRun(Apply(s, steps[0]), steps[1..]);
      acts := [Sys(steps[0], false)] + rest;
      assert acts[1..] == rest;
    }
  }

  lemma FireFirst(s: State, probe: Probe, rest: seq<Act>)
    requires Happens(s, rest)
    ensures var acts := [Fire(probe)] + rest;
      && Happens(s, acts) && StepsOf(acts) == StepsOf(rest)
      && forall arch :: Output(arch, s, acts) == Emits(arch, s.targets, probe) + Output(arch, s, rest)
  {
    assert ([Fire(probe)] + rest)[1..] == rest;
  }

  lemma StepFirst(s: State, step: Step, rest: seq<Act>)
    requires Enabled(s, step) && Happens(Apply(s, step), rest)
    ensures var acts := [Sys(step, false)] + rest;
      && Happens(s, acts) && StepsOf(acts) == [step] + StepsOf(rest)
      && forall arch :: Output(arch, s, acts) == Output(arch, Apply(s, step), rest)
  {
    assert ([Sys(step, false)] + rest)[1..] == rest;
    assert forall arch :: [] + Output(arch, Apply(s, step), rest) == Output(arch, Apply(s, step), rest);
  }

  /** Once the map is uneven, a probe fired then and there tells the programs apart. */
  lemma FiredNow(s: State, steps: seq<Step>) returns (acts: seq<Act>)
    requires Runs(s, steps) && !EvenMap(s.targets)
    ensures Happens(s, acts) && StepsOf(acts) == steps && Output(X86, s, acts) != Output(Arm64, s, acts)
  {
    ProgramsAgreeExactlyOnEvenMaps(s.targets);
    var probe :| Emits(X86, s.targets, probe) != Emits(Arm64, s.targets, probe);
    var rest := SilentRun(s, steps);
    FireFirst(s, probe, rest);
    acts := [Fire(probe)] + rest;
    assert |Emits(X86, s.targets, probe)| != |Emits(Arm64, s.targets, probe)|;
    assert |Output(X86, s, acts)| != |Output(Arm64, s, acts)|;
  }

  lemma {:induction false} OneFlagTells(s: State, steps: seq<Step>) returns (acts: seq<Act>)
    requires EvenMap(s.targets) && Runs(s, steps) && !NeverOneFlag(s, steps)
    ensures Happens(s, acts) && StepsOf(acts) == steps && Output(X86, s, acts) != Output(Arm64, s, acts)
    decreases steps
  {
    var t := Apply(s, steps[0]);
    StepKeepsEvenExactly(s, steps[0]);
    var rest;
    if WritesOneFlag(s, steps[0]) {
      rest := FiredNow(t, steps[1..]);
    } else {
      rest := OneFlagTells(t, steps[1..]);
    }
    StepFirst(s, steps[0], rest);
    acts := [Sys(steps[0], false)] + rest;
    assert steps == [steps[0]] + steps[1..];
  }

  /** Whatever probes fire into a run, both programs write the same. */
  ghost predicate Interchangeable(s: State, steps: seq<Step>) {
    forall acts | Happens(s, acts) && StepsOf(acts) == steps :: Output(X86, s, acts) == Output(Arm64, s, acts)
  }

  /** The programs are interchangeable over a run exactly when no fork handler of it writes one flag only. */
  lemma InterchangeableExactly(steps: seq<Step>)
    requires Runs(INIT, steps)
    ensures Interchangeable(INIT, steps) <==> NeverOneFlag(INIT, steps)
  {
    if NeverOneFlag(INIT, steps) {
      forall acts | Happens(INIT, acts) && StepsOf(acts) == steps
        ensures Output(X86, INIT, acts) == Output(Arm64, INIT, acts)
      {
        EvenRunsAgree(INIT, acts);
      }
    } else {
      var acts := OneFlagTells(INIT, steps);
    }
  }

  lemma {:induction false} NoParentLostNeverOneFlag(s: State, steps: seq<Step>)
    requires Full(s) && Runs(s, steps) && NoParentLost(s, steps)
    ensures NeverOneFlag(s, steps)
    decreases steps
  {
    if steps != [] {
      assert Even(ALL);
      StepKeepsFullExactly(s, steps[0]);
      NoParentLostNeverOneFlag(Apply(s, steps[0]), steps[1..]);
    }
  }

  lemma FullFork(s: State, step: Step, room: bool)
    requires Full(s) && Enabled(s, step)
    ensures step.Fork? ==>
      ForkRecord(s, step, room)
      == if room && step.parent in s.targets then [Record(step.parent, step.parent, 4, [0, 1, 0, step.child])] else []
    ensures !step.Fork? && !step.ForkWrite? ==> ForkRecord(s, step, room) == []
  {
    AllHasBoth();
  }

  lemma FullFire(arch: Arch, s: State, probe: Probe)
    requires Full(s)
    ensures Emits(arch, s.targets, probe)
      == if probe.room && probe.tgid in s.targets && (probe.hook.Accept? ==> |probe.args| > 0 && probe.args[0] != 0)
         then [Record(probe.tid, probe.tgid, Type(probe.hook), Fields(probe.hook, probe.args))] else []
  {
    if probe.tgid in s.targets {
      BothFlagsReport(arch, s.targets, probe);
    }
  }

  lemma {:induction false} FullRunsReportWhatIsDue(arch: Arch, s: State, acts: seq<Act>)
    requires Full(s) && Happens(s, acts) && Runs(s, StepsOf(acts)) && NoParentLost(s, StepsOf(acts))
    ensures Output(arch, s, acts) == Due(s, acts)
    decreases acts
  {
    if acts != [] {
      match acts[0]
      case Sys(step, room) =>
        FirstStep(acts);
        FullFork(s, step, room);
        StepKeepsFullExactly(s, step);
        FullRunsReportWhatIsDue(arch, Apply(s, step), acts[1..]);
      case Fire(probe) =>
        FullFire(arch, s, probe);
        FullRunsReportWhatIsDue(arch, s, acts[1..]);
    }
  }

  /**
   * As long as no fork handler loses its parent, either program writes exactly what is due: one record for every
   * firing in a process that is in the map then, of any of its threads, and one for every fork of one.
   */
  lemma EverythingDueIsReported(arch: Arch, acts: seq<Act>)
    requires Happens(INIT, acts) && Runs(INIT, StepsOf(acts)) && NoParentLost(INIT, StepsOf(acts))
    ensures Output(arch, INIT, acts) == Due(INIT, acts)
  {
    FullRunsReportWhatIsDue(arch, INIT, acts);
  }

  /** From a state with both flags everywhere, no difference shows while no fork handler loses its parent. */
  lemma FullFlagsHideTheDifference(s: State, acts: seq<Act>)
    requires Full(s) && Happens(s, acts) && Runs(s, StepsOf(acts)) && NoParentLost(s, StepsOf(acts))
    ensures Output(X86, s, acts) == Output(Arm64, s, acts)
  {
    assert Even(ALL);
    NoParentLostNeverOneFlag(s, StepsOf(acts));
    EvenRunsAgree(s, acts);
  }

  /** However fork handlers interleave, as long as none loses its parent both architectures emit the same. */
  lemma ArchitecturesEmitTheSame(acts: seq<Act>)
    requires Happens(INIT, acts) && Runs(INIT, StepsOf(acts)) && NoParentLost(INIT, StepsOf(acts))
    ensures Output(X86, INIT, acts) == Output(Arm64, INIT, acts)
  {
    FullFlagsHideTheDifference(INIT, acts);
  }

  /** Whoever is subscribed in an orderly run is reported by either program, whichever thread fires. */
  lemma SubscribedIsReported(arch: Arch, steps: seq<Step>, probe: Probe)
    requires Runs(INIT, steps) && Arming.OrderlyRun(INIT, steps, probe.tgid)
    requires HasReceiver(Exec(INIT, steps), probe.tgid)
    requires probe.room && (probe.hook.Accept? ==> |probe.args| > 0 && probe.args[0] != 0)
    ensures |Emits(arch, Exec(INIT, steps).targets, probe)| == 1
  {
    AlwaysAttached(steps);
    Arming.SubscribedImpliesArmed(steps, probe.tgid);
    BothFlagsReport(arch, Exec(INIT, steps).targets, probe);
  }

  /** An atomic fork reports what the handler's three operations report. */
  lemma AtomicForkReportsTheSame(s: State, cpu: nat, parent: Pid, child: Pid, inserted: bool, room: bool)
    requires cpu !in s.forking && ShouldTrace(s.targets, parent)
    ensures var s1 := Apply(s, ForkGate(cpu, parent, child)); var s2 := Apply(s1, ForkLook(cpu));
      ForkRecord(s, Fork(parent, child, inserted), room)
        == ForkRecord(s, ForkGate(cpu, parent, child), room) + ForkRecord(s1, ForkLook(cpu), room)
           + ForkRecord(s2, ForkWrite(cpu, inserted), room)
  {
    var s2 := Apply(Apply(s, ForkGate(cpu, parent, child)), ForkLook(cpu));
    assert s2.forking[cpu].parent == parent && s2.forking[cpu].child == child;
  }

  /**
   * An interrupted fork handler can leave a child with METRICS alone: its parent passed
   * the gate and was unmapped before the second lookup. Then the programs differ.
   */
  lemma InterruptedForkTellsThemApart(s: State, cpu: nat, g: nat, child: Pid)
    requires g < |s.subs| && s.subs[g].guard.Unmapping? && s.subs[g].pid != child
    requires cpu !in s.forking && ShouldTrace(s.targets, s.subs[g].pid)
    ensures var steps := [ForkGate(cpu, s.subs[g].pid, child), Unmap(g), ForkLook(cpu), ForkWrite(cpu, true)];
      && Runs(s, steps)
      && var e := Exec(s, steps);
         && child in e.targets && e.targets[child] == METRICS
         && exists probe :: Emits(X86, e.targets, probe) != Emits(Arm64, e.targets, probe)
  {
    var parent := s.subs[g].pid;
    var steps := [ForkGate(cpu, parent, child), Unmap(g), ForkLook(cpu), ForkWrite(cpu, true)];
    var s1 := Apply(s, steps[0]);
    var s2 := Apply(s1, Unmap(g));
    var s3 := Apply(s2, ForkLook(cpu));
    var e := Apply(s3, ForkWrite(cpu, true));
    assert steps[1..][1..][1..][1..] == [];
    assert Runs(s3, steps[1..][1..][1..]);
    assert Runs(s2, steps[1..][1..]);
    assert Runs(s1, steps[1..]);
    assert Exec(s, steps) == Exec(s1, steps[1..]) == Exec(s2, steps[1..][1..]) == Exec(s3, steps[1..][1..][1..]) == e;
    assert !Even(METRICS);
    ProgramsAgreeExactlyOnEvenMaps(e.targets);
  }

  /**
   * A run from the start that does it: a subscription is dropped, and its pid forks between the two halves of the
   * guard's drop.
   */
  lemma InterruptedForkRun(pid: Pid, child: Pid, cpu: nat)
    requires child != pid
    ensures var opening := [Subscribe(pid, true), DropReceiver(0), DropGuard(0)];
      var steps := opening + [ForkGate(cpu, pid, child), Unmap(0), ForkLook(cpu), ForkWrite(cpu, true)];
      && Runs(INIT, steps)
      && var e := Exec(INIT, steps);
         && child in e.targets && e.targets[child] == METRICS
         && exists probe :: Emits(X86, e.targets, probe) != Emits(Arm64, e.targets, probe)
  {
    var opening := [Subscribe(pid, true), DropReceiver(0), DropGuard(0)];
    ClosingRun(pid);
    var s := Exec(INIT, opening);
    assert ALL & METRICS != 0;
    InterruptedForkTellsThemApart(s, cpu, 0, child);
    RunsConcat(INIT, opening, [ForkGate(cpu, pid, child), Unmap(0), ForkLook(cpu), ForkWrite(cpu, true)]);
  }

  lemma ClosingRun(pid: Pid)
    ensures var opening := [Subscribe(pid, true), DropReceiver(0), DropGuard(0)];
      && Runs(INIT, opening)
      && var s := Exec(INIT, opening);
         && |s.subs| == 1 && s.subs[0].guard.Unmapping? && s.subs[0].pid == pid
         && s.targets == map[pid := ALL] && s.forking == map[]
  {
    var a, b, c := Subscribe(pid, true), DropReceiver(0), DropGuard(0);
    var steps := [a, b, c];
    var s1 := Apply(INIT, a);
    var s2 := Apply(s1, b);
    var s3 := Apply(s2, c);
    assert steps[1..] == [b, c] && steps[1..][1..] == [c] && steps[1..][1..][1..] == [];
    assert Runs(s2, steps[1..][1..]);
    assert Runs(s1, steps[1..]);
    assert Exec(INIT, steps) == Exec(s1, steps[1..]) == Exec(s2, steps[1..][1..]) == s3;
  }
}
