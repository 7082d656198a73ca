/** The registry itself, each critical section proved to be one step of the protocol. */
module StreamRegistries {
  import opened Common
  import opened Tracing
  import opened Subscriptions

  /** The fork handler's side of the protocol state, which the registry never touches. */
  datatype Kernel = Kernel(forking: map<nat, Forking>, forks: set<(Pid, Pid)>, inherited: set<Pid>)

  class StreamRegistry {
    const targetPids: TargetPids
    var streams: map<Pid, nat>
    /** Receivers and guards handed out so far; callers own them, by position. */
    var subs: seq<Subscription>
    var nextSender: nat
    ghost var kernel: Kernel

    ghost function View(): State
      reads this, targetPids
    {
      State(streams, targetPids.entries, subs, nextSender, kernel.forking, kernel.forks, kernel.inherited)
    }

    constructor (targetPids: TargetPids)
      requires targetPids.entries == map[]
      ensures this.targetPids == targetPids && View() == INIT
    {
      this.targetPids := targetPids;
      streams := map[];
      subs := [];
      nextSender := 0;
      kernel := Kernel(map[], {}, {});
    }

    method Subscribe(pid: Pid) returns (sub: nat)
      modifies this, targetPids
      ensures View() == Apply(old(View()), Step.Subscribe(pid, pid in old(targetPids.entries) || |old(targetPids.entries)| < MAX_ENTRIES))
      ensures sub == |old(subs)|
    {
      var needsArm := true;
      if pid in streams {
        var count := ReceiverCount(streams[pid]);
        needsArm := count == 0;
      }
      if pid !in streams {
        streams := streams[pid := nextSender];
        nextSender := nextSender + 1;
      }
      if needsArm {
        var ok := targetPids.Insert(pid, ALL);
        kernel := if ok then kernel.(inherited := kernel.inherited - {pid}) else kernel;
      }
      sub := |subs|;
      subs := subs + [Subscription(pid, streams[pid], true, Held, [])];
    }

    /** `Sender::receiver_count` */
    method ReceiverCount(sender: nat) returns (count: nat)
      ensures count == 0 <==> NoReceivers(subs, sender)
    {
      count := 0;
      for i := 0 to |subs|
        invariant count == 0 <==> NoReceivers(subs[..i], sender)
      {
        assert subs[..i + 1] == subs[..i] + [subs[i]];
        if subs[i].listening && subs[i].sender == sender {
          assert !NoReceivers(subs[..i + 1], sender) by {
            assert subs[..i + 1][i] == subs[i];
          }
          count := count + 1;
        } else {
          assert NoReceivers(subs[..i], sender) <==> NoReceivers(subs[..i + 1], sender) by {
            assert forall j | 0 <= j < i :: subs[..i + 1][j] == subs[..i][j];
          }
        }
      }
      assert subs[..|subs|] == subs;
    }

    method DropReceiver(sub: nat)
      requires Enabled(View(), Step.DropReceiver(sub))
      modifies this
      ensures View() == Apply(old(View()), Step.DropReceiver(sub))
    {
      subs := subs[sub := subs[sub].(listening := false)];
    }

    /** The part of a guard's drop that runs under the `streams` lock. */
    method LeaveStreams(sub: nat) returns (shouldUnmap: bool)
      requires Enabled(View(), Step.DropGuard(sub))
      modifies this
      ensures View() == Apply(old(View()), Step.DropGuard(sub))
      ensures shouldUnmap == Evicts(old(View()), sub)
    {
      var pid := subs[sub].pid;
      shouldUnmap := false;
      if pid in streams {
        var count := ReceiverCount(streams[pid]);
        if count == 0 {
          streams := map p | p in streams && p != pid :: streams[p];
          shouldUnmap := true;
        }
      }
      subs := subs[sub := subs[sub].(guard := if shouldUnmap then Unmapping else Dropped)];
    }

    /** The part that runs afterwards, under the `target_pids` lock. */
    method LeaveTargets(sub: nat)
      requires Enabled(View(), Step.Unmap(sub))
      modifies this, targetPids
      ensures View() == Apply(old(View()), Step.Unmap(sub))
    {
      var removed := targetPids.Remove(subs[sub].pid);
      kernel := kernel.(inherited := kernel.inherited - {subs[sub].pid});
      subs := subs[sub := subs[sub].(guard := Dropped)];
    }

    /** A guard's whole drop when nothing runs in between: no trace of a pid without receivers. */
    method DropGuard(sub: nat)
      requires Enabled(View(), Step.DropGuard(sub))
      modifies this, targetPids
      ensures var pid := old(subs)[sub].pid;
        if old(Evicts(View(), sub))
        then streams == old(streams) - {pid} && targetPids.entries == old(targetPids.entries) - {pid}
        else streams == old(streams) && targetPids.entries == old(targetPids.entries)
      ensures subs == old(subs)[sub := old(subs)[sub].(guard := Dropped)]
    {
      var shouldUnmap := LeaveStreams(sub);
      if shouldUnmap {
        LeaveTargets(sub);
      }
    }

    /** Never fails: a send without receivers is tidied up by a later guard drop. */
    method Forward(event: Event)
      modifies this
      ensures View() == Apply(old(View()), Step.Forward(event))
    {
      if event.pid in streams {
        var sender := streams[event.pid];
        ghost var before := subs;
        var i := 0;
        while i < |subs|
          invariant 0 <= i <= |subs| == |before|
          invariant forall j | 0 <= j < i :: subs[j] == Sent(before[j], sender, event)
          invariant forall j | i <= j < |subs| :: subs[j] == before[j]
          invariant streams == old(streams) && nextSender == old(nextSender) && kernel == old(kernel)
          invariant targetPids.entries == old(targetPids.entries)
        {
          if subs[i].listening && subs[i].sender == sender {
            subs := subs[i := subs[i].(received := subs[i].received + [event])];
          }
          i := i + 1;
        }
        assert subs == Forwarded(old(View()), event).subs;
      }
    }
  }

  /** The kernel's fork handler, run without interruption. */
  method TraceSchedProcessFork(registry: StreamRegistry, parent: Pid, child: Pid) returns (traced: bool)
    modifies registry`kernel, registry.targetPids
    ensures traced == ShouldTrace(old(registry.targetPids.entries), parent)
    ensures registry.View() == Apply(old(registry.View()), Fork(parent, child,
      child in old(registry.targetPids.entries) || |old(registry.targetPids.entries)| < MAX_ENTRIES))
    ensures var was := old(registry.targetPids.entries);
      registry.targetPids.entries
        == if parent in was && was[parent] & METRICS != 0 && (child in was || |was| < MAX_ENTRIES)
           then was[child := was[parent]] else was
  {
    traced := ShouldTrace(registry.targetPids.entries, parent);
    if traced {
      var flags := if parent in registry.targetPids.entries then registry.targetPids.entries[parent] else METRICS;
      var ok := registry.targetPids.Insert(child, flags);
      registry.kernel := registry.kernel.(forks := registry.kernel.forks + {(parent, child)},
        inherited := if ok then registry.kernel.inherited + {child} else registry.kernel.inherited);
    }
  }
}
