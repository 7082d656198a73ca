/** The accounting functions of the kernel programs, run to completion on one CPU. */
module KernelMaps {
  import opened Common
  import opened Tracing
  import opened Sums
  import opened IoAccounting
  import opened IoConservation

  const MAX_FLOWS: nat := 10 * MAX_ENTRIES

  class StatMaps {
    const cpus: nat
    const targetPids: TargetPids
    var processIoStats: map<Pid, Slots>
    var netFlowStats: map<FlowKey, Flow>
    var nextGen: nat

    ghost predicate Valid()
      reads this
    {
      forall p | p in processIoStats :: |processIoStats[p].perCpu| == cpus
    }

    constructor (cpus: nat, targetPids: TargetPids)
      ensures Valid() && this.cpus == cpus && this.targetPids == targetPids
      ensures processIoStats == map[] && netFlowStats == map[]
    {
      this.cpus := cpus;
      this.targetPids := targetPids;
      processIoStats := map[];
      netFlowStats := map[];
      nextGen := 0;
    }

    /**
     * Adds to this CPU's slot, or inserts an entry; a full LRU map makes room by evicting
     * some other entry. Every total that was not evicted moves by exactly the amount.
     */
    method AddIo(cpu: nat, pid: Pid, amount: IoStat) returns (evicted: Option<Pid>)
      requires Valid() && cpu < cpus
      modifies this`processIoStats, this`nextGen
      ensures Valid()
      ensures evicted.Some? ==> evicted.value != pid && |old(processIoStats)| >= MAX_ENTRIES
      ensures forall p, k | evicted != Some(p) ::
        IoTotal(processIoStats, p, k) == IoTotal(old(processIoStats), p, k) + (if p == pid then Get(amount, k) else 0)
      ensures evicted.Some? ==> evicted.value !in processIoStats
    {
      evicted := None;
      ghost var before := processIoStats;
      if pid in processIoStats {
        var slots := processIoStats[pid].perCpu;
        processIoStats := processIoStats[pid := processIoStats[pid].(perCpu := SlotAdded(slots, cpu, amount))];
        forall k ensures IoTotal(processIoStats, pid, k) == IoTotal(before, pid, k) + Get(amount, k) {
          SlotSet(slots, cpu, SlotAdded(slots, cpu, amount)[cpu], k);
        }
      } else {
        if |processIoStats| >= MAX_ENTRIES {
          var victim :| victim in processIoStats;
          processIoStats := map p | p in processIoStats && p != victim :: processIoStats[p];
          evicted := Some(victim);
        }
        var zeros := seq(cpus, _ => NO_IO);
        processIoStats := processIoStats[pid := Slots(nextGen, zeros[cpu := amount])];
        nextGen := nextGen + 1;
        forall k ensures IoTotal(processIoStats, pid, k) == Get(amount, k) {
          SumSeqOfZeros(Column(zeros, k));
          SlotSet(zeros, cpu, amount, k);
        }
      }
    }

    method AddFileIo(cpu: nat, pid: Pid, read: nat, write: nat) returns (evicted: Option<Pid>)
      requires Valid() && cpu < cpus
      modifies this`processIoStats, this`nextGen
      ensures Valid()
      ensures evicted.Some? ==> evicted.value != pid && |old(processIoStats)| >= MAX_ENTRIES
      ensures forall p, k | evicted != Some(p) ::
        IoTotal(processIoStats, p, k) == IoTotal(old(processIoStats), p, k)
          + (if p == pid && pid != 0 then Get(IoStat(read, write, 0, 0), k) else 0)
    {
      evicted := None;
      if pid == 0 {
        return;
      }
      evicted := AddIo(cpu, pid, IoStat(read, write, 0, 0));
    }

    /**
     * Per-pid counters always; the flow only while the pid is traced. A full flow map
     * refuses new flows, and nothing else changes.
     */
    method AddNetIo(cpu: nat, call: Call) returns (evicted: Option<Pid>)
      requires Valid() && cpu < cpus && call.NetIo?
      modifies this
      ensures Valid()
      ensures evicted.Some? ==> evicted.value != call.pid && |old(processIoStats)| >= MAX_ENTRIES
      ensures forall p, k | evicted != Some(p) ::
        IoTotal(processIoStats, p, k) == IoTotal(old(processIoStats), p, k)
          + (if p == call.pid && Accounts(call) then Get(IoStat(0, 0, call.rx, call.tx), k) else 0)
      ensures var counted := Accounts(call) && ShouldTrace(targetPids.entries, call.pid)
          && (KeyOf(call) in old(netFlowStats) || |old(netFlowStats)| < MAX_FLOWS);
        && netFlowStats.Keys == old(netFlowStats).Keys + (if counted then {KeyOf(call)} else {})
        && (forall key | key in old(netFlowStats) && !(counted && key == KeyOf(call)) :: netFlowStats[key] == old(netFlowStats)[key])
        && (counted ==>
              var was := if KeyOf(call) in old(netFlowStats) then old(netFlowStats)[KeyOf(call)].stat else NO_FLOW;
              var now := netFlowStats[KeyOf(call)].stat;
              && now.rxBytes == was.rxBytes + call.rx && now.rxPackets == was.rxPackets + (if call.rx > 0 then 1 else 0)
              && now.txBytes == was.txBytes + call.tx && now.txPackets == was.txPackets + (if call.tx > 0 then 1 else 0))
    {
      evicted := None;
      if !Accounts(call) {
        return;
      }
      evicted := AddIo(cpu, call.pid, IoStat(0, 0, call.rx, call.tx));
      if !ShouldTrace(targetPids.entries, call.pid) {
        return;
      }
      var key := KeyOf(call);
      if key in netFlowStats {
        var stat := netFlowStats[key].stat;
        if call.rx > 0 {
          stat := stat.(rxBytes := stat.rxBytes + call.rx);
          stat := stat.(rxPackets := stat.rxPackets + 1);
        }
        if call.tx > 0 {
          stat := stat.(txBytes := stat.txBytes + call.tx);
          stat := stat.(txPackets := stat.txPackets + 1);
        }
        netFlowStats := netFlowStats[key := netFlowStats[key].(stat := stat)];
      } else if |netFlowStats| < MAX_FLOWS {
        netFlowStats := netFlowStats[key := Flow(nextGen, NewFlow(call))];
        nextGen := nextGen + 1;
      }
    }
  }
}
