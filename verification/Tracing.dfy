/**
 * The `target_pids` map: which pids the kernel programs report on, and how much.
 * Userspace arms a pid with both flags; the fork handler copies the parent's flags
 * to the child.
 */
module Tracing {
  import opened Common

  const METRICS: bv8 := 1
  const EVENTS: bv8 := 2
  const ALL: bv8 := 3

  const MAX_ENTRIES: nat := 4096

  type Targets = map<Pid, bv8>

  predicate ShouldTrace(targets: Targets, pid: Pid) {
    pid in targets && targets[pid] & METRICS != 0
  }

  predicate ShouldTraceEvents(targets: Targets, pid: Pid) {
    pid in targets && targets[pid] & EVENTS != 0
  }

  /** The fork handler's second lookup: the parent may be gone again by now. */
  function InheritedFlags(targets: Targets, parent: Pid): bv8 {
    if parent in targets then targets[parent] else METRICS
  }

  /** A map update, which has no effect when it fails. */
  function Updated(targets: Targets, pid: Pid, flags: bv8, succeeds: bool): Targets {
    if succeeds then targets[pid := flags] else targets
  }

  /** The BPF hash map itself: an update fails when a new key finds the map full. */
  class TargetPids {
    var entries: Targets

    constructor ()
      ensures entries == map[]
    {
      entries := map[];
    }

    method Insert(pid: Pid, flags: bv8) returns (ok: bool)
      modifies this
      ensures ok <==> pid in old(entries) || |old(entries)| < MAX_ENTRIES
      ensures entries == Updated(old(entries), pid, flags, ok)
    {
      ok := pid in entries || |entries| < MAX_ENTRIES;
      if ok {
        entries := entries[pid := flags];
      }
    }

    method Remove(pid: Pid) returns (ok: bool)
      modifies this
      ensures ok <==> pid in old(entries)
      ensures entries == old(entries) - {pid}
    {
      ok := pid in entries;
      entries := map p | p in entries && p != pid :: entries[p];
    }
  }
}
