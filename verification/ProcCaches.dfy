/** The per-pid cache of fields that seldom change, refreshed after a time to live. */
module ProcCaches {
  import opened Common
  import opened Managers

  /** What one reading of `/proc/<pid>` yields. */
  datatype Stable = Stable(ppid: Pid, comm: string, namespaces: map<string, nat>, cgroupPath: Option<string>)

  /** `/proc` over time: nothing for a pid that cannot be read then. */
  type World = (int, Pid) -> Option<Stable>

  datatype Entry = Entry(pid: Pid, stable: Stable, managedBy: Option<Manager>, loadedAt: int)

  type Entries = map<Pid, Entry>

  function ParentView(entries: Entries): View {
    map p | p in entries :: Info(entries[p].stable.comm, entries[p].stable.ppid)
  }

  function ProcAt(world: World, at: int): ProcFs {
    (p: Pid) => match world(at, p) case None => None case Some(s) => Some(Info(s.comm, s.ppid))
  }

  function Cached(entries: Entries, pid: Pid): Option<Entry> {
    if pid in entries then Some(entries[pid]) else None
  }

  function ManagerOf(entries: Entries, pid: Pid): Option<Manager> {
    if pid in entries then entries[pid].managedBy else None
  }

  predicate Expired(loadedAt: int, now: int, ttl: nat) {
    now - loadedAt > ttl
  }

  predicate NeedsReload(entries: Entries, pid: Pid, now: int, ttl: nat) {
    pid !in entries || Expired(entries[pid].loadedAt, now, ttl)
  }

  /** The manager is kept once known, otherwise looked for again. */
  ghost function Loaded(entries: Entries, pid: Pid, s: Stable, world: World, asked: int, stamped: int): Entry {
    var known := ManagerOf(entries, pid);
    Entry(pid, s, if known.Some? then known else Detected(ParentView(entries), ProcAt(world, asked), pid), stamped)
  }

  /** The entries after `get_or_load`, asked at one instant and stamped at a later one. */
  ghost function AfterGet(entries: Entries, pid: Pid, asked: int, stamped: int, ttl: nat, world: World): Entries {
    if !NeedsReload(entries, pid, asked, ttl) then entries
    else match world(asked, pid)
      case None => entries - {pid}
      case Some(s) => entries[pid := Loaded(entries, pid, s, world, asked, stamped)]
  }

  function AfterSweep(entries: Entries, alive: set<Pid>): Entries {
    map p | p in entries && p in alive :: entries[p]
  }

  class ProcCache {
    var entries: Entries
    const ttl: nat

    constructor (ttl: nat)
      ensures entries == map[] && this.ttl == ttl
    {
      entries := map[];
      this.ttl := ttl;
    }

    method GetOrLoad(pid: Pid, asked: int, stamped: int, world: World) returns (r: Option<Entry>)
      modifies this
      ensures entries == AfterGet(old(entries), pid, asked, stamped, ttl, world)
      ensures r == Cached(entries, pid)
    {
      var needsReload := true;
      if pid in entries {
        needsReload := asked - entries[pid].loadedAt > ttl;
      }
      if needsReload {
        var known := None;
        if pid in entries {
          known := entries[pid].managedBy;
        }
        match world(asked, pid) {
          case None =>
            entries := entries - {pid};
            return None;
          case Some(s) =>
            var manager := known;
            if manager.None? {
              manager := DetectManager(pid, ParentView(entries), ProcAt(world, asked));
            }
            entries := entries[pid := Entry(pid, s, manager, stamped)];
        }
      }
      r := Some(entries[pid]);
    }

    method Invalidate(pid: Pid)
      modifies this
      ensures entries == old(entries) - {pid}
    {
      entries := entries - {pid};
    }

    method Sweep(alive: set<Pid>)
      modifies this
      ensures entries == AfterSweep(old(entries), alive)
    {
      entries := map p | p in entries && p in alive :: entries[p];
    }
  }

  // ---------------------------------------------------------------------------------
  // One call.

  /** A call touches no other pid. */
  lemma GetIsLocal(entries: Entries, pid: Pid, asked: int, stamped: int, ttl: nat, world: World, other: Pid)
    requires other != pid
    ensures Cached(AfterGet(entries, pid, asked, stamped, ttl, world), other) == Cached(entries, other)
  {
  }

  /** Nothing is returned exactly when a reload was due and the process could not be read. */
  lemma GoneExactly(entries: Entries, pid: Pid, asked: int, stamped: int, ttl: nat, world: World)
    ensures Cached(AfterGet(entries, pid, asked, stamped, ttl, world), pid).None?
       <==> NeedsReload(entries, pid, asked, ttl) && world(asked, pid).None?
  {
  }

  /** Asking twice within the time to live reads `/proc` once. */
  lemma GetIsIdempotent(entries: Entries, pid: Pid, asked: int, stamped: int, again: int, later: int, ttl: nat, world: World)
    requires again - stamped <= ttl && asked <= stamped <= again
    requires Cached(AfterGet(entries, pid, asked, stamped, ttl, world), pid).Some?
    requires NeedsReload(entries, pid, asked, ttl)
    ensures var once := AfterGet(entries, pid, asked, stamped, ttl, world);
      AfterGet(once, pid, again, later, ttl, world) == once
  {
  }

  /**
   * While the cache agrees with `/proc` on every parent, a manager not yet known is found as if the
   * cache were not there.
   */
  lemma DetectionIgnoresAConsistentCache(entries: Entries, pid: Pid, s: Stable, world: World, asked: int, stamped: int)
    requires ManagerOf(entries, pid).None? && Consistent(ParentView(entries), ProcAt(world, asked))
    ensures Loaded(entries, pid, s, world, asked, stamped).managedBy == Detected(map[], ProcAt(world, asked), pid)
  {
    ConsistentCacheIsInvisible(ParentView(entries), ProcAt(world, asked), pid);
  }

  /** The parent from which a search for the manager of `pid` goes up: an old entry's, if there still is one. */
  function RecordedParent(entries: Entries, pid: Pid, s: Stable): Pid {
    if pid in entries then entries[pid].stable.ppid else s.ppid
  }

  /** The search on a reload goes up from the recorded parent, not from the one just read. */
  lemma ReloadSearchesAboveTheRecordedParent(entries: Entries, pid: Pid, s: Stable, world: World, asked: int, stamped: int)
    requires ManagerOf(entries, pid).None? && world(asked, pid) == Some(s)
    requires ConsistentButFor(ParentView(entries), ProcAt(world, asked), pid)
    ensures Loaded(entries, pid, s, world, asked, stamped).managedBy
         == Above(ProcAt(world, asked), pid, RecordedParent(entries, pid, s))
  {
    DetectedFromTheParent(ParentView(entries), ProcAt(world, asked), pid);
  }

  /**
   * So a reload finds the manager that `/proc` alone would give if and only if both parents lead to the
   * same one; it always does for a pid that was not cached or whose parent is unchanged.
   */
  lemma ReloadIsRightExactly(entries: Entries, pid: Pid, s: Stable, world: World, asked: int, stamped: int)
    requires ManagerOf(entries, pid).None? && world(asked, pid) == Some(s)
    requires ConsistentButFor(ParentView(entries), ProcAt(world, asked), pid)
    ensures var proc := ProcAt(world, asked);
      var right := Loaded(entries, pid, s, world, asked, stamped).managedBy == Detected(map[], proc, pid);
      && (right <==> Above(proc, pid, RecordedParent(entries, pid, s)) == Above(proc, pid, s.ppid))
      && (RecordedParent(entries, pid, s) == s.ppid ==> right)
  {
    ReloadSearchesAboveTheRecordedParent(entries, pid, s, world, asked, stamped);
    DetectedFromTheParent(map[], ProcAt(world, asked), pid);
  }
}
