/** One scan of `/proc`, and the processes it publishes. */
module Scanner {
  import opened Common
  import opened ProcCaches
  import opened NamespaceTrees
  import CgroupTrees
  import IoAccounting

  /** What `read_light` finds; `None` once the process has gone. */
  datatype Light = Light(ppid: Pid, comm: string, state: char, utime: nat, stime: nat, rssBytes: nat)

  type Lights = Pid -> Option<Light>

  /** Directory entries of `/proc` in order; one that cannot be read is `None`. */
  type Listing = seq<Option<Pid>>

  /** Clock ticks used and, in seconds, when that was read. */
  datatype CpuPrev = CpuPrev(ticks: nat, at: real)

  type PrevCpu = map<Pid, CpuPrev>

  datatype Process = Process(pid: Pid, light: Light, cpu: real, entry: Option<Entry>,
                             limits: Option<CgroupTrees.Limits>, rates: IoAccounting.IoStat)

  /** When the load for each listing entry was asked for and when it was stamped. */
  type Clock = nat -> (int, int)

  function Ticks(l: Light): nat {
    l.utime + l.stime
  }

  function Seconds(from: real, to: real): (r: real)
    ensures r >= 0.0001 && (to - from >= 0.0001 ==> r == to - from)
  {
    if to - from > 0.0001 then to - from else 0.0001
  }

  /** Ticks used since the previous sample; a count that went down counts as none. */
  function Used(prev: CpuPrev, l: Light): nat {
    if Ticks(l) > prev.ticks then Ticks(l) - prev.ticks else 0
  }

  function Clamped(pct: real): real {
    if pct < 0.0 then 0.0 else if pct > 100.0 then 100.0 else pct
  }

  lemma QuotientBack(x: real, y: real)
    requires y > 0.0
    ensures x / y / 100.0 * 100.0 * y == x
  {
  }

  lemma ProductOrder(a: real, b: real, y: real)
    requires y > 0.0
    ensures a * y <= b * y <==> a <= b
  {
  }

  /** A capped quotient times its divisor. */
  lemma ClampedBack(used: real, secs: real)
    requires used >= 0.0 && secs > 0.0
    ensures Clamped(used / secs / 100.0 * 100.0) * secs == if used <= 100.0 * secs then used else 100.0 * secs
  {
    QuotientBack(used, secs);
    ProductOrder(used / secs / 100.0 * 100.0, 100.0, secs);
    ProductOrder(0.0, used / secs / 100.0 * 100.0, secs);
  }

  /**
   * A hundred ticks to the second, as a percentage: times the elapsed seconds it is the ticks used, but no more
   * than one processor could use.
   */
  function CpuPct(prev: PrevCpu, pid: Pid, l: Light, now: real): (pct: real)
    ensures 0.0 <= pct <= 100.0
    ensures pid !in prev ==> pct == 0.0
    ensures pid in prev ==>
      var total, secs := l.utime + l.stime, if now - prev[pid].at >= 0.0001 then now - prev[pid].at else 0.0001;
      var used := if total > prev[pid].ticks then (total - prev[pid].ticks) as real else 0.0;
      pct * secs == if used <= 100.0 * secs then used else 100.0 * secs
  {
    if pid !in prev then 0.0
    else
      ClampedBack(Used(prev[pid], l) as real, Seconds(prev[pid].at, now));
      Clamped(Used(prev[pid], l) as real / Seconds(prev[pid].at, now) / 100.0 * 100.0)
  }

  /** That determines the percentage of any pid sampled before. */
  lemma OnePct(prev: PrevCpu, pid: Pid, l: Light, now: real, pct: real)
    requires pid in prev
    requires var total, secs := l.utime + l.stime, if now - prev[pid].at >= 0.0001 then now - prev[pid].at else 0.0001;
      var used := if total > prev[pid].ticks then (total - prev[pid].ticks) as real else 0.0;
      pct * secs == if used <= 100.0 * secs then used else 100.0 * secs
    ensures pct == CpuPct(prev, pid, l, now)
  {
    ProductOrder(pct, CpuPct(prev, pid, l, now), Seconds(prev[pid].at, now));
    ProductOrder(CpuPct(prev, pid, l, now), pct, Seconds(prev[pid].at, now));
  }

  /** Below the cap the percentage times the elapsed seconds gives back the ticks used. */
  lemma CpuPctMeasures(prev: PrevCpu, pid: Pid, l: Light, now: real)
    requires pid in prev && now - prev[pid].at >= 0.0001
    requires l.utime + l.stime >= prev[pid].ticks && CpuPct(prev, pid, l, now) < 100.0
    ensures CpuPct(prev, pid, l, now) * (now - prev[pid].at) == (l.utime + l.stime - prev[pid].ticks) as real
  {
    ProductOrder(100.0, CpuPct(prev, pid, l, now), now - prev[pid].at);
  }

  predicate IsAlive(lights: Lights, item: Option<Pid>) {
    item.Some? && lights(item.value).Some?
  }

  /** The pids found alive among the first `i` entries. */
  ghost function Alive(listing: Listing, lights: Lights, i: nat): set<Pid>
    requires i <= |listing|
  {
    if i == 0 then {}
    else Alive(listing, lights, i - 1) + if IsAlive(lights, listing[i - 1]) then {listing[i - 1].value} else {}
  }

  /** The non-zero ones in listing order. */
  ghost function Published(listing: Listing, lights: Lights, i: nat): seq<Pid>
    requires i <= |listing|
  {
    if i == 0 then []
    else
      Published(listing, lights, i - 1) +
      if IsAlive(lights, listing[i - 1]) && listing[i - 1].value != 0 then [listing[i - 1].value] else []
  }

  lemma {:induction false} AliveMembers(listing: Listing, lights: Lights, i: nat, p: Pid)
    requires i <= |listing|
    ensures p in Alive(listing, lights, i) <==> lights(p).Some? && exists j :: 0 <= j < i && listing[j] == Some(p)
  {
    if i > 0 {
      AliveMembers(listing, lights, i - 1, p);
    }
  }

  lemma {:induction false} PublishedMembers(listing: Listing, lights: Lights, i: nat, p: Pid)
    requires i <= |listing|
    ensures p in Published(listing, lights, i) <==> p in Alive(listing, lights, i) && p != 0
  {
    if i > 0 {
      PublishedMembers(listing, lights, i - 1, p);
    }
  }

  ghost predicate Distinct(listing: Listing) {
    forall i, j | 0 <= i < j < |listing| && listing[i].Some? :: listing[i] != listing[j]
  }

  lemma NotYetPublished(listing: Listing, lights: Lights, i: nat)
    requires i < |listing| && listing[i].Some? && Distinct(listing)
    ensures listing[i].value !in Published(listing, lights, i)
  {
    PublishedMembers(listing, lights, i, listing[i].value);
    AliveMembers(listing, lights, i, listing[i].value);
  }

  ghost predicate NoRepeats(s: seq<Pid>) {
    forall i, j | 0 <= i < j < |s| :: s[i] != s[j]
  }

  lemma AppendNew(s: seq<Pid>, p: Pid)
    requires NoRepeats(s) && p !in s
    ensures NoRepeats(s + [p])
  {
  }

  lemma {:induction false} PublishedOnce(listing: Listing, lights: Lights, n: nat)
    requires n <= |listing| && Distinct(listing)
    ensures NoRepeats(Published(listing, lights, n))
  {
    if n > 0 {
      PublishedOnce(listing, lights, n - 1);
      var before := Published(listing, lights, n - 1);
      if IsAlive(lights, listing[n - 1]) && listing[n - 1].value != 0 {
        NotYetPublished(listing, lights, n - 1);
        AppendNew(before, listing[n - 1].value);
      } else {
        assert before + [] == before;
      }
    }
  }

  /** With distinct directory entries the published pids are the non-zero alive pids, once each. */
  lemma PublishedExactly(listing: Listing, lights: Lights)
    requires Distinct(listing)
    ensures var r := Published(listing, lights, |listing|);
      && (forall p: Pid :: p in r <==> Some(p) in listing && lights(p).Some? && p != 0)
      && NoRepeats(r)
  {
    PublishedOnce(listing, lights, |listing|);
    forall p: Pid
      ensures p in Published(listing, lights, |listing|) <==> Some(p) in listing && lights(p).Some? && p != 0
    {
      PublishedMembers(listing, lights, |listing|, p);
      AliveMembers(listing, lights, |listing|, p);
    }
  }

  function Pids(processes: seq<Process>): (r: seq<Pid>)
    ensures |r| == |processes| && forall i | 0 <= i < |r| :: r[i] == processes[i].pid
  {
    seq(|processes|, i requires 0 <= i < |processes| => processes[i].pid)
  }

  /** A published process shows what was read for it. */
  ghost predicate Shows(p: Process, prev: PrevCpu, lights: Lights, rates: map<Pid, IoAccounting.IoStat>, now: real) {
    && lights(p.pid) == Some(p.light)
    && p.cpu == CpuPct(prev, p.pid, p.light, now)
    && p.rates == if p.pid in rates then rates[p.pid] else IoAccounting.NO_IO
  }

  /** Entries loaded no earlier than one time to live before the scan. */
  ghost predicate Recent(entries: Entries, alive: set<Pid>, at: int) {
    forall p | p in entries && p in alive :: entries[p].loadedAt >= at
  }

  /** A process carries the entry the cache holds for it. */
  ghost predicate Carries(processes: seq<Process>, entries: Entries) {
    forall i | 0 <= i < |processes| :: processes[i].entry == Cached(entries, processes[i].pid)
  }

  /** Asking for one pid leaves the others alone and makes its own entry recent. */
  lemma GetKeepsRecent(entries: Entries, pid: Pid, asked: int, stamped: int, ttl: nat, world: World, alive: set<Pid>, start: int)
    requires Recent(entries, alive, start - ttl) && start <= asked <= stamped
    ensures var after := AfterGet(entries, pid, asked, stamped, ttl, world);
      && Recent(after, alive + {pid}, start - ttl)
      && forall q: Pid | q != pid :: Cached(after, q) == Cached(entries, q)
  {
  }

  lemma StillCarries(processes: seq<Process>, entries: Entries, after: Entries, pid: Pid)
    requires Carries(processes, entries) && pid !in Pids(processes)
    requires forall q: Pid | q != pid :: Cached(after, q) == Cached(entries, q)
    ensures Carries(processes, after)
  {
    forall i | 0 <= i < |processes| ensures processes[i].entry == Cached(after, processes[i].pid) {
      assert Pids(processes)[i] == processes[i].pid;
    }
  }

  /** The sweep drops only what no published process carries. */
  lemma SweepKeepsCarried(processes: seq<Process>, entries: Entries, alive: set<Pid>)
    requires Carries(processes, entries) && forall p | p in Pids(processes) :: p in alive
    ensures Carries(processes, AfterSweep(entries, alive))
  {
    forall i | 0 <= i < |processes| ensures processes[i].entry == Cached(AfterSweep(entries, alive), processes[i].pid) {
      assert Pids(processes)[i] == processes[i].pid;
    }
  }

  /** The inputs of one scan; `floor` is one time to live before it began. */
  datatype Setting = Setting(items: Listing, lights: Lights, rates: map<Pid, IoAccounting.IoStat>, prev: PrevCpu, now: real, floor: int)

  ghost predicate CpuSampled(next: PrevCpu, alive: set<Pid>, lights: Lights, now: real) {
    && next.Keys == alive
    && forall p | p in alive :: lights(p).Some? && next[p] == CpuPrev(lights(p).value.utime + lights(p).value.stime, now)
  }

  ghost predicate AllShow(processes: seq<Process>, c: Setting) {
    forall j | 0 <= j < |processes| :: Shows(processes[j], c.prev, c.lights, c.rates, c.now)
  }

  /** What has been done once the first `i` directory entries have been visited. */
  ghost predicate Progress(c: Setting, i: nat, alive: set<Pid>, next: PrevCpu, entries: Entries, processes: seq<Process>) {
    && i <= |c.items|
    && alive == Alive(c.items, c.lights, i) && CpuSampled(next, alive, c.lights, c.now)
    && Recent(entries, alive, c.floor)
    && Pids(processes) == Published(c.items, c.lights, i)
    && AllShow(processes, c)
    && (Distinct(c.items) ==> Carries(processes, entries))
  }

  lemma SkipStep(c: Setting, i: nat, alive: set<Pid>, next: PrevCpu, entries: Entries, processes: seq<Process>)
    requires Progress(c, i, alive, next, entries, processes) && i < |c.items| && !IsAlive(c.lights, c.items[i])
    ensures Progress(c, i + 1, alive, next, entries, processes)
  {
    assert Published(c.items, c.lights, i + 1) == Published(c.items, c.lights, i) + [];
  }

  lemma PublishedStep(items: Listing, lights: Lights, i: nat, processes: seq<Process>, p: Process)
    requires i < |items| && items[i] == Some(p.pid) && IsAlive(lights, items[i])
    requires Pids(processes) == Published(items, lights, i)
    ensures Pids(if p.pid != 0 then processes + [p] else processes) == Published(items, lights, i + 1)
  {
    assert Pids(processes + [p]) == Pids(processes) + [p.pid];
    assert Published(items, lights, i) + [] == Published(items, lights, i);
  }

  lemma CarriesStep(c: Setting, i: nat, entries: Entries, processes: seq<Process>, p: Process, after: Entries)
    requires i < |c.items| && c.items[i] == Some(p.pid) && Distinct(c.items)
    requires Pids(processes) == Published(c.items, c.lights, i) && Carries(processes, entries)
    requires p.entry == Cached(after, p.pid) && forall q: Pid | q != p.pid :: Cached(after, q) == Cached(entries, q)
    ensures Carries(if p.pid != 0 then processes + [p] else processes, after)
  {
    NotYetPublished(c.items, c.lights, i);
    StillCarries(processes, entries, after, p.pid);
  }

  lemma SampledStep(next: PrevCpu, alive: set<Pid>, lights: Lights, now: real, p: Pid)
    requires CpuSampled(next, alive, lights, now) && lights(p).Some?
    ensures CpuSampled(next[p := CpuPrev(Ticks(lights(p).value), now)], alive + {p}, lights, now)
  {
  }

  lemma AliveStep(c: Setting, i: nat, alive: set<Pid>, next: PrevCpu, entries: Entries, processes: seq<Process>, p: Process, after: Entries)
    requires Progress(c, i, alive, next, entries, processes) && i < |c.items|
    requires c.items[i] == Some(p.pid) && Shows(p, c.prev, c.lights, c.rates, c.now)
    requires Recent(after, alive + {p.pid}, c.floor) && p.entry == Cached(after, p.pid)
    requires forall q: Pid | q != p.pid :: Cached(after, q) == Cached(entries, q)
    ensures Progress(c, i + 1, alive + {p.pid}, next[p.pid := CpuPrev(Ticks(p.light), c.now)], after,
                     if p.pid != 0 then processes + [p] else processes)
  {
    PublishedStep(c.items, c.lights, i, processes, p);
    SampledStep(next, alive, c.lights, c.now, p.pid);
    if Distinct(c.items) {
      CarriesStep(c, i, entries, processes, p, after);
    }
  }

  lemma SweepKeepsResults(c: Setting, alive: set<Pid>, next: PrevCpu, entries: Entries, processes: seq<Process>)
    requires Progress(c, |c.items|, alive, next, entries, processes)
    ensures Progress(c, |c.items|, alive, next, AfterSweep(entries, alive), processes)
  {
    forall p | p in Pids(processes) ensures p in alive {
      PublishedMembers(c.items, c.lights, |c.items|, p);
    }
    if Distinct(c.items) {
      SweepKeepsCarried(processes, entries, alive);
    }
  }

  // ---------------------------------------------------------------------------------
  // The two caches a scan goes through.

  datatype Caches = Caches(entries: Entries, cgroups: CgroupTrees.Contents)

  /** Where a scan reads, when, and how long the two caches keep what they load. */
  datatype Source = Source(lights: Lights, clock: Clock, procTtl: nat, world: World, cgroupTtl: nat, sysfs: CgroupTrees.Sysfs)

  function PathOf(entry: Option<Entry>): Option<string> {
    if entry.Some? then entry.value.stable.cgroupPath else None
  }

  /** The caches after one process: its entry is asked for, then the limits of that entry's cgroup. */
  ghost function AfterVisit(c: Caches, pid: Pid, asked: int, stamped: int, src: Source): Caches {
    var entries := AfterGet(c.entries, pid, asked, stamped, src.procTtl, src.world);
    var path := PathOf(Cached(entries, pid));
    Caches(entries,
      if path.None? then c.cgroups else CgroupTrees.AfterGet(c.cgroups, path.value, asked, stamped, src.cgroupTtl, src.sysfs))
  }

  /** The caches after the first `i` directory entries: the alive ones are visited in order. */
  ghost function AfterVisits(c: Caches, listing: Listing, i: nat, src: Source): Caches
    requires i <= |listing|
  {
    if i == 0 then c
    else
      var before := AfterVisits(c, listing, i - 1, src);
      if IsAlive(src.lights, listing[i - 1])
      then AfterVisit(before, listing[i - 1].value, src.clock(i - 1).0, src.clock(i - 1).1, src)
      else before
  }

  class ProcessScanner {
    var prevCpu: PrevCpu
    const procCache: ProcCache
    const cgroups: CgroupTrees.CgroupTreeCache
    const namespaceTree: NamespaceTreeCache

    constructor (procCache: ProcCache, cgroups: CgroupTrees.CgroupTreeCache, namespaceTree: NamespaceTreeCache)
      ensures prevCpu == map[]
      ensures this.procCache == procCache && this.cgroups == cgroups && this.namespaceTree == namespaceTree
    {
      prevCpu := map[];
      this.procCache := procCache;
      this.cgroups := cgroups;
      this.namespaceTree := namespaceTree;
    }

    ghost function Now(): Caches
      reads procCache, cgroups
    {
      Caches(procCache.entries, cgroups.State())
    }

    /** What one process publishes, its stable fields and limits fetched through the caches. */
    method ScanProcess(pid: Pid, light: Light, rates: map<Pid, IoAccounting.IoStat>, now: real, asked: int, stamped: int, src: Source)
      returns (p: Process)
      requires cgroups.entries.Keys == cgroups.loadedAt.Keys
      requires src.procTtl == procCache.ttl && src.cgroupTtl == cgroups.ttl
      modifies procCache, cgroups
      ensures Now() == AfterVisit(old(Now()), pid, asked, stamped, src)
      ensures p.pid == pid && p.light == light && p.cpu == CpuPct(prevCpu, pid, light, now)
      ensures p.rates == if pid in rates then rates[pid] else IoAccounting.NO_IO
      ensures p.entry == Cached(procCache.entries, pid)
      ensures p.limits.Some? <==> p.entry.Some? && p.entry.value.stable.cgroupPath.Some?
      ensures p.limits.Some? ==>
        var path := p.entry.value.stable.cgroupPath.value;
        path in cgroups.entries && p.limits.value == cgroups.entries[path]
      ensures cgroups.entries.Keys == cgroups.loadedAt.Keys
    {
      var cpu := CpuPct(prevCpu, pid, light, now);
      var entry := procCache.GetOrLoad(pid, asked, stamped, src.world);
      var limits := cgroups.GetOrLoad(PathOf(entry), asked, stamped, src.sysfs);
      p := Process(pid, light, cpu, entry, limits, if pid in rates then rates[pid] else IoAccounting.NO_IO);
    }

    /** The loop over the directory entries, under the two cache locks. */
    method VisitAll(items: Listing, rates: map<Pid, IoAccounting.IoStat>, now: real, ghost start: int, src: Source, ghost c: Setting)
      returns (alivePids: set<Pid>, nextPrevCpu: PrevCpu, processes: seq<Process>)
      requires cgroups.entries.Keys == cgroups.loadedAt.Keys
      requires src.procTtl == procCache.ttl && src.cgroupTtl == cgroups.ttl
      requires forall i :: start <= src.clock(i).0 <= src.clock(i).1
      requires c == Setting(items, src.lights, rates, prevCpu, now, start - procCache.ttl)
      modifies procCache, cgroups
      ensures cgroups.entries.Keys == cgroups.loadedAt.Keys
      ensures Now() == AfterVisits(old(Now()), items, |items|, src)
      ensures Progress(c, |items|, alivePids, nextPrevCpu, procCache.entries, processes)
    {
      alivePids, nextPrevCpu, processes := {}, map[], [];
      for i := 0 to |items|
        invariant cgroups.entries.Keys == cgroups.loadedAt.Keys
        invariant Now() == AfterVisits(old(Now()), items, i, src)
        invariant Progress(c, i, alivePids, nextPrevCpu, procCache.entries, processes)
      {
        if items[i].None? || src.lights(items[i].value).None? {
          SkipStep(c, i, alivePids, nextPrevCpu, procCache.entries, processes);
          continue;
        }
        var pid, light := items[i].value, src.lights(items[i].value).value;
        var asked, stamped := src.clock(i).0, src.clock(i).1;
        ghost var before := procCache.entries;
        GetKeepsRecent(before, pid, asked, stamped, procCache.ttl, src.world, alivePids, start);
        var p := ScanProcess(pid, light, rates, now, asked, stamped, src);
        AliveStep(c, i, alivePids, nextPrevCpu, before, processes, p, procCache.entries);
        alivePids := alivePids + {pid};
        nextPrevCpu := nextPrevCpu[pid := CpuPrev(Ticks(light), now)];
        if pid != 0 {
          processes := processes + [p];
        }
      }
    }

    /** `scan_once`; `listing` is absent when `/proc` itself cannot be read. */
    method ScanOnce(listing: Option<Listing>, rates: map<Pid, IoAccounting.IoStat>, now: real, ghost start: int, end: int, src: Source)
      returns (processes: seq<Process>)
      requires cgroups.entries.Keys == cgroups.loadedAt.Keys
      requires src.procTtl == procCache.ttl && src.cgroupTtl == cgroups.ttl
      requires forall i :: start <= src.clock(i).0 <= src.clock(i).1
      modifies this, procCache, cgroups, namespaceTree
      ensures listing.None? ==>
        && processes == [] && prevCpu == old(prevCpu) && Now() == old(Now())
        && namespaceTree.tree == old(namespaceTree.tree) && namespaceTree.builtAt == old(namespaceTree.builtAt)
      ensures listing.Some? ==> var alive := Alive(listing.value, src.lights, |listing.value|);
        var visited := AfterVisits(old(Now()), listing.value, |listing.value|, src);
        && CpuSampled(prevCpu, alive, src.lights, now)
        && Now() == Caches(AfterSweep(visited.entries, alive), visited.cgroups)
        && procCache.entries.Keys <= alive
        && Recent(procCache.entries, alive, start - procCache.ttl)
        && Pids(processes) == Published(listing.value, src.lights, |listing.value|)
        && (forall i | 0 <= i < |processes| :: Shows(processes[i], old(prevCpu), src.lights, rates, now))
        && (Distinct(listing.value) ==> Carries(processes, procCache.entries))
      ensures listing.Some? ==>
        if old(namespaceTree.builtAt).Some? && end - old(namespaceTree.builtAt).value <= namespaceTree.ttl
        then namespaceTree.tree == old(namespaceTree.tree) && namespaceTree.builtAt == old(namespaceTree.builtAt)
        else IsIndex(namespaceTree.tree, procCache.entries) && namespaceTree.builtAt == Some(end)
    {
      processes := [];
      if listing.None? {
        return;
      }
      var items := listing.value;
      ghost var c := Setting(items, src.lights, rates, prevCpu, now, start - procCache.ttl);
      var alivePids, nextPrevCpu;
      alivePids, nextPrevCpu, processes := VisitAll(items, rates, now, start, src, c);
      SweepKeepsResults(c, alivePids, nextPrevCpu, procCache.entries, processes);
      procCache.Sweep(alivePids);
      if namespaceTree.IsStale(end) {
        namespaceTree.RebuildFrom(procCache.entries, end);
      }
      prevCpu := nextPrevCpu;
    }
  }
}
