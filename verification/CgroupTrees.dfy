/** The cache of cgroup limits: two maps kept in step, and a diagnostic counter. */
module CgroupTrees {
  import opened Common

  datatype Limits = Limits(memoryBytes: nat, cpuQuota: nat, cpuPeriod: nat, pids: nat)

  /** The limits under `/sys/fs/cgroup` over time; a file that cannot be read counts as no limit. */
  type Sysfs = (int, string) -> Limits

  datatype Contents = Contents(entries: map<string, Limits>, loadedAt: map<string, int>, totalPathsSeen: nat)

  predicate Outdated(c: Contents, path: string, now: int, ttl: nat) {
    path !in c.loadedAt || now - c.loadedAt[path] > ttl
  }

  function AfterGet(c: Contents, path: string, asked: int, stamped: int, ttl: nat, sysfs: Sysfs): Contents {
    if !Outdated(c, path, asked, ttl) then c
    else Contents(c.entries[path := sysfs(asked, path)], c.loadedAt[path := stamped],
                  if path in c.entries then c.totalPathsSeen else c.totalPathsSeen + 1)
  }

  function AfterInvalidate(c: Contents, path: string): Contents {
    Contents(c.entries - {path}, c.loadedAt - {path}, c.totalPathsSeen)
  }

  class CgroupTreeCache {
    var entries: map<string, Limits>
    var loadedAt: map<string, int>
    var totalPathsSeen: nat
    const ttl: nat

    constructor (ttl: nat)
      ensures State() == Contents(map[], map[], 0) && this.ttl == ttl
    {
      entries, loadedAt, totalPathsSeen := map[], map[], 0;
      this.ttl := ttl;
    }

    function State(): Contents
      reads this
    {
      Contents(entries, loadedAt, totalPathsSeen)
    }

    method GetOrLoad(cgroupPath: Option<string>, asked: int, stamped: int, sysfs: Sysfs) returns (r: Option<Limits>)
      modifies this
      ensures cgroupPath.None? ==> State() == old(State()) && r.None?
      ensures cgroupPath.Some? ==> State() == AfterGet(old(State()), cgroupPath.value, asked, stamped, ttl, sysfs)
      ensures cgroupPath.Some? ==> r == if cgroupPath.value in entries then Some(entries[cgroupPath.value]) else None
    {
      if cgroupPath.None? {
        return None;
      }
      var path := cgroupPath.value;
      var stale := true;
      if path in loadedAt {
        stale := asked - loadedAt[path] > ttl;
      }
      if stale {
        var limits := sysfs(asked, path);
        var wasNew := path !in entries;
        entries := entries[path := limits];
        loadedAt := loadedAt[path := stamped];
        if wasNew {
          totalPathsSeen := totalPathsSeen + 1;
        }
      }
      r := if path in entries then Some(entries[path]) else None;
    }

    method Invalidate(path: string)
      modifies this
      ensures State() == AfterInvalidate(old(State()), path)
    {
      entries := entries - {path};
      loadedAt := loadedAt - {path};
    }
  }

  /** Asking twice within the time to live of a load reads `/sys/fs/cgroup` once. */
  lemma GetIsIdempotent(c: Contents, path: string, asked: int, stamped: int, again: int, later: int, ttl: nat, sysfs: Sysfs)
    requires path in c.loadedAt ==> asked - c.loadedAt[path] > ttl
    requires again - stamped <= ttl
    ensures var once := AfterGet(c, path, asked, stamped, ttl, sysfs);
      && once.entries == c.entries[path := sysfs(asked, path)]
      && AfterGet(once, path, again, later, ttl, sysfs) == once
  {
  }

  // ---------------------------------------------------------------------------------
  // Runs. `seen`, `evicted` and `readded` only keep the history.

  datatype Step = Get(path: string, took: nat) | Invalidate(path: string) | Wait(d: nat)

  datatype State = State(now: int, c: Contents, seen: set<string>, evicted: nat, readded: nat)

  datatype Config = Config(ttl: nat, slow: nat, sysfs: Sysfs)

  const INIT := State(0, Contents(map[], map[], 0), {}, 0, 0)

  predicate Enabled(k: Config, step: Step) {
    step.Get? ==> step.took <= k.slow
  }

  function Apply(k: Config, s: State, step: Step): State {
    match step
    case Get(path, took) =>
      State(s.now + took, AfterGet(s.c, path, s.now, s.now + took, k.ttl, k.sysfs), s.seen + {path}, s.evicted,
            if path in s.seen && path !in s.c.entries then s.readded + 1 else s.readded)
    case Invalidate(path) =>
      State(s.now, AfterInvalidate(s.c, path), s.seen,
            if path in s.c.entries then s.evicted + 1 else s.evicted, s.readded)
    case Wait(d) => s.(now := s.now + d)
  }

  predicate Runs(k: Config, steps: seq<Step>) {
    forall i | 0 <= i < |steps| :: Enabled(k, steps[i])
  }

  function Exec(k: Config, steps: seq<Step>): State {
    if |steps| == 0 then INIT else Apply(k, Exec(k, steps[..|steps| - 1]), steps[|steps| - 1])
  }

  /** Limits stamped at `at` were true at some instant within the load that stamped them. */
  ghost predicate Honest(k: Config, path: string, limits: Limits, at: int) {
    exists t :: at - k.slow <= t <= at && limits == k.sysfs(t, path)
  }

  ghost predicate AllHonest(k: Config, entries: map<string, Limits>, loadedAt: map<string, int>, now: int) {
    && entries.Keys == loadedAt.Keys
    && forall path | path in entries :: loadedAt[path] <= now && Honest(k, path, entries[path], loadedAt[path])
  }

  ghost predicate Counted(s: State) {
    && s.c.entries.Keys <= s.seen
    && s.c.totalPathsSeen == |s.c.entries.Keys| + s.evicted
    && s.c.totalPathsSeen == |s.seen| + s.readded
  }

  ghost predicate Inv(k: Config, s: State) {
    AllHonest(k, s.c.entries, s.c.loadedAt, s.now) && Counted(s)
  }

  lemma LoadKeepsHonest(k: Config, entries: map<string, Limits>, loadedAt: map<string, int>, path: string, asked: int, took: nat)
    requires AllHonest(k, entries, loadedAt, asked) && took <= k.slow
    ensures AllHonest(k, entries[path := k.sysfs(asked, path)], loadedAt[path := asked + took], asked + took)
  {
    assert asked + took - k.slow <= asked <= asked + took;
    assert Honest(k, path, k.sysfs(asked, path), asked + took);
  }

  lemma StepKeepsHonest(k: Config, s: State, step: Step)
    requires AllHonest(k, s.c.entries, s.c.loadedAt, s.now) && Enabled(k, step)
    ensures var t := Apply(k, s, step); AllHonest(k, t.c.entries, t.c.loadedAt, t.now)
  {
    if step.Get? {
      LoadKeepsHonest(k, s.c.entries, s.c.loadedAt, step.path, s.now, step.took);
    }
  }

  lemma GetKeepsCounted(k: Config, s: State, path: string, took: nat)
    requires Counted(s) && s.c.entries.Keys == s.c.loadedAt.Keys
    ensures Counted(Apply(k, s, Get(path, took)))
  {
    var t := Apply(k, s, Get(path, took));
    assert t.c.entries.Keys == s.c.entries.Keys + {path};
    assert t.seen == s.seen + {path};
    if path in s.c.entries {
      assert t.c.entries.Keys == s.c.entries.Keys && t.seen == s.seen;
    } else {
      assert |t.c.entries.Keys| == |s.c.entries.Keys| + 1;
      assert path in s.seen ==> t.seen == s.seen;
    }
  }

  lemma InvalidateKeepsCounted(k: Config, s: State, path: string)
    requires Counted(s)
    ensures Counted(Apply(k, s, Invalidate(path)))
  {
    var t := Apply(k, s, Invalidate(path));
    assert t.c.entries.Keys == s.c.entries.Keys - {path};
    assert path !in s.c.entries ==> t.c.entries.Keys == s.c.entries.Keys;
  }

  lemma StepKeepsInv(k: Config, s: State, step: Step)
    requires Inv(k, s) && Enabled(k, step)
    ensures Inv(k, Apply(k, s, step))
  {
    StepKeepsHonest(k, s, step);
    match step
    case Get(path, took) => GetKeepsCounted(k, s, path, took);
    case Invalidate(path) => InvalidateKeepsCounted(k, s, path);
    case Wait(d) =>
  }

  lemma {:induction false} RunKeepsInv(k: Config, steps: seq<Step>)
    requires Runs(k, steps)
    ensures Inv(k, Exec(k, steps))
    decreases |steps|
  {
    if |steps| > 0 {
      RunKeepsInv(k, steps[..|steps| - 1]);
      StepKeepsInv(k, Exec(k, steps[..|steps| - 1]), steps[|steps| - 1]);
    }
  }

  /** In every run both maps have the same keys, and the counter is the length plus the evictions. */
  lemma MapsStayInStep(k: Config, steps: seq<Step>)
    requires Runs(k, steps)
    ensures var s := Exec(k, steps);
      && s.c.entries.Keys == s.c.loadedAt.Keys
      && s.c.totalPathsSeen == |s.c.entries| + s.evicted
  {
    RunKeepsInv(k, steps);
    assert |Exec(k, steps).c.entries| == |Exec(k, steps).c.entries.Keys|;
  }

  /**
   * The counter is documented as the number of distinct cgroups cached since startup. It is, exactly as
   * long as no evicted path has been loaded again.
   */
  lemma CountsDistinctPathsExactly(k: Config, steps: seq<Step>)
    requires Runs(k, steps)
    ensures var s := Exec(k, steps);
      s.c.totalPathsSeen == |s.seen| <==> s.readded == 0
  {
    RunKeepsInv(k, steps);
  }

  lemma FirstGet(k: Config, path: string)
    ensures var s := Exec(k, [Get(path, 0)]);
      s.now == 0 && path in s.c.entries && path in s.c.loadedAt && s.seen == {path} && s.c.totalPathsSeen == 1
  {
    var steps := [Get(path, 0)];
    assert steps[..0] == [];
    assert Exec(k, steps) == Apply(k, INIT, Get(path, 0));
  }

  lemma GetAgain(k: Config, s: State, path: string)
    requires path in s.c.entries && s.seen == {path} && s.c.totalPathsSeen == 1
    ensures var t := Apply(k, Apply(k, s, Invalidate(path)), Get(path, 0)); t.c.totalPathsSeen == 2 && |t.seen| == 1
  {
    var t := Apply(k, Apply(k, s, Invalidate(path)), Get(path, 0));
    assert t.seen == {path};
  }

  /** A run from the start that counts one path twice. */
  lemma RecountRun(k: Config, path: string)
    ensures var steps := [Get(path, 0), Invalidate(path), Get(path, 0)];
      Runs(k, steps) && Exec(k, steps).c.totalPathsSeen == 2 && |Exec(k, steps).seen| == 1
  {
    var steps := [Get(path, 0), Invalidate(path), Get(path, 0)];
    assert steps[..2] == [Get(path, 0), Invalidate(path)] && steps[..2][..1] == [Get(path, 0)];
    FirstGet(k, path);
    GetAgain(k, Exec(k, [Get(path, 0)]), path);
  }

  /** Bounded staleness: limits returned were true at most a time to live plus one load ago. */
  lemma LimitsAreRecent(k: Config, steps: seq<Step>, path: string, took: nat)
    requires Runs(k, steps) && took <= k.slow
    ensures var s := Apply(k, Exec(k, steps), Get(path, took));
      && path in s.c.entries
      && exists t :: s.now - took - k.ttl - k.slow <= t <= s.now && s.c.entries[path] == k.sysfs(t, path)
  {
    var before := Exec(k, steps);
    var s := Apply(k, before, Get(path, took));
    RunKeepsInv(k, steps);
    if Outdated(before.c, path, before.now, k.ttl) {
      assert s.c.entries[path] == k.sysfs(before.now, path);
    } else {
      assert Honest(k, path, before.c.entries[path], before.c.loadedAt[path]);
      var t :| before.c.loadedAt[path] - k.slow <= t <= before.c.loadedAt[path] && before.c.entries[path] == k.sysfs(t, path);
      assert s.now - took - k.ttl - k.slow <= t <= s.now;
    }
  }
}
