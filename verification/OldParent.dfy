/** A concrete run in which a reload looks for the manager above a parent that is no longer one. */
module OldParent {
  import opened Common
  import opened Managers
  import opened ProcCaches
  import opened CacheRuns

  /** Pid 9 is a child of `init` until time 20, when `dockerd` adopts it. */
  function Adopted(at: int, p: Pid): Option<Stable> {
    if p == 9 then Some(Stable(if at < 20 then 1 else 5, "app", map[], None))
    else if p == 5 then Some(Stable(1, "dockerd", map[], None))
    else if p == 1 then Some(Stable(0, "init", map[], None))
    else None
  }

  lemma AboveInit(at: int)
    ensures Above(ProcAt(Adopted, at), 9, 1) == None
  {
    assert Adopted(at, 1) == Some(Stable(0, "init", map[], None));
    assert ProcAt(Adopted, at)(1) == Some(Info("init", 0));
    assert ManagerAt("init", 1) == None;
  }

  lemma AboveDockerd(at: int)
    ensures Above(ProcAt(Adopted, at), 9, 5) == Some(Docker)
  {
    assert Adopted(at, 5) == Some(Stable(1, "dockerd", map[], None));
    assert ProcAt(Adopted, at)(5) == Some(Info("dockerd", 1));
    assert "dockerd"[0] == 'd' && "systemd"[0] == 's' && "containerd"[0] == 'c' && "containerd-shim"[0] == 'c';
    assert ManagerAt("dockerd", 1) == Some(Docker);
  }

  lemma FirstLoad(none: Entries) returns (e: Entry)
    requires |none| == 0
    ensures e == Loaded(none, 9, Adopted(0, 9).value, Adopted, 0, 0)
    ensures e.stable.ppid == 1 && e.managedBy.None? && e.loadedAt == 0
  {
    e := Loaded(none, 9, Adopted(0, 9).value, Adopted, 0, 0);
    assert none == map[];
    ReloadSearchesAboveTheRecordedParent(none, 9, Adopted(0, 9).value, Adopted, 0, 0);
    AboveInit(0);
  }

  lemma SecondLoad(entries: Entries, e: Entry) returns (f: Entry)
    requires entries == map[9 := e] && e.stable.ppid == 1 && e.managedBy.None?
    ensures f == Loaded(entries, 9, Adopted(20, 9).value, Adopted, 20, 20)
    ensures f.stable.ppid == 5 && f.managedBy.None? && f.loadedAt == 20
    ensures Detected(map[], ProcAt(Adopted, 20), 9) == Some(Docker)
  {
    f := Loaded(entries, 9, Adopted(20, 9).value, Adopted, 20, 20);
    ReloadSearchesAboveTheRecordedParent(entries, 9, Adopted(20, 9).value, Adopted, 20, 20);
    AboveInit(20);
    DetectedFromTheParent(map[], ProcAt(Adopted, 20), 9);
    AboveDockerd(20);
  }

  lemma Begin(k: Config) returns (steps: seq<Step>, s: State)
    ensures Runs(k, INIT, steps) && s == Exec(k, INIT, steps)
    ensures s.now == 0 && |s.entries| == 0
  {
    s := Apply(k, INIT, BeginScan);
    Unfold(k, INIT, BeginScan, []);
    steps := [BeginScan] + [];
  }

  lemma LoadFirst(k: Config, s: State, e: Entry) returns (steps: seq<Step>, t: State)
    requires k.world == Adopted && s.now == 0 && |s.entries| == 0
    requires e == Loaded(s.entries, 9, Adopted(0, 9).value, Adopted, 0, 0)
    ensures Runs(k, s, steps) && t == Exec(k, s, steps)
    ensures t.now == 0 && t.entries == map[9 := e]
  {
    t := Apply(k, s, Get(9, 0));
    assert t.entries == s.entries[9 := e];
    Unfold(k, s, Get(9, 0), []);
    steps := [Get(9, 0)] + [];
  }

  lemma WaitAndLoad(k: Config, s: State, e: Entry, f: Entry) returns (steps: seq<Step>, t: State)
    requires k.world == Adopted && k.procTtl < 20 && s.now == 0 && s.entries == map[9 := e] && e.loadedAt == 0
    requires f == Loaded(s.entries, 9, Adopted(20, 9).value, Adopted, 20, 20)
    ensures Runs(k, s, steps) && t == Exec(k, s, steps)
    ensures t.now == 20 && 9 in t.entries && t.entries[9] == f
  {
    var waited := Apply(k, s, Wait(20));
    t := Apply(k, waited, Get(9, 0));
    Unfold(k, waited, Get(9, 0), []);
    Unfold(k, s, Wait(20), [Get(9, 0)]);
    steps := [Wait(20)] + [Get(9, 0)];
  }

  /**
   * A run from the start: pid 9 is loaded, moves under `dockerd`, and is reloaded once its entry has expired.
   * The new entry names the new parent but no manager, although `/proc` alone would give one.
   */
  lemma ReloadFollowsTheOldParent(k: Config) returns (steps: seq<Step>)
    requires k.world == Adopted && k.procTtl < 20
    ensures Runs(k, INIT, steps)
    ensures var s := Exec(k, INIT, steps);
      && s.now == 20 && 9 in s.entries && s.entries[9].loadedAt == 20
      && s.entries[9].stable.ppid == 5 && s.entries[9].managedBy.None?
      && Detected(map[], ProcAt(k.world, s.now), 9) == Some(Docker)
  {
    var begin, s := Begin(k);
    var e := FirstLoad(s.entries);
    var first, t := LoadFirst(k, s, e);
    var f := SecondLoad(t.entries, e);
    var second, u := WaitAndLoad(k, t, e, f);
    RunsConcat(k, s, first, second);
    RunsConcat(k, INIT, begin, first + second);
    steps := begin + (first + second);
  }
}
