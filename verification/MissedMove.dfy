/** A concrete run in which the namespace index misses a move. */
module MissedMove {
  import opened Common
  import opened ProcCaches
  import opened NamespaceTrees
  import opened CacheRuns
  import opened CacheGuarantees

  /** Pid 7 moves from network namespace 1 to 2 at time 1. */
  function MovedAt1(at: int, p: Pid): Option<Stable> {
    if p == 7 then Some(Stable(1, "app", map["net" := if at < 1 then 1 else 2], None)) else None
  }

  lemma IndexOfOne(entries: Entries, e: Entry)
    requires entries == map[7 := e] && e.stable.namespaces == map["net" := 1]
    ensures IsIndex(map[("net", 1) := {7}], entries)
  {
  }

  /** A scan has copied the cache, holding pid 7 alone, and nothing else has happened. */
  ghost predicate Copied(s: State, e: Entry) {
    && s.now == 0 && s.copy == Some(Copy(map[7 := e], 0, 0)) && s.index.builtAt.None?
    && s.notices == [] && !s.halfway && s.forwarded == 0
  }

  lemma FirstLoadOf7(k: Config, none: Entries) returns (e: Entry)
    requires k.world == MovedAt1 && |none| == 0
    ensures AfterGet(none, 7, 0, 0, k.procTtl, k.world) == map[7 := e] && e.stable.namespaces == map["net" := 1]
  {
    assert none == map[];
    e := Loaded(none, 7, MovedAt1(0, 7).value, k.world, 0, 0);
  }

  lemma NamespacesAt1()
    ensures MovedAt1(1, 7).Some? && MovedAt1(1, 7).value.namespaces == map["net" := 2]
  {
  }

  /** Pid 7 has been asked for and nothing else has happened. */
  ghost predicate Asked(s: State, e: Entry) {
    && s.now == 0 && s.scanAt == 0 && s.entries == map[7 := e] && s.scanned == {7} && s.copy.None?
    && s.index.builtAt.None? && s.notices == [] && !s.halfway && s.forwarded == 0
  }

  /** The scan has begun and nothing else has happened. */
  ghost predicate Begun(s: State) {
    && s.now == 0 && s.scanAt == 0 && |s.entries| == 0 && s.scanned == {} && s.copy.None?
    && s.index.builtAt.None? && s.notices == [] && !s.halfway && s.forwarded == 0
  }

  lemma BeginFirst(k: Config) returns (steps: seq<Step>, s: State)
    ensures Runs(k, INIT, steps) && s == Exec(k, INIT, steps) && Begun(s)
  {
    s := Apply(k, INIT, BeginScan);
    Unfold(k, INIT, BeginScan, []);
    steps := [BeginScan] + [];
  }

  lemma AskFor7(k: Config, s: State, e: Entry) returns (steps: seq<Step>, t: State)
    requires Begun(s) && AfterGet(s.entries, 7, 0, 0, k.procTtl, k.world) == map[7 := e]
    ensures Runs(k, s, steps) && t == Exec(k, s, steps) && Asked(t, e)
  {
    t := Apply(k, s, Get(7, 0));
    Unfold(k, s, Get(7, 0), []);
    steps := [Get(7, 0)] + [];
  }

  lemma CopyOf7(k: Config, s: State, e: Entry) returns (steps: seq<Step>, t: State)
    requires Asked(s, e)
    ensures Runs(k, s, steps) && t == Exec(k, s, steps) && Copied(t, e)
  {
    assert AfterSweep(s.entries, {7}) == s.entries;
    t := Apply(k, s, SweepAndCopy({7}));
    Unfold(k, s, SweepAndCopy({7}), []);
    steps := [SweepAndCopy({7})] + [];
  }

  lemma MoveHandled(k: Config, s: State, e: Entry) returns (steps: seq<Step>, t: State)
    requires Copied(s, e)
    ensures Runs(k, s, steps) && t == Exec(k, s, steps)
    ensures t.now == 0 && t.copy == s.copy && t.index.builtAt.None? && t.notices == [Notice(7, Setns, 0)]
    ensures !t.halfway && t.forwarded == 0
  {
    var s1 := Apply(k, s, Evict(7, Setns));
    t := Apply(k, s1, Reset);
    Unfold(k, s1, Reset, []);
    Unfold(k, s, Evict(7, Setns), [Reset]);
    steps := [Evict(7, Setns)] + [Reset];
  }

  lemma MoveForwarded(k: Config, s: State) returns (steps: seq<Step>, t: State)
    requires s.now == 0 && s.index.builtAt.None? && |s.notices| == 1 && !s.halfway && s.forwarded == 0
    ensures Runs(k, s, steps) && t == Exec(k, s, steps)
    ensures t.now == 1 && t.copy == s.copy && t.index.builtAt.None? && t.notices == s.notices
    ensures !t.halfway && t.forwarded == 1
  {
    var s1 := Apply(k, s, Forward);
    t := Apply(k, s1, Wait(1));
    Unfold(k, s1, Wait(1), []);
    Unfold(k, s, Forward, [Wait(1)]);
    steps := [Forward] + [Wait(1)];
  }

  lemma RebuiltTooLate(k: Config, t: State, e: Entry) returns (u: State)
    requires t.now == 1 && t.copy == Some(Copy(map[7 := e], 0, 0)) && t.index.builtAt.None? && t.notices == [Notice(7, Setns, 0)]
    requires !t.halfway && e.stable.namespaces == map["net" := 1]
    ensures Enabled(k, t, Rebuild(map[("net", 1) := {7}])) && u == Apply(k, t, Rebuild(map[("net", 1) := {7}]))
    ensures !IndexIsStale(k, u) && !FreshIndex(u) && 7 in Bucket(u.index.tree, ("net", 1))
    ensures u.now == 1 && u.forwarded == t.forwarded && |u.notices| == 1
  {
    IndexOfOne(map[7 := e], e);
    u := Apply(k, t, Rebuild(map[("net", 1) := {7}]));
    assert MovesNamespace(u.notices[0].kind);
  }

  /**
   * A run from the start in which the index misses a move: handled between the copy and the rebuild, it
   * leaves an index that is not stale and still answers with the old namespace.
   */
  lemma IndexMissesAMove(k: Config) returns (steps: seq<Step>)
    requires k.world == MovedAt1
    ensures Runs(k, INIT, steps)
    ensures var s := Exec(k, INIT, steps);
      && !IndexIsStale(k, s) && !FreshIndex(s) && s.forwarded == |s.notices|
      && 7 in Bucket(s.index.tree, ("net", 1))
      && s.now == 1 && MovedAt1(1, 7).Some? && MovedAt1(1, 7).value.namespaces == map["net" := 2]
  {
    var beginning, s0 := BeginFirst(k);
    var e := FirstLoadOf7(k, s0.entries);
    var asking, s1 := AskFor7(k, s0, e);
    var copying, s2 := CopyOf7(k, s1, e);
    var handling, s3 := MoveHandled(k, s2, e);
    var forwarding, s4 := MoveForwarded(k, s3);
    var s5 := RebuiltTooLate(k, s4, e);
    var last := [Rebuild(map[("net", 1) := {7}])] + [];
    Unfold(k, s4, Rebuild(map[("net", 1) := {7}]), []);
    RunsConcat(k, s3, forwarding, last);
    RunsConcat(k, s2, handling, forwarding + last);
    RunsConcat(k, s1, copying, handling + (forwarding + last));
    RunsConcat(k, s0, asking, copying + (handling + (forwarding + last)));
    RunsConcat(k, INIT, beginning, asking + (copying + (handling + (forwarding + last))));
    steps := beginning + (asking + (copying + (handling + (forwarding + last))));
    NamespacesAt1();
  }
}
