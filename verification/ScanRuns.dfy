/** One scan, seen from a run: it begins, asks for each alive pid, sweeps and copies, and rebuilds the index. */
module ScanRuns {
  import opened Common
  import opened ProcCaches
  import opened NamespaceTrees
  import opened CacheRuns
  import IoAccounting
  import Scanner

  /** Loads come one after another, from the start of the scan to its end, none slower than the run allows. */
  ghost predicate InOrder(k: Config, src: Scanner.Source, n: nat, start: int, end: int) {
    && src.world == k.world && src.procTtl == k.procTtl && start <= end
    && (forall i | 0 <= i < n :: start <= src.clock(i).0 <= src.clock(i).1 <= end && src.clock(i).1 - src.clock(i).0 <= k.slow)
    && forall i, j | 0 <= i < j < n :: src.clock(i).1 <= src.clock(j).0
  }

  /** Nothing but the entries and the pids asked for has changed. */
  ghost predicate SameBut(s: State, t: State) {
    && t.scanAt == s.scanAt && t.copy == s.copy && t.index == s.index
    && t.notices == s.notices && t.halfway == s.halfway && t.forwarded == s.forwarded
  }

  lemma VisitIsARun(k: Config, s: State, pid: Pid, asked: int, stamped: int) returns (steps: seq<Step>, t: State)
    requires s.now <= asked <= stamped && stamped - asked <= k.slow
    ensures Runs(k, s, steps) && t == Exec(k, s, steps) && SameBut(s, t) && t.now == stamped
    ensures t.entries == AfterGet(s.entries, pid, asked, stamped, k.procTtl, k.world) && t.scanned == s.scanned + {pid}
  {
    var waited := Apply(k, s, Wait(asked - s.now));
    t := Apply(k, waited, Get(pid, stamped - asked));
    Unfold(k, waited, Get(pid, stamped - asked), []);
    Unfold(k, s, Wait(asked - s.now), [Get(pid, stamped - asked)]);
    steps := [Wait(asked - s.now)] + [Get(pid, stamped - asked)];
  }

  lemma {:induction false} VisitsAreARun(k: Config, s: State, c: Scanner.Caches, listing: Scanner.Listing, i: nat,
                                         src: Scanner.Source, end: int) returns (steps: seq<Step>, t: State)
    requires i <= |listing| && c.entries == s.entries && s.scanned == {} && InOrder(k, src, |listing|, s.now, end)
    ensures Runs(k, s, steps) && t == Exec(k, s, steps) && SameBut(s, t)
    ensures t.entries == Scanner.AfterVisits(c, listing, i, src).entries
    ensures t.scanned == Scanner.Alive(listing, src.lights, i)
    ensures s.now <= t.now <= end && forall j | i <= j < |listing| :: t.now <= src.clock(j).0
  {
    if i == 0 {
      steps, t := [], s;
    } else {
      var before, u := VisitsAreARun(k, s, c, listing, i - 1, src, end);
      steps, t := before, u;
      if Scanner.IsAlive(src.lights, listing[i - 1]) {
        var more, v := VisitIsARun(k, u, listing[i - 1].value, src.clock(i - 1).0, src.clock(i - 1).1);
        RunsConcat(k, s, before, more);
        steps, t := before + more, v;
      }
    }
  }

  lemma BeginIsARun(k: Config, s: State) returns (steps: seq<Step>, t: State)
    requires s.copy.None?
    ensures Runs(k, s, steps) && t == Exec(k, s, steps)
    ensures t == s.(scanAt := s.now, scanned := {})
  {
    t := Apply(k, s, BeginScan);
    Unfold(k, s, BeginScan, []);
    steps := [BeginScan] + [];
  }

  lemma CopyIsARun(k: Config, s: State, alive: set<Pid>) returns (steps: seq<Step>, t: State)
    requires s.copy.None? && alive <= s.scanned
    ensures Runs(k, s, steps) && t == Exec(k, s, steps)
    ensures t.now == s.now && t.index == s.index && t.entries == AfterSweep(s.entries, alive)
    ensures t.copy == Some(Copy(t.entries, |s.notices|, s.scanAt))
  {
    t := Apply(k, s, SweepAndCopy(alive));
    Unfold(k, s, SweepAndCopy(alive), []);
    steps := [SweepAndCopy(alive)] + [];
  }

  lemma RebuildIsARun(k: Config, s: State, end: int, tree: Tree) returns (steps: seq<Step>, t: State)
    requires s.copy.Some? && s.now <= end
    requires Stale(s.index.builtAt, end, k.treeTtl) ==> IsIndex(tree, s.copy.value.entries)
    ensures Runs(k, s, steps) && t == Exec(k, s, steps) && t.now == end && t.entries == s.entries && t.copy.None?
    ensures t.index == if Stale(s.index.builtAt, end, k.treeTtl) then Index(tree, Some(end), s.copy.value) else s.index
  {
    var waited := Apply(k, s, Wait(end - s.now));
    t := Apply(k, waited, Rebuild(tree));
    Unfold(k, waited, Rebuild(tree), []);
    Unfold(k, s, Wait(end - s.now), [Rebuild(tree)]);
    steps := [Wait(end - s.now)] + [Rebuild(tree)];
  }

  /** A successful scan is a stretch of run, ending with the entries and the index that `scan_once` leaves. */
  lemma ScanIsARun(k: Config, s: State, c: Scanner.Caches, listing: Scanner.Listing, src: Scanner.Source, end: int, tree: Tree)
    returns (steps: seq<Step>)
    requires s.copy.None? && c.entries == s.entries && InOrder(k, src, |listing|, s.now, end)
    requires var swept := AfterSweep(Scanner.AfterVisits(c, listing, |listing|, src).entries, Scanner.Alive(listing, src.lights, |listing|));
      Stale(s.index.builtAt, end, k.treeTtl) ==> IsIndex(tree, swept)
    ensures Runs(k, s, steps)
    ensures var t := Exec(k, s, steps);
      && t.now == end && t.copy.None?
      && t.entries == AfterSweep(Scanner.AfterVisits(c, listing, |listing|, src).entries, Scanner.Alive(listing, src.lights, |listing|))
      && t.index.tree == (if Stale(s.index.builtAt, end, k.treeTtl) then tree else s.index.tree)
      && t.index.builtAt == (if Stale(s.index.builtAt, end, k.treeTtl) then Some(end) else s.index.builtAt)
  {
    var r0, s0 := BeginIsARun(k, s);
    var r1, s1 := VisitsAreARun(k, s0, c, listing, |listing|, src, end);
    var r2, s2 := CopyIsARun(k, s1, Scanner.Alive(listing, src.lights, |listing|));
    var r3, s3 := RebuildIsARun(k, s2, end, tree);
    RunsConcat(k, s1, r2, r3);
    RunsConcat(k, s0, r1, r2 + r3);
    RunsConcat(k, s, r0, r1 + (r2 + r3));
    steps := r0 + (r1 + (r2 + r3));
  }

  /**
   * The scanner itself, watched from a run `s` that shows its caches as they are: what the scan does to them is
   * the run's next steps, so all that holds in every run holds of the scanner's caches.
   */
  method ScanWithinARun(scanner: Scanner.ProcessScanner, listing: Scanner.Listing, rates: map<Pid, IoAccounting.IoStat>,
                        now: real, end: int, src: Scanner.Source, ghost k: Config, ghost s: State)
    returns (processes: seq<Scanner.Process>, ghost steps: seq<Step>)
    requires scanner.cgroups.entries.Keys == scanner.cgroups.loadedAt.Keys
    requires src.procTtl == scanner.procCache.ttl && src.cgroupTtl == scanner.cgroups.ttl
    requires k.treeTtl == scanner.namespaceTree.ttl
    requires InOrder(k, src, |listing|, s.now, end) && forall i :: s.now <= src.clock(i).0 <= src.clock(i).1
    requires s.copy.None? && s.entries == scanner.procCache.entries
    requires s.index.tree == scanner.namespaceTree.tree && s.index.builtAt == scanner.namespaceTree.builtAt
    modifies scanner, scanner.procCache, scanner.cgroups, scanner.namespaceTree
    ensures Runs(k, s, steps)
    ensures var t := Exec(k, s, steps);
      && t.now == end && t.copy.None? && t.entries == scanner.procCache.entries
      && t.index.tree == scanner.namespaceTree.tree && t.index.builtAt == scanner.namespaceTree.builtAt
  {
    ghost var before := scanner.Now();
    processes := scanner.ScanOnce(Some(listing), rates, now, s.now, end, src);
    steps := ScanIsARun(k, s, before, listing, src, end, scanner.namespaceTree.tree);
  }
}
