/** What the caches promise in every run, and where the promise about the index ends. */
module CacheGuarantees {
  import opened Common
  import opened Managers
  import opened ProcCaches
  import opened NamespaceTrees
  import opened CacheRuns

  /** Notices whose `on_event` has returned. */
  function Done(notices: seq<Notice>, halfway: bool): int {
    if halfway then |notices| - 1 else |notices|
  }

  // ---------------------------------------------------------------------------------
  // Staleness is bounded.

  /** An entry returned was true at most a time to live plus one load before it was asked for. */
  lemma EntryIsRecent(k: Config, steps: seq<Step>, pid: Pid, took: nat)
    requires Runs(k, INIT, steps) && took <= k.slow
    ensures var s := Exec(k, INIT, steps);
      var r := Cached(Apply(k, s, Get(pid, took)).entries, pid);
      r.Some? ==> exists t :: s.now - k.procTtl - k.slow <= t <= s.now + took && k.world(t, pid) == Some(r.value.stable)
  {
    var s := Exec(k, INIT, steps);
    var after := Apply(k, s, Get(pid, took)).entries;
    RunKeepsInv(k, INIT, steps);
    if pid in after {
      var e := after[pid];
      GetKeepsHonest(k, s.entries, pid, s.now, took);
      assert Honest(k, pid, e);
      var t :| e.loadedAt - k.slow <= t <= e.loadedAt && k.world(t, pid) == Some(e.stable);
      if NeedsReload(s.entries, pid, s.now, k.procTtl) {
        assert k.world(s.now, pid) == Some(e.stable);
      }
    }
  }

  /** Once an exit, setns or unshare of a pid is handled, no entry loaded before it is ever returned. */
  lemma EvictedForGood(k: Config, steps: seq<Step>, i: nat, pid: Pid, took: nat)
    requires Runs(k, INIT, steps) && took <= k.slow
    requires i < |Exec(k, INIT, steps).notices|
    requires Exec(k, INIT, steps).notices[i].pid == pid && Evicts(Exec(k, INIT, steps).notices[i].kind)
    ensures var s := Exec(k, INIT, steps);
      && Cached(s.entries, pid).Some? ==> s.entries[pid].loadedAt >= s.notices[i].at
    ensures var s := Exec(k, INIT, steps);
      var r := Cached(Apply(k, s, Get(pid, took)).entries, pid);
      r.Some? ==> r.value.loadedAt >= s.notices[i].at
  {
    var s := Exec(k, INIT, steps);
    RunKeepsInv(k, INIT, steps);
    assert pid in s.entries ==> s.entries[s.notices[i].pid].loadedAt >= s.notices[i].at;
  }

  /** An index that is in force was built after every namespace move handled so far. */
  ghost predicate Renewed(index: Index, notices: seq<Notice>, done: int) {
    index.builtAt.Some? ==>
      forall i | 0 <= i < done && i < |notices| && MovesNamespace(notices[i].kind) :: index.builtAt.value >= notices[i].at
  }

  lemma StepKeepsRenewed(k: Config, s: State, step: Step)
    requires Inv(k, s) && Enabled(k, s, step) && Renewed(s.index, s.notices, Done(s.notices, s.halfway))
    ensures var t := Apply(k, s, step); Renewed(t.index, t.notices, Done(t.notices, t.halfway))
  {
  }

  lemma {:induction false} RunKeepsRenewed(k: Config, s: State, steps: seq<Step>)
    requires Inv(k, s) && Runs(k, s, steps) && Renewed(s.index, s.notices, Done(s.notices, s.halfway))
    ensures var t := Exec(k, s, steps); Renewed(t.index, t.notices, Done(t.notices, t.halfway))
    decreases |steps|
  {
    if |steps| > 0 {
      StepKeepsInv(k, s, steps[0]);
      StepKeepsRenewed(k, s, steps[0]);
      RunKeepsRenewed(k, Apply(k, s, steps[0]), steps[1..]);
    }
  }

  /** An event reaches subscribers only after its eviction and its reset have taken effect. */
  lemma ForwardedAfterEviction(k: Config, steps: seq<Step>)
    requires Runs(k, INIT, steps) && Enabled(k, Exec(k, INIT, steps), Forward)
    ensures var s := Exec(k, INIT, steps);
      var n := s.notices[s.forwarded];
      && (Evicts(n.kind) && n.pid in s.entries ==> s.entries[n.pid].loadedAt >= n.at)
      && (MovesNamespace(n.kind) && s.index.builtAt.Some? ==> s.index.builtAt.value >= n.at)
  {
    RunKeepsInv(k, INIT, steps);
    RunKeepsRenewed(k, INIT, steps);
  }

  /**
   * While the index is not stale it is exact for the copy it was built from, it is at most a time to live
   * old, and each of its answers was true at some instant from one cache lifetime before that scan on.
   */
  lemma IndexIsTimely(k: Config, steps: seq<Step>, key: Key, p: Pid)
    requires Runs(k, INIT, steps) && !IndexIsStale(k, Exec(k, INIT, steps))
    ensures var s := Exec(k, INIT, steps);
      && IsIndex(s.index.tree, s.index.source.entries)
      && s.now - k.treeTtl <= s.index.builtAt.value <= s.now
      && (p in Bucket(s.index.tree, key) ==>
           exists t :: s.index.source.scanAt - k.procTtl - k.slow <= t <= s.index.builtAt.value
             && k.world(t, p).Some? && key.0 in k.world(t, p).value.namespaces
             && k.world(t, p).value.namespaces[key.0] == key.1)
  {
    var s := Exec(k, INIT, steps);
    RunKeepsInv(k, INIT, steps);
    if p in Bucket(s.index.tree, key) {
      assert LivesIn(s.index.source.entries, p, key);
      var e := s.index.source.entries[p];
      assert Honest(k, p, e);
      var t :| e.loadedAt - k.slow <= t <= e.loadedAt && k.world(t, p) == Some(e.stable);
      assert s.index.source.scanAt - k.procTtl - k.slow <= t <= s.index.builtAt.value;
    }
  }

  // ---------------------------------------------------------------------------------
  // Freshness against the event stream.

  ghost predicate NoMoves(notices: seq<Notice>, from: int, to: int) {
    forall i | from <= i < to && 0 <= i < |notices| :: !MovesNamespace(notices[i].kind)
  }

  /** No namespace move has been handled since the copy behind the index was taken. */
  ghost predicate FreshIndex(s: State) {
    s.index.builtAt.Some? ==> NoMoves(s.notices, s.index.source.mark, Done(s.notices, s.halfway))
  }

  ghost predicate FreshCopy(s: State) {
    s.copy.Some? ==> NoMoves(s.notices, s.copy.value.mark, Done(s.notices, s.halfway))
  }

  /** No namespace move is wholly handled between the copy and the rebuild. */
  predicate Quiet(s: State, step: Step) {
    step.Reset? && s.copy.Some? && |s.notices| > 0 && MovesNamespace(s.notices[|s.notices| - 1].kind) ==>
      |s.notices| - 1 < s.copy.value.mark
  }

  ghost predicate QuietRun(k: Config, s: State, steps: seq<Step>)
    decreases |steps|
  {
    |steps| == 0 || (Enabled(k, s, steps[0]) && Quiet(s, steps[0]) && QuietRun(k, Apply(k, s, steps[0]), steps[1..]))
  }

  lemma StepKeepsFresh(k: Config, s: State, step: Step)
    requires Inv(k, s) && Enabled(k, s, step) && Quiet(s, step)
    requires FreshIndex(s) && FreshCopy(s)
    ensures FreshIndex(Apply(k, s, step)) && FreshCopy(Apply(k, s, step))
  {
  }

  lemma {:induction false} QuietRunKeepsFresh(k: Config, s: State, steps: seq<Step>)
    requires Inv(k, s) && QuietRun(k, s, steps) && FreshIndex(s) && FreshCopy(s)
    ensures Runs(k, s, steps) && FreshIndex(Exec(k, s, steps)) && Inv(k, Exec(k, s, steps))
    decreases |steps|
  {
    if |steps| > 0 {
      StepKeepsInv(k, s, steps[0]);
      StepKeepsFresh(k, s, steps[0]);
      QuietRunKeepsFresh(k, Apply(k, s, steps[0]), steps[1..]);
    }
  }

  /** Tree freshness: in a quiet run an index in force has missed no namespace move. */
  lemma IndexMissesNothing(k: Config, steps: seq<Step>)
    requires QuietRun(k, INIT, steps)
    ensures FreshIndex(Exec(k, INIT, steps))
  {
    QuietRunKeepsFresh(k, INIT, steps);
  }

  /** The entries were loaded at or after each of the first `mark` notices that evict their pids. */
  ghost predicate PurgedUpTo(entries: Entries, notices: seq<Notice>, mark: int) {
    forall i | 0 <= i < mark && i < |notices| && Evicts(notices[i].kind) && notices[i].pid in entries ::
      entries[notices[i].pid].loadedAt >= notices[i].at
  }

  ghost predicate CopiesPurged(s: State) {
    && (s.copy.Some? ==> s.copy.value.mark <= |s.notices| && PurgedUpTo(s.copy.value.entries, s.notices, s.copy.value.mark))
    && s.index.source.mark <= |s.notices| && PurgedUpTo(s.index.source.entries, s.notices, s.index.source.mark)
  }

  lemma StepKeepsCopiesPurged(k: Config, s: State, step: Step)
    requires Inv(k, s) && Enabled(k, s, step) && CopiesPurged(s)
    ensures CopiesPurged(Apply(k, s, step))
  {
    var t := Apply(k, s, step);
    assert forall i | 0 <= i < |s.notices| :: t.notices[i] == s.notices[i];
    if step.SweepAndCopy? {
      assert Purged(t.entries, t.notices) by {
        StepKeepsPurged(k, s, step);
      }
    }
  }

  lemma {:induction false} RunKeepsCopiesPurged(k: Config, s: State, steps: seq<Step>)
    requires Inv(k, s) && Runs(k, s, steps) && CopiesPurged(s)
    ensures CopiesPurged(Exec(k, s, steps))
    decreases |steps|
  {
    if |steps| > 0 {
      StepKeepsInv(k, s, steps[0]);
      StepKeepsCopiesPurged(k, s, steps[0]);
      RunKeepsCopiesPurged(k, Apply(k, s, steps[0]), steps[1..]);
    }
  }

  /**
   * What a caller gets from that: in a quiet run every pid an index in force answers with was read at or after
   * each setns and unshare of that pid handled so far.
   */
  lemma AnswersFollowEveryMove(k: Config, steps: seq<Step>, key: Key, p: Pid, i: nat)
    requires QuietRun(k, INIT, steps)
    requires var s := Exec(k, INIT, steps);
      && s.index.builtAt.Some? && p in Bucket(s.index.tree, key)
      && i < Done(s.notices, s.halfway) && s.notices[i].pid == p && MovesNamespace(s.notices[i].kind)
    ensures var s := Exec(k, INIT, steps);
      LivesIn(s.index.source.entries, p, key) && s.index.source.entries[p].loadedAt >= s.notices[i].at
  {
    var s := Exec(k, INIT, steps);
    QuietRunKeepsFresh(k, INIT, steps);
    RunKeepsCopiesPurged(k, INIT, steps);
    assert LivesIn(s.index.source.entries, p, key);
    assert i < s.index.source.mark;
  }

  /** Nothing in a window touches the copy that was taken at its start. */
  lemma {:induction false} WindowKeepsCopy(k: Config, s: State, window: seq<Step>)
    requires Runs(k, s, window) && s.copy.Some?
    requires forall i | 0 <= i < |window| :: !window[i].Rebuild?
    ensures Exec(k, s, window).copy == s.copy
    decreases |window|
  {
    if |window| > 0 {
      WindowKeepsCopy(k, Apply(k, s, window[0]), window[1..]);
    }
  }

  /**
   * Whether a window wholly handles a namespace move: evicts for it and then resets. `pending` says that a
   * move has been evicted for but not yet reset.
   */
  predicate HandlesMove(window: seq<Step>, pending: bool)
    decreases |window|
  {
    |window| > 0 &&
    match window[0]
    case Evict(_, kind) => HandlesMove(window[1..], MovesNamespace(kind))
    case Reset => pending || HandlesMove(window[1..], false)
    case _ => HandlesMove(window[1..], pending)
  }

  predicate MovePending(s: State, mark: int) {
    s.halfway && 0 <= mark < |s.notices| && MovesNamespace(s.notices[|s.notices| - 1].kind)
  }

  lemma LastNotice(notices: seq<Notice>, mark: int)
    requires |notices| > 0 && 0 <= mark
    ensures NoMoves(notices, mark, |notices|)
       <==> NoMoves(notices, mark, |notices| - 1) && !(mark < |notices| && MovesNamespace(notices[|notices| - 1].kind))
  {
  }

  lemma EarlierNotices(notices: seq<Notice>, n: Notice, mark: int)
    ensures NoMoves(notices + [n], mark, |notices|) <==> NoMoves(notices, mark, |notices|)
  {
    assert forall i | 0 <= i < |notices| :: (notices + [n])[i] == notices[i];
  }

  lemma StepHandles(k: Config, s: State, step: Step, mark: int)
    requires Enabled(k, s, step) && 0 <= mark <= |s.notices|
    ensures var t := Apply(k, s, step);
      && mark <= |t.notices|
      && (NoMoves(t.notices, mark, Done(t.notices, t.halfway))
          <==> NoMoves(s.notices, mark, Done(s.notices, s.halfway)) && !(step.Reset? && MovePending(s, mark)))
      && MovePending(t, mark) ==
           if step.Evict? then MovesNamespace(step.kind) else if step.Reset? then false else MovePending(s, mark)
  {
    if step.Reset? {
      LastNotice(s.notices, mark);
    } else if step.Evict? {
      EarlierNotices(s.notices, Notice(step.pid, step.kind, s.now), mark);
    }
  }

  lemma {:induction false} WindowHandles(k: Config, s: State, window: seq<Step>, mark: int)
    requires Runs(k, s, window) && 0 <= mark <= |s.notices|
    ensures var t := Exec(k, s, window);
      NoMoves(t.notices, mark, Done(t.notices, t.halfway))
      <==> NoMoves(s.notices, mark, Done(s.notices, s.halfway)) && !HandlesMove(window, MovePending(s, mark))
    decreases |window|
  {
    if |window| > 0 {
      StepHandles(k, s, window[0], mark);
      WindowHandles(k, Apply(k, s, window[0]), window[1..], mark);
    }
  }

  /**
   * The condition is exact: when a stale index is rebuilt, the result is fresh if and only if no namespace
   * move was wholly handled in the window since the copy was taken.
   */
  lemma FreshExactlyAfterAQuietWindow(k: Config, s: State, window: seq<Step>, tree: Tree)
    requires s.copy.Some? && s.copy.value.mark == |s.notices| && Runs(k, s, window)
    requires forall i | 0 <= i < |window| :: !window[i].Rebuild?
    requires IndexIsStale(k, Exec(k, s, window))
    ensures FreshIndex(Apply(k, Exec(k, s, window), Rebuild(tree))) <==> !HandlesMove(window, false)
  {
    WindowKeepsCopy(k, s, window);
    WindowHandles(k, s, window, |s.notices|);
  }

  // ---------------------------------------------------------------------------------
  // Managers.

  /** The manager cached for a pid after each step. */
  ghost function ManagerHistory(k: Config, s: State, steps: seq<Step>, pid: Pid): (r: seq<Option<Manager>>)
    ensures |r| == |steps| + 1
    decreases |steps|
  {
    [ManagerOf(s.entries, pid)] +
    if |steps| == 0 then [] else ManagerHistory(k, Apply(k, s, steps[0]), steps[1..], pid)
  }

  ghost predicate Stays(k: Config, s: State, steps: seq<Step>, pid: Pid)
    decreases |steps|
  {
    pid in s.entries && (|steps| == 0 || Stays(k, Apply(k, s, steps[0]), steps[1..], pid))
  }

  lemma StepKeepsManager(k: Config, s: State, step: Step, pid: Pid)
    requires pid in s.entries && pid in Apply(k, s, step).entries && s.entries[pid].managedBy.Some?
    ensures Apply(k, s, step).entries[pid].managedBy == s.entries[pid].managedBy
  {
  }

  lemma {:induction false} KnownManagerStays(k: Config, s: State, steps: seq<Step>, pid: Pid, j: nat)
    requires Stays(k, s, steps, pid) && s.entries[pid].managedBy.Some? && j <= |steps|
    ensures ManagerHistory(k, s, steps, pid)[j] == s.entries[pid].managedBy
    decreases |steps|
  {
    if j > 0 {
      StepKeepsManager(k, s, steps[0], pid);
      KnownManagerStays(k, Apply(k, s, steps[0]), steps[1..], pid, j - 1);
    }
  }

  /** Between two removals a pid's manager is unknown for a while and then constant. */
  lemma {:induction false} ManagerIsStable(k: Config, s: State, steps: seq<Step>, pid: Pid, i: nat, j: nat)
    requires Stays(k, s, steps, pid) && i <= j <= |steps|
    ensures var h := ManagerHistory(k, s, steps, pid); h[i].Some? ==> h[j] == h[i]
    decreases |steps|
  {
    if i == 0 {
      if s.entries[pid].managedBy.Some? {
        KnownManagerStays(k, s, steps, pid, j);
      }
    } else {
      ManagerIsStable(k, Apply(k, s, steps[0]), steps[1..], pid, i - 1, j - 1);
    }
  }
}
