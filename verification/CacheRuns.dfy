/**
 * The process cache, the namespace index and the event stream over whole runs.
 *
 * One scanner asks for pids, sweeps, copies the cache and later rebuilds the index from the copy,
 * each under its own lock. One ring-buffer task handles events: it evicts under the cache's lock,
 * resets the index under the index's lock, then forwards. The two interleave freely.
 */
module CacheRuns {
  import opened Common
  import opened ProcCaches
  import opened NamespaceTrees

  datatype Kind = Exit | Setns | Unshare | Plain

  predicate Evicts(kind: Kind) {
    kind != Plain
  }

  predicate MovesNamespace(kind: Kind) {
    kind == Setns || kind == Unshare
  }

  /** An event as `on_event` saw it. */
  datatype Notice = Notice(pid: Pid, kind: Kind, at: int)

  /** The cache as cloned at the end of a scan, with the number of notices taken by then. */
  datatype Copy = Copy(entries: Entries, mark: int, scanAt: int)

  /** The index and, as history, the copy it was built from. */
  datatype Index = Index(tree: Tree, builtAt: Option<int>, source: Copy)

  /** `scanAt` and `scanned` are history: when the current scan began and which pids it has asked for. */
  datatype State = State(
    now: int,
    entries: Entries,
    scanAt: int,
    scanned: set<Pid>,
    copy: Option<Copy>,
    index: Index,
    notices: seq<Notice>,
    halfway: bool,
    forwarded: int)

  /** `slow` bounds the time one load may take. */
  datatype Config = Config(world: World, procTtl: nat, treeTtl: nat, slow: nat)

  datatype Step =
    | Wait(d: nat)
    | BeginScan
    | Get(pid: Pid, took: nat)
    | SweepAndCopy(alive: set<Pid>)
    | Rebuild(tree: Tree)
    | Evict(pid: Pid, kind: Kind)
    | Reset
    | Forward

  const INIT: State :=
    State(0, map[], 0, {}, None, Index(map[], None, Copy(map[], 0, 0)), [], false, 0)

  predicate IndexIsStale(k: Config, s: State) {
    Stale(s.index.builtAt, s.now, k.treeTtl)
  }

  ghost predicate Enabled(k: Config, s: State, step: Step) {
    match step
    case Wait(_) => true
    case BeginScan => s.copy.None?
    case Get(_, took) => took <= k.slow
    case SweepAndCopy(alive) => s.copy.None? && alive <= s.scanned
    case Rebuild(tree) => s.copy.Some? && (IndexIsStale(k, s) ==> IsIndex(tree, s.copy.value.entries))
    case Evict(_, _) => !s.halfway && s.forwarded == |s.notices|
    case Reset => s.halfway && |s.notices| > 0
    case Forward => !s.halfway && 0 <= s.forwarded < |s.notices|
  }

  ghost function EntriesAfter(k: Config, s: State, step: Step): Entries {
    match step
    case Get(pid, took) => AfterGet(s.entries, pid, s.now, s.now + took, k.procTtl, k.world)
    case SweepAndCopy(alive) => AfterSweep(s.entries, alive)
    case Evict(pid, kind) => if Evicts(kind) then s.entries - {pid} else s.entries
    case _ => s.entries
  }

  function NowAfter(s: State, step: Step): int {
    match step
    case Wait(d) => s.now + d
    case Get(_, took) => s.now + took
    case _ => s.now
  }

  function NoticesAfter(s: State, step: Step): seq<Notice> {
    match step
    case Evict(pid, kind) => s.notices + [Notice(pid, kind, s.now)]
    case _ => s.notices
  }

  ghost function CopyAfter(k: Config, s: State, step: Step): Option<Copy> {
    match step
    case SweepAndCopy(_) => Some(Copy(EntriesAfter(k, s, step), |s.notices|, s.scanAt))
    case Rebuild(_) => None
    case _ => s.copy
  }

  /** A rebuild happens only when the index is stale; a reset only forgets when it was built. */
  function IndexAfter(k: Config, s: State, step: Step): Index {
    match step
    case Rebuild(tree) =>
      if IndexIsStale(k, s) && s.copy.Some? then Index(tree, Some(s.now), s.copy.value) else s.index
    case Reset =>
      if |s.notices| > 0 && MovesNamespace(s.notices[|s.notices| - 1].kind) then s.index.(builtAt := None) else s.index
    case _ => s.index
  }

  ghost function Apply(k: Config, s: State, step: Step): State {
    State(
      NowAfter(s, step),
      EntriesAfter(k, s, step),
      if step.BeginScan? then s.now else s.scanAt,
      if step.BeginScan? then {} else if step.Get? then s.scanned + {step.pid} else s.scanned,
      CopyAfter(k, s, step),
      IndexAfter(k, s, step),
      NoticesAfter(s, step),
      if step.Evict? then true else if step.Reset? then false else s.halfway,
      if step.Forward? then s.forwarded + 1 else s.forwarded)
  }

  ghost predicate Runs(k: Config, s: State, steps: seq<Step>)
    decreases |steps|
  {
    |steps| == 0 || (Enabled(k, s, steps[0]) && Runs(k, Apply(k, s, steps[0]), steps[1..]))
  }

  ghost function Exec(k: Config, s: State, steps: seq<Step>): State
    decreases |steps|
  {
    if |steps| == 0 then s else Exec(k, Apply(k, s, steps[0]), steps[1..])
  }

  lemma Unfold(k: Config, s: State, step: Step, rest: seq<Step>)
    requires Enabled(k, s, step) && Runs(k, Apply(k, s, step), rest)
    ensures Runs(k, s, [step] + rest) && Exec(k, s, [step] + rest) == Exec(k, Apply(k, s, step), rest)
  {
    assert ([step] + rest)[1..] == rest;
  }

  lemma {:induction false} RunsConcat(k: Config, s: State, a: seq<Step>, b: seq<Step>)
    requires Runs(k, s, a) && Runs(k, Exec(k, s, a), b)
    ensures Runs(k, s, a + b) && Exec(k, s, a + b) == Exec(k, Exec(k, s, a), b)
    decreases |a|
  {
    if |a| == 0 {
      assert a + b == b;
    } else {
      RunsConcat(k, Apply(k, s, a[0]), a[1..], b);
      assert (a + b)[1..] == a[1..] + b;
    }
  }

  // ---------------------------------------------------------------------------------
  // The invariants, one for each part of the state.

  /** An entry stamped at `e.loadedAt` says what `/proc` said at some instant of that load. */
  ghost predicate Honest(k: Config, p: Pid, e: Entry) {
    e.pid == p && exists t :: e.loadedAt - k.slow <= t <= e.loadedAt && k.world(t, p) == Some(e.stable)
  }

  ghost predicate AllHonest(k: Config, entries: Entries, now: int) {
    forall p | p in entries :: entries[p].loadedAt <= now && Honest(k, p, entries[p])
  }

  /** No entry survives, or is older than, an event that evicts its pid. */
  ghost predicate Purged(entries: Entries, notices: seq<Notice>) {
    forall i | 0 <= i < |notices| && Evicts(notices[i].kind) && notices[i].pid in entries ::
      entries[notices[i].pid].loadedAt >= notices[i].at
  }

  ghost predicate AllSince(entries: Entries, pids: set<Pid>, at: int) {
    forall p | p in entries && p in pids :: entries[p].loadedAt >= at
  }

  ghost predicate CopyOk(k: Config, c: Copy, now: int) {
    AllHonest(k, c.entries, now) && AllSince(c.entries, c.entries.Keys, c.scanAt - k.procTtl)
  }

  ghost predicate IndexOk(k: Config, index: Index, now: int) {
    index.builtAt.Some? ==>
      && index.builtAt.value <= now
      && IsIndex(index.tree, index.source.entries)
      && CopyOk(k, index.source, index.builtAt.value)
  }

  ghost predicate Inv(k: Config, s: State) {
    && AllHonest(k, s.entries, s.now)
    && Purged(s.entries, s.notices) && (forall i | 0 <= i < |s.notices| :: s.notices[i].at <= s.now)
    && s.scanAt <= s.now && AllSince(s.entries, s.scanned, s.scanAt - k.procTtl)
    && (s.copy.Some? ==> CopyOk(k, s.copy.value, s.now) && s.copy.value.mark <= |s.notices|)
    && IndexOk(k, s.index, s.now)
    && 0 <= s.forwarded <= |s.notices| && (s.halfway ==> s.forwarded < |s.notices|)
  }

  lemma GetKeepsHonest(k: Config, entries: Entries, pid: Pid, asked: int, took: nat)
    requires AllHonest(k, entries, asked) && took <= k.slow
    ensures AllHonest(k, AfterGet(entries, pid, asked, asked + took, k.procTtl, k.world), asked + took)
  {
    var after := AfterGet(entries, pid, asked, asked + took, k.procTtl, k.world);
    forall p | p in after ensures after[p].loadedAt <= asked + took && Honest(k, p, after[p]) {
      if p in entries && after[p] == entries[p] {
        assert Honest(k, p, entries[p]);
      } else {
        assert after[p].loadedAt - k.slow <= asked <= after[p].loadedAt && k.world(asked, p) == Some(after[p].stable);
      }
    }
  }

  lemma StepKeepsHonest(k: Config, s: State, step: Step)
    requires AllHonest(k, s.entries, s.now) && Enabled(k, s, step)
    ensures AllHonest(k, EntriesAfter(k, s, step), NowAfter(s, step))
  {
    if step.Get? {
      GetKeepsHonest(k, s.entries, step.pid, s.now, step.took);
    }
  }

  lemma StepKeepsPurged(k: Config, s: State, step: Step)
    requires Purged(s.entries, s.notices) && forall i | 0 <= i < |s.notices| :: s.notices[i].at <= s.now
    ensures Purged(EntriesAfter(k, s, step), NoticesAfter(s, step))
    ensures forall i | 0 <= i < |NoticesAfter(s, step)| :: NoticesAfter(s, step)[i].at <= NowAfter(s, step)
  {
  }

  lemma StepKeepsSince(k: Config, s: State, step: Step)
    requires s.scanAt <= s.now && AllSince(s.entries, s.scanned, s.scanAt - k.procTtl)
    ensures var t := Apply(k, s, step);
      t.scanAt <= t.now && AllSince(t.entries, t.scanned, t.scanAt - k.procTtl)
  {
  }

  lemma StepKeepsCopy(k: Config, s: State, step: Step)
    requires Inv(k, s) && Enabled(k, s, step)
    ensures var copy := CopyAfter(k, s, step);
      copy.Some? ==> CopyOk(k, copy.value, NowAfter(s, step)) && copy.value.mark <= |NoticesAfter(s, step)|
  {
  }

  lemma StepKeepsIndex(k: Config, s: State, step: Step)
    requires Inv(k, s) && Enabled(k, s, step)
    ensures IndexOk(k, IndexAfter(k, s, step), NowAfter(s, step))
  {
  }

  lemma StepKeepsInv(k: Config, s: State, step: Step)
    requires Inv(k, s) && Enabled(k, s, step)
    ensures Inv(k, Apply(k, s, step))
  {
    StepKeepsHonest(k, s, step);
    StepKeepsPurged(k, s, step);
    StepKeepsSince(k, s, step);
    StepKeepsCopy(k, s, step);
    StepKeepsIndex(k, s, step);
  }

  lemma {:induction false} RunKeepsInv(k: Config, s: State, steps: seq<Step>)
    requires Inv(k, s) && Runs(k, s, steps)
    ensures Inv(k, Exec(k, s, steps))
    decreases |steps|
  {
    if |steps| > 0 {
      StepKeepsInv(k, s, steps[0]);
      RunKeepsInv(k, Apply(k, s, steps[0]), steps[1..]);
    }
  }
}
