/** The ring-buffer task's handling of one event: evict, reset, and only then forward. */
module Invalidators {
  import opened Common
  import opened ProcCaches
  import opened NamespaceTrees
  import opened CacheRuns
  import opened StreamRegistries
  import Subscriptions

  class CacheInvalidators {
    const procCache: ProcCache
    const namespaceTree: NamespaceTreeCache

    constructor (procCache: ProcCache, namespaceTree: NamespaceTreeCache)
      ensures this.procCache == procCache && this.namespaceTree == namespaceTree
    {
      this.procCache := procCache;
      this.namespaceTree := namespaceTree;
    }

    /**
     * `on_event`; `kind` is absent for an event without a payload. Seen from any run `s` that shows the two
     * caches as they are, it is the step `Evict` followed by the step `Reset`.
     */
    method OnEvent(pid: Pid, kind: Option<Kind>, ghost k: Config, ghost s: State)
      requires s.entries == procCache.entries && s.index.tree == namespaceTree.tree && s.index.builtAt == namespaceTree.builtAt
      modifies procCache, namespaceTree
      ensures namespaceTree.tree == old(namespaceTree.tree)
      ensures kind.None? ==> procCache.entries == old(procCache.entries) && namespaceTree.builtAt == old(namespaceTree.builtAt)
      ensures kind.Some? ==> var t := Apply(k, Apply(k, s, Evict(pid, kind.value)), Reset);
        procCache.entries == t.entries && namespaceTree.builtAt == t.index.builtAt
    {
      if kind.None? {
        return;
      }
      var invalidateProc, invalidateTree := false, false;
      match kind.value {
        case Exit => invalidateProc := true;
        case Setns => invalidateProc, invalidateTree := true, true;
        case Unshare => invalidateProc, invalidateTree := true, true;
        case Plain =>
      }
      if invalidateProc {
        procCache.Invalidate(pid);
      }
      if invalidateTree {
        namespaceTree.Invalidate();
      }
    }
  }

  /** `handle_sample`: a sample too short to be an event is dropped without any effect. */
  method HandleSample(size: nat, eventSize: nat, event: Subscriptions.Event, kind: Option<Kind>,
                      registry: StreamRegistry, invalidators: CacheInvalidators, ghost k: Config, ghost s: State)
    requires s.entries == invalidators.procCache.entries
    requires s.index.tree == invalidators.namespaceTree.tree && s.index.builtAt == invalidators.namespaceTree.builtAt
    modifies registry, invalidators.procCache, invalidators.namespaceTree
    ensures size < eventSize ==>
      && registry.View() == old(registry.View())
      && invalidators.procCache.entries == old(invalidators.procCache.entries)
      && invalidators.namespaceTree.tree == old(invalidators.namespaceTree.tree)
      && invalidators.namespaceTree.builtAt == old(invalidators.namespaceTree.builtAt)
    ensures size >= eventSize ==>
      && registry.View() == Subscriptions.Apply(old(registry.View()), Subscriptions.Step.Forward(event))
      && invalidators.namespaceTree.tree == old(invalidators.namespaceTree.tree)
      && (kind.None? ==>
            && invalidators.procCache.entries == old(invalidators.procCache.entries)
            && invalidators.namespaceTree.builtAt == old(invalidators.namespaceTree.builtAt))
      && (kind.Some? ==> var t := Apply(k, Apply(k, s, Evict(event.pid, kind.value)), Reset);
            invalidators.procCache.entries == t.entries && invalidators.namespaceTree.builtAt == t.index.builtAt)
  {
    if size < eventSize {
      return;
    }
    invalidators.OnEvent(event.pid, kind, k, s);
    registry.Forward(event);
  }

  /** The clauses of `on_event`, one by one. */
  lemma WhatEachEventDrops(k: Config, s: State, pid: Pid, kind: Kind)
    ensures var t := Apply(k, Apply(k, s, Evict(pid, kind)), Reset);
      && t.entries == (if kind == Plain then s.entries else s.entries - {pid})
      && t.index.tree == s.index.tree
      && t.index.builtAt == (if kind == Setns || kind == Unshare then None else s.index.builtAt)
  {
    var middle := Apply(k, s, Evict(pid, kind));
    assert middle.notices[|middle.notices| - 1] == Notice(pid, kind, s.now);
  }
}
