/** The reverse index from a namespace to the processes in it. */
module NamespaceTrees {
  import opened Common
  import opened ProcCaches

  /** Type name and inode. */
  type Key = (string, nat)

  type Tree = map<Key, set<Pid>>

  ghost predicate LivesIn(procs: Entries, p: Pid, key: Key) {
    p in procs && key.0 in procs[p].stable.namespaces && procs[p].stable.namespaces[key.0] == key.1
  }

  function Bucket(tree: Tree, key: Key): set<Pid> {
    if key in tree then tree[key] else {}
  }

  /** A pid is under a key exactly when its cached entry says so, and no bucket is empty. */
  ghost predicate IsIndex(tree: Tree, procs: Entries) {
    && (forall key: Key, p: Pid :: p in Bucket(tree, key) <==> LivesIn(procs, p, key))
    && forall key | key in tree :: tree[key] != {}
  }

  lemma OneIndex(a: Tree, b: Tree, procs: Entries)
    requires IsIndex(a, procs) && IsIndex(b, procs)
    ensures a == b
  {
    forall key: Key ensures Bucket(a, key) == Bucket(b, key) {
      forall p: Pid ensures p in Bucket(a, key) <==> p in Bucket(b, key) {
        assert p in Bucket(a, key) <==> LivesIn(procs, p, key);
      }
    }
    forall key: Key ensures key in a <==> key in b {
      assert Bucket(a, key) == Bucket(b, key);
    }
    forall key: Key | key in a ensures a[key] == b[key] {
      assert Bucket(a, key) == Bucket(b, key);
    }
  }

  predicate Ascending(s: seq<Pid>) {
    forall i, j | 0 <= i < j < |s| :: s[i] < s[j]
  }

  predicate Stale(builtAt: Option<int>, now: int, ttl: nat) {
    builtAt.None? || Expired(builtAt.value, now, ttl)
  }

  /** The index of the processes in `done` only. */
  ghost predicate Covers(tree: Tree, procs: Entries, done: set<Pid>) {
    && (forall key: Key, q: Pid :: q in Bucket(tree, key) <==> LivesIn(procs, q, key) && q in done)
    && forall key | key in tree :: tree[key] != {}
  }

  /** The part of the index built so far: pids in `done`, and of `p` the types in `types`. */
  ghost predicate IsPartial(tree: Tree, procs: Entries, done: set<Pid>, p: Pid, types: set<string>) {
    && (forall key: Key, q: Pid ::
          q in Bucket(tree, key) <==> LivesIn(procs, q, key) && (q in done || (q == p && key.0 in types)))
    && forall key | key in tree :: tree[key] != {}
  }

  class NamespaceTreeCache {
    var tree: Tree
    var builtAt: Option<int>
    const ttl: nat

    constructor (ttl: nat)
      ensures tree == map[] && builtAt == None && this.ttl == ttl
    {
      tree := map[];
      builtAt := None;
      this.ttl := ttl;
    }

    /** Add one process to the index, its namespace types in any order. */
    static method AddProcess(before: Tree, procs: Entries, ghost done: set<Pid>, p: Pid) returns (after: Tree)
      requires p in procs && p !in done && Covers(before, procs, done)
      ensures Covers(after, procs, done + {p})
    {
      after := before;
      var namespaces := procs[p].stable.namespaces;
      var left := namespaces.Keys;
      while left != {}
        invariant left <= namespaces.Keys
        invariant IsPartial(after, procs, done, p, namespaces.Keys - left)
        decreases left
      {
        var t :| t in left;
        var key := (t, namespaces[t]);
        ghost var was := after;
        after := after[key := Bucket(after, key) + {p}];
        left := left - {t};
        forall k: Key, q: Pid
          ensures q in Bucket(after, k)
             <==> LivesIn(procs, q, k) && (q in done || (q == p && k.0 in namespaces.Keys - left))
        {
          assert q in Bucket(after, k) <==> q in Bucket(was, k) || (k == key && q == p);
        }
      }
    }

    /** `rebuild_from`: a new tree over all cached processes, in any order, then swapped in. */
    method RebuildFrom(procs: Entries, now: int)
      modifies this
      ensures IsIndex(tree, procs) && builtAt == Some(now)
    {
      var built: Tree := map[];
      var left := procs.Keys;
      while left != {}
        invariant left <= procs.Keys
        invariant Covers(built, procs, procs.Keys - left)
        decreases left
      {
        var p :| p in left;
        ghost var done := procs.Keys - left;
        built := AddProcess(built, procs, done, p);
        left := left - {p};
        assert procs.Keys - left == done + {p};
      }
      tree := built;
      builtAt := Some(now);
    }

    method Invalidate()
      modifies `builtAt
      ensures builtAt == None
    {
      builtAt := None;
    }

    predicate IsStale(now: int)
      reads this
    {
      Stale(builtAt, now, ttl)
    }

    method FindAnyPid(nsType: string, inode: nat) returns (r: Option<Pid>)
      ensures r.Some? ==> r.value in Bucket(tree, (nsType, inode))
      ensures r.None? ==> Bucket(tree, (nsType, inode)) == {}
    {
      var pids := Bucket(tree, (nsType, inode));
      if pids == {} {
        return None;
      }
      var p :| p in pids;
      r := Some(p);
    }

    method PidsIn(nsType: string, inode: nat) returns (r: seq<Pid>)
      ensures Ascending(r)
      ensures forall p: Pid :: p in r <==> p in Bucket(tree, (nsType, inode))
    {
      r := Sorted(Bucket(tree, (nsType, inode)));
    }
  }

  method Least(pids: set<Pid>) returns (least: Pid)
    requires pids != {}
    ensures least in pids && forall p | p in pids :: least <= p
  {
    least :| least in pids;
    var left := pids - {least};
    while left != {}
      invariant left <= pids && least in pids
      invariant forall p | p in pids && p !in left :: least <= p
      decreases left
    {
      var p :| p in left;
      if p < least {
        least := p;
      }
      left := left - {p};
    }
  }

  method Sorted(pids: set<Pid>) returns (r: seq<Pid>)
    ensures Ascending(r)
    ensures forall p: Pid :: p in r <==> p in pids
  {
    r := [];
    var left := pids;
    while left != {}
      invariant left <= pids && Ascending(r)
      invariant forall p: Pid :: p in r <==> p in pids - left
      invariant forall p, q | p in r && q in left :: p < q
      decreases left
    {
      var p := Least(left);
      assert forall i | 0 <= i < |r| :: r[i] in r;
      r := r + [p];
      left := left - {p};
    }
  }

  lemma LastIsGreatest(s: seq<Pid>, last: Pid)
    requires Ascending(s + [last])
    ensures Ascending(s) && forall p | p in s :: p < last
  {
    var whole := s + [last];
    assert whole[|s|] == last;
    assert forall i | 0 <= i < |s| :: whole[i] == s[i];
  }

  /** Two ascending lists of the same pids end in the same pid, and are of the same pids before it. */
  lemma SameEnds(c: seq<Pid>, x: Pid, d: seq<Pid>, y: Pid)
    requires Ascending(c + [x]) && Ascending(d + [y]) && forall p: Pid :: p in c + [x] <==> p in d + [y]
    ensures x == y && Ascending(c) && Ascending(d) && forall p: Pid :: p in c <==> p in d
  {
    LastIsGreatest(c, x);
    LastIsGreatest(d, y);
    assert x in c + [x] && y in d + [y];
    assert forall p: Pid :: p in c + [x] <==> p in c || p == x;
    assert forall p: Pid :: p in d + [y] <==> p in d || p == y;
  }

  lemma SameEmptiness(a: seq<Pid>, b: seq<Pid>)
    requires forall p: Pid :: p in a <==> p in b
    ensures |a| == 0 <==> |b| == 0
  {
    if |a| > 0 {
      assert a[0] in a && a[0] in b;
    }
    if |b| > 0 {
      assert b[0] in b && b[0] in a;
    }
  }

  /** The list `PidsIn` returns is determined by its contract. */
  lemma {:induction false} OneAscendingList(a: seq<Pid>, b: seq<Pid>)
    requires Ascending(a) && Ascending(b) && forall p: Pid :: p in a <==> p in b
    ensures a == b
    decreases |a|
  {
    SameEmptiness(a, b);
    if |a| > 0 {
      var c, x := a[..|a| - 1], a[|a| - 1];
      var d, y := b[..|b| - 1], b[|b| - 1];
      assert a == c + [x] && b == d + [y];
      SameEnds(c, x, d, y);
      OneAscendingList(c, d);
    }
  }
}
