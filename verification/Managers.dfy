/** Which process manager started a process: a walk up the parent links of `/proc`. */
module Managers {
  import opened Common

  datatype Manager = Systemd | Containerd | Docker | Podman | Crio | Conmon

  datatype Info = Info(comm: string, ppid: Pid)

  /** `/proc` at one instant: what can be read about each pid. */
  type ProcFs = Pid -> Option<Info>

  type View = map<Pid, Info>

  /** The cache answers first, `/proc` otherwise. */
  function Lookup(cache: View, proc: ProcFs, pid: Pid): Option<Info> {
    if pid in cache then Some(cache[pid]) else proc(pid)
  }

  function ManagerAt(comm: string, depth: nat): Option<Manager> {
    if depth == 0 then None
    else if comm == "systemd" && depth == 1 then Some(Systemd)
    else if comm == "containerd" || comm == "containerd-shim" then Some(Containerd)
    else if comm == "dockerd" then Some(Docker)
    else if comm == "podman" then Some(Podman)
    else if comm == "crio" then Some(Crio)
    else if comm == "conmon" then Some(Conmon)
    else None
  }

  ghost function Below(n: nat): (s: set<int>)
    ensures forall p: int :: p in s <==> 0 <= p < n
  {
    if n == 0 then {} else Below(n - 1) + {n - 1}
  }

  ghost function AllPids(): (s: set<int>)
    ensures forall p: Pid :: p in s
  {
    Below(0x1_0000_0000)
  }

  /** The walk as a recursion over the pids not yet visited. */
  ghost function Walk(cache: View, proc: ProcFs, current: Pid, visited: set<Pid>, depth: nat): Option<Manager>
    decreases AllPids() - visited
  {
    if current == 0 || current in visited then None
    else match Lookup(cache, proc, current)
      case None => None
      case Some(info) =>
        var manager := ManagerAt(info.comm, depth);
        if manager.Some? then manager
        else if info.ppid == 0 || info.ppid == current then None
        else
          assert current in AllPids() - visited;
          Walk(cache, proc, info.ppid, visited + {current}, depth + 1)
  }

  ghost function Detected(cache: View, proc: ProcFs, pid: Pid): Option<Manager> {
    Walk(cache, proc, pid, {}, 0)
  }

  /** `detect_manager` */
  method DetectManager(pid: Pid, cache: View, proc: ProcFs) returns (r: Option<Manager>)
    ensures r == Detected(cache, proc, pid)
  {
    var current := pid;
    var visited: set<Pid> := {};
    var depth := 0;
    while true
      invariant Detected(cache, proc, pid) == Walk(cache, proc, current, visited, depth)
      decreases AllPids() - visited
    {
      if current == 0 || current in visited {
        return None;
      }
      assert current in AllPids() - visited;
      ghost var before := visited;
      visited := visited + {current};
      var info := Lookup(cache, proc, current);
      if info.None? {
        return None;
      }
      var manager := ManagerAt(info.value.comm, depth);
      if manager.Some? {
        return manager;
      }
      if info.value.ppid == 0 || info.value.ppid == current {
        return None;
      }
      depth := depth + 1;
      current := info.value.ppid;
    }
  }

  // ---------------------------------------------------------------------------------
  // What the walk finds, said without the walk.

  /** `path` climbs from child to parent through distinct, non-zero pids that can all be read. */
  ghost predicate Lineage(cache: View, proc: ProcFs, path: seq<Pid>) {
    && (forall i | 0 <= i < |path| :: path[i] != 0 && Lookup(cache, proc, path[i]).Some?)
    && (forall i, j | 0 <= i < j < |path| :: path[i] != path[j])
    && (forall i | 0 <= i < |path| - 1 :: path[i + 1] == Lookup(cache, proc, path[i]).value.ppid)
  }

  /** The manager recognised at each place of the lineage. */
  ghost function ManagerOn(cache: View, proc: ProcFs, path: seq<Pid>, i: nat): Option<Manager>
    requires Lineage(cache, proc, path) && i < |path|
  {
    ManagerAt(Lookup(cache, proc, path[i]).value.comm, i)
  }

  /** `m` is recognised at the end of a lineage of `pid` and nowhere before it. */
  ghost predicate Nearest(cache: View, proc: ProcFs, pid: Pid, path: seq<Pid>, m: Manager) {
    && |path| >= 2 && path[0] == pid && Lineage(cache, proc, path)
    && ManagerOn(cache, proc, path, |path| - 1) == Some(m)
    && forall i | 0 <= i < |path| - 1 :: ManagerOn(cache, proc, path, i).None?
  }

  ghost predicate Unmanaged(cache: View, proc: ProcFs, pid: Pid) {
    forall path | |path| > 0 && path[0] == pid && Lineage(cache, proc, path) ::
      ManagerOn(cache, proc, path, |path| - 1).None?
  }

  /** Two lineages of one pid are the same as far as both go. */
  lemma {:induction false} LineagesAgree(cache: View, proc: ProcFs, a: seq<Pid>, b: seq<Pid>, i: nat)
    requires Lineage(cache, proc, a) && Lineage(cache, proc, b)
    requires i < |a| && i < |b| && a[0] == b[0]
    ensures a[i] == b[i]
  {
    if i > 0 {
      LineagesAgree(cache, proc, a, b, i - 1);
      assert a[i - 1 + 1] == b[i - 1 + 1];
    }
  }

  /** What is known when the walk stands at `current` above `path`. */
  ghost predicate Standing(cache: View, proc: ProcFs, pid: Pid, path: seq<Pid>, current: Pid) {
    && Lineage(cache, proc, path)
    && (forall i | 0 <= i < |path| :: ManagerOn(cache, proc, path, i).None?)
    && (if |path| == 0 then current == pid
        else path[0] == pid && current == Lookup(cache, proc, path[|path| - 1]).value.ppid)
  }

  lemma NextIsCurrent(cache: View, proc: ProcFs, pid: Pid, path: seq<Pid>, current: Pid, other: seq<Pid>)
    requires Standing(cache, proc, pid, path, current) && Lineage(cache, proc, other)
    requires |other| > |path| && other[0] == pid && forall i | 0 <= i < |path| :: other[i] == path[i]
    ensures other[|path|] == current
  {
    if |path| > 0 {
      assert other[|path| - 1 + 1] == Lookup(cache, proc, other[|path| - 1]).value.ppid;
    }
  }

  /** A walk that cannot go on has seen every lineage. */
  lemma StuckIsUnmanaged(cache: View, proc: ProcFs, pid: Pid, path: seq<Pid>, current: Pid)
    requires Standing(cache, proc, pid, path, current)
    requires current == 0 || current in path || Lookup(cache, proc, current).None?
    ensures Unmanaged(cache, proc, pid)
  {
    forall other | |other| > 0 && other[0] == pid && Lineage(cache, proc, other)
      ensures ManagerOn(cache, proc, other, |other| - 1).None?
    {
      forall i | 0 <= i < |other| && i < |path| ensures other[i] == path[i] {
        LineagesAgree(cache, proc, other, path, i);
      }
      if |other| > |path| {
        NextIsCurrent(cache, proc, pid, path, current, other);
        assert false;
      }
      assert ManagerOn(cache, proc, path, |other| - 1).None?;
    }
  }

  lemma StepUp(cache: View, proc: ProcFs, pid: Pid, path: seq<Pid>, current: Pid)
    requires Standing(cache, proc, pid, path, current)
    requires current != 0 && current !in path && Lookup(cache, proc, current).Some?
    ensures Lineage(cache, proc, path + [current])
    ensures forall i | 0 <= i < |path| :: ManagerOn(cache, proc, path + [current], i).None?
    ensures ManagerOn(cache, proc, path + [current], |path|) == ManagerAt(Lookup(cache, proc, current).value.comm, |path|)
  {
    var more := path + [current];
    assert forall i | 0 <= i < |path| :: more[i] == path[i];
    assert more[|path|] == current;
    assert Lineage(cache, proc, more);
    forall i | 0 <= i < |path| ensures ManagerOn(cache, proc, more, i).None? {
      assert ManagerOn(cache, proc, path, i).None?;
    }
  }

  ghost predicate Answers(cache: View, proc: ProcFs, pid: Pid, r: Option<Manager>) {
    match r
    case None => Unmanaged(cache, proc, pid)
    case Some(m) => exists path :: Nearest(cache, proc, pid, path, m)
  }

  ghost function Members(path: seq<Pid>): (s: set<Pid>)
    ensures forall p :: p in s <==> p in path
  {
    set p | p in path
  }

  lemma FoundHere(cache: View, proc: ProcFs, pid: Pid, path: seq<Pid>, current: Pid)
    requires Standing(cache, proc, pid, path, current)
    requires current != 0 && current !in path && Lookup(cache, proc, current).Some?
    requires ManagerAt(Lookup(cache, proc, current).value.comm, |path|).Some?
    ensures Answers(cache, proc, pid, ManagerAt(Lookup(cache, proc, current).value.comm, |path|))
  {
    var m := ManagerAt(Lookup(cache, proc, current).value.comm, |path|).value;
    StepUp(cache, proc, pid, path, current);
    assert Nearest(cache, proc, pid, path + [current], m);
  }

  lemma StandHigher(cache: View, proc: ProcFs, pid: Pid, path: seq<Pid>, current: Pid)
    requires Standing(cache, proc, pid, path, current)
    requires current != 0 && current !in path && Lookup(cache, proc, current).Some?
    requires ManagerAt(Lookup(cache, proc, current).value.comm, |path|).None?
    ensures Standing(cache, proc, pid, path + [current], Lookup(cache, proc, current).value.ppid)
  {
    StepUp(cache, proc, pid, path, current);
  }

  lemma OneMoreMember(path: seq<Pid>, current: Pid)
    ensures Members(path + [current]) == Members(path) + {current} && current in path + [current]
  {
    assert (path + [current])[|path|] == current;
  }

  lemma {:induction false} WalkAnswers(cache: View, proc: ProcFs, pid: Pid, path: seq<Pid>, current: Pid, visited: set<Pid>)
    requires Standing(cache, proc, pid, path, current) && visited == Members(path)
    ensures Answers(cache, proc, pid, Walk(cache, proc, current, visited, |path|))
    decreases AllPids() - visited
  {
    if current == 0 || current in visited || Lookup(cache, proc, current).None? {
      StuckIsUnmanaged(cache, proc, pid, path, current);
    } else {
      var info := Lookup(cache, proc, current).value;
      if ManagerAt(info.comm, |path|).Some? {
        FoundHere(cache, proc, pid, path, current);
      } else {
        StandHigher(cache, proc, pid, path, current);
        OneMoreMember(path, current);
        if info.ppid == 0 || info.ppid == current {
          StuckIsUnmanaged(cache, proc, pid, path + [current], info.ppid);
        } else {
          assert current in AllPids() - visited;
          WalkAnswers(cache, proc, pid, path + [current], info.ppid, visited + {current});
        }
      }
    }
  }

  /** The answer is the nearest manager on the lineage, and none exactly when there is none. */
  lemma DetectedIsNearest(cache: View, proc: ProcFs, pid: Pid)
    ensures Answers(cache, proc, pid, Detected(cache, proc, pid))
  {
    WalkAnswers(cache, proc, pid, [], pid, {});
  }

  /** At most one answer fits, so `Answers` pins the result. */
  lemma OneAnswer(cache: View, proc: ProcFs, pid: Pid, a: Option<Manager>, b: Option<Manager>)
    requires Answers(cache, proc, pid, a) && Answers(cache, proc, pid, b)
    ensures a == b
  {
    if a.Some? && b.Some? {
      var p :| Nearest(cache, proc, pid, p, a.value);
      var q :| Nearest(cache, proc, pid, q, b.value);
      var last := if |p| <= |q| then |p| - 1 else |q| - 1;
      LineagesAgree(cache, proc, p, q, last);
      assert ManagerOn(cache, proc, p, last) == ManagerOn(cache, proc, q, last);
    }
  }

  // ---------------------------------------------------------------------------------
  // The same in command names alone.

  /** The commands each manager runs under. */
  predicate Named(comm: string, m: Manager) {
    match m
    case Systemd => comm == "systemd"
    case Containerd => comm == "containerd" || comm == "containerd-shim"
    case Docker => comm == "dockerd"
    case Podman => comm == "podman"
    case Crio => comm == "crio"
    case Conmon => comm == "conmon"
  }

  /** The `i`th member of a lineage, counting the process itself as the 0th, bears the manager's name where it counts. */
  ghost predicate Bears(cache: View, proc: ProcFs, path: seq<Pid>, i: int, m: Manager) {
    && 1 <= i < |path| && Lookup(cache, proc, path[i]).Some?
    && Named(Lookup(cache, proc, path[i]).value.comm, m) && (m.Systemd? ==> i == 1)
  }

  ghost predicate From(cache: View, proc: ProcFs, pid: Pid, path: seq<Pid>) {
    |path| > 0 && path[0] == pid && Lineage(cache, proc, path)
  }

  lemma Initials()
    ensures "systemd"[0] == 's' && "containerd"[0] == 'c' && "containerd-shim"[0] == 'c' && "dockerd"[0] == 'd'
    ensures "podman"[0] == 'p' && "crio"[0] == 'c' && "conmon"[0] == 'c'
    ensures |"containerd"| == 10 && |"containerd-shim"| == 15 && |"crio"| == 4 && |"conmon"| == 6
  {
  }

  /** No command belongs to two managers. */
  lemma NamesAreDistinct(comm: string, a: Manager, b: Manager)
    requires Named(comm, a) && Named(comm, b)
    ensures a == b
  {
    Initials();
  }

  lemma ManagerAtIsByName(comm: string, depth: nat, m: Manager)
    ensures ManagerAt(comm, depth) == Some(m) <==> depth >= 1 && Named(comm, m) && (m.Systemd? ==> depth == 1)
  {
    Initials();
  }

  lemma BearsIsManagerOn(cache: View, proc: ProcFs, path: seq<Pid>, i: nat, m: Manager)
    requires Lineage(cache, proc, path) && i < |path|
    ensures Bears(cache, proc, path, i, m) <==> ManagerOn(cache, proc, path, i) == Some(m)
  {
    ManagerAtIsByName(Lookup(cache, proc, path[i]).value.comm, i, m);
  }

  /** Nobody on the lineage before its `n`th member bears any manager's name. */
  ghost predicate NoneBefore(cache: View, proc: ProcFs, path: seq<Pid>, n: int) {
    forall i, m: Manager | 0 <= i < n :: !Bears(cache, proc, path, i, m)
  }

  lemma NearestByName(cache: View, proc: ProcFs, pid: Pid, path: seq<Pid>, m: Manager)
    ensures Nearest(cache, proc, pid, path, m)
       <==> From(cache, proc, pid, path) && Bears(cache, proc, path, |path| - 1, m) && NoneBefore(cache, proc, path, |path| - 1)
  {
    if From(cache, proc, pid, path) {
      forall i: int, n: Manager | 0 <= i < |path|
        ensures Bears(cache, proc, path, i, n) <==> ManagerOn(cache, proc, path, i) == Some(n)
      {
        BearsIsManagerOn(cache, proc, path, i, n);
      }
    }
  }

  lemma DetectedSomeIff(cache: View, proc: ProcFs, pid: Pid, m: Manager)
    ensures Detected(cache, proc, pid) == Some(m) <==> exists path :: Nearest(cache, proc, pid, path, m)
  {
    DetectedIsNearest(cache, proc, pid);
    if path :| Nearest(cache, proc, pid, path, m) {
      OneAnswer(cache, proc, pid, Detected(cache, proc, pid), Some(m));
    }
  }

  /** The answer is a manager exactly when the first member of the lineage that bears a name where it counts bears his. */
  lemma DetectedByName(cache: View, proc: ProcFs, pid: Pid, m: Manager)
    ensures Detected(cache, proc, pid) == Some(m)
       <==> exists path ::
              From(cache, proc, pid, path) && Bears(cache, proc, path, |path| - 1, m) && NoneBefore(cache, proc, path, |path| - 1)
  {
    DetectedSomeIff(cache, proc, pid, m);
    forall path
      ensures Nearest(cache, proc, pid, path, m)
         <==> From(cache, proc, pid, path) && Bears(cache, proc, path, |path| - 1, m) && NoneBefore(cache, proc, path, |path| - 1)
    {
      NearestByName(cache, proc, pid, path, m);
    }
  }

  /** Systemd is the answer exactly when it is the parent; further up it does not count. */
  lemma SystemdExactlyAsTheParent(cache: View, proc: ProcFs, pid: Pid)
    ensures Detected(cache, proc, pid) == Some(Systemd)
       <==> exists parent: Pid ::
              && From(cache, proc, pid, [pid, parent])
              && Lookup(cache, proc, parent).Some? && Lookup(cache, proc, parent).value.comm == "systemd"
  {
    DetectedByName(cache, proc, pid, Systemd);
    if Detected(cache, proc, pid) == Some(Systemd) {
      var path :| From(cache, proc, pid, path) && Bears(cache, proc, path, |path| - 1, Systemd) && NoneBefore(cache, proc, path, |path| - 1);
      assert path == [pid, path[1]];
    }
    forall parent: Pid
      | From(cache, proc, pid, [pid, parent])
        && Lookup(cache, proc, parent).Some? && Lookup(cache, proc, parent).value.comm == "systemd"
      ensures Detected(cache, proc, pid) == Some(Systemd)
    {
      var path := [pid, parent];
      assert Bears(cache, proc, path, |path| - 1, Systemd);
      assert NoneBefore(cache, proc, path, |path| - 1);
    }
  }

  lemma PrefixOfLineage(cache: View, proc: ProcFs, pid: Pid, path: seq<Pid>, i: nat, m: Manager)
    requires From(cache, proc, pid, path) && i < |path|
    ensures From(cache, proc, pid, path[..i + 1])
    ensures Bears(cache, proc, path[..i + 1], i, m) <==> Bears(cache, proc, path, i, m)
  {
  }

  /** There is no answer exactly when nobody on any lineage of the process bears a name where it counts. */
  lemma UndetectedByName(cache: View, proc: ProcFs, pid: Pid)
    ensures Detected(cache, proc, pid).None?
       <==> forall path | From(cache, proc, pid, path) :: NoneBefore(cache, proc, path, |path|)
  {
    DetectedIsNearest(cache, proc, pid);
    if Detected(cache, proc, pid).None? {
      forall path, i: int, m: Manager | From(cache, proc, pid, path) && 0 <= i < |path|
        ensures !Bears(cache, proc, path, i, m)
      {
        PrefixOfLineage(cache, proc, pid, path, i, m);
        BearsIsManagerOn(cache, proc, path[..i + 1], i, m);
      }
    } else {
      var m := Detected(cache, proc, pid).value;
      var path :| Nearest(cache, proc, pid, path, m);
      NearestByName(cache, proc, pid, path, m);
    }
  }

  /** A cache that agrees with `/proc` changes nothing. */
  ghost predicate Consistent(cache: View, proc: ProcFs) {
    forall p | p in cache :: proc(p) == Some(cache[p])
  }

  lemma {:induction false} ConsistentWalk(cache: View, proc: ProcFs, current: Pid, visited: set<Pid>, depth: nat)
    requires Consistent(cache, proc)
    ensures Walk(cache, proc, current, visited, depth) == Walk(map[], proc, current, visited, depth)
    decreases AllPids() - visited
  {
    assert Lookup(cache, proc, current) == Lookup(map[], proc, current);
    if current != 0 && current !in visited && Lookup(cache, proc, current).Some? {
      assert current in AllPids() - visited;
      ConsistentWalk(cache, proc, Lookup(cache, proc, current).value.ppid, visited + {current}, depth + 1);
    }
  }

  lemma ConsistentCacheIsInvisible(cache: View, proc: ProcFs, pid: Pid)
    requires Consistent(cache, proc)
    ensures Detected(cache, proc, pid) == Detected(map[], proc, pid)
  {
    ConsistentWalk(cache, proc, pid, {}, 0);
  }

  /** A cache that agrees with `/proc` on everybody but `pid`, about whom it may be out of date. */
  ghost predicate ConsistentButFor(cache: View, proc: ProcFs, pid: Pid) {
    forall p | p in cache && p != pid :: proc(p) == Some(cache[p])
  }

  /** The walk from a parent of `pid` upwards, through `/proc` alone. */
  ghost function Above(proc: ProcFs, pid: Pid, parent: Pid): Option<Manager> {
    if pid == 0 || parent == 0 || parent == pid then None else Walk(map[], proc, parent, {pid}, 1)
  }

  lemma {:induction false} PastPidTheCacheIsInvisible(cache: View, proc: ProcFs, pid: Pid, current: Pid, visited: set<Pid>, depth: nat)
    requires ConsistentButFor(cache, proc, pid) && pid in visited
    ensures Walk(cache, proc, current, visited, depth) == Walk(map[], proc, current, visited, depth)
    decreases AllPids() - visited
  {
    if current != 0 && current !in visited {
      assert Lookup(cache, proc, current) == Lookup(map[], proc, current);
      if Lookup(cache, proc, current).Some? {
        assert current in AllPids() - visited;
        var parent := Lookup(cache, proc, current).value.ppid;
        PastPidTheCacheIsInvisible(cache, proc, pid, parent, visited + {current}, depth + 1);
      }
    }
  }

  /** Such a cache decides one thing: the parent from which the walk goes up. */
  lemma DetectedFromTheParent(cache: View, proc: ProcFs, pid: Pid)
    requires ConsistentButFor(cache, proc, pid) && Lookup(cache, proc, pid).Some?
    ensures Detected(cache, proc, pid) == Above(proc, pid, Lookup(cache, proc, pid).value.ppid)
  {
    var parent := Lookup(cache, proc, pid).value.ppid;
    assert {} + {pid} == {pid};
    PastPidTheCacheIsInvisible(cache, proc, pid, parent, {pid}, 1);
  }

  // ---------------------------------------------------------------------------------
  // The depth counter is a u32.

  lemma {:induction false} FewerThan(s: set<Pid>, n: nat)
    requires forall p | p in s :: 0 < p <= n
    ensures |s| <= n
  {
    if n == 0 {
      assert s == {};
    } else if n in s {
      FewerThan(s - {n}, n - 1);
    } else {
      FewerThan(s, n - 1);
    }
  }

  lemma {:induction false} DistinctCount(path: seq<Pid>)
    requires forall i, j | 0 <= i < j < |path| :: path[i] != path[j]
    ensures |Members(path)| == |path|
  {
    if |path| == 0 {
      assert Members(path) == {};
    } else {
      var init, last := path[..|path| - 1], path[|path| - 1];
      DistinctCount(init);
      assert forall p | p in path :: p in init || p == last;
      assert Members(path) == Members(init) + {last};
      assert last !in init;
    }
  }

  /** No lineage is long enough to overflow it. */
  lemma DepthFits(cache: View, proc: ProcFs, path: seq<Pid>)
    requires Lineage(cache, proc, path)
    ensures |path| < 0x1_0000_0000
  {
    DistinctCount(path);
    assert forall p | p in Members(path) :: exists i :: 0 <= i < |path| && path[i] == p;
    FewerThan(Members(path), 0xFFFF_FFFF);
    assert |Members(path)| <= 0xFFFF_FFFF;
  }
}
