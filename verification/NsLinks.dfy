/** The namespaces of a process, from the links under `/proc/<pid>/ns`; see namespaces(7). */
module NsLinks {
  import opened Common
  import opened Text

  // The target of a link is `type:[inode]`.

  function FindLink(s: string): (r: Option<nat>)
    ensures r.Some? ==> r.value + 1 < |s| && s[r.value] == ':' && s[r.value + 1] == '['
  {
    if |s| < 2 then None
    else if s[0] == ':' && s[1] == '[' then Some(0)
    else match FindLink(s[1..])
      case None => None
      case Some(i) => Some(i + 1)
  }

  /** The number between `:[` and the last `]`. */
  function NsInode(target: string): Option<nat> {
    match (FindLink(target), RFind(target, ']'))
    case (Some(start), Some(end)) =>
      if start < end then
        assert target[start + 1] == '[';
        Inner(target, start, end)
      else None
    case _ => None
  }

  function Inner(target: string, start: nat, end: nat): Option<nat>
    requires start + 2 <= end <= |target|
  {
    ParseUnsigned(target[start + 2..end], U64)
  }

  function LinkText(name: string, inner: string): string {
    Join3(name, ':', "[" + inner, ']', "")
  }

  lemma {:induction false} FindLinkIs(s: string, k: nat)
    requires k + 1 < |s| && s[k] == ':' && s[k + 1] == '[' && forall j | 0 <= j < k :: s[j] != ':'
    ensures FindLink(s) == Some(k)
  {
    if k > 0 {
      FindLinkIs(s[1..], k - 1);
    }
  }

  lemma LinkCut(s: string, name: string, inner: string)
    requires ':' !in name && IsJoin3(s, name, ':', "[" + inner, ']', "")
    ensures FindLink(s) == Some(|name|) && RFind(s, ']') == Some(|name| + 2 + |inner|)
    ensures s[|name| + 2..|name| + 2 + |inner|] == inner
  {
    var middle := "[" + inner;
    assert s[|name| + 1] == s[|name| + 1..|name| + 1 + |middle|][0] == '[';
    FindLinkIs(s, |name|);
    RFindIs(s, ']', |name| + 2 + |inner|);
    assert s[|name| + 2..|name| + 2 + |inner|] == middle[1..];
  }

  lemma InodeBetween(s: string, start: nat, end: nat)
    requires FindLink(s) == Some(start) && RFind(s, ']') == Some(end) && start + 2 <= end
    ensures NsInode(s) == Inner(s, start, end)
  {
  }

  lemma InnerIs(s: string, start: nat, end: nat, digits: string)
    requires start + 2 <= end <= |s| && s[start + 2..end] == digits
    ensures Inner(s, start, end) == ParseUnsigned(digits, U64)
  {
  }

  lemma InodeOfJoin(s: string, name: string, digits: string)
    requires ':' !in name && IsJoin3(s, name, ':', "[" + digits, ']', "")
    ensures NsInode(s) == ParseUnsigned(digits, U64)
  {
    var end := |name| + 2 + |digits|;
    assert FindLink(s) == Some(|name|) && RFind(s, ']') == Some(end) && s[|name| + 2..end] == digits by {
      LinkCut(s, name, digits);
    }
    InodeBetween(s, |name|, end);
    InnerIs(s, |name|, end, digits);
  }

  lemma LinkTextJoins(name: string, inner: string)
    ensures IsJoin3(LinkText(name, inner), name, ':', "[" + inner, ']', "")
  {
    Join3Parts(name, ':', "[" + inner, ']', "");
  }

  /** Round trip of an inode through the link's text. */
  lemma NsLinkRoundTrip(name: string, inode: nat)
    requires ':' !in name && inode < U64
    ensures NsInode(LinkText(name, Decimal(inode))) == Some(inode)
  {
    LinkTextJoins(name, Decimal(inode));
    InodeOfJoin(LinkText(name, Decimal(inode)), name, Decimal(inode));
    ParseDecimal(inode, U64);
  }

  /** A directory entry: its name if that is text, its target if it can be read. */
  datatype NsLink = NsLink(name: Option<string>, target: Option<string>)

  datatype Reading = Nothing | Inode(kind: string, inode: nat)

  function ReadLink(l: NsLink): Reading {
    if l.name.None? || l.target.None? then Nothing
    else match NsInode(l.target.value)
      case None => Nothing
      case Some(inode) => Inode(l.name.value, inode)
  }

  function Readings(links: seq<NsLink>): (r: seq<Reading>)
    ensures |r| == |links| && forall i | 0 <= i < |links| :: r[i] == ReadLink(links[i])
  {
    seq(|links|, i requires 0 <= i < |links| => ReadLink(links[i]))
  }

  predicate Gives(r: Reading, kind: string) {
    r.Inode? && r.kind == kind
  }

  /** Among the first `n` readings, the `i`th is the last of its kind. */
  predicate GivesLast(rs: seq<Reading>, n: int, i: int, kind: string) {
    0 <= i < n <= |rs| && Gives(rs[i], kind) && forall j | i < j < n :: !Gives(rs[j], kind)
  }

  /** Exactly the kinds that were read, each with its last inode. */
  ghost predicate InodesOf(rs: seq<Reading>, n: int, inodes: map<string, nat>)
    requires 0 <= n <= |rs|
  {
    && (forall kind | kind in inodes :: exists i :: GivesLast(rs, n, i, kind) && rs[i].inode == inodes[kind])
    && forall i | 0 <= i < n && rs[i].Inode? :: rs[i].kind in inodes
  }

  lemma OneMoreReading(rs: seq<Reading>, n: nat, inodes: map<string, nat>)
    requires n < |rs| && InodesOf(rs, n, inodes)
    ensures InodesOf(rs, n + 1, if rs[n].Inode? then inodes[rs[n].kind := rs[n].inode] else inodes)
  {
    var more := if rs[n].Inode? then inodes[rs[n].kind := rs[n].inode] else inodes;
    forall kind | kind in more ensures exists i :: GivesLast(rs, n + 1, i, kind) && rs[i].inode == more[kind] {
      if Gives(rs[n], kind) {
        assert GivesLast(rs, n + 1, n, kind);
      } else {
        var i :| GivesLast(rs, n, i, kind) && rs[i].inode == inodes[kind];
        assert GivesLast(rs, n + 1, i, kind);
      }
    }
  }

  /** `read_ns_inodes`: links that cannot be read or parsed are skipped. */
  method ReadNsInodes(links: seq<NsLink>) returns (inodes: map<string, nat>)
    ensures InodesOf(Readings(links), |links|, inodes)
  {
    inodes := map[];
    ghost var rs := Readings(links);
    for n := 0 to |links|
      invariant InodesOf(rs, n, inodes)
    {
      OneMoreReading(rs, n, inodes);
      var reading := ReadLink(links[n]);
      if reading.Inode? {
        inodes := inodes[reading.kind := reading.inode];
      }
    }
  }

  lemma OneOfItsKind(rs: seq<Reading>, inodes: map<string, nat>, i: nat)
    requires InodesOf(rs, |rs|, inodes) && i < |rs| && rs[i].Inode?
    requires forall a, b | 0 <= a < b < |rs| && rs[a].Inode? && rs[b].Inode? :: rs[a].kind != rs[b].kind
    ensures rs[i].kind in inodes && inodes[rs[i].kind] == rs[i].inode
  {
    var j :| GivesLast(rs, |rs|, j, rs[i].kind) && rs[j].inode == inodes[rs[i].kind];
    assert !(i < j) && !(j < i);
  }

  /** With distinct names every link that parses is in the result, under its own name and inode. */
  lemma DirectoryIsReadBack(links: seq<NsLink>, inodes: map<string, nat>, i: nat)
    requires InodesOf(Readings(links), |links|, inodes)
    requires forall a, b | 0 <= a < b < |links| && links[a].name.Some? :: links[a].name != links[b].name
    requires i < |links| && ReadLink(links[i]).Inode?
    ensures links[i].name.Some? && links[i].name.value in inodes
    ensures NsInode(links[i].target.value) == Some(inodes[links[i].name.value])
  {
    OneOfItsKind(Readings(links), inodes, i);
  }
}
