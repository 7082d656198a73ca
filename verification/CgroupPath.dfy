/** Which cgroup a process is in, from the lines of `/proc/<pid>/cgroup`; see cgroups(7). */
module CgroupPath {
  import opened Common
  import opened Text

  /** `lines`: split after each newline, dropping `\n` or `\r\n` but not a last lone `\r`. */
  function Lines(raw: string): seq<string>
    decreases |raw|
  {
    if |raw| == 0 then [] else
      match Find(raw, '\n')
      case None => [raw]
      case Some(i) =>
        var line := if i > 0 && raw[i - 1] == '\r' then raw[..i - 1] else raw[..i];
        [line] + Lines(raw[i + 1..])
  }

  /** `hierarchy:controllers:path`; the path may hold further colons. */
  datatype Line = Broken | Line(hierarchy: string, controllers: string, path: string)

  function ParseLine(line: string): Line {
    match Find(line, ':')
    case None => Broken
    case Some(i) =>
      var rest := line[i + 1..];
      match Find(rest, ':')
      case None => Broken
      case Some(j) => Line(line[..i], rest[..j], rest[j + 1..])
  }

  function TrimSlashes(s: string): (r: string)
    ensures |r| > 0 ==> r[0] != '/'
    ensures |r| <= |s| && s[|s| - |r|..] == r && forall i | 0 <= i < |s| - |r| :: s[i] == '/'
  {
    if |s| > 0 && s[0] == '/' then TrimSlashes(s[1..]) else s
  }

  function SplitComma(s: string): seq<string>
    decreases |s|
  {
    match Find(s, ',')
    case None => [s]
    case Some(i) => [s[..i]] + SplitComma(s[i + 1..])
  }

  /** Names with a comma between each two. */
  function JoinComma(names: seq<string>): string
    requires |names| > 0
  {
    if |names| == 1 then names[0] else names[0] + [','] + JoinComma(names[1..])
  }

  lemma SplitAtComma(name: string, rest: string)
    requires ',' !in name
    ensures SplitComma(name + [','] + rest) == [name] + SplitComma(rest)
  {
    var s := name + [','] + rest;
    FindIs(s, ',', |name|);
    assert s[..|name|] == name && s[|name| + 1..] == rest;
  }

  /** Splitting undoes joining: every controller a line was printed with is found in it. */
  lemma {:induction false} SplitJoined(names: seq<string>)
    requires |names| > 0 && forall i | 0 <= i < |names| :: ',' !in names[i]
    ensures SplitComma(JoinComma(names)) == names
    decreases |names|
  {
    if |names| == 1 {
      assert ',' !in names[0];
    } else {
      SplitAtComma(names[0], JoinComma(names[1..]));
      SplitJoined(names[1..]);
    }
  }

  /** A line is a memory line if and only if `memory` is among its controllers and its path is not empty. */
  lemma MemoryLineExactly(l: Line, names: seq<string>)
    requires |names| > 0 && forall i | 0 <= i < |names| :: ',' !in names[i]
    requires l.Line? && l.controllers == JoinComma(names)
    ensures Is(l, Memory) <==> "memory" in names && |l.path| > 0
  {
    SplitJoined(names);
    if |l.controllers| == 0 {
      assert SplitComma(l.controllers) == [""];
      assert names[0] == "";
    }
  }

  /** The three uses a line can have; a line with an empty path has none. */
  datatype Kind = V2 | Memory | Other

  predicate Is(l: Line, kind: Kind) {
    && l.Line? && |l.path| > 0
    && var v2 := l.hierarchy == "0" && |l.controllers| == 0;
      var memory := "memory" in SplitComma(l.controllers);
      match kind
      case V2 => v2
      case Memory => !v2 && memory
      case Other => !v2 && !memory
  }

  ghost predicate NoneIs(ls: seq<Line>, kind: Kind) {
    forall i | 0 <= i < |ls| :: !Is(ls[i], kind)
  }

  predicate IsLast(ls: seq<Line>, i: int, kind: Kind) {
    0 <= i < |ls| && Is(ls[i], kind) && forall j | i < j < |ls| :: !Is(ls[j], kind)
  }

  predicate IsFirst(ls: seq<Line>, i: int, kind: Kind) {
    0 <= i < |ls| && Is(ls[i], kind) && forall j | 0 <= j < i :: !Is(ls[j], kind)
  }

  /** `slot` holds the trimmed path of the last line of its kind, or nothing if there is none. */
  ghost predicate HoldsLast(slot: Option<string>, ls: seq<Line>, kind: Kind) {
    if NoneIs(ls, kind) then slot.None?
    else slot.Some? && exists i :: IsLast(ls, i, kind) && slot.value == TrimSlashes(ls[i].path)
  }

  ghost predicate HoldsFirst(slot: Option<string>, ls: seq<Line>, kind: Kind) {
    if NoneIs(ls, kind) then slot.None?
    else slot.Some? && exists i :: IsFirst(ls, i, kind) && slot.value == TrimSlashes(ls[i].path)
  }

  ghost predicate AnyBroken(ls: seq<Line>) {
    exists i :: 0 <= i < |ls| && ls[i].Broken?
  }

  /** The last v2 line, else the last memory line, else the first other; nothing if a line is broken. */
  ghost predicate Resolves(r: Option<string>, ls: seq<Line>) {
    if AnyBroken(ls) then r.None?
    else if !NoneIs(ls, V2) then HoldsLast(r, ls, V2)
    else if !NoneIs(ls, Memory) then HoldsLast(r, ls, Memory)
    else HoldsFirst(r, ls, Other)
  }

  lemma NoneIsStep(ls: seq<Line>, l: Line, kind: Kind)
    ensures NoneIs(ls + [l], kind) <==> NoneIs(ls, kind) && !Is(l, kind)
  {
    var more := ls + [l];
    assert more[|ls|] == l;
    assert forall i | 0 <= i < |ls| :: more[i] == ls[i];
  }

  lemma LastIsNew(ls: seq<Line>, l: Line, kind: Kind)
    requires Is(l, kind)
    ensures IsLast(ls + [l], |ls|, kind) && (ls + [l])[|ls|] == l
  {
  }

  lemma LastIsKept(ls: seq<Line>, l: Line, kind: Kind, i: int)
    requires IsLast(ls, i, kind) && !Is(l, kind)
    ensures IsLast(ls + [l], i, kind) && (ls + [l])[i] == ls[i]
  {
    assert forall j | 0 <= j < |ls| :: (ls + [l])[j] == ls[j];
  }

  lemma FirstIsNew(ls: seq<Line>, l: Line, kind: Kind)
    requires NoneIs(ls, kind) && Is(l, kind)
    ensures IsFirst(ls + [l], |ls|, kind) && (ls + [l])[|ls|] == l
  {
    assert forall j | 0 <= j < |ls| :: (ls + [l])[j] == ls[j];
  }

  lemma FirstIsKept(ls: seq<Line>, l: Line, kind: Kind, i: int)
    requires IsFirst(ls, i, kind)
    ensures IsFirst(ls + [l], i, kind) && (ls + [l])[i] == ls[i]
  {
    assert forall j | 0 <= j < |ls| :: (ls + [l])[j] == ls[j];
  }

  /** Reading one more line of the kind overwrites the slot; any other line leaves it. */
  lemma LastStep(slot: Option<string>, ls: seq<Line>, l: Line, kind: Kind)
    requires HoldsLast(slot, ls, kind)
    ensures HoldsLast(if Is(l, kind) then Some(TrimSlashes(l.path)) else slot, ls + [l], kind)
  {
    NoneIsStep(ls, l, kind);
    if Is(l, kind) {
      LastIsNew(ls, l, kind);
    } else if slot.Some? {
      var i :| IsLast(ls, i, kind) && slot.value == TrimSlashes(ls[i].path);
      LastIsKept(ls, l, kind, i);
    }
  }

  /** Reading one more line of the kind fills the slot only if it is empty. */
  lemma FirstStep(slot: Option<string>, ls: seq<Line>, l: Line, kind: Kind)
    requires HoldsFirst(slot, ls, kind)
    ensures HoldsFirst(if slot.None? && Is(l, kind) then Some(TrimSlashes(l.path)) else slot, ls + [l], kind)
  {
    NoneIsStep(ls, l, kind);
    if slot.Some? {
      var i :| IsFirst(ls, i, kind) && slot.value == TrimSlashes(ls[i].path);
      FirstIsKept(ls, l, kind, i);
    } else if Is(l, kind) {
      FirstIsNew(ls, l, kind);
    }
  }

  function Parsed(lines: seq<string>): (r: seq<Line>)
    ensures |r| == |lines| && forall i | 0 <= i < |lines| :: r[i] == ParseLine(lines[i])
  {
    seq(|lines|, i requires 0 <= i < |lines| => ParseLine(lines[i]))
  }

  /** What the three slots hold once `ls` have been read. */
  ghost predicate Folded(v2: Option<string>, memory: Option<string>, first: Option<string>, ls: seq<Line>) {
    !AnyBroken(ls) && HoldsLast(v2, ls, V2) && HoldsLast(memory, ls, Memory) && HoldsFirst(first, ls, Other)
  }

  lemma StillUnbroken(ls: seq<Line>, l: Line)
    requires !AnyBroken(ls) && l.Line?
    ensures !AnyBroken(ls + [l])
  {
  }

  lemma FoldStep(v2: Option<string>, memory: Option<string>, first: Option<string>, ls: seq<Line>, l: Line,
                 v: Option<string>, m: Option<string>, f: Option<string>)
    requires l.Line? && Folded(v2, memory, first, ls)
    requires v == if Is(l, V2) then Some(TrimSlashes(l.path)) else v2
    requires m == if Is(l, Memory) then Some(TrimSlashes(l.path)) else memory
    requires f == if first.None? && Is(l, Other) then Some(TrimSlashes(l.path)) else first
    ensures Folded(v, m, f, ls + [l])
  {
    StillUnbroken(ls, l);
    LastStep(v2, ls, l, V2);
    LastStep(memory, ls, l, Memory);
    FirstStep(first, ls, l, Other);
  }

  /** One line put in the slot it belongs to. */
  method PlaceLine(l: Line, v2: Option<string>, memory: Option<string>, first: Option<string>)
    returns (v: Option<string>, m: Option<string>, f: Option<string>)
    requires l.Line?
    ensures v == if Is(l, V2) then Some(TrimSlashes(l.path)) else v2
    ensures m == if Is(l, Memory) then Some(TrimSlashes(l.path)) else memory
    ensures f == if first.None? && Is(l, Other) then Some(TrimSlashes(l.path)) else first
  {
    v, m, f := v2, memory, first;
    if |l.path| == 0 {
      return;
    }
    var trimmed := TrimSlashes(l.path);
    if l.hierarchy == "0" && |l.controllers| == 0 {
      v := Some(trimmed);
    } else if "memory" in SplitComma(l.controllers) {
      m := Some(trimmed);
    } else if first.None? {
      f := Some(trimmed);
    }
  }

  method FoldLine(l: Line, v2: Option<string>, memory: Option<string>, first: Option<string>, ghost before: seq<Line>)
    returns (v: Option<string>, m: Option<string>, f: Option<string>)
    requires l.Line? && Folded(v2, memory, first, before)
    ensures Folded(v, m, f, before + [l])
  {
    v, m, f := PlaceLine(l, v2, memory, first);
    FoldStep(v2, memory, first, before, l, v, m, f);
  }

  lemma FoldedResolves(v2: Option<string>, memory: Option<string>, first: Option<string>, ls: seq<Line>)
    requires Folded(v2, memory, first, ls)
    ensures Resolves(if v2.Some? then v2 else if memory.Some? then memory else first, ls)
  {
  }

  method ResolveLines(lines: seq<string>) returns (r: Option<string>)
    ensures Resolves(r, Parsed(lines))
  {
    ghost var all := Parsed(lines);
    var v2, memory, first: Option<string> := None, None, None;
    for n := 0 to |lines|
      invariant Folded(v2, memory, first, all[..n])
    {
      var l := ParseLine(lines[n]);
      if l.Broken? {
        assert all[n].Broken?;
        return None;
      }
      v2, memory, first := FoldLine(l, v2, memory, first, all[..n]);
      assert all[..n + 1] == all[..n] + [l];
    }
    assert all[..|lines|] == all;
    FoldedResolves(v2, memory, first, all);
    r := if v2.Some? then v2 else if memory.Some? then memory else first;
  }

  lemma ResolvedIsRelative(r: Option<string>, ls: seq<Line>)
    requires Resolves(r, ls)
    ensures r.Some? && |r.value| > 0 ==> r.value[0] != '/'
  {
  }

  method ResolveCgroupV2Path(raw: string) returns (r: Option<string>)
    ensures Resolves(r, Parsed(Lines(raw)))
    ensures r.Some? && |r.value| > 0 ==> r.value[0] != '/'
  {
    r := ResolveLines(Lines(raw));
    ResolvedIsRelative(r, Parsed(Lines(raw)));
  }

  /** At most one answer fits. */
  lemma ResolvesUniquely(a: Option<string>, b: Option<string>, ls: seq<Line>)
    requires Resolves(a, ls) && Resolves(b, ls)
    ensures a == b
  {
    forall i, j, kind: Kind | IsLast(ls, i, kind) && IsLast(ls, j, kind) ensures i == j {
      assert !(i < j) && !(j < i);
    }
    forall i, j, kind: Kind | IsFirst(ls, i, kind) && IsFirst(ls, j, kind) ensures i == j {
      assert !(i < j) && !(j < i);
    }
  }

  // ---------------------------------------------------------------------------------
  // The text the kernel prints, cgroups(7).

  function LineText(hierarchy: string, controllers: string, path: string): string {
    Join3(hierarchy, ':', controllers, ':', path)
  }

  lemma LineCut(s: string, hierarchy: string, controllers: string, path: string)
    requires ':' !in hierarchy && ':' !in controllers && IsJoin3(s, hierarchy, ':', controllers, ':', path)
    ensures ParseLine(s) == Line(hierarchy, controllers, path)
  {
    FindIs(s, ':', |hierarchy|);
    var rest := s[|hierarchy| + 1..];
    forall j | 0 <= j < |controllers| ensures rest[j] == controllers[j] {
      assert s[|hierarchy| + 1..|hierarchy| + 1 + |controllers|][j] == controllers[j];
    }
    FindIs(rest, ':', |controllers|);
    assert rest[..|controllers|] == controllers;
    assert rest[|controllers| + 1..] == s[|hierarchy| + 2 + |controllers|..];
  }

  /** Printing a line and reading it back changes nothing, further colons in the path included. */
  lemma LineRoundTrip(hierarchy: string, controllers: string, path: string)
    requires ':' !in hierarchy && ':' !in controllers
    ensures ParseLine(LineText(hierarchy, controllers, path)) == Line(hierarchy, controllers, path)
  {
    Join3Parts(hierarchy, ':', controllers, ':', path);
    LineCut(LineText(hierarchy, controllers, path), hierarchy, controllers, path);
  }

  function Joined(lines: seq<string>): string {
    if |lines| == 0 then "" else lines[0] + "\n" + Joined(lines[1..])
  }

  /** What is left of a line's end: the reader takes one carriage return for part of the line break. */
  function Received(s: string): string {
    if |s| > 0 && s[|s| - 1] == '\r' then s[..|s| - 1] else s
  }

  function AllReceived(lines: seq<string>): (r: seq<string>)
    ensures |r| == |lines| && forall i | 0 <= i < |lines| :: r[i] == Received(lines[i])
  {
    seq(|lines|, i requires 0 <= i < |lines| => Received(lines[i]))
  }

  lemma FirstLine(line: string, rest: string)
    requires '\n' !in line
    ensures Lines(line + "\n" + rest) == [Received(line)] + Lines(rest)
  {
    var raw := line + "\n" + rest;
    FindIs(raw, '\n', |line|);
    assert raw[|line| + 1..] == rest && raw[..|line|] == line;
    assert |line| > 0 ==> raw[|line| - 1] == line[|line| - 1] && raw[..|line| - 1] == line[..|line| - 1];
  }

  lemma ReceivedFirst(lines: seq<string>)
    requires |lines| > 0
    ensures [Received(lines[0])] + AllReceived(lines[1..]) == AllReceived(lines)
  {
  }

  lemma OneMoreLine(line: string, rest: string, received: seq<string>)
    requires '\n' !in line && Lines(rest) == received
    ensures Lines(line + "\n" + rest) == [Received(line)] + received
  {
    FirstLine(line, rest);
  }

  /** Lines come back as printed, except that each loses one carriage return from its end. */
  lemma {:induction false} LinesRoundTrip(lines: seq<string>)
    requires forall i | 0 <= i < |lines| :: '\n' !in lines[i]
    ensures Lines(Joined(lines)) == AllReceived(lines)
    decreases |lines|
  {
    if |lines| > 0 {
      LinesRoundTrip(lines[1..]);
      OneMoreLine(lines[0], Joined(lines[1..]), AllReceived(lines[1..]));
      ReceivedFirst(lines);
    }
  }

  /** A record the kernel can print: a path may hold anything but a newline. */
  predicate Printable(l: Line) {
    && l.Line? && ':' !in l.hierarchy && ':' !in l.controllers
    && '\n' !in l.hierarchy && '\n' !in l.controllers && '\n' !in l.path
  }

  function PrintLine(l: Line): string
    requires Printable(l)
  {
    LineText(l.hierarchy, l.controllers, l.path)
  }

  function Print(ls: seq<Line>): (r: seq<string>)
    requires forall i | 0 <= i < |ls| :: Printable(ls[i])
    ensures |r| == |ls| && forall i | 0 <= i < |ls| :: r[i] == PrintLine(ls[i])
  {
    seq(|ls|, i requires 0 <= i < |ls| && Printable(ls[i]) => PrintLine(ls[i]))
  }

  lemma PrintedIsOneLine(l: Line)
    requires Printable(l)
    ensures '\n' !in PrintLine(l)
  {
  }

  /** What is read back of a record. */
  function ReadBack(l: Line): Line {
    if l.Line? then l.(path := Received(l.path)) else l
  }

  lemma ReceivedText(hierarchy: string, controllers: string, path: string)
    ensures Received(LineText(hierarchy, controllers, path)) == LineText(hierarchy, controllers, Received(path))
  {
    var s := LineText(hierarchy, controllers, path);
    if |path| > 0 && path[|path| - 1] == '\r' {
      assert s[..|s| - 1] == LineText(hierarchy, controllers, path[..|path| - 1]);
    }
  }

  lemma RecordRoundTrip(l: Line)
    requires Printable(l)
    ensures ParseLine(Received(PrintLine(l))) == ReadBack(l)
  {
    ReceivedText(l.hierarchy, l.controllers, l.path);
    LineRoundTrip(l.hierarchy, l.controllers, Received(l.path));
  }

  function AllReadBack(ls: seq<Line>): (r: seq<Line>)
    ensures |r| == |ls| && forall i | 0 <= i < |ls| :: r[i] == ReadBack(ls[i])
  {
    seq(|ls|, i requires 0 <= i < |ls| => ReadBack(ls[i]))
  }

  /** Reading a whole file the kernel printed. */
  lemma FileReadBack(ls: seq<Line>)
    requires forall i | 0 <= i < |ls| :: Printable(ls[i])
    ensures Parsed(Lines(Joined(Print(ls)))) == AllReadBack(ls)
  {
    forall i | 0 <= i < |ls|
      ensures '\n' !in Print(ls)[i] && ParseLine(Received(Print(ls)[i])) == ReadBack(ls[i])
    {
      PrintedIsOneLine(ls[i]);
      RecordRoundTrip(ls[i]);
    }
    LinesRoundTrip(Print(ls));
  }

  lemma ReadBackUnchanged(l: Line)
    requires l.Line?
    ensures ReadBack(l) == l <==> (|l.path| > 0 ==> l.path[|l.path| - 1] != '\r')
  {
  }

  /** It gives back the records if and only if no path ends in a carriage return. */
  lemma FileRoundTrip(ls: seq<Line>)
    requires forall i | 0 <= i < |ls| :: Printable(ls[i])
    ensures Parsed(Lines(Joined(Print(ls)))) == ls
       <==> forall i | 0 <= i < |ls| && |ls[i].path| > 0 :: ls[i].path[|ls[i].path| - 1] != '\r'
  {
    FileReadBack(ls);
    forall i | 0 <= i < |ls| ensures ReadBack(ls[i]) == ls[i] <==> (|ls[i].path| > 0 ==> ls[i].path[|ls[i].path| - 1] != '\r') {
      ReadBackUnchanged(ls[i]);
    }
    assert AllReadBack(ls) == ls <==> forall i | 0 <= i < |ls| :: AllReadBack(ls)[i] == ls[i];
  }

  /** A path that ends in a carriage return is read as the path without it. */
  lemma CarriageReturnIsLost(l: Line)
    requires Printable(l)
    ensures var named := l.(path := l.path + ['\r']);
      Printable(named) && Parsed(Lines(Joined(Print([named])))) == [l]
  {
    var named := l.(path := l.path + ['\r']);
    FileReadBack([named]);
    assert ReadBack(named) == l by {
      assert named.path[..|named.path| - 1] == l.path;
    }
    assert AllReadBack([named]) == [ReadBack(named)];
  }

  // ---------------------------------------------------------------------------------
  // The root cgroup.

  predicate AllSlashes(s: string) {
    forall k | 0 <= k < |s| :: s[k] == '/'
  }

  lemma {:induction false} TrimmedToNothing(s: string)
    ensures TrimSlashes(s) == "" <==> AllSlashes(s)
  {
    if |s| > 0 && s[0] == '/' {
      TrimmedToNothing(s[1..]);
      assert AllSlashes(s[1..]) <==> AllSlashes(s) by {
        assert forall k | 0 < k < |s| :: s[k] == s[1..][k - 1];
      }
    }
  }

  /** The line whose path is the answer: the last v2 line, else the last memory line, else the first other. */
  ghost predicate Decides(ls: seq<Line>, i: int) {
    if !NoneIs(ls, V2) then IsLast(ls, i, V2)
    else if !NoneIs(ls, Memory) then IsLast(ls, i, Memory)
    else IsFirst(ls, i, Other)
  }

  lemma DecidingLineIsTheAnswer(ls: seq<Line>, i: nat, r: Option<string>)
    requires !AnyBroken(ls) && Decides(ls, i) && Resolves(r, ls)
    ensures r == Some(TrimSlashes(ls[i].path))
  {
    var answer := Some(TrimSlashes(ls[i].path));
    if !NoneIs(ls, V2) {
      assert HoldsLast(answer, ls, V2);
    } else if !NoneIs(ls, Memory) {
      assert HoldsLast(answer, ls, Memory);
    } else {
      assert HoldsFirst(answer, ls, Other);
    }
    ResolvesUniquely(r, answer, ls);
  }

  lemma SomeLineDecides(ls: seq<Line>, r: Option<string>)
    requires !AnyBroken(ls) && Resolves(r, ls) && r.Some?
    ensures exists i :: 0 <= i < |ls| && Decides(ls, i) && r.value == TrimSlashes(ls[i].path)
  {
  }

  /** The answer is the empty path, rather than none, if and only if the deciding line's path is all slashes. */
  lemma RootCgroupIsEmptyPath(ls: seq<Line>, r: Option<string>)
    requires !AnyBroken(ls) && Resolves(r, ls)
    ensures r == Some("") <==> exists i :: 0 <= i < |ls| && Decides(ls, i) && AllSlashes(ls[i].path)
  {
    if r.Some? {
      SomeLineDecides(ls, r);
      var i :| 0 <= i < |ls| && Decides(ls, i) && r.value == TrimSlashes(ls[i].path);
      TrimmedToNothing(ls[i].path);
    }
    forall i | 0 <= i < |ls| && Decides(ls, i) && AllSlashes(ls[i].path) ensures r == Some("") {
      DecidingLineIsTheAnswer(ls, i, r);
      TrimmedToNothing(ls[i].path);
    }
  }

  /** A v2 line that is alone decides. */
  lemma LoneV2Decides(l: Line)
    requires Is(l, V2)
    ensures Decides([l], 0) && !AnyBroken([l])
  {
    assert IsLast([l], 0, V2);
    assert !NoneIs([l], V2) by {
      assert [l][0] == l;
    }
  }

  lemma RootText()
    ensures LineText("0", "", "/") == "0::/" && "0::/" + "\n" + "" == "0::/\n"
  {
    assert "0" + [':'] + "" + [':'] + "/" == "0::/";
  }

  lemma RootFileParses()
    ensures Parsed(Lines("0::/\n")) == [Line("0", "", "/")]
  {
    RootText();
    FirstLine("0::/", "");
    LineRoundTrip("0", "", "/");
    assert Lines("0::/\n") == ["0::/"];
  }

  lemma LoneRootIsEmptyPath(l: Line, r: Option<string>)
    requires Is(l, V2) && AllSlashes(l.path) && Resolves(r, [l])
    ensures r == Some("")
  {
    LoneV2Decides(l);
    assert AllSlashes([l][0].path);
    RootCgroupIsEmptyPath([l], r);
  }

  /** What a process in the root of a unified hierarchy has in its file. */
  lemma RootFileIsEmptyPath(r: Option<string>)
    requires Resolves(r, Parsed(Lines("0::/\n")))
    ensures r == Some("")
  {
    RootFileParses();
    LoneRootIsEmptyPath(Line("0", "", "/"), r);
  }
}
