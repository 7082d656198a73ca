/** Reading `/proc/<pid>/stat`, whose second field may itself hold spaces and parentheses. */
module ProcStat {
  import opened Common
  import opened Text

  datatype StatFields = StatFields(ppid: int, comm: string, state: char, utime: nat, stime: nat)

  datatype ProcInfo = ProcInfo(comm: string, ppid: nat)

  /** Everything between the first `(` and the last `)`. */
  function Comm(raw: string): Outcome<string> {
    match (Find(raw, '('), RFind(raw, ')'))
    case (Some(l), Some(r)) => if l < r then Parses(raw[l + 1..r]) else Panics
    case _ => Fails
  }

  /** The fields after the last `)`. */
  function Rest(raw: string): seq<string>
    requires RFind(raw, ')').Some?
  {
    SplitWhitespace(raw[RFind(raw, ')').value + 1..])
  }

  /** Field numbers after the command: state 0, ppid 1, utime 11, stime 12. */
  function FieldsOf(comm: string, rest: seq<string>): Outcome<StatFields> {
    if |rest| < 13 || |rest[0]| == 0 then Fails
    else match (ParseI32(rest[1]), ParseUnsigned(rest[11], U64), ParseUnsigned(rest[12], U64))
      case (Some(ppid), Some(utime), Some(stime)) => Parses(StatFields(ppid, comm, rest[0][0], utime, stime))
      case _ => Fails
  }

  datatype Cut = Cut(comm: string, fields: seq<string>)

  function CutOf(raw: string): Outcome<Cut> {
    match Comm(raw)
    case Panics => Panics
    case Fails => Fails
    case Parses(comm) => Parses(Cut(comm, Rest(raw)))
  }

  function StatOf(raw: string): Outcome<StatFields> {
    match CutOf(raw)
    case Panics => Panics
    case Fails => Fails
    case Parses(cut) => FieldsOf(cut.comm, cut.fields)
  }

  /** The fields after the command, one at a time, giving up at the first that is missing or bad. */
  method ParseFields(comm: string, fields: seq<string>) returns (r: Outcome<StatFields>)
    ensures r == FieldsOf(comm, fields)
  {
    var it := fields;
    if |it| == 0 || |it[0]| == 0 {
      return Fails;
    }
    var state := it[0][0];
    it := it[1..];
    if |it| == 0 {
      return Fails;
    }
    var ppid := ParseI32(it[0]);
    if ppid.None? {
      return Fails;
    }
    it := it[1..];
    for i := 0 to 7
      invariant |fields| >= 2 + i && it == fields[2 + i..]
    {
      if |it| == 0 {
        return Fails;
      }
      it := it[1..];
    }
    if |it| < 2 {
      return Fails;
    }
    it := it[2..];
    if |it| == 0 {
      return Fails;
    }
    var utime := ParseUnsigned(it[0], U64);
    if utime.None? {
      return Fails;
    }
    it := it[1..];
    if |it| == 0 {
      return Fails;
    }
    var stime := ParseUnsigned(it[0], U64);
    if stime.None? {
      return Fails;
    }
    r := Parses(StatFields(ppid.value, comm, state, utime.value, stime.value));
  }

  /** Where the command is and what comes after it. */
  method CutStat(raw: string) returns (r: Outcome<Cut>)
    ensures r == CutOf(raw)
  {
    var lparen := Find(raw, '(');
    if lparen.None? {
      return Fails;
    }
    var rparen := RFind(raw, ')');
    if rparen.None? {
      return Fails;
    }
    if lparen.value + 1 > rparen.value {
      return Panics;
    }
    r := Parses(Cut(raw[lparen.value + 1..rparen.value], SplitWhitespace(raw[rparen.value + 1..])));
  }

  /** `parse_stat` */
  method ParseStat(raw: string) returns (r: Outcome<StatFields>)
    ensures r == StatOf(raw)
  {
    var cut := CutStat(raw);
    match cut {
      case Panics => r := Panics;
      case Fails => r := Fails;
      case Parses(c) => r := ParseFields(c.comm, c.fields);
    }
  }

  function InfoOf(comm: string, rest: seq<string>): Outcome<ProcInfo> {
    if |rest| < 2 then Fails
    else match ParseUnsigned(rest[1], U32)
      case None => Fails
      case Some(ppid) => Parses(ProcInfo(comm, ppid))
  }

  /** The manager's own reader starts one character later, at a byte offset. */
  function ProcInfoOf(stat: string): Outcome<ProcInfo> {
    match Comm(stat)
    case Panics => Panics
    case Fails => Fails
    case Parses(comm) =>
      var end := RFind(stat, ')').value;
      if end + 1 == |stat| || stat[end + 1] as int >= 0x80 then Panics
      else InfoOf(comm, SplitWhitespace(stat[end + 2..]))
  }

  // ---------------------------------------------------------------------------------
  // The kernel's format, proc_pid_stat(5).

  /** `skipped` are the nine fields from pgrp to cmajflt; `more` whatever follows stime. */
  function StatTokens(state: char, ppid: nat, skipped: seq<int>, utime: nat, stime: nat, more: seq<int>): seq<string> {
    [[state], Decimal(ppid)] + Decimals(skipped) + [Decimal(utime), Decimal(stime)] + Decimals(more)
  }

  function Decimals(ns: seq<int>): (r: seq<string>)
    ensures |r| == |ns| && forall i | 0 <= i < |ns| :: r[i] == DecimalInt(ns[i])
  {
    if |ns| == 0 then [] else [DecimalInt(ns[0])] + Decimals(ns[1..])
  }

  /** A command between parentheses, with text before and after it. */
  function Bracketed(head: string, comm: string, tail: string): string {
    Join3(head, '(', comm, ')', tail)
  }

  function StatLine(pid: nat, comm: string, state: char, ppid: nat, skipped: seq<int>, utime: nat, stime: nat, more: seq<int>): string {
    Bracketed(Decimal(pid) + " ", comm, Spaced(StatTokens(state, ppid, skipped, utime, stime, more)) + "\n")
  }

  lemma DecimalHasNoParen(n: nat)
    ensures '(' !in Decimal(n) && ')' !in Decimal(n)
  {
    DecimalIsDigits(n);
  }

  lemma StatTokensAreTokens(state: char, ppid: nat, skipped: seq<int>, utime: nat, stime: nat, more: seq<int>)
    requires !IsWhitespace(state) && state != ')'
    ensures forall i | 0 <= i < |StatTokens(state, ppid, skipped, utime, stime, more)| ::
      var t := StatTokens(state, ppid, skipped, utime, stime, more)[i]; IsToken(t) && ')' !in t
  {
    forall n: int ensures IsToken(DecimalInt(n)) && ')' !in DecimalInt(n) {
      DecimalIntIsToken(n, ')');
    }
    assert Decimal(ppid) == DecimalInt(ppid) && Decimal(utime) == DecimalInt(utime) && Decimal(stime) == DecimalInt(stime);
  }

  lemma {:induction false} SpacedWithout(tokens: seq<string>, c: char)
    requires c != ' ' && forall i | 0 <= i < |tokens| :: c !in tokens[i]
    ensures c !in Spaced(tokens)
  {
    if |tokens| > 0 {
      SpacedWithout(tokens[1..], c);
    }
  }

  lemma BracketsCut(raw: string, head: string, comm: string, tail: string)
    requires '(' !in head && ')' !in tail && IsJoin3(raw, head, '(', comm, ')', tail)
    ensures Comm(raw) == Parses(comm)
    ensures RFind(raw, ')') == Some(|head| + 1 + |comm|)
  {
    FindIs(raw, '(', |head|);
    forall j | |head| + 1 + |comm| < j < |raw| ensures raw[j] != ')' {
      assert raw[j] == tail[j - (|head| + 2 + |comm|)];
    }
    RFindIs(raw, ')', |head| + 1 + |comm|);
  }

  /** The cut is made at the outermost parentheses, whatever lies between them. */
  lemma BracketsSplit(head: string, comm: string, tail: string)
    requires '(' !in head && ')' !in tail
    ensures Comm(Bracketed(head, comm, tail)) == Parses(comm)
    ensures RFind(Bracketed(head, comm, tail), ')') == Some(|head| + 1 + |comm|)
    ensures Bracketed(head, comm, tail)[|head| + 2 + |comm|..] == tail
  {
    var raw := Bracketed(head, comm, tail);
    Join3Parts(head, '(', comm, ')', tail);
    BracketsCut(raw, head, comm, tail);
  }

  lemma NewlineSplitsToNothing()
    ensures SplitWhitespace("\n") == []
  {
    assert SkipSpace("\n") == SkipSpace("\n"[1..]);
  }

  lemma SpacedSplitsBefore(tokens: seq<string>, tail: string)
    requires forall i | 0 <= i < |tokens| :: IsToken(tokens[i])
    requires |tail| > 0 && IsWhitespace(tail[0]) && SplitWhitespace(tail) == []
    ensures SplitWhitespace(Spaced(tokens) + tail) == tokens
  {
    SplitSpaced(tokens, tail);
    assert tokens + [] == tokens;
  }

  lemma SpacedSplits(tokens: seq<string>)
    requires forall i | 0 <= i < |tokens| :: IsToken(tokens[i])
    ensures SplitWhitespace(Spaced(tokens) + "\n") == tokens
  {
    NewlineSplitsToNothing();
    SpacedSplitsBefore(tokens, "\n");
  }

  /** The printed line is cut where the kernel joined it. */
  lemma StatLineSplits(pid: nat, comm: string, state: char, ppid: nat, skipped: seq<int>, utime: nat, stime: nat, more: seq<int>)
    requires !IsWhitespace(state) && state != ')'
    ensures var raw := StatLine(pid, comm, state, ppid, skipped, utime, stime, more);
      && Comm(raw) == Parses(comm)
      && RFind(raw, ')').Some?
      && raw[RFind(raw, ')').value + 1..] == Spaced(StatTokens(state, ppid, skipped, utime, stime, more)) + "\n"
      && Rest(raw) == StatTokens(state, ppid, skipped, utime, stime, more)
  {
    var tokens := StatTokens(state, ppid, skipped, utime, stime, more);
    DecimalHasNoParen(pid);
    StatTokensAreTokens(state, ppid, skipped, utime, stime, more);
    SpacedWithout(tokens, ')');
    BracketsSplit(Decimal(pid) + " ", comm, Spaced(tokens) + "\n");
    SpacedSplits(tokens);
  }

  lemma TokenPositions(state: char, ppid: nat, skipped: seq<int>, utime: nat, stime: nat, more: seq<int>)
    requires |skipped| == 9
    ensures var rest := StatTokens(state, ppid, skipped, utime, stime, more);
      && |rest| >= 13 && rest[0] == [state] && rest[1] == Decimal(ppid) && rest[11] == Decimal(utime) && rest[12] == Decimal(stime)
  {
  }

  lemma FieldsAt(comm: string, rest: seq<string>, state: char, ppid: nat, utime: nat, stime: nat)
    requires |rest| >= 13 && rest[0] == [state]
    requires rest[1] == Decimal(ppid) && rest[11] == Decimal(utime) && rest[12] == Decimal(stime)
    requires ppid < 0x8000_0000 && utime < U64 && stime < U64
    ensures FieldsOf(comm, rest) == Parses(StatFields(ppid, comm, state, utime, stime))
  {
    ParseDecimal(ppid, U32);
    ParseDecimal(utime, U64);
    ParseDecimal(stime, U64);
  }

  lemma StatTokensParse(comm: string, state: char, ppid: nat, skipped: seq<int>, utime: nat, stime: nat, more: seq<int>)
    requires |skipped| == 9 && ppid < 0x8000_0000 && utime < U64 && stime < U64
    ensures var rest := StatTokens(state, ppid, skipped, utime, stime, more);
      && |rest| >= 13
      && FieldsOf(comm, rest) == Parses(StatFields(ppid, comm, state, utime, stime))
      && rest[1] == Decimal(ppid) && ParseUnsigned(rest[1], U32) == Some(ppid)
  {
    TokenPositions(state, ppid, skipped, utime, stime, more);
    FieldsAt(comm, StatTokens(state, ppid, skipped, utime, stime, more), state, ppid, utime, stime);
    ParseDecimal(ppid, U32);
  }

  /** Round trip: any command, including parentheses and spaces, comes back unchanged. */
  lemma StatRoundTrip(pid: nat, comm: string, state: char, ppid: nat, skipped: seq<int>, utime: nat, stime: nat, more: seq<int>)
    requires !IsWhitespace(state) && state != ')' && |skipped| == 9
    requires ppid < 0x8000_0000 && utime < U64 && stime < U64
    ensures StatOf(StatLine(pid, comm, state, ppid, skipped, utime, stime, more)) == Parses(StatFields(ppid, comm, state, utime, stime))
    ensures ProcInfoOf(StatLine(pid, comm, state, ppid, skipped, utime, stime, more)) == Parses(ProcInfo(comm, ppid))
  {
    var raw := StatLine(pid, comm, state, ppid, skipped, utime, stime, more);
    StatLineSplits(pid, comm, state, ppid, skipped, utime, stime, more);
    StatTokensParse(comm, state, ppid, skipped, utime, stime, more);
    DecimalIsDigits(ppid);
    assert IsDigit(Decimal(ppid)[0]);
    var tail := raw[RFind(raw, ')').value + 1..];
    assert tail[0] == ' ';
    ReadersAgree(raw);
  }

  /** A parent read as an `i32` is read the same as a `u32` unless it is negative. */
  lemma ParentsAgree(s: string)
    requires ParseI32(s).Some?
    ensures |s| > 0 && ParseUnsigned(s, U32) == if s[0] == '-' then None else Some(ParseI32(s).value)
  {
  }

  lemma InfoAgrees(comm: string, rest: seq<string>)
    requires FieldsOf(comm, rest).Parses?
    ensures |rest| >= 2 && |rest[1]| > 0
    ensures InfoOf(comm, rest) == if rest[1][0] == '-' then Fails else Parses(ProcInfo(comm, FieldsOf(comm, rest).value.ppid))
  {
    ParentsAgree(rest[1]);
  }

  lemma SplitFromNext(raw: string, k: nat)
    requires k < |raw| && IsWhitespace(raw[k])
    ensures SplitWhitespace(raw[k..]) == SplitWhitespace(raw[k + 1..])
  {
    assert raw[k..][1..] == raw[k + 1..];
    SplitSkipsOne(raw[k..]);
  }

  lemma RestSkipsSpace(raw: string)
    requires RFind(raw, ')').Some?
    requires RFind(raw, ')').value + 1 < |raw| && IsWhitespace(raw[RFind(raw, ')').value + 1])
    ensures SplitWhitespace(raw[RFind(raw, ')').value + 2..]) == Rest(raw)
  {
    SplitFromNext(raw, RFind(raw, ')').value + 1);
  }

  /** The two readers agree on every line with a space after the command. */
  lemma ReadersAgree(raw: string)
    requires StatOf(raw).Parses?
    requires var end := RFind(raw, ')').value; raw[end + 1] as int < 0x80 && IsWhitespace(raw[end + 1])
    ensures |Rest(raw)| >= 2 && |Rest(raw)[1]| > 0
    ensures ProcInfoOf(raw) == if Rest(raw)[1][0] == '-' then Fails else Parses(ProcInfo(StatOf(raw).value.comm, StatOf(raw).value.ppid))
  {
    RestSkipsSpace(raw);
    InfoAgrees(Comm(raw).value, Rest(raw));
  }

  /** `parse_stat` panics exactly on lines whose first `(` comes after their last `)`. */
  lemma ParseStatPanicsExactly(raw: string)
    ensures StatOf(raw).Panics?
       <==> Find(raw, '(').Some? && RFind(raw, ')').Some? && RFind(raw, ')').value < Find(raw, '(').value
  {
    if Find(raw, '(').Some? && RFind(raw, ')').Some? {
      assert raw[Find(raw, '(').value] != raw[RFind(raw, ')').value];
    }
  }

  /**
   * The manager's reader panics on those lines too, and also when nothing or a character that is not ASCII comes
   * right after the last `)`, because it slices two bytes on.
   */
  lemma ProcInfoPanicsExactly(raw: string)
    ensures ProcInfoOf(raw).Panics?
       <==> && Find(raw, '(').Some? && RFind(raw, ')').Some?
            && var end := RFind(raw, ')').value;
               end < Find(raw, '(').value || end + 1 == |raw| || raw[end + 1] as int >= 0x80
  {
    CommPanicsExactly(raw);
  }

  lemma CommPanicsExactly(raw: string)
    ensures Comm(raw).Panics?
       <==> Find(raw, '(').Some? && RFind(raw, ')').Some? && RFind(raw, ')').value < Find(raw, '(').value
    ensures Comm(raw).Fails? <==> Find(raw, '(').None? || RFind(raw, ')').None?
  {
    if Find(raw, '(').Some? && RFind(raw, ')').Some? {
      assert raw[Find(raw, '(').value] != raw[RFind(raw, ')').value];
    }
  }
}
