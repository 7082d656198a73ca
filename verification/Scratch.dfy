/**
 * Pairing the entry of a system call with its return, through maps keyed by thread id.
 * The maps are shared by all threads; a thread is inside at most one such call at a time.
 */
module Scratch {
  import opened Common

  datatype OpenArgs = OpenArgs(filename: string, flags: int)

  datatype FileOpen = FileOpen(tid: Pid, tgid: Pid, args: OpenArgs, fd: int)

  datatype Receive = Receive(tgid: Pid, sock: nat, bytes: int)

  datatype State = State(traced: set<Pid>, openArgs: map<Pid, OpenArgs>, udpRecvSk: map<Pid, nat>)

  /** `room` is whether a map that lacks the key still has space for it. */
  datatype Step =
    | OpenEnter(tid: Pid, tgid: Pid, args: OpenArgs, room: bool)
    | OpenExit(tid: Pid, tgid: Pid, ret: int, reserved: bool)
    | UdpEnter(tid: Pid, sock: nat, room: bool)
    | UdpExit(tid: Pid, tgid: Pid, ret: int)
    | Retrace(tgid: Pid, on: bool)

  /** A scratch map keeps a thread's previous value if the new one replaces it; a full map takes no new thread. */
  function Put<V>(m: map<Pid, V>, tid: Pid, v: V, room: bool): map<Pid, V> {
    if tid in m || room then m[tid := v] else m
  }

  /** The kernel copies at most 255 characters and a terminator. */
  function Copied(args: OpenArgs): OpenArgs {
    if |args.filename| > 255 then args.(filename := args.filename[..255]) else args
  }

  /** A C `int` made from a register. */
  function ToInt32(x: int): int {
    var low := x % 0x1_0000_0000;
    if low < 0x8000_0000 then low else low - 0x1_0000_0000
  }

  lemma ResultIsItself(ret: int)
    ensures -0x8000_0000 <= ret < 0x8000_0000 ==> ToInt32(ret) == ret
  {
  }

  function Apply(s: State, step: Step): State {
    match step
    case OpenEnter(tid, tgid, args, room) =>
      if tgid in s.traced then s.(openArgs := Put(s.openArgs, tid, Copied(args), room)) else s
    case OpenExit(tid, tgid, _, _) =>
      if tgid in s.traced then s.(openArgs := s.openArgs - {tid}) else s
    case UdpEnter(tid, sock, room) => s.(udpRecvSk := Put(s.udpRecvSk, tid, sock, room))
    case UdpExit(tid, _, _) => s.(udpRecvSk := s.udpRecvSk - {tid})
    case Retrace(tgid, on) => s.(traced := if on then s.traced + {tgid} else s.traced - {tgid})
  }

  /** The FILE_OPEN events a step submits. */
  function Opens(s: State, step: Step): seq<FileOpen> {
    if step.OpenExit? && step.tgid in s.traced && step.tid in s.openArgs && ToInt32(step.ret) >= 0 && step.reserved
    then [FileOpen(step.tid, step.tgid, s.openArgs[step.tid], ToInt32(step.ret))]
    else []
  }

  /** The UDP receives a step accounts. */
  function Receives(s: State, step: Step): seq<Receive> {
    if step.UdpExit? && ToInt32(step.ret) > 0 && step.tid in s.udpRecvSk
    then [Receive(step.tgid, s.udpRecvSk[step.tid], ToInt32(step.ret))]
    else []
  }

  function Exec(s: State, steps: seq<Step>): State
    decreases steps
  {
    if |steps| == 0 then s else Exec(Apply(s, steps[0]), steps[1..])
  }

  function AllOpens(s: State, steps: seq<Step>): seq<FileOpen>
    decreases steps
  {
    if |steps| == 0 then [] else Opens(s, steps[0]) + AllOpens(Apply(s, steps[0]), steps[1..])
  }

  predicate OpensOf(step: Step, tid: Pid) {
    (step.OpenEnter? || step.OpenExit?) && step.tid == tid
  }

  predicate UdpOf(step: Step, tid: Pid) {
    (step.UdpEnter? || step.UdpExit?) && step.tid == tid
  }

  function OpensBy(opens: seq<FileOpen>, tid: Pid): seq<FileOpen> {
    if |opens| == 0 then []
    else if opens[0].tid == tid then [opens[0]] + OpensBy(opens[1..], tid)
    else OpensBy(opens[1..], tid)
  }

  lemma {:induction false} OpensByConcat(a: seq<FileOpen>, b: seq<FileOpen>, tid: Pid)
    ensures OpensBy(a + b, tid) == OpensBy(a, tid) + OpensBy(b, tid)
  {
    if |a| == 0 {
      assert a + b == b;
    } else {
      assert (a + b)[1..] == a[1..] + b;
      OpensByConcat(a[1..], b, tid);
    }
  }

  /** Other threads and changes of tracing leave a thread's slot alone and report nothing for it. */
  lemma {:induction false} SlotIsPrivate(s: State, steps: seq<Step>, tid: Pid)
    requires forall k | 0 <= k < |steps| :: !OpensOf(steps[k], tid)
    ensures var t := Exec(s, steps);
      && (tid in t.openArgs <==> tid in s.openArgs)
      && (tid in s.openArgs ==> t.openArgs[tid] == s.openArgs[tid])
    ensures OpensBy(AllOpens(s, steps), tid) == []
    decreases steps
  {
    if |steps| > 0 {
      assert !OpensOf(steps[0], tid);
      SlotIsPrivate(Apply(s, steps[0]), steps[1..], tid);
      OpensByConcat(Opens(s, steps[0]), AllOpens(Apply(s, steps[0]), steps[1..]), tid);
    }
  }

  lemma {:induction false} ExecSplit(s: State, a: seq<Step>, b: seq<Step>)
    ensures Exec(s, a + b) == Exec(Exec(s, a), b)
    ensures AllOpens(s, a + b) == AllOpens(s, a) + AllOpens(Exec(s, a), b)
    decreases a
  {
    if |a| == 0 {
      assert a + b == b;
    } else {
      assert (a + b)[1..] == a[1..] + b;
      ExecSplit(Apply(s, a[0]), a[1..], b);
    }
  }

  /** The arguments waiting in a thread's slot once its call has been entered. */
  function Waiting(s: State, enter: Step): Option<OpenArgs>
    requires enter.OpenEnter?
  {
    var slots := Apply(s, enter).openArgs;
    if enter.tid in slots then Some(slots[enter.tid]) else None
  }

  /** What one whole call reports, whatever else happens while it runs. */
  lemma OpenCallReports(s: State, enter: Step, during: seq<Step>, exit: Step)
    requires enter.OpenEnter? && exit.OpenExit? && exit.tid == enter.tid && exit.tgid == enter.tgid
    requires forall k | 0 <= k < |during| :: !OpensOf(during[k], enter.tid)
    ensures var waiting := Waiting(s, enter);
      OpensBy(AllOpens(s, [enter] + during + [exit]), enter.tid)
        == if exit.tgid in Exec(Apply(s, enter), during).traced && waiting.Some? && ToInt32(exit.ret) >= 0 && exit.reserved
           then [FileOpen(enter.tid, enter.tgid, waiting.value, ToInt32(exit.ret))] else []
  {
    var t := Apply(s, enter);
    ExecSplit(s, [enter], during + [exit]);
    ExecSplit(t, during, [exit]);
    assert [enter] + during + [exit] == [enter] + (during + [exit]);
    SlotIsPrivate(t, during, enter.tid);
    var u := Exec(t, during);
    assert Exec(s, [enter]) == t by {
      assert [enter][1..] == [];
    }
    assert AllOpens(s, [enter]) == [] by {
      assert [enter][1..] == [] && Opens(s, enter) == [];
    }
    assert AllOpens(u, [exit]) == Opens(u, exit) by {
      assert [exit][1..] == [] && AllOpens(Apply(u, exit), []) == [];
    }
    OpensByConcat(AllOpens(t, during), AllOpens(u, [exit]), enter.tid);
    OpensByConcat(AllOpens(s, [enter]), AllOpens(t, during + [exit]), enter.tid);
    if |Opens(u, exit)| > 0 {
      assert Opens(u, exit)[1..] == [];
    }
  }

  /**
   * A call traced, or not traced, at both ends reports at most one open, for a result that
   * is not negative, with the arguments of this very call.
   */
  lemma SteadyOpenCallReportsItself(s: State, enter: Step, during: seq<Step>, exit: Step)
    requires enter.OpenEnter? && exit.OpenExit? && exit.tid == enter.tid && exit.tgid == enter.tgid
    requires forall k | 0 <= k < |during| :: !OpensOf(during[k], enter.tid)
    requires enter.tgid in s.traced <==> exit.tgid in Exec(Apply(s, enter), during).traced
    ensures var name := if |enter.args.filename| <= 255 then enter.args.filename else enter.args.filename[..255];
      var own := FileOpen(enter.tid, enter.tgid, OpenArgs(name, enter.args.flags), ToInt32(exit.ret));
      OpensBy(AllOpens(s, [enter] + during + [exit]), enter.tid)
        == if enter.tgid in s.traced && (enter.tid in s.openArgs || enter.room) && ToInt32(exit.ret) >= 0 && exit.reserved
           then [own] else []
  {
    OpenCallReports(s, enter, during, exit);
  }

  /** A call that failed, so that the register holds a small negative number, reports nothing and leaves no arguments behind. */
  lemma FailedOpenReportsNothing(s: State, enter: Step, during: seq<Step>, exit: Step)
    requires enter.OpenEnter? && exit.OpenExit? && exit.tid == enter.tid && exit.tgid == enter.tgid
    requires forall k | 0 <= k < |during| :: !OpensOf(during[k], enter.tid)
    requires -4095 <= exit.ret < 0
    ensures OpensBy(AllOpens(s, [enter] + during + [exit]), enter.tid) == []
    ensures exit.tgid in Exec(Apply(s, enter), during).traced ==>
      enter.tid !in Exec(s, [enter] + during + [exit]).openArgs
  {
    OpenCallReports(s, enter, during, exit);
    var u := Exec(Apply(s, enter), during);
    WholeCall(s, enter, during, exit);
    assert exit.tgid in u.traced ==> enter.tid !in Apply(u, exit).openArgs;
  }

  lemma WholeCall(s: State, enter: Step, during: seq<Step>, exit: Step)
    ensures Exec(s, [enter] + during + [exit]) == Apply(Exec(Apply(s, enter), during), exit)
  {
    var steps := [enter] + during + [exit];
    assert steps[1..] == during + [exit];
    ExecSplit(Apply(s, enter), during, [exit]);
    assert [exit][1..] == [];
  }

  /** A traced call that returned a descriptor reports that descriptor. */
  lemma DescriptorIsReported(s: State, enter: Step, during: seq<Step>, exit: Step)
    requires enter.OpenEnter? && exit.OpenExit? && exit.tid == enter.tid && exit.tgid == enter.tgid
    requires forall k | 0 <= k < |during| :: !OpensOf(during[k], enter.tid)
    requires enter.tgid in s.traced && exit.tgid in Exec(Apply(s, enter), during).traced
    requires (enter.tid in s.openArgs || enter.room) && exit.reserved
    requires 0 <= exit.ret < 0x8000_0000 && |enter.args.filename| <= 255
    ensures OpensBy(AllOpens(s, [enter] + during + [exit]), enter.tid)
         == [FileOpen(enter.tid, enter.tgid, enter.args, exit.ret)]
  {
    SteadyOpenCallReportsItself(s, enter, during, exit);
    ResultIsItself(exit.ret);
    assert Copied(enter.args) == enter.args;
  }

  /**
   * Exactly when a call is reported with arguments that another call left behind: it was
   * entered untraced and left traced, by a thread whose slot was not empty.
   */
  lemma StaleReportExactly(s: State, enter: Step, during: seq<Step>, exit: Step)
    requires enter.OpenEnter? && exit.OpenExit? && exit.tid == enter.tid && exit.tgid == enter.tgid
    requires forall k | 0 <= k < |during| :: !OpensOf(during[k], enter.tid)
    requires enter.tid in s.openArgs ==> s.openArgs[enter.tid] != Copied(enter.args)
    ensures (exists open :: open in OpensBy(AllOpens(s, [enter] + during + [exit]), enter.tid) && open.args != Copied(enter.args))
       <==> (enter.tgid !in s.traced && exit.tgid in Exec(Apply(s, enter), during).traced
             && enter.tid in s.openArgs && ToInt32(exit.ret) >= 0 && exit.reserved)
  {
    OpenCallReports(s, enter, during, exit);
    var opens := OpensBy(AllOpens(s, [enter] + during + [exit]), enter.tid);
    if enter.tgid !in s.traced && enter.tid in s.openArgs && |opens| > 0 {
      assert opens[0] in opens && opens[0].args != Copied(enter.args);
    }
  }

  const INIT: State := State({}, map[], map[])

  /**
   * A run from the start that reports the wrong name: a first open is entered traced and left untraced, a second
   * is entered untraced and left traced.
   */
  lemma StaleRun(tid: Pid, tgid: Pid, first: OpenArgs, second: OpenArgs)
    requires Copied(first) != Copied(second)
    ensures var steps := [Retrace(tgid, true), OpenEnter(tid, tgid, first, true), Retrace(tgid, false), OpenExit(tid, tgid, 3, true)];
      var call := [OpenEnter(tid, tgid, second, true)] + [Retrace(tgid, true)] + [OpenExit(tid, tgid, 4, true)];
      OpensBy(AllOpens(INIT, steps + call), tid) == [FileOpen(tid, tgid, Copied(first), 4)]
  {
    var steps := [Retrace(tgid, true), OpenEnter(tid, tgid, first, true), Retrace(tgid, false), OpenExit(tid, tgid, 3, true)];
    var call := [OpenEnter(tid, tgid, second, true)] + [Retrace(tgid, true)] + [OpenExit(tid, tgid, 4, true)];
    LeftoverRun(tid, tgid, first);
    var s := Exec(INIT, steps);
    ExecSplit(INIT, steps, call);
    OpensByConcat(AllOpens(INIT, steps), AllOpens(s, call), tid);
    OpenCallReports(s, OpenEnter(tid, tgid, second, true), [Retrace(tgid, true)], OpenExit(tid, tgid, 4, true));
    var t := Apply(s, OpenEnter(tid, tgid, second, true));
    assert Exec(t, [Retrace(tgid, true)]) == Apply(t, Retrace(tgid, true)) by {
      assert [Retrace(tgid, true)][1..] == [];
    }
  }

  lemma LeftoverRun(tid: Pid, tgid: Pid, first: OpenArgs)
    ensures var steps := [Retrace(tgid, true), OpenEnter(tid, tgid, first, true), Retrace(tgid, false), OpenExit(tid, tgid, 3, true)];
      && Exec(INIT, steps) == State({}, map[tid := Copied(first)], map[])
      && AllOpens(INIT, steps) == []
  {
    var a, b, c, d := Retrace(tgid, true), OpenEnter(tid, tgid, first, true), Retrace(tgid, false), OpenExit(tid, tgid, 3, true);
    var steps := [a, b, c, d];
    var s1 := Apply(INIT, a);
    var s2 := Apply(s1, b);
    var s3 := Apply(s2, c);
    var s4 := Apply(s3, d);
    assert steps[1..] == [b, c, d] && steps[1..][1..] == [c, d] && steps[1..][1..][1..] == [d];
    assert steps[1..][1..][1..][1..] == [];
    assert s3.traced == {} && s3.openArgs == map[tid := Copied(first)];
    assert Exec(INIT, steps) == Exec(s1, steps[1..]) == Exec(s2, steps[1..][1..]) == Exec(s3, steps[1..][1..][1..]) == s4;
    assert AllOpens(s3, steps[1..][1..][1..]) == [];
    assert AllOpens(s2, steps[1..][1..]) == [];
    assert AllOpens(s1, steps[1..]) == [];
  }

  // ---------------------------------------------------------------------------------
  // UDP receives: entered unconditionally, and always cleaned up.

  lemma {:induction false} SocketSlotIsPrivate(s: State, steps: seq<Step>, tid: Pid)
    requires forall k | 0 <= k < |steps| :: !UdpOf(steps[k], tid)
    ensures var t := Exec(s, steps);
      && (tid in t.udpRecvSk <==> tid in s.udpRecvSk)
      && (tid in s.udpRecvSk ==> t.udpRecvSk[tid] == s.udpRecvSk[tid])
    decreases steps
  {
    if |steps| > 0 {
      assert !UdpOf(steps[0], tid);
      SocketSlotIsPrivate(Apply(s, steps[0]), steps[1..], tid);
    }
  }

  /** A receive is accounted to the socket of its own call, and its slot is empty afterwards. */
  lemma UdpReceiveCreditsItsSocket(s: State, enter: Step, during: seq<Step>, exit: Step)
    requires enter.UdpEnter? && exit.UdpExit? && exit.tid == enter.tid
    requires forall k | 0 <= k < |during| :: !UdpOf(during[k], enter.tid)
    ensures var t := Exec(Apply(s, enter), during);
      && Receives(t, exit)
         == (if ToInt32(exit.ret) > 0 && (enter.tid in s.udpRecvSk || enter.room)
             then [Receive(exit.tgid, enter.sock, ToInt32(exit.ret))] else [])
      && enter.tid !in Apply(t, exit).udpRecvSk
  {
    SocketSlotIsPrivate(Apply(s, enter), during, enter.tid);
  }

  /** A receive is accounted with the bytes it returned; one that failed or returned none is not. */
  lemma UdpReceiveCountsItsBytes(s: State, enter: Step, during: seq<Step>, exit: Step)
    requires enter.UdpEnter? && exit.UdpExit? && exit.tid == enter.tid
    requires forall k | 0 <= k < |during| :: !UdpOf(during[k], enter.tid)
    requires -4095 <= exit.ret < 0x8000_0000
    requires enter.tid in s.udpRecvSk || enter.room
    ensures Receives(Exec(Apply(s, enter), during), exit)
         == if exit.ret > 0 then [Receive(exit.tgid, enter.sock, exit.ret)] else []
  {
    UdpReceiveCreditsItsSocket(s, enter, during, exit);
    ResultIsItself(exit.ret);
  }
}
