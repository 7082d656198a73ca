/** The open and UDP handlers over the kernel's own maps, each proved to be one step. */
module ScratchProbes {
  import opened Common
  import opened Tracing
  import opened Scratch

  class Probes {
    const targetPids: TargetPids
    var openArgs: map<Pid, OpenArgs>
    var udpRecvSk: map<Pid, nat>

    ghost function View(): State
      reads this, targetPids
    {
      State((set p | p in targetPids.entries && ShouldTrace(targetPids.entries, p)), openArgs, udpRecvSk)
    }

    constructor (targetPids: TargetPids)
      ensures this.targetPids == targetPids && openArgs == map[] && udpRecvSk == map[]
    {
      this.targetPids := targetPids;
      openArgs := map[];
      udpRecvSk := map[];
    }

    method SysEnterOpen(tid: Pid, tgid: Pid, filename: string, flags: int)
      modifies this`openArgs
      ensures View() == Apply(old(View()), OpenEnter(tid, tgid, OpenArgs(filename, flags), |old(openArgs)| < MAX_ENTRIES))
    {
      if !ShouldTrace(targetPids.entries, tgid) {
        return;
      }
      var name := if |filename| > 255 then filename[..255] else filename;
      if tid in openArgs || |openArgs| < MAX_ENTRIES {
        openArgs := openArgs[tid := OpenArgs(name, flags)];
      }
    }

    method SysExitOpen(tid: Pid, tgid: Pid, ret: int, reserved: bool) returns (submitted: seq<FileOpen>)
      modifies this`openArgs
      ensures View() == Apply(old(View()), OpenExit(tid, tgid, ret, reserved))
      ensures submitted == Opens(old(View()), OpenExit(tid, tgid, ret, reserved))
    {
      submitted := [];
      if !ShouldTrace(targetPids.entries, tgid) {
        return;
      }
      if tid !in openArgs {
        assert openArgs - {tid} == openArgs;
        return;
      }
      var fd := ToInt32(ret);
      if fd >= 0 && reserved {
        submitted := [FileOpen(tid, tgid, openArgs[tid], fd)];
      }
      openArgs := map t | t in openArgs && t != tid :: openArgs[t];
    }

    method UdpRecvmsg(tid: Pid, sock: nat)
      modifies this`udpRecvSk
      ensures View() == Apply(old(View()), UdpEnter(tid, sock, |old(udpRecvSk)| < MAX_ENTRIES))
    {
      if tid in udpRecvSk || |udpRecvSk| < MAX_ENTRIES {
        udpRecvSk := udpRecvSk[tid := sock];
      }
    }

    method UdpRecvmsgRet(tid: Pid, tgid: Pid, ret: int) returns (accounted: seq<Receive>)
      modifies this`udpRecvSk
      ensures View() == Apply(old(View()), UdpExit(tid, tgid, ret))
      ensures accounted == Receives(old(View()), UdpExit(tid, tgid, ret))
    {
      accounted := [];
      if ToInt32(ret) > 0 && tid in udpRecvSk {
        accounted := [Receive(tgid, udpRecvSk[tid], ToInt32(ret))];
      }
      udpRecvSk := map t | t in udpRecvSk && t != tid :: udpRecvSk[t];
    }
  }
}
