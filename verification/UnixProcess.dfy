/** Descriptor ownership in process_unix.cpp: the pipe ends that a parent gets when it starts a
    child, over every outcome of `pipe` and `fork` and every later order of calls. */
module UnixProcess {

  /** What one call of `pipe` does: it fails, or it hands out two new descriptors. */
  datatype PipeOutcome = NoPipe | Pipe(r: int, w: int)

  /** What `waitpid` reports: the child is gone already (ECHILD), nothing yet or another error, or a status. */
  datatype WaitOutcome = NoChild | NothingYet | OtherError(garbage: int) | Exited(status: int)

  /** A `unique_ptr` to a descriptor: null, allocated but not set, or set. */
  datatype Slot = Null | Unset | Fd(fd: int)

  function Fds(s: Slot): set<int> {
    if s.Fd? then {s.fd} else {}
  }

  /** The descriptor table of the parent. Only an open descriptor may be closed: closing one twice would
      hit whatever else has been given its number meanwhile. */
  class Kernel {
    var open: set<int>

    constructor (open: set<int>)
      ensures this.open == open
    {
      this.open := open;
    }

    method MakePipe(outcome: PipeOutcome) returns (ok: bool)
      requires outcome.Pipe? ==> outcome.r !in open && outcome.w !in open && outcome.r != outcome.w
      modifies this
      ensures ok == outcome.Pipe?
      ensures open == old(open) + Ends(outcome)
    {
      ok := outcome.Pipe?;
      if ok { open := open + {outcome.r, outcome.w}; }
    }

    method Close(fd: int)
      requires fd in open
      modifies this
      ensures open == old(open) - {fd}
    {
      open := open - {fd};
    }
  }

  function Ends(p: PipeOutcome): set<int> {
    if p.Pipe? then {p.r, p.w} else {}
  }

  /** The kernel hands out descriptors that are not open at the time. */
  ghost predicate Possible(open: set<int>, a: PipeOutcome, b: PipeOutcome, c: PipeOutcome) {
    && (a.Pipe? ==> a.r != a.w) && (b.Pipe? ==> b.r != b.w) && (c.Pipe? ==> c.r != c.w)
    && open !! Ends(a) !! Ends(b) !! Ends(c)
  }

  /** One call on a live process object. */
  datatype Call = CloseStdinCall | GetStatusCall(wait: WaitOutcome) | TryStatusCall(wait: WaitOutcome)

  class Process {
    const kernel: Kernel
    const openStdin: bool
    const readStdout: bool
    const readStderr: bool
    var stdinFd: Slot
    var stdoutFd: Slot
    var stderrFd: Slot
    var id: int
    var exitStatus: int
    var closed: bool

    /** The descriptors this object still has to close. */
    ghost function Held(): set<int>
      reads this
    {
      Fds(stdinFd) + Fds(stdoutFd) + Fds(stderrFd)
    }

    /** A process that was started holds real descriptors, each once, all open; any other holds none. */
    ghost predicate Valid()
      reads this, kernel
    {
      && Held() <= kernel.open
      && Fds(stdinFd) !! Fds(stdoutFd) !! Fds(stderrFd)
      && (id > 0 ==> stdinFd != Unset && stdoutFd != Unset && stderrFd != Unset)
      && (id <= 0 ==> Held() == {})
    }

    constructor (kernel: Kernel, openStdin: bool, readStdout: bool, readStderr: bool)
      ensures this.kernel == kernel && this.openStdin == openStdin
      ensures this.readStdout == readStdout && this.readStderr == readStderr
      ensures stdinFd == stdoutFd == stderrFd == Null && id == -1 && Valid() && Held() == {}
    {
      this.kernel := kernel;
      this.openStdin, this.readStdout, this.readStderr := openStdin, readStdout, readStderr;
      stdinFd, stdoutFd, stderrFd := Null, Null, Null;
      id, exitStatus, closed := -1, -1, true;
    }

    method CloseBoth(p: PipeOutcome)
      requires p.Pipe? && p.r in kernel.open && p.w in kernel.open && p.r != p.w
      modifies kernel
      ensures kernel.open == old(kernel.open) - Ends(p)
    {
      kernel.Close(p.r);
      kernel.Close(p.w);
    }

    /** The slots as allocated at the start of `open`. */
    ghost predicate Allocated()
      reads this
    {
      && stdinFd == (if openStdin then Unset else Null)
      && stdoutFd == (if readStdout then Unset else Null)
      && stderrFd == (if readStderr then Unset else Null)
    }

    /** The first part of `open`: the pipes, and on a failure the ends made so far closed again. */
    method MakePipes(a: PipeOutcome, b: PipeOutcome, c: PipeOutcome) returns (ok: bool)
      requires Allocated()
      requires Possible(kernel.open, Wanted(openStdin, a), Wanted(readStdout, b), Wanted(readStderr, c))
      modifies kernel
      ensures ok == Made(openStdin, readStdout, readStderr, a, b, c)
      ensures ok ==> kernel.open == old(kernel.open) + Ends(Wanted(openStdin, a)) + Ends(Wanted(readStdout, b)) + Ends(Wanted(readStderr, c))
      ensures !ok ==> kernel.open == old(kernel.open)
    {
      if stdinFd != Null {
        ok := kernel.MakePipe(a);
        if !ok { return false; }
      }
      if stdoutFd != Null {
        ok := kernel.MakePipe(b);
        if !ok {
          if stdinFd != Null { CloseBoth(a); }
          return false;
        }
      }
      if stderrFd != Null {
        ok := kernel.MakePipe(c);
        if !ok {
          if stdinFd != Null { CloseBoth(a); }
          if stdoutFd != Null { CloseBoth(b); }
          return false;
        }
      }
      return true;
    }

    /** After a failed fork. */
    method CloseAll(a: PipeOutcome, b: PipeOutcome, c: PipeOutcome, ghost base: set<int>)
      requires Allocated() && Made(openStdin, readStdout, readStderr, a, b, c)
      requires Possible(base, Wanted(openStdin, a), Wanted(readStdout, b), Wanted(readStderr, c))
      requires kernel.open == base + Ends(Wanted(openStdin, a)) + Ends(Wanted(readStdout, b)) + Ends(Wanted(readStderr, c))
      modifies kernel
      ensures kernel.open == base
    {
      if stdinFd != Null { CloseBoth(a); }
      if stdoutFd != Null { CloseBoth(b); }
      if stderrFd != Null { CloseBoth(c); }
    }

    /** After a successful fork the parent closes the child's ends and keeps its own. */
    method KeepOwnEnds(a: PipeOutcome, b: PipeOutcome, c: PipeOutcome, ghost base: set<int>)
      requires Allocated() && Made(openStdin, readStdout, readStderr, a, b, c)
      requires Possible(base, Wanted(openStdin, a), Wanted(readStdout, b), Wanted(readStderr, c))
      requires kernel.open == base + Ends(Wanted(openStdin, a)) + Ends(Wanted(readStdout, b)) + Ends(Wanted(readStderr, c))
      modifies kernel, this`stdinFd, this`stdoutFd, this`stderrFd
      ensures Kept(a, b, c)
      ensures kernel.open == base + Held()
    {
      if stdinFd != Null { kernel.Close(a.r); }
      if stdoutFd != Null { kernel.Close(b.w); }
      if stderrFd != Null { kernel.Close(c.w); }
      if stdinFd != Null { stdinFd := Fd(a.w); }
      if stdoutFd != Null { stdoutFd := Fd(b.r); }
      if stderrFd != Null { stderrFd := Fd(c.r); }
    }

    /** The write end for the child's input, the read ends for its output. */
    ghost predicate Kept(a: PipeOutcome, b: PipeOutcome, c: PipeOutcome)
      requires Made(openStdin, readStdout, readStderr, a, b, c)
      reads this
    {
      && stdinFd == (if openStdin then Fd(a.w) else Null)
      && stdoutFd == (if readStdout then Fd(b.r) else Null)
      && stderrFd == (if readStderr then Fd(c.r) else Null)
    }

    /** `open`: up to three pipes, a fork, and the parent's side of each. */
    method Open(a: PipeOutcome, b: PipeOutcome, c: PipeOutcome, pid: int) returns (r: int)
      requires stdinFd == stdoutFd == stderrFd == Null && id == -1
      requires pid != 0  // zero is what the child sees
      requires Possible(kernel.open, Wanted(openStdin, a), Wanted(readStdout, b), Wanted(readStderr, c))
      modifies this, kernel
      ensures Valid()
      ensures if Made(openStdin, readStdout, readStderr, a, b, c) && pid > 0
              then r == id == pid && !closed && Kept(a, b, c) && kernel.open == old(kernel.open) + Held()
              else r < 0 && id == -1 && kernel.open == old(kernel.open)
      ensures kernel.open - Held() == old(kernel.open)
    {
      if openStdin { stdinFd := Unset; }
      if readStdout { stdoutFd := Unset; }
      if readStderr { stderrFd := Unset; }
      ghost var base := kernel.open;
      var ok := MakePipes(a, b, c);
      if !ok { return -1; }
      if pid < 0 {
        CloseAll(a, b, c, base);
        return pid;
      }
      KeepOwnEnds(a, b, c, base);
      closed := false;
      id := pid;
      return pid;
    }

    /** `close_stdin`. */
    method CloseStdin()
      requires Valid()
      modifies this`stdinFd, kernel
      ensures Valid() && stdinFd == Null
      ensures kernel.open == old(kernel.open) - Fds(old(stdinFd))
    {
      if stdinFd != Null {
        if id > 0 { kernel.Close(stdinFd.fd); }
        stdinFd := Null;
      }
    }

    /** `close_fds`, which is also all that the destructor does. */
    method CloseFds()
      requires Valid()
      modifies this`stdinFd, this`stdoutFd, this`stderrFd, kernel
      ensures Valid() && Held() == {} && stdinFd == stdoutFd == stderrFd == Null
      ensures kernel.open == old(kernel.open) - old(Held())
    {
      if stdinFd != Null { CloseStdin(); }
      if stdoutFd != Null {
        if id > 0 { kernel.Close(stdoutFd.fd); }
        stdoutFd := Null;
      }
      if stderrFd != Null {
        if id > 0 { kernel.Close(stderrFd.fd); }
        stderrFd := Null;
      }
    }

    /** `get_exit_status`. Any error but ECHILD is taken like an exit, with whatever the status variable held. */
    method GetExitStatus(wait: WaitOutcome) returns (status: int)
      requires Valid() && wait != NothingYet
      modifies this, kernel
      ensures Valid() && id == old(id)
      ensures kernel.open - Held() == old(kernel.open) - old(Held())
      ensures if id <= 0 then status == -1 && unchanged(this) && unchanged(kernel)
              else if wait == NoChild then status == exitStatus && unchanged(this) && unchanged(kernel)
              else Held() == {} && closed && status == exitStatus == Plain(Raw(wait))
    {
      if id <= 0 { return -1; }
      if wait == NoChild { return exitStatus; }
      status := Plain(Raw(wait));
      exitStatus := status;
      closed := true;
      CloseFds();
    }

    /** `try_get_exit_status`. */
    method TryGetExitStatus(wait: WaitOutcome) returns (done: bool, status: int)
      requires Valid()
      modifies this, kernel
      ensures Valid() && id == old(id)
      ensures kernel.open - Held() == old(kernel.open) - old(Held())
      ensures if id <= 0 then done && status == -1 && unchanged(this) && unchanged(kernel)
              else if wait == NoChild then done && status == exitStatus && unchanged(this) && unchanged(kernel)
              else if wait.Exited? then done && Held() == {} && closed && status == exitStatus == Plain(Raw(wait))
              else !done && unchanged(this) && unchanged(kernel)
    {
      if id <= 0 { return true, -1; }
      if wait == NoChild { return true, exitStatus; }
      if !wait.Exited? { return false, -1; }
      status := Plain(Raw(wait));
      exitStatus := status;
      closed := true;
      CloseFds();
      done := true;
    }

    method Do(call: Call)
      requires Valid() && (call.GetStatusCall? ==> call.wait != NothingYet)
      modifies this, kernel
      ensures Valid() && id == old(id)
      ensures kernel.open - Held() == old(kernel.open) - old(Held())
    {
      match call
      case CloseStdinCall => CloseStdin();
      case GetStatusCall(wait) => var status := GetExitStatus(wait);
      case TryStatusCall(wait) => var done, status := TryGetExitStatus(wait);
    }
  }

  /** What the status variable holds after the call. */
  function Raw(wait: WaitOutcome): int {
    match wait
    case Exited(status) => status
    case OtherError(garbage) => garbage
    case _ => 0
  }

  /** The status as `get_exit_status` stores it. */
  function Plain(status: int): int {
    if status >= 256 then status / 256 else status
  }

  /** A pipe is made only where it was asked for. */
  function Wanted(asked: bool, p: PipeOutcome): PipeOutcome {
    if asked then p else NoPipe
  }

  predicate Made(openStdin: bool, readStdout: bool, readStderr: bool, a: PipeOutcome, b: PipeOutcome, c: PipeOutcome) {
    (openStdin ==> a.Pipe?) && (readStdout ==> b.Pipe?) && (readStderr ==> c.Pipe?)
  }

  /** A whole lifetime: construction, any calls in any order, destruction. Afterwards exactly the descriptors are
      open that were open before; and since each closing needs an open descriptor, every pipe end that the
      parent obtained has been closed exactly once, also when opening failed half-way. */
  method Lifetime(kernel: Kernel, openStdin: bool, readStdout: bool, readStderr: bool,
                  a: PipeOutcome, b: PipeOutcome, c: PipeOutcome, pid: int, calls: seq<Call>)
    requires pid != 0
    requires Possible(kernel.open, Wanted(openStdin, a), Wanted(readStdout, b), Wanted(readStderr, c))
    requires forall k :: 0 <= k < |calls| && calls[k].GetStatusCall? ==> calls[k].wait != NothingYet
    modifies kernel
    ensures kernel.open == old(kernel.open)
  {
    var p := new Process(kernel, openStdin, readStdout, readStderr);
    var r := p.Open(a, b, c, pid);
    ghost var base := old(kernel.open);
    assert kernel.open - p.Held() == base;
    for k := 0 to |calls|
      invariant p.Valid() && kernel.open - p.Held() == base
      invariant p.kernel == kernel
    {
      p.Do(calls[k]);
    }
    p.CloseFds();
  }

  // ---------------------------------------------------------------------
  // Exit codes
  // ---------------------------------------------------------------------

  /** The status that `waitpid` stores for a child that exits with this code, and for one that a signal ends, with or
      without a core dump. */
  function ExitedWith(code: nat): int { 0x100 * code }

  function EndedBy(signal: nat, core: bool): int { signal + if core then 0x80 else 0 }

  /** Every exit code comes out as it is. But a child that signal n ends is reported like one that exits with n, or with
      128 + n when it leaves a core dump. */
  lemma ExitCodes(code: nat, signal: nat, core: bool)
    requires code <= 255 && 1 <= signal <= 127
    ensures Plain(Raw(Exited(ExitedWith(code)))) == code
    ensures Plain(Raw(Exited(EndedBy(signal, core)))) == code <==> code == if core then 128 + signal else signal
  {
  }
}
