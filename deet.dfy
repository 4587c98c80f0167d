/**
 * The command loop of the `deet` debugger: address parsing and what each
 * command does to the two fields the loop owns, the optional live inferior
 * (the traced child process) and the append-only list of breakpoint
 * addresses, whose index is the breakpoint's number.
 *
 * The inferior itself (ptrace, fork/exec, waitpid, memory pokes, stack
 * walking) is outside this model: it is an abstract handle, and the outcome
 * of every call made on it arrives as a parameter (`World`).  The debugger
 * keeps a ghost log of the calls it makes, so the order of those calls and
 * their arguments can be stated.
 */
module Deet {
  import opened Wrappers
  import opened Radix

  /** The byte written over an instruction to set a breakpoint (x86 `int3`). */
  const TRAP_OPCODE: nat := 0xcc

  // ---------------------------------------------------------------------
  // Address text

  /** `addr.to_lowercase().starts_with("0x")`. */
  predicate HasHexPrefix(addr: string) {
    |addr| >= 2 && addr[0] == '0' && (addr[1] == 'x' || addr[1] == 'X')
  }

  /** The text `parse_addr` hands to `from_str_radix`: the address without its prefix. */
  function Suffix(addr: string): string {
    if HasHexPrefix(addr) then addr[2..] else addr
  }

  /** The digits an address text stands for: prefix and one `+` removed. */
  function AddrDigits(addr: string): string {
    Unsigned(Suffix(addr))
  }

  /**
   * `Debugger::parse_addr`: an optional `0x`/`0X` prefix, then the rest read
   * as a base-16 `usize`.
   */
  function ParseAddr(addr: string): (r: Option<nat>)
    ensures r.Some? <==> AddrDigits(addr) != [] && AllHex(AddrDigits(addr)) && HexValue(AddrDigits(addr)) <= USIZE_MAX
    ensures r.Some? ==> r.value == HexValue(AddrDigits(addr)) <= USIZE_MAX
  {
    FromStrRadix16(Suffix(addr))
  }

  /** The lower-case hex digit for `d`. */
  function HexChar(d: nat): (c: char)
    requires d < 16
    ensures IsHexDigit(c) && DigitValue(c) == d && c != '+'
  {
    if d < 10 then ('0' as int + d) as char else ('a' as int + d - 10) as char
  }

  /** The digits `{:x}` prints for `n`: lower case, no leading zeros. */
  function ToHex(n: nat): (s: string)
    ensures s != [] && AllHex(s) && s[0] != '+'
    decreases n
  {
    if n < 16 then [HexChar(n)] else ToHex(n / 16) + [HexChar(n % 16)]
  }

  /** `{:#x}`, the form in which the debugger prints addresses. */
  function FormatAddr(n: nat): string {
    "0x" + ToHex(n)
  }

  lemma {:induction false} ToHexValue(n: nat)
    ensures HexValue(ToHex(n)) == n
    decreases n
  {
    if n >= 16 {
      ToHexValue(n / 16);
      var s := ToHex(n);
      assert s[..|s| - 1] == ToHex(n / 16);
    }
  }

  /**
   * Every address the debugger prints parses back to itself, and a number
   * too large for a `usize` is refused however it is written.
   */
  lemma ParseFormatRoundTrip(n: nat)
    ensures ParseAddr(FormatAddr(n)) == if n <= USIZE_MAX then Some(n) else None
  {
    ToHexValue(n);
    assert FormatAddr(n)[2..] == ToHex(n);
  }

  /** The prefix is optional: digits without it are read the same way. */
  lemma PrefixOptional(s: string)
    requires !HasHexPrefix(s)
    ensures ParseAddr("0x" + s) == ParseAddr(s)
    ensures ParseAddr("0X" + s) == ParseAddr(s)
  {
  }

  /** With or without the prefix, in either case, and with one `+`: all 26. */
  lemma ParseAddrAccepts()
    ensures ParseAddr("0x1a") == Some(26)
    ensures ParseAddr("0X1A") == Some(26)
    ensures ParseAddr("1a") == Some(26)
    ensures ParseAddr("+1a") == Some(26)
  {
    assert AddrDigits("0x1a") == "1a";
    assert AddrDigits("0X1A") == "1A";
    assert AddrDigits("+1a") == "1a";
    assert "1a"[..1] == "1" && "1A"[..1] == "1";
    assert HexValue("1a") == 26 && HexValue("1A") == 26;
  }

  /** Empty digits and non-hex characters are refused. */
  lemma ParseAddrRefuses()
    ensures ParseAddr("") == None
    ensures ParseAddr("0x") == None
    ensures ParseAddr("xyz") == None
    ensures ParseAddr("0xg1") == None
    ensures ParseAddr("-1") == None
    ensures ParseAddr("+") == None
  {
  }

  // ---------------------------------------------------------------------
  // The inferior, seen from the debugger

  /** What a wait on the traced process reports. */
  datatype Status =
    | Exited(code: int)
    | Signaled(signal: nat)
    | Stopped(signal: nat, rip: nat)

  /** An OS error returned by a ptrace or wait call. */
  datatype OsError = OsError(errno: int)

  /** A handle to one traced child process. */
  datatype Inferior = Inferior(pid: nat)

  /**
   * The outcomes the outside world supplies for one command: what
   * `terminate`, `Inferior::new`, `cont` and `write_byte` would return if the
   * command calls them.  A command uses only the ones it calls.
   */
  datatype World = World(
    terminated: Result<Status, OsError>,
    spawned: Option<Inferior>,
    resumed: Result<Status, OsError>,
    written: Result<nat, OsError>)

  /** A call the debugger makes on an inferior, as recorded in its log. */
  datatype Call =
    | Terminate(target: Inferior)
    | Spawn(path: string, args: seq<string>, breakpoints: seq<nat>, result: Option<Inferior>)
    | Cont(target: Inferior)
    | WriteByte(target: Inferior, addr: nat, value: nat)
    | Backtrace(target: Inferior)

  /** A command as `DebuggerCommand::from_tokens` produces it. */
  datatype Command =
    | Run(args: seq<string>)
    | Continue
    | BackTrace
    | Breakpoint(text: string)
    | Quit

  /** A line the debugger prints. */
  datatype Report =
    | StatusReport(status: Status)          // print_status
    | TerminateFailed(error: OsError)       // "failed to terminate ... target"
    | ResumeFailed(error: OsError)          // "failed to run command"
    | StartFailed                           // "Error starting subprocess"
    | NoTarget                              // "please run target first"
    | PatchFailed(addr: nat, error: OsError) // "failed to set breakpoint at position"
    | BreakpointSet(number: nat, addr: nat) // "set breakpoint N at position"
    | InvalidBreakpoint                     // "invalid breakpoint format"

  /** How the loop goes on after a command: next prompt, `return`, or a panic. */
  datatype Flow = Next | Exit | Panic

  function TerminateReport(r: Result<Status, OsError>): Report {
    match r
    case Ok(status) => StatusReport(status)
    case Err(e) => TerminateFailed(e)
  }

  function ResumeReport(r: Result<Status, OsError>): Report {
    match r
    case Ok(status) => StatusReport(status)
    case Err(e) => ResumeFailed(e)
  }

  /**
   * The breakpoint addresses the log has handed to `inf`: the list it was
   * started with, followed by every address later written into it.
   */
  ghost function Handed(calls: seq<Call>, inf: Inferior): seq<nat> {
    if calls == [] then []
    else
      var earlier := Handed(calls[..|calls| - 1], inf);
      match calls[|calls| - 1]
      case Spawn(_, _, bps, Some(i)) => if i == inf then bps else earlier
      case WriteByte(i, addr, _) => if i == inf then earlier + [addr] else earlier
      case _ => earlier
  }

  /** Appending one call updates `Handed` by that call alone. */
  lemma HandedSnoc(calls: seq<Call>, c: Call, inf: Inferior)
    ensures c.Spawn? && c.result == Some(inf) ==> Handed(calls + [c], inf) == c.breakpoints
    ensures c.WriteByte? && c.target == inf ==> Handed(calls + [c], inf) == Handed(calls, inf) + [c.addr]
    ensures !(c.Spawn? && c.result.Some?) && !c.WriteByte? ==> Handed(calls + [c], inf) == Handed(calls, inf)
    ensures c.Spawn? && c.result.Some? && c.result != Some(inf) ==> Handed(calls + [c], inf) == Handed(calls, inf)
    ensures c.WriteByte? && c.target != inf ==> Handed(calls + [c], inf) == Handed(calls, inf)
  {
  }

  /** The addresses a `Breakpoint` command registers: its address if it parses. */
  function NewAddrs(cmd: Command): seq<nat> {
    if cmd.Breakpoint? && ParseAddr(cmd.text).Some? then [ParseAddr(cmd.text).value] else []
  }

  /** The addresses registered by a sequence of commands, in order. */
  function Registered(cmds: seq<Command>): seq<nat> {
    if cmds == [] then [] else Registered(cmds[..|cmds| - 1]) + NewAddrs(cmds[|cmds| - 1])
  }

  lemma RegisteredSnoc(cmds: seq<Command>, c: Command)
    ensures Registered(cmds + [c]) == Registered(cmds) + NewAddrs(c)
  {
  }

  /** Extending a prefix of the input by one command. */
  lemma PrefixStep(input: seq<Command>, i: nat)
    requires i < |input|
    ensures Registered(input[..i + 1]) == Registered(input[..i]) + NewAddrs(input[i])
  {
    assert input[..i + 1] == input[..i] + [input[i]];
    RegisteredSnoc(input[..i], input[i]);
  }

  /** No command in `cmds` is `Quit`. */
  predicate NoQuit(cmds: seq<Command>) {
    forall j :: 0 <= j < |cmds| ==> !cmds[j].Quit?
  }

  /** The command `get_next_command` returns: the next input, or `Quit` at end of input (ctrl-d). */
  function NextCommand(input: seq<Command>, i: nat): Command {
    if i < |input| then input[i] else Quit
  }

  /** The inferior after one command: only a `run` whose start succeeded replaces it. */
  function NextInferior(cmd: Command, w: World, inf: Option<Inferior>): Option<Inferior> {
    if cmd.Run? && w.spawned.Some? then w.spawned else inf
  }

  /** How the loop goes on after `cmd`, given the inferior before it. */
  function FlowOf(cmd: Command, inf: Option<Inferior>): Flow {
    if cmd.Quit? then (if inf.Some? then Exit else Panic)
    else if cmd.BackTrace? && inf.None? then Panic
    else Next
  }

  /** What one command prints, given the inferior and breakpoints before it. */
  function Reports(cmd: Command, w: World, inf: Option<Inferior>, bps: seq<nat>): seq<Report> {
    match cmd
    case Run(_) =>
      (if inf.Some? then [TerminateReport(w.terminated)] else [])
      + (if w.spawned.Some? then [ResumeReport(w.resumed)] else [StartFailed])
    case Continue => if inf.None? then [NoTarget] else [ResumeReport(w.resumed)]
    case BackTrace => []
    case Breakpoint(text) =>
      if ParseAddr(text).None? then [InvalidBreakpoint]
      else
        (if inf.Some? && w.written.Err? then [PatchFailed(ParseAddr(text).value, w.written.error)] else [])
        + [BreakpointSet(|bps|, ParseAddr(text).value)]
    case Quit => if inf.Some? then [TerminateReport(w.terminated)] else []
  }

  /** The calls one command makes on inferiors, in order. */
  function Calls(target: string, cmd: Command, w: World, inf: Option<Inferior>, bps: seq<nat>): seq<Call> {
    match cmd
    case Run(args) =>
      (if inf.Some? then [Terminate(inf.value)] else [])
      + [Spawn(target, args, bps, w.spawned)]
      + (if w.spawned.Some? then [Cont(w.spawned.value)] else [])
    case Continue => if inf.Some? then [Cont(inf.value)] else []
    case BackTrace => if inf.Some? then [Backtrace(inf.value)] else []
    case Breakpoint(text) =>
      if ParseAddr(text).Some? && inf.Some? then [WriteByte(inf.value, ParseAddr(text).value, TRAP_OPCODE)] else []
    case Quit => if inf.Some? then [Terminate(inf.value)] else []
  }

  /** Appending three pieces one by one appends their concatenation. */
  lemma AppendThree<T>(s: seq<T>, a: seq<T>, b: seq<T>, c: seq<T>)
    ensures s + a + b + c == s + (a + b + c)
  {
  }

  /** The two fields the command loop owns. */
  datatype Session = Session(inferior: Option<Inferior>, breakpoints: seq<nat>)

  /** The fields after one command. */
  function After(s: Session, cmd: Command, w: World): Session {
    Session(NextInferior(cmd, w, s.inferior), s.breakpoints + NewAddrs(cmd))
  }

  /** The fields after the first `n` commands read from `input`. */
  function SessionAfter(s: Session, input: seq<Command>, world: nat -> World, n: nat): Session {
    if n == 0 then s
    else After(SessionAfter(s, input, world, n - 1), NextCommand(input, n - 1), world(n - 1))
  }

  /** Everything printed during the first `n` commands. */
  function ReportsAfter(s: Session, input: seq<Command>, world: nat -> World, n: nat): seq<Report> {
    if n == 0 then []
    else
      var before := SessionAfter(s, input, world, n - 1);
      ReportsAfter(s, input, world, n - 1)
      + Reports(NextCommand(input, n - 1), world(n - 1), before.inferior, before.breakpoints)
  }

  /** The call log `log`, extended by every call made on inferiors during the first `n` commands. */
  function CallsAfter(target: string, log: seq<Call>, s: Session, input: seq<Command>, world: nat -> World, n: nat): seq<Call> {
    if n == 0 then log
    else
      var before := SessionAfter(s, input, world, n - 1);
      CallsAfter(target, log, s, input, world, n - 1)
      + Calls(target, NextCommand(input, n - 1), world(n - 1), before.inferior, before.breakpoints)
  }

  /** One more command extends the three folds by that command's own effect. */
  lemma FoldStep(target: string, log: seq<Call>, s: Session, input: seq<Command>, world: nat -> World, n: nat)
    ensures var before := SessionAfter(s, input, world, n);
      var cmd := NextCommand(input, n);
      && SessionAfter(s, input, world, n + 1) == After(before, cmd, world(n))
      && ReportsAfter(s, input, world, n + 1)
         == ReportsAfter(s, input, world, n) + Reports(cmd, world(n), before.inferior, before.breakpoints)
      && CallsAfter(target, log, s, input, world, n + 1)
         == CallsAfter(target, log, s, input, world, n) + Calls(target, cmd, world(n), before.inferior, before.breakpoints)
  {
  }

  /** How the loop goes on after the command read at index `k`, given the fields the commands before it left. */
  function FlowAt(s: Session, input: seq<Command>, world: nat -> World, k: nat): Flow {
    FlowOf(NextCommand(input, k), SessionAfter(s, input, world, k).inferior)
  }

  /** The loop went on after each of the first `n` commands read. */
  predicate NoStop(s: Session, input: seq<Command>, world: nat -> World, n: nat) {
    n == 0 || (NoStop(s, input, world, n - 1) && FlowAt(s, input, world, n - 1) == Next)
  }

  /** `NoStop` of `n` says of each command before `n` that the loop went on after it. */
  lemma {:induction false} NoStopAll(s: Session, input: seq<Command>, world: nat -> World, n: nat)
    requires NoStop(s, input, world, n)
    ensures forall k :: 0 <= k < n ==> FlowAt(s, input, world, k) == Next
    decreases n
  {
    if n > 0 {
      NoStopAll(s, input, world, n - 1);
    }
  }

  /**
   * If the loop goes on after command `n`, command `n` was read from the
   * input, since end of input reads as `quit`.
   */
  lemma GoesOn(s: Session, input: seq<Command>, world: nat -> World, n: nat)
    requires NoStop(s, input, world, n) && FlowAt(s, input, world, n) == Next
    ensures NoStop(s, input, world, n + 1)
    ensures n < |input|
  {
  }

  /** A loop that went on after each of the first `n` commands has read no `quit` among them. */
  lemma GoneOnNoQuit(s: Session, input: seq<Command>, world: nat -> World, n: nat)
    requires n <= |input|
    requires forall k :: 0 <= k < n ==> FlowAt(s, input, world, k) == Next
    ensures NoQuit(input[..n])
  {
    forall j | 0 <= j < n
      ensures !input[..n][j].Quit?
    {
      assert FlowAt(s, input, world, j) == Next;
    }
  }

  /**
   * When the loop stops after `handled` commands: it went on after every
   * command before the last, has returned or panicked, read no `quit`
   * before the last, stopped on a `quit` or a `backtrace`, and registered
   * the addresses of the commands before the last only.
   */
  lemma Finished(s: Session, input: seq<Command>, world: nat -> World, handled: nat, flow: Flow)
    requires 1 <= handled <= |input| + 1
    requires NoStop(s, input, world, handled - 1)
    requires flow != Next && flow == FlowAt(s, input, world, handled - 1)
    ensures forall k :: 0 <= k < handled - 1 ==> FlowAt(s, input, world, k) == Next
    ensures flow == Exit || flow == Panic
    ensures NoQuit(input[..handled - 1])
    ensures flow == Exit ==> NextCommand(input, handled - 1).Quit?
    ensures flow == Panic ==> NextCommand(input, handled - 1).Quit? || NextCommand(input, handled - 1).BackTrace?
    ensures SessionAfter(s, input, world, handled).breakpoints == s.breakpoints + Registered(input[..handled - 1])
  {
    var n := handled - 1;
    NoStopAll(s, input, world, n);
    GoneOnNoQuit(s, input, world, n);
    SessionAfterBreakpoints(s, input, world, n);
    assert NewAddrs(NextCommand(input, n)) == [];
    assert SessionAfter(s, input, world, handled) == After(SessionAfter(s, input, world, n), NextCommand(input, n), world(n));
  }

  /**
   * Along the commands read, the inferior is never cleared, stays as it was
   * until a `run` starts a process, and is otherwise one that a `run` started.
   */
  lemma {:induction false} SessionAfterInferior(s: Session, input: seq<Command>, world: nat -> World, n: nat)
    ensures s.inferior.Some? ==> SessionAfter(s, input, world, n).inferior.Some?
    ensures (forall k :: 0 <= k < n ==> !(NextCommand(input, k).Run? && world(k).spawned.Some?))
      ==> SessionAfter(s, input, world, n).inferior == s.inferior
    ensures SessionAfter(s, input, world, n).inferior != s.inferior
      ==> exists k :: 0 <= k < n && NextCommand(input, k).Run? && world(k).spawned == SessionAfter(s, input, world, n).inferior
    decreases n
  {
    if n > 0 {
      SessionAfterInferior(s, input, world, n - 1);
      var cmd, prev := NextCommand(input, n - 1), SessionAfter(s, input, world, n - 1).inferior;
      assert SessionAfter(s, input, world, n).inferior == NextInferior(cmd, world(n - 1), prev);
      if cmd.Run? && world(n - 1).spawned.Some? {
        assert 0 <= n - 1 < n && NextCommand(input, n - 1).Run?;
      }
    }
  }

  /**
   * Along the commands read, the breakpoint list only grows, by exactly the
   * valid addresses registered so far.
   */
  lemma {:induction false} SessionAfterBreakpoints(s: Session, input: seq<Command>, world: nat -> World, n: nat)
    requires n <= |input|
    ensures SessionAfter(s, input, world, n).breakpoints == s.breakpoints + Registered(input[..n])
    decreases n
  {
    if n == 0 {
      assert s.breakpoints + [] == s.breakpoints;
    } else {
      SessionAfterBreakpoints(s, input, world, n - 1);
      PrefixStep(input, n - 1);
      var before := SessionAfter(s, input, world, n - 1);
      calc {
        SessionAfter(s, input, world, n).breakpoints;
        before.breakpoints + NewAddrs(input[n - 1]);
        (s.breakpoints + Registered(input[..n - 1])) + NewAddrs(input[n - 1]);
        s.breakpoints + (Registered(input[..n - 1]) + NewAddrs(input[n - 1]));
      }
    }
  }

  class Debugger {
    const target: string
    var inferior: Option<Inferior>
    var breakpoints: seq<nat>
    /** Every call made on an inferior so far, oldest first. */
    ghost var calls: seq<Call>

    /**
     * The current inferior, running or not, was started with, or has since
     * had `write_byte` called for, every registered address, in
     * registration order.  This is a fact about the calls made: a write
     * that failed still counts, and so does an inferior that has exited or
     * been terminated.
     */
    ghost predicate Valid()
      reads this
    {
      inferior.Some? ==> Handed(calls, inferior.value) == breakpoints
    }

    /** The fields `Debugger::new` sets up: no inferior and no breakpoints. */
    constructor (target: string)
      ensures Valid()
      ensures this.target == target && inferior == None && breakpoints == [] && calls == []
    {
      this.target := target;
      inferior := None;
      breakpoints := [];
      calls := [];
    }

    /**
     * `run`: a live inferior is terminated first; then a new one is started
     * with the whole breakpoint list and, if it started, continued once.  A
     * failed start leaves the old inferior in place.
     */
    method RunCommand(args: seq<string>, w: World) returns (out: seq<Report>)
      requires Valid()
      modifies this
      ensures Valid()
      ensures breakpoints == old(breakpoints)
      ensures inferior == if w.spawned.Some? then w.spawned else old(inferior)
      ensures calls == old(calls)
        + (if old(inferior).Some? then [Terminate(old(inferior).value)] else [])
        + [Spawn(target, args, old(breakpoints), w.spawned)]
        + (if w.spawned.Some? then [Cont(w.spawned.value)] else [])
      ensures out ==
        (if old(inferior).Some? then [TerminateReport(w.terminated)] else [])
        + (if w.spawned.Some? then [ResumeReport(w.resumed)] else [StartFailed])
    {
      out := [];
      if inferior.Some? {
        HandedSnoc(calls, Terminate(inferior.value), inferior.value);
        calls := calls + [Terminate(inferior.value)];
        out := out + [TerminateReport(w.terminated)];
      }
      HandedSnoc(calls, Spawn(target, args, breakpoints, w.spawned), if w.spawned.Some? then w.spawned.value else Inferior(0));
      if inferior.Some? {
        HandedSnoc(calls, Spawn(target, args, breakpoints, w.spawned), inferior.value);
      }
      calls := calls + [Spawn(target, args, breakpoints, w.spawned)];
      if w.spawned.Some? {
        inferior := w.spawned;
        HandedSnoc(calls, Cont(inferior.value), inferior.value);
        calls := calls + [Cont(inferior.value)];
        out := out + [ResumeReport(w.resumed)];
      } else {
        out := out + [StartFailed];
      }
    }

    /** `continue`: with no inferior, a message and nothing else; otherwise one `cont`. */
    method ContinueCommand(w: World) returns (out: seq<Report>)
      requires Valid()
      modifies this
      ensures Valid()
      ensures inferior == old(inferior) && breakpoints == old(breakpoints)
      ensures old(inferior).None? ==> out == [NoTarget] && calls == old(calls)
      ensures old(inferior).Some? ==>
        out == [ResumeReport(w.resumed)] && calls == old(calls) + [Cont(old(inferior).value)]
    {
      if inferior.None? {
        out := [NoTarget];
        return;
      }
      HandedSnoc(calls, Cont(inferior.value), inferior.value);
      calls := calls + [Cont(inferior.value)];
      out := [ResumeReport(w.resumed)];
    }

    /** `backtrace`: unwraps the inferior, so with none it panics. */
    method BacktraceCommand() returns (flow: Flow)
      requires Valid()
      modifies this
      ensures Valid()
      ensures inferior == old(inferior) && breakpoints == old(breakpoints)
      ensures old(inferior).None? ==> flow == Panic && calls == old(calls)
      ensures old(inferior).Some? ==> flow == Next && calls == old(calls) + [Backtrace(old(inferior).value)]
    {
      if inferior.None? {
        return Panic;
      }
      HandedSnoc(calls, Backtrace(inferior.value), inferior.value);
      calls := calls + [Backtrace(inferior.value)];
      flow := Next;
    }

    /**
     * `break`: a valid address is appended to the list (even when patching
     * the live inferior fails) and written into the live inferior if there
     * is one; its number is its index.  Invalid text changes nothing.
     */
    method BreakpointCommand(text: string, w: World) returns (out: seq<Report>)
      requires Valid()
      modifies this
      ensures Valid()
      ensures inferior == old(inferior)
      ensures ParseAddr(text).None? ==>
        out == [InvalidBreakpoint] && breakpoints == old(breakpoints) && calls == old(calls)
      ensures ParseAddr(text).Some? ==> breakpoints == old(breakpoints) + [ParseAddr(text).value]
      ensures ParseAddr(text).Some? && old(inferior).None? ==>
        calls == old(calls) && out == [BreakpointSet(|old(breakpoints)|, ParseAddr(text).value)]
      ensures ParseAddr(text).Some? && old(inferior).Some? ==>
        calls == old(calls) + [WriteByte(old(inferior).value, ParseAddr(text).value, TRAP_OPCODE)]
      ensures ParseAddr(text).Some? && old(inferior).Some? ==>
        out == (if w.written.Err? then [PatchFailed(ParseAddr(text).value, w.written.error)] else [])
               + [BreakpointSet(|old(breakpoints)|, ParseAddr(text).value)]
    {
      match ParseAddr(text)
      case None =>
        out := [InvalidBreakpoint];
      case Some(addr) =>
        breakpoints := breakpoints + [addr];
        out := [];
        if inferior.Some? {
          HandedSnoc(calls, WriteByte(inferior.value, addr, TRAP_OPCODE), inferior.value);
          calls := calls + [WriteByte(inferior.value, addr, TRAP_OPCODE)];
          if w.written.Err? {
            out := [PatchFailed(addr, w.written.error)];
          }
        }
        out := out + [BreakpointSet(|breakpoints| - 1, addr)];
    }

    /** `quit`: terminates the inferior and leaves the loop; with no inferior, the unwrap panics. */
    method QuitCommand(w: World) returns (out: seq<Report>, flow: Flow)
      requires Valid()
      modifies this
      ensures Valid()
      ensures inferior == old(inferior) && breakpoints == old(breakpoints)
      ensures old(inferior).None? ==> flow == Panic && out == [] && calls == old(calls)
      ensures old(inferior).Some? ==>
        flow == Exit && out == [TerminateReport(w.terminated)] && calls == old(calls) + [Terminate(old(inferior).value)]
    {
      if inferior.None? {
        return [], Panic;
      }
      HandedSnoc(calls, Terminate(inferior.value), inferior.value);
      calls := calls + [Terminate(inferior.value)];
      out, flow := [TerminateReport(w.terminated)], Exit;
    }

    /** One pass of the loop in `Debugger::run`: dispatch on the command. */
    method Step(cmd: Command, w: World) returns (out: seq<Report>, flow: Flow)
      requires Valid()
      modifies this
      ensures Valid()
      ensures breakpoints == old(breakpoints) + NewAddrs(cmd)
      ensures flow == FlowOf(cmd, old(inferior))
      ensures inferior == NextInferior(cmd, w, old(inferior))
      ensures out == Reports(cmd, w, old(inferior), old(breakpoints))
      ensures calls == old(calls) + Calls(target, cmd, w, old(inferior), old(breakpoints))
    {
      ghost var log, inf := calls, inferior;
      flow := Next;
      out := [];
      match cmd
      case Run(args) =>
        out := RunCommand(args, w);
        AppendThree(log, if inf.Some? then [Terminate(inf.value)] else [],
          [Spawn(target, args, old(breakpoints), w.spawned)], if w.spawned.Some? then [Cont(w.spawned.value)] else []);
        assert NewAddrs(cmd) == [];
      case Continue =>
        out := ContinueCommand(w);
        assert NewAddrs(cmd) == [];
      case BackTrace =>
        flow := BacktraceCommand();
        assert NewAddrs(cmd) == [];
      case Breakpoint(text) => out := BreakpointCommand(text, w);
      case Quit =>
        out, flow := QuitCommand(w);
        assert NewAddrs(cmd) == [];
    }

    /**
     * Pass `n` of the loop, stated against the fold: from the fields and log
     * after `n` commands, `Step` on command `n` reaches those after `n + 1`.
     */
    method Pass(ghost s0: Session, ghost log0: seq<Call>, input: seq<Command>, world: nat -> World, n: nat)
      returns (out: seq<Report>, flow: Flow)
      requires Valid()
      requires Session(inferior, breakpoints) == SessionAfter(s0, input, world, n)
      requires calls == CallsAfter(target, log0, s0, input, world, n)
      modifies this
      ensures Valid()
      ensures Session(inferior, breakpoints) == SessionAfter(s0, input, world, n + 1)
      ensures calls == CallsAfter(target, log0, s0, input, world, n + 1)
      ensures ReportsAfter(s0, input, world, n + 1) == ReportsAfter(s0, input, world, n) + out
      ensures flow == FlowAt(s0, input, world, n)
    {
      ghost var before, callsBefore := Session(inferior, breakpoints), calls;
      var cmd := NextCommand(input, n);
      FoldStep(target, log0, s0, input, world, n);
      out, flow := Step(cmd, world(n));
      assert Session(inferior, breakpoints) == After(before, cmd, world(n));
      assert out == Reports(cmd, world(n), before.inferior, before.breakpoints);
      assert calls == callsBefore + Calls(target, cmd, world(n), before.inferior, before.breakpoints);
    }

    /**
     * The loop of `Debugger::run`, stated against the fold from the fields
     * `s0` and call log `log0` it starts with: it stops at the first command
     * after which the loop does not go on.
     */
    method Loop(ghost s0: Session, ghost log0: seq<Call>, input: seq<Command>, world: nat -> World)
      returns (handled: nat, out: seq<Report>, flow: Flow)
      requires Valid()
      requires Session(inferior, breakpoints) == s0 && calls == log0
      modifies this
      ensures Valid()
      ensures 1 <= handled <= |input| + 1
      ensures NoStop(s0, input, world, handled - 1)
      ensures flow != Next && flow == FlowAt(s0, input, world, handled - 1)
      ensures Session(inferior, breakpoints) == SessionAfter(s0, input, world, handled)
      ensures out == ReportsAfter(s0, input, world, handled)
      ensures calls == CallsAfter(target, log0, s0, input, world, handled)
    {
      var i := 0;
      out := [];
      while true
        invariant Valid()
        invariant i <= |input|
        invariant NoStop(s0, input, world, i)
        invariant Session(inferior, breakpoints) == SessionAfter(s0, input, world, i)
        invariant out == ReportsAfter(s0, input, world, i)
        invariant calls == CallsAfter(target, log0, s0, input, world, i)
        decreases |input| - i
      {
        var o;
        o, flow := Pass(s0, log0, input, world, i);
        out := out + o;
        if flow != Next {
          handled := i + 1;
          assert handled - 1 == i;
          return;
        }
        GoesOn(s0, input, world, i);
        i := i + 1;
      }
    }

    /**
     * `Debugger::run`: handle commands until `quit` (or end of input, which
     * reads as `quit`) or a panic.  `world(i)` is what the outside world does
     * during the i-th command.  The session ends at the first `quit`, and the
     * breakpoint list has grown by exactly the valid addresses of the
     * `break` commands handled, in order.
     */
    method Run(input: seq<Command>, world: nat -> World) returns (handled: nat, out: seq<Report>, flow: Flow)
      requires Valid()
      modifies this
      ensures Valid()
      ensures flow == Exit || flow == Panic
      ensures 1 <= handled <= |input| + 1
      ensures NoQuit(input[..handled - 1])
      ensures var last := NextCommand(input, handled - 1);
        (flow == Exit ==> last.Quit?) && (flow == Panic ==> last.Quit? || last.BackTrace?)
      ensures breakpoints == old(breakpoints) + Registered(input[..handled - 1])
      ensures Session(inferior, breakpoints) == SessionAfter(Session(old(inferior), old(breakpoints)), input, world, handled)
      ensures out == ReportsAfter(Session(old(inferior), old(breakpoints)), input, world, handled)
      ensures calls == CallsAfter(target, old(calls), Session(old(inferior), old(breakpoints)), input, world, handled)
      ensures forall k :: 0 <= k < handled - 1 ==> FlowAt(Session(old(inferior), old(breakpoints)), input, world, k) == Next
      ensures flow == FlowAt(Session(old(inferior), old(breakpoints)), input, world, handled - 1)
    {
      handled, out, flow := Loop(Session(inferior, breakpoints), calls, input, world);
      Finished(Session(old(inferior), old(breakpoints)), input, world, handled, flow);
    }
  }
}
