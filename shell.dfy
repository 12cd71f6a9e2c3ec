/** The interpreter loop of `main`: built-in dispatch, the bookkeeping of
    `run_program`, `exit_status` and `foreground_only`, the value
    `executeCommand` hands back, and the SIGTSTP mode toggle.
    Process creation, redirection in the child and waiting are not
    modelled; what the parent learns from `waitpid` is an input. */
module Shell {
  import opened Wrappers
  import opened Format
  import opened Command
  import opened Parser

  /** What `WEXITSTATUS` can yield. */
  type ExitCode = c: int | 0 <= c < 256

  /** What `waitpid` reports for a foreground child: a normal exit with
      its code, or termination by a signal. */
  datatype WaitStatus = Exited(code: ExitCode) | Signaled(signal: nat)

  /** The value `executeCommand` returns: 0 at once for a background
      launch; for a foreground child its exit code, or -1 when it did not
      exit normally. */
  function ExecuteResult(isBackground: bool, wait: WaitStatus): (status: int)
    ensures -1 <= status <= 255
    ensures status == -1 <==> !isBackground && wait.Signaled?
    ensures isBackground ==> status == 0
    ensures !isBackground && wait.Exited? ==> status == wait.code
  {
    if !isBackground then
      match wait
      case Exited(code) => code
      case Signaled(_) => -1
    else 0
  }

  const ExitValuePrefix := "exit value "
  const SignalPrefix := "terminated by signal "

  /** What the `status` built-in prints (without the newline). */
  function StatusMessage(exitStatus: int): string {
    if exitStatus == 0 || exitStatus == 1 then ExitValuePrefix + IntToString(exitStatus)
    else SignalPrefix + IntToString(exitStatus)
  }

  /** `status` reports an exit value exactly for 0 and 1 and a signal for
      every other value, and the number shown is the status itself. */
  lemma StatusMessageForm(n: int)
    ensures var msg := StatusMessage(n);
      (|msg| >= |ExitValuePrefix| && msg[..|ExitValuePrefix|] == ExitValuePrefix &&
       msg[|ExitValuePrefix|..] == IntToString(n)) <==> (n == 0 || n == 1)
    ensures var msg := StatusMessage(n);
      (|msg| >= |SignalPrefix| && msg[..|SignalPrefix|] == SignalPrefix &&
       msg[|SignalPrefix|..] == IntToString(n)) <==> !(n == 0 || n == 1)
  {
  }

  /** Different statuses are never reported alike. */
  lemma StatusMessageInjective(m: int, n: int)
    requires StatusMessage(m) == StatusMessage(n)
    ensures m == n
  {
    StatusMessageForm(m);
    StatusMessageForm(n);
    var msg := StatusMessage(m);
    if m == 0 || m == 1 {
      assert IntToString(m) == msg[|ExitValuePrefix|..] == IntToString(n);
    } else {
      assert IntToString(m) == msg[|SignalPrefix|..] == IntToString(n);
    }
    IntToStringInjective(m, n);
  }

  /** The directory `changeDirectory` passes to `chdir`: HOME (`None` when
      it is unset) for a bare `cd`, otherwise the first argument; further
      arguments are ignored. */
  function CdTarget(arguments: seq<string>, home: Option<string>): (target: Option<string>)
    ensures |arguments| >= 2 ==> target == Some(arguments[1])
    ensures |arguments| == 1 ==> target == home
  {
    if |arguments| >= 2 then Some(arguments[1]) else home
  }

  /** `run_program`, `exit_status` and `foreground_only`. */
  datatype LoopState = LoopState(runProgram: bool, exitStatus: int, foregroundOnly: bool)

  const InitialState := LoopState(true, 0, false)

  /** What a turn of the loop does besides updating the state. */
  datatype Action =
    | NoAction
    | SyntaxError(error: ParseError)
    | ExitShell
    | ChangeDirectory(target: Option<string>)
    | ReportStatus(message: string)
    | LaunchForeground(cmd: CommandValue)
    | LaunchBackground(cmd: CommandValue)

  predicate IsBuiltin(name: string) {
    name == "exit" || name == "cd" || name == "status"
  }

  /** One turn of the loop after parsing, with the NULL test first (see
      `ForceForegroundAsWritten` for the order the code uses). */
  function Dispatch(s: LoopState, parsed: ParseResult, home: Option<string>, wait: WaitStatus): (LoopState, Action) {
    match parsed
    case NoCommand => (s, NoAction)
    case Malformed(e) => (s, SyntaxError(e))
    case Parsed(c0) =>
      var c := if s.foregroundOnly then c0.(isBackground := false) else c0;
      if c.command == "exit" then (s.(runProgram := false), ExitShell)
      else if c.command == "cd" then (s, ChangeDirectory(CdTarget(c.arguments, home)))
      else if c.command == "status" then (s, ReportStatus(StatusMessage(s.exitStatus)))
      else
        (s.(exitStatus := ExecuteResult(c.isBackground, wait)),
         if c.isBackground then LaunchBackground(c) else LaunchForeground(c))
  }

  /** Empty and comment lines change nothing. */
  lemma IgnoredLinesChangeNothing(s: LoopState, line: string, pid: nat, home: Option<string>, wait: WaitStatus)
    requires |line| == 0 || line[0] == '#'
    ensures Dispatch(s, ParseLine(line, pid), home, wait) == (s, NoAction)
  {
  }

  /** In foreground-only mode nothing is launched in the background, and
      whatever is launched carries a cleared background flag. */
  lemma ForegroundOnlyNeverBackground(s: LoopState, parsed: ParseResult, home: Option<string>, wait: WaitStatus)
    requires s.foregroundOnly
    ensures var a := Dispatch(s, parsed, home, wait).1;
      !a.LaunchBackground? && (a.LaunchForeground? ==> !a.cmd.isBackground)
  {
  }

  /** The loop goes on exactly until an `exit` command. */
  lemma ExitStopsTheLoop(s: LoopState, parsed: ParseResult, home: Option<string>, wait: WaitStatus)
    ensures Dispatch(s, parsed, home, wait).0.runProgram <==>
      s.runProgram && !(parsed.Parsed? && parsed.cmd.command == "exit")
  {
  }

  /** Only a non-built-in command touches `exit_status`: built-ins, empty
      and comment lines and malformed lines leave it alone. A launched
      command sets it to 0 in the background, otherwise to its exit code
      or to -1 when it was killed. No turn changes the mode. */
  lemma ExitStatusBookkeeping(s: LoopState, parsed: ParseResult, home: Option<string>, wait: WaitStatus)
    ensures var next := Dispatch(s, parsed, home, wait).0;
      next.foregroundOnly == s.foregroundOnly &&
      (!(parsed.Parsed? && !IsBuiltin(parsed.cmd.command)) ==> next.exitStatus == s.exitStatus) &&
      (parsed.Parsed? && !IsBuiltin(parsed.cmd.command) ==>
        next.exitStatus ==
          if parsed.cmd.isBackground && !s.foregroundOnly then 0
          else if wait.Exited? then wait.code
          else -1)
  {
  }

  /** `status` after a foreground command reports how that command ended:
      its exit code, or -1 after a signal (as "terminated by signal -1"). */
  lemma StatusReportsLastForeground(s: LoopState, c: CommandValue, statusCmd: CommandValue,
                                    home: Option<string>, wait: WaitStatus, wait': WaitStatus)
    requires !IsBuiltin(c.command) && (!c.isBackground || s.foregroundOnly)
    requires statusCmd.command == "status"
    ensures var s' := Dispatch(s, Parsed(c), home, wait).0;
      Dispatch(s', Parsed(statusCmd), home, wait').1 ==
        ReportStatus(StatusMessage(if wait.Exited? then wait.code else -1))
  {
  }

  /** The order the code in `main` uses: the foreground-only override
      writes `commandStruct->isBackground` BEFORE the NULL test, so with
      the mode on, an empty or comment line (for which `parseCommand`
      returns NULL) leads to a write through a NULL pointer, modelled as
      `None`. */
  function ForceForegroundAsWritten(parsed: ParseResult, foregroundOnly: bool): (r: Option<ParseResult>)
    ensures r.None? <==> foregroundOnly && parsed.NoCommand?
    ensures r.Some? && parsed.Parsed? ==> r.value.Parsed? && r.value.cmd.isBackground == (parsed.cmd.isBackground && !foregroundOnly)
  {
    if !foregroundOnly then Some(parsed)
    else match parsed
      case NoCommand => None
      case Malformed(_) => Some(parsed)
      case Parsed(c) => Some(Parsed(c.(isBackground := false)))
  }

  /** An empty line typed in foreground-only mode makes the code as
      written dereference NULL. */
  lemma EmptyLineDereferencesNull(pid: nat)
    ensures ForceForegroundAsWritten(ParseLine("", pid), true) == None
    ensures ForceForegroundAsWritten(ParseLine("# comment", pid), true) == None
  {
  }

  /** The SIGTSTP handler run `n` times. */
  function AfterStops(s: LoopState, n: nat): LoopState
    decreases n
  {
    if n == 0 then s else AfterStops(s.(foregroundOnly := !s.foregroundOnly), n - 1)
  }

  /** An even number of toggles restores the mode, an odd number flips
      it; nothing else changes. */
  lemma {:induction false} AfterStopsParity(s: LoopState, n: nat)
    ensures AfterStops(s, n) == s.(foregroundOnly := if n % 2 == 0 then s.foregroundOnly else !s.foregroundOnly)
    decreases n
  {
    if n > 0 {
      AfterStopsParity(s.(foregroundOnly := !s.foregroundOnly), n - 1);
    }
  }

  /** One line as the user types it, the number of SIGTSTP signals that
      arrive before it is dispatched, and what `waitpid` would report for
      it if it runs in the foreground. */
  datatype Turn = Turn(stops: nat, line: string, wait: WaitStatus)

  /** `while (run_program)` over a finite sequence of turns: the actions
      taken and the final state. */
  function Session(s: LoopState, turns: seq<Turn>, pid: nat, home: Option<string>): (LoopState, seq<Action>)
    decreases |turns|
  {
    if !s.runProgram || |turns| == 0 then (s, [])
    else
      var step := Dispatch(AfterStops(s, turns[0].stops), ParseLine(turns[0].line, pid), home, turns[0].wait);
      var rest := Session(step.0, turns[1..], pid, home);
      (rest.0, [step.1] + rest.1)
  }

  predicate IsExitLine(line: string, pid: nat) {
    ParseLine(line, pid).Parsed? && ParseLine(line, pid).cmd.command == "exit"
  }

  /** The loop handles every line up to and including the first `exit`
      and none after it; it has stopped exactly when it met one. */
  lemma {:induction false} SessionStopsAtFirstExit(s: LoopState, turns: seq<Turn>, pid: nat, home: Option<string>)
    requires s.runProgram
    ensures var r := Session(s, turns, pid, home); var n := |r.1|;
      n <= |turns| &&
      (forall k :: 0 <= k < n - 1 ==> !IsExitLine(turns[k].line, pid)) &&
      (n == |turns| || IsExitLine(turns[n - 1].line, pid)) &&
      (!r.0.runProgram <==> n > 0 && IsExitLine(turns[n - 1].line, pid))
    decreases |turns|
  {
    if |turns| > 0 {
      var s1 := AfterStops(s, turns[0].stops);
      AfterStopsParity(s, turns[0].stops);
      var parsed := ParseLine(turns[0].line, pid);
      var step := Dispatch(s1, parsed, home, turns[0].wait);
      ExitStopsTheLoop(s1, parsed, home, turns[0].wait);
      if step.0.runProgram {
        SessionStopsAtFirstExit(step.0, turns[1..], pid, home);
        var rest := Session(step.0, turns[1..], pid, home);
        forall k | 0 <= k < |rest.1| ensures turns[k + 1] == turns[1..][k] { }
      }
    }
  }

  /** The state of `main`'s loop; `foreground_only` is the global the
      SIGTSTP handler flips. */
  class Interpreter {
    var runProgram: bool
    var exitStatus: int
    var foregroundOnly: bool

    function State(): LoopState
      reads this
    {
      LoopState(runProgram, exitStatus, foregroundOnly)
    }

    constructor ()
      ensures State() == InitialState
    {
      runProgram, exitStatus, foregroundOnly := true, 0, false;
    }

    /** `sigtstpHandler`. */
    method ToggleForegroundOnly()
      modifies this
      ensures State() == old(State()).(foregroundOnly := !old(foregroundOnly))
    {
      if !foregroundOnly {
        foregroundOnly := true;
      } else {
        foregroundOnly := false;
      }
    }

    /** The handler invoked `n` times in a row. */
    method DeliverStops(n: nat)
      modifies this
      ensures State() == AfterStops(old(State()), n)
    {
      var k := 0;
      while k < n
        invariant 0 <= k <= n
        invariant AfterStops(old(State()), n) == AfterStops(State(), n - k)
      {
        ToggleForegroundOnly();
        k := k + 1;
      }
    }

    /** `changeDirectory`'s choice of target. */
    method ChangeDirectoryTarget(c: CommandStruct, home: Option<string>) returns (target: Option<string>)
      requires c.Valid()
      ensures target == CdTarget(c.Arguments(), home)
    {
      if c.numArguments == 1 {
        target := home;
      } else {
        target := c.argumentsArray[1];
      }
    }

    /** The body of `main`'s loop for one line, `pid` being the shell's
        process id, `home` the value of HOME and `wait` what `waitpid`
        reports should a foreground child be started. */
    method RunLine(line: string, pid: nat, home: Option<string>, wait: WaitStatus) returns (action: Action)
      modifies this
      ensures (State(), action) == Dispatch(old(State()), ParseLine(line, pid), home, wait)
    {
      var outcome := ParseCommand(line, pid);
      match outcome
      case NullCommand =>
        action := NoAction;
      case ParseFailure(e) =>
        action := SyntaxError(e);
      case ParsedStruct(c) =>
        if foregroundOnly {
          c.isBackground := false;
        }
        if c.command == "exit" {
          runProgram := false;
          action := ExitShell;
        } else if c.command == "cd" {
          var target := ChangeDirectoryTarget(c, home);
          action := ChangeDirectory(target);
        } else if c.command == "status" {
          action := ReportStatus(StatusMessage(exitStatus));
        } else {
          exitStatus := ExecuteResult(c.isBackground, wait);
          action := if c.isBackground then LaunchBackground(c.Value()) else LaunchForeground(c.Value());
        }
    }

    /** `while (run_program)`, fed a finite sequence of turns. */
    method MainLoop(turns: seq<Turn>, pid: nat, home: Option<string>) returns (actions: seq<Action>)
      modifies this
      ensures (State(), actions) == Session(old(State()), turns, pid, home)
    {
      actions := [];
      var i := 0;
      assert turns[i..] == turns;
      assert actions + Session(State(), turns, pid, home).1 == Session(State(), turns, pid, home).1;
      while runProgram && i < |turns|
        invariant 0 <= i <= |turns|
        invariant Session(old(State()), turns, pid, home) ==
          (Session(State(), turns[i..], pid, home).0, actions + Session(State(), turns[i..], pid, home).1)
        decreases |turns| - i
      {
        ghost var here := State();
        DeliverStops(turns[i].stops);
        var a := RunLine(turns[i].line, pid, home, turns[i].wait);
        assert turns[i..][0] == turns[i] && turns[i..][1..] == turns[i + 1..];
        ghost var rest := Session(State(), turns[i + 1..], pid, home);
        assert Session(here, turns[i..], pid, home) == (rest.0, [a] + rest.1);
        assert actions + ([a] + rest.1) == (actions + [a]) + rest.1;
        actions := actions + [a];
        i := i + 1;
      }
      if i < |turns| {
        assert Session(State(), turns[i..], pid, home) == (State(), []);
      } else {
        assert turns[i..] == [];
      }
      assert actions + [] == actions;
    }
  }
}
