/** One tunnel's supervisor: the `Tunnel` record, its observers, the
    classification of a child's outcome, and one locked iteration of the
    supervision loop of `Tunnel.Start` as a pure step function.

    Everything the loop asks the outside world is an input of the step: the
    branch of the `select` the scheduler picks (`Event`), whether the local
    port is busy (`busy`), the clock (`now`, in nanoseconds) and the pid the
    operating system gives a launched process (`pid`). */
module Supervisor {
  import opened Basics
  import opened StatusEnum
  import opened Commands
  import SignalMatch

  /** Process ids handed out by the operating system are positive. */
  type Pid = p: int | p > 0 witness 1

  /** What `t.cmd` holds once a command was built and handed to the runner:
      the command, and the pid of its process (`None` when the process never
      started, for instance when the program does not exist). */
  datatype Proc = Proc(command: Command, pid: Option<Pid>)

  /** The `Tunnel` struct. `running` records that a runner goroutine was
      launched and has not yet delivered its outcome on the channel;
      `started` is the one-shot `startedFlag`. */
  datatype Tunnel = Tunnel(
    config: TunnelConfig,
    status: Status,
    err: Option<string>,
    startedAt: int,
    cmd: Option<Proc>,
    running: bool,
    started: bool)

  /** One second in the clock's unit (nanoseconds, as `time.Duration`). */
  const Second: int := 1_000_000_000

  /** `NewTunnel`: a tunnel starts in `Close`, with nothing launched. */
  function NewTunnel(config: TunnelConfig): Tunnel {
    Tunnel(config, Close, None, 0, None, false, false)
  }

  function GetName(t: Tunnel): string {
    t.config.name
  }

  function GetStatus(t: Tunnel): Status {
    t.status
  }

  function GetLocalPort(t: Tunnel): int {
    t.config.localPort
  }

  /** `GetPid`: the pid of the last launched process, 0 when there is none. */
  function GetPid(t: Tunnel): (pid: int)
    ensures pid >= 0
    ensures pid == 0 <==> t.cmd.None? || t.cmd.value.pid.None?
    ensures pid != 0 ==> Some(pid) == t.cmd.value.pid
  {
    if t.cmd.Some? && t.cmd.value.pid.Some? then t.cmd.value.pid.value else 0
  }

  /** `GetError`: the text of the last error. An error whose text is empty
      reads the same as no error at all. */
  function GetError(t: Tunnel): (s: string)
    ensures s == "" <==> t.err.None? || t.err.value == ""
    ensures t.err.Some? ==> s == t.err.value
  {
    if t.err.None? then "" else t.err.value
  }

  function Abs(x: int): nat {
    if x < 0 then -x else x
  }

  /** `Duration.Round(time.Second)`: nearest whole second, halves away from
      zero. */
  function RoundToSecond(d: int): (r: int)
    ensures r % Second == 0
    ensures 2 * Abs(r - d) <= Second
    ensures 2 * Abs(r - d) == Second ==> Abs(r) > Abs(d)
    ensures d >= 0 ==> r >= 0
    ensures d <= 0 ==> r <= 0
  {
    var a := Abs(d);
    var m := a % Second;
    assert a == (a / Second) * Second + m;
    var q := if 2 * m < Second then (a / Second) * Second else (a / Second + 1) * Second;
    if d < 0 then -q else q
  }

  /** `GetAge`: how long the tunnel has been `Open`, valid only while it is. */
  function GetAge(t: Tunnel, now: int): (r: (int, bool))
    ensures r.1 <==> t.status == Open
    ensures !r.1 ==> r.0 == 0
    ensures r.1 ==> r.0 == RoundToSecond(now - t.startedAt)
  {
    if t.status == Open then (RoundToSecond(now - t.startedAt), true) else (0, false)
  }

  /** `GetType`: which configuration variant is used, with the same
      precedence as the command builder. */
  function GetType(t: Tunnel): (s: string)
    ensures s == "k8s" || s == "custom" || s == "N/A"
    ensures s == "N/A" <==> GetCommand(t.config).Err?
    ensures s == "k8s" <==> t.config.k8s.Some?
    ensures s == "k8s" ==> GetCommand(t.config).value.program == Kubectl
  {
    if t.config.k8s.Some? then "k8s"
    else if t.config.custom != "" then "custom"
    else "N/A"
  }

  /** `kill`: the target of the SIGKILL, the negated pid so that the whole
      process group dies; nothing without a process. */
  function KillTarget(t: Tunnel): (target: Option<int>)
    ensures target.None? <==> GetPid(t) == 0
    ensures target.Some? ==> target.value < 0 && target.value == -GetPid(t)
  {
    if t.cmd.None? || t.cmd.value.pid.None? then None else Some(0 - t.cmd.value.pid.value as int)
  }

  /** The error text the runner goroutine sends when the child ends: the
      captured output, ": ", then the text of the error `CombinedOutput`
      returned. */
  function RunnerMessage(output: string, failure: string): (m: string)
    ensures |m| >= 2
  {
    output + ": " + failure
  }

  /** How the outcome received on the channel is read: no error means
      `Cooper` and the old error stays; a text matching the signal pattern
      means `Signal` with the matched suffix as error; any other text means
      `Error` with the whole text as error. */
  function Classify(t: Tunnel, outcome: Option<string>): (r: Tunnel)
    ensures r == t.(status := r.status, err := r.err)
    ensures r.status == Cooper <==> outcome.None?
    ensures outcome.None? ==> r.err == t.err
    ensures outcome.Some? ==>
      forall i :: SignalMatch.MatchesAt(outcome.value, i) ==>
        r.status == Signal && r.err == Some(outcome.value[i..])
    ensures outcome.Some? && (forall i :: !SignalMatch.MatchesAt(outcome.value, i)) ==>
      r.status == Error && r.err == Some(outcome.value)
  {
    match outcome
    case None => t.(status := Cooper)
    case Some(text) =>
      if SignalMatch.Matches(text) then t.(status := Signal, err := Some(SignalMatch.Found(text)))
      else t.(status := Error, err := Some(text))
  }

  /** What the scheduler lets the `select` do: `Cancel` is the `ctx.Done()`
      branch, `Exited` the receive of the runner's outcome, `Quiet` the
      `default` branch. When both of the first two are ready Go picks either,
      so the choice is an input. */
  datatype Event = Cancel | Exited(outcome: Option<string>) | Quiet

  /** How a loop iteration ends: it reaches the `Unlock` at the bottom of the
      loop and goes round again, it returns on cancellation (with the target
      of the kill it sent), or it blocks forever still holding the lock. */
  datatype StepResult =
    | Continue(tunnel: Tunnel)
    | Stopped(tunnel: Tunnel, kill: Option<int>)
    | Stuck(tunnel: Tunnel)

  /** The states from which the loop probes the port and (re)launches. */
  predicate Relaunching(s: Status) {
    s == Close || s == Reopening || s == Cooper || s == PortBusy
  }

  /** The states a tunnel can be seen in once an iteration has released the
      lock. */
  predicate Settled(s: Status) {
    s == Opening || s == Open || s == Reopening || s == PortBusy
  }

  /** The state the status switch runs on: a receive is only possible while a
      runner is outstanding (nobody else sends on the channel); otherwise an
      `Exited` proposal finds the channel empty and `default` runs. */
  function AfterSelect(t: Tunnel, ev: Event): (s: Tunnel)
    requires !ev.Cancel?
    ensures s == t.(status := s.status, err := s.err, running := s.running)
    ensures s.running == (t.running && !ev.Exited?)
    ensures !(ev.Exited? && t.running) ==> s.status == t.status && s.err == t.err
    ensures ev.Exited? && t.running ==>
      s.status == Classify(t, ev.outcome).status && s.err == Classify(t, ev.outcome).err
  {
    if ev.Exited? && t.running then Classify(t, ev.outcome).(running := false) else t
  }

  /** Entry into `Open`: the error is cleared and the age clock starts. */
  function EnterOpen(t: Tunnel, now: int): (r: Tunnel)
    ensures r.status == Open && r.err.None? && r.startedAt == now
    ensures r == t.(status := r.status, err := r.err, startedAt := r.startedAt)
  {
    t.(status := Open, err := None, startedAt := now)
  }

  /** The `switch t.status` of one iteration. A relaunching state probes the
      port; a free port and a buildable command start a runner, shown as
      `Opening` except after `Reopening`, which falls through to `Open`. A
      command that cannot be built is sent on the unbuffered channel by the
      only goroutine that receives from it, so the iteration never ends. */
  function Dispatch(t: Tunnel, busy: bool, now: int, pid: Option<Pid>): (r: StepResult)
    ensures Relaunching(t.status) && busy ==> r == Continue(t.(status := PortBusy))
    ensures Relaunching(t.status) && !busy && GetCommand(t.config).Err? ==>
      r == Stuck(t.(cmd := None))
    ensures Relaunching(t.status) && !busy && GetCommand(t.config).Ok? ==>
      var launched := t.(cmd := Some(Proc(GetCommand(t.config).value, pid)), running := true);
      && (t.status != Reopening ==> r == Continue(launched.(status := Opening)))
      && (t.status == Reopening ==>
            r == Continue(launched.(status := Open, err := None, startedAt := now)))
    ensures t.status == Opening ==> r == Continue(EnterOpen(t, now))
    ensures t.status == Error || t.status == Signal ==> r == Continue(t.(status := Reopening))
    ensures t.status == Open || t.status == Undefined ==> r == Continue(t)
    ensures r.tunnel.config == t.config && r.tunnel.started == t.started
  {
    match t.status
    case Close | Reopening | Cooper | PortBusy =>
      if busy then Continue(t.(status := PortBusy))
      else
        match GetCommand(t.config) {
          case Err(_) => Stuck(t.(cmd := None))
          case Ok(c) =>
            var launched := t.(cmd := Some(Proc(c, pid)), running := true);
            if t.status != Reopening then Continue(launched.(status := Opening))
            else Continue(EnterOpen(launched, now))
        }
    case Opening => Continue(EnterOpen(t, now))
    case Error | Signal => Continue(t.(status := Reopening))
    case Open | Undefined => Continue(t)
  }

  /** One locked iteration of the supervision loop. */
  function Step(t: Tunnel, ev: Event, busy: bool, now: int, pid: Option<Pid>): (r: StepResult)
    ensures ev.Cancel? ==> r == Stopped(t, KillTarget(t))
    ensures r.Stopped? <==> ev.Cancel?
    ensures r.Stuck? ==> !busy && GetCommand(t.config).Err?
    ensures r.Continue? && r.tunnel.running && !t.running ==>
      !busy && GetCommand(t.config).Ok? && r.tunnel.cmd == Some(Proc(GetCommand(t.config).value, pid))
    ensures r.Continue? && r.tunnel.status == Open && t.status != Open ==> r.tunnel.startedAt == now
    ensures r.Continue? && t.status != Undefined ==> Settled(r.tunnel.status)
    ensures r.Continue? ==> r.tunnel.status != Close
    ensures t.status != Undefined ==> r.tunnel.status != Undefined
    ensures r.tunnel.config == t.config && r.tunnel.started == t.started
  {
    if ev.Cancel? then Stopped(t, KillTarget(t))
    else Dispatch(AfterSelect(t, ev), busy, now, pid)
  }

  /** What holds of a started tunnel every time its loop releases the lock:
      it is `Close` (only before the first iteration) or settled; a runner is
      outstanding exactly while it is `Opening` or `Open`, and then `cmd`
      holds the command the configuration builds; `Open` carries no error. */
  predicate Inv(t: Tunnel) {
    && t.started
    && (t.status == Close || Settled(t.status))
    && (t.running <==> t.status == Opening || t.status == Open)
    && (t.running ==> t.cmd.Some? && GetCommand(t.config) == Ok(t.cmd.value.command))
    && (t.status == Open ==> t.err.None?)
    && (t.status == Close ==> t.cmd.None? && t.err.None?)
  }

  lemma NewTunnelInv(config: TunnelConfig)
    ensures NewTunnel(config).status == Close
    ensures !NewTunnel(config).started
    ensures Inv(NewTunnel(config).(started := true))
    ensures GetPid(NewTunnel(config)) == 0 && GetError(NewTunnel(config)) == ""
    ensures forall now :: !GetAge(NewTunnel(config), now).1
  {
  }

  lemma StepPreservesInv(t: Tunnel, ev: Event, busy: bool, now: int, pid: Option<Pid>)
    ensures Inv(t) && Step(t, ev, busy, now, pid).Continue? ==> Inv(Step(t, ev, busy, now, pid).tunnel)
  {
  }

  /** A launch only ever happens while no runner is outstanding, so a tunnel
      never has two children at once; while a runner is outstanding and has
      not reported, nothing is launched. */
  lemma OneRunnerAtATime(t: Tunnel, ev: Event, busy: bool, now: int, pid: Option<Pid>)
    requires Inv(t) && !ev.Cancel?
    ensures Relaunching(AfterSelect(t, ev).status) ==> !AfterSelect(t, ev).running
    ensures t.running && !ev.Exited? ==>
      Step(t, ev, busy, now, pid).Continue? && Step(t, ev, busy, now, pid).tunnel.cmd == t.cmd
  {
  }

  /** `Opening` is shown for one iteration: the next is `Open`, unless the
      child already ended, in which case the exit is handled at once. */
  lemma LeavingOpening(t: Tunnel, ev: Event, busy: bool, now: int, pid: Option<Pid>)
    requires Inv(t) && t.status == Opening
    requires Step(t, ev, busy, now, pid).Continue?
    ensures var s := Step(t, ev, busy, now, pid).tunnel.status;
      s == Open || (ev.Exited? && (s == Reopening || s == PortBusy || s == Opening))
  {
  }

  /** A child that ends with an error, signal or not, is retried through
      `Reopening` in the very iteration that classifies it; the error stays
      visible. */
  lemma FailureReopens(t: Tunnel, text: string, busy: bool, now: int, pid: Option<Pid>)
    requires Inv(t) && t.running
    ensures var r := Step(t, Exited(Some(text)), busy, now, pid);
      && r == Continue(r.tunnel)
      && r.tunnel.status == Reopening
      && !r.tunnel.running
      && r.tunnel.err.Some?
      && (SignalMatch.Matches(text) ==> r.tunnel.err == Some(SignalMatch.Found(text)))
      && (!SignalMatch.Matches(text) ==> r.tunnel.err == Some(text))
  {
  }

  /** After a clean exit (`Cooper`) the loop relaunches exactly as it would
      from `Close`. */
  lemma CooperRelaunchesLikeClose(t: Tunnel, busy: bool, now: int, pid: Option<Pid>)
    ensures var c := Dispatch(t.(status := Cooper), busy, now, pid);
      var z := Dispatch(t.(status := Close), busy, now, pid);
      (c.Continue? <==> z.Continue?) && (c.Continue? ==> c == z)
  {
  }

  /** The outcome a real runner delivers: never nil, always its message. */
  ghost predicate FromRunner(ev: Event) {
    ev.Exited? ==> exists output, failure :: ev.outcome == Some(RunnerMessage(output, failure))
  }

  /** With outcomes from the real runner, `Cooper` is never reached and a
      recorded error always has text, so `GetError` is empty exactly when
      there is no error. */
  lemma RunnerKeepsErrorText(t: Tunnel, ev: Event, busy: bool, now: int, pid: Option<Pid>)
    requires FromRunner(ev)
    requires t.err.Some? ==> t.err.value != ""
    ensures !ev.Cancel? ==> AfterSelect(t, ev).status == Cooper ==> t.status == Cooper
    ensures var r := Step(t, ev, busy, now, pid);
      r.tunnel.err.Some? ==> r.tunnel.err.value != ""
  {
    if ev.Exited? && t.running {
      var text := ev.outcome.value;
      if SignalMatch.Matches(text) {
        assert |SignalMatch.Found(text)| > 0;
      }
    }
  }
}
