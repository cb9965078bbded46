/** The supervision loop of `Tunnel.Start` as a whole: successive iterations
    driven by a sequence of environment inputs, and the one-shot guard in
    front of it. */
module Runs {
  import opened Basics
  import opened StatusEnum
  import opened Commands
  import SignalMatch
  import opened Supervisor

  /** What the environment decides for one iteration. */
  datatype Input = Input(ev: Event, busy: bool, now: int, pid: Option<Pid>)

  function StepOn(t: Tunnel, i: Input): StepResult {
    Step(t, i.ev, i.busy, i.now, i.pid)
  }

  /** The states an observer can see: one per iteration that reaches the
      bottom of the loop, up to the first iteration that returns or blocks. */
  function Trace(t: Tunnel, ins: seq<Input>): (trace: seq<Tunnel>)
    ensures |trace| <= |ins|
    ensures forall k :: 0 <= k < |trace| ==>
      trace[k].config == t.config && trace[k].started == t.started
    ensures Inv(t) ==> forall k :: 0 <= k < |trace| ==> Inv(trace[k])
    decreases |ins|
  {
    if |ins| == 0 then []
    else
      var r := StepOn(t, ins[0]);
      StepPreservesInv(t, ins[0].ev, ins[0].busy, ins[0].now, ins[0].pid);
      if r.Continue? then [r.tunnel] + Trace(r.tunnel, ins[1..]) else []
  }

  /** How the last iteration run ended (`Continue` with the unchanged tunnel
      when there was none). */
  function Final(t: Tunnel, ins: seq<Input>): StepResult
    decreases |ins|
  {
    if |ins| == 0 then Continue(t)
    else
      var r := StepOn(t, ins[0]);
      if r.Continue? then Final(r.tunnel, ins[1..]) else r
  }

  /** The loop goes round until an iteration returns or blocks: a run is cut
      short exactly when its last iteration did not complete, and that
      iteration was a cancellation or a free-port iteration whose command
      could not be built. */
  lemma {:induction false} TraceStopsOnlyAtStopOrStuck(t: Tunnel, ins: seq<Input>)
    ensures |Trace(t, ins)| < |ins| <==> !Final(t, ins).Continue?
    ensures Final(t, ins).Stopped? ==> ins[|Trace(t, ins)|].ev.Cancel?
    ensures Final(t, ins).Stuck? ==> !ins[|Trace(t, ins)|].busy && GetCommand(t.config).Err?
    decreases |ins|
  {
    if |ins| > 0 {
      var r := StepOn(t, ins[0]);
      if r.Continue? {
        var rest := ins[1..];
        TraceStopsOnlyAtStopOrStuck(r.tunnel, rest);
        assert Trace(t, ins) == [r.tunnel] + Trace(r.tunnel, rest);
        if |Trace(r.tunnel, rest)| < |rest| {
          assert ins[|Trace(t, ins)|] == rest[|Trace(r.tunnel, rest)|];
        }
      }
    }
  }

  /** With a buildable command and no cancellation, every input yields a
      state: the loop never stops on its own. */
  lemma RunsUntilCancelled(t: Tunnel, ins: seq<Input>)
    requires GetCommand(t.config).Ok?
    requires forall k :: 0 <= k < |ins| ==> !ins[k].ev.Cancel?
    ensures |Trace(t, ins)| == |ins|
  {
    TraceStopsOnlyAtStopOrStuck(t, ins);
  }

  /** `Start`: only the first call on a tunnel enters the loop; any later call
      returns at once and changes nothing. */
  function Start(t: Tunnel, ins: seq<Input>): (trace: seq<Tunnel>)
    ensures t.started ==> trace == []
    ensures forall k :: 0 <= k < |trace| ==> trace[k].started && trace[k].config == t.config
  {
    if t.started then [] else Trace(t.(started := true), ins)
  }

  /** Whatever state the loop of a new tunnel has reached, starting that
      tunnel again runs nothing. */
  lemma StartIsOneShot(config: TunnelConfig, ins: seq<Input>, again: seq<Input>, k: nat)
    requires k < |Start(NewTunnel(config), ins)|
    ensures Start(Start(NewTunnel(config), ins)[k], again) == []
  {
  }

  /** While the port stays busy, a tunnel that has not launched stays in
      `PortBusy` on every iteration and never has a valid age. */
  lemma {:induction false} BusyPortStaysBusy(t: Tunnel, ins: seq<Input>)
    requires Inv(t) && (t.status == Close || t.status == PortBusy)
    requires forall k :: 0 <= k < |ins| ==> ins[k].busy
    ensures forall k :: 0 <= k < |Trace(t, ins)| ==> Trace(t, ins)[k].status == PortBusy
    ensures forall k, now :: 0 <= k < |Trace(t, ins)| ==> !GetAge(Trace(t, ins)[k], now).1
    decreases |ins|
  {
    if |ins| > 0 {
      var r := StepOn(t, ins[0]);
      StepPreservesInv(t, ins[0].ev, ins[0].busy, ins[0].now, ins[0].pid);
      if r.Continue? {
        BusyPortStaysBusy(r.tunnel, ins[1..]);
        assert Trace(t, ins) == [r.tunnel] + Trace(r.tunnel, ins[1..]);
      }
    }
  }

  /** A configuration with neither variant never opens: the loop shows
      `PortBusy` while the port is busy, every iteration it completes found
      the port busy, and the first iteration that finds it free blocks for
      good unless it is a cancellation. */
  lemma {:induction false} MissingCommandNeverOpens(t: Tunnel, ins: seq<Input>)
    requires Inv(t) && GetCommand(t.config).Err?
    ensures forall k :: 0 <= k < |Trace(t, ins)| ==> Trace(t, ins)[k].status == PortBusy
    ensures forall k :: 0 <= k < |Trace(t, ins)| ==> ins[k].busy
    ensures |Trace(t, ins)| < |ins| ==>
      && (Final(t, ins).Stopped? <==> ins[|Trace(t, ins)|].ev.Cancel?)
      && (Final(t, ins).Stuck? <==> !ins[|Trace(t, ins)|].ev.Cancel?)
    decreases |ins|
  {
    if |ins| > 0 {
      var r := StepOn(t, ins[0]);
      StepPreservesInv(t, ins[0].ev, ins[0].busy, ins[0].now, ins[0].pid);
      if r.Continue? {
        var rest := ins[1..];
        MissingCommandNeverOpens(r.tunnel, rest);
        var tail := Trace(r.tunnel, rest);
        assert Trace(t, ins) == [r.tunnel] + tail;
        assert Final(t, ins) == Final(r.tunnel, rest);
        assert ins[0].busy;
        forall k | 1 <= k < |Trace(t, ins)|
          ensures ins[k].busy
        {
          assert ins[k] == rest[k - 1];
        }
        if |tail| < |rest| {
          assert ins[|Trace(t, ins)|] == rest[|tail|];
        }
      }
    }
  }

  /** A first launch is shown as `Opening` for one iteration, then `Open`;
      the age becomes valid only with `Open` and counts from that iteration. */
  lemma FirstLaunch(config: TunnelConfig, first: Input, second: Input, now: int)
    requires GetCommand(config).Ok?
    requires first.ev == Quiet && !first.busy && second.ev == Quiet
    ensures var trace := Start(NewTunnel(config), [first, second]);
      && |trace| == 2
      && trace[0].status == Opening && !GetAge(trace[0], now).1
      && trace[1].status == Open && GetAge(trace[1], now).1
      && trace[1].startedAt == second.now
  {
    var t0 := NewTunnel(config).(started := true);
    var r0 := StepOn(t0, first);
    assert r0.Continue? && r0.tunnel.status == Opening;
    var r1 := StepOn(r0.tunnel, second);
    assert r1 == Continue(EnterOpen(r0.tunnel, second.now));
    assert [first, second][1..] == [second];
    assert Trace(r0.tunnel, [second]) == [r1.tunnel];
  }

  /** The iteration that receives a "killed by signal" outcome. */
  lemma SignalOutcomeReopens(t: Tunnel, output: string, name: string, first: Input)
    requires Inv(t) && t.running
    requires |name| > 0 && forall k :: 0 <= k < |name| ==> SignalMatch.NameChar(name[k])
    requires first.ev == Exited(Some(RunnerMessage(output, SignalMatch.Prefix + name)))
    ensures StepOn(t, first).Continue?
    ensures StepOn(t, first).tunnel.status == Reopening
    ensures StepOn(t, first).tunnel.err == Some(SignalMatch.Prefix + name)
    ensures StepOn(t, first).tunnel.config == t.config
  {
    var text := RunnerMessage(output, SignalMatch.Prefix + name);
    assert text == output + ": " + SignalMatch.Prefix + name;
    SignalMatch.SignalAfterOutput(output, name);
    FailureReopens(t, text, first.busy, first.now, first.pid);
  }

  /** A retry with a free port and a buildable command goes straight from
      `Reopening` to `Open`; with no runner outstanding, whatever the
      `select` proposes short of a cancellation runs the `default` branch. */
  lemma RetryOpensAtOnce(t: Tunnel, next: Input)
    requires Inv(t) && t.status == Reopening && GetCommand(t.config).Ok?
    requires !next.ev.Cancel? && !next.busy
    ensures |Trace(t, [next])| == 1
    ensures Trace(t, [next])[0].status == Open
    ensures Trace(t, [next])[0].err.None? && Trace(t, [next])[0].startedAt == next.now
  {
  }

  /** A child killed by a signal: the iteration that receives its outcome
      leaves the tunnel `Reopening` with the error reduced to
      "signal: <name>", and the next iteration with a free port goes straight
      to `Open`, skipping `Opening`. */
  lemma KilledBySignal(t: Tunnel, output: string, name: string, first: Input, second: Input)
    requires Inv(t) && t.running
    requires |name| > 0 && forall k :: 0 <= k < |name| ==> SignalMatch.NameChar(name[k])
    requires first.ev == Exited(Some(RunnerMessage(output, SignalMatch.Prefix + name)))
    requires !second.ev.Cancel? && !second.busy
    ensures var trace := Trace(t, [first, second]);
      && |trace| == 2
      && trace[0].status == Reopening && trace[0].err == Some(SignalMatch.Prefix + name)
      && trace[1].status == Open && trace[1].err.None? && trace[1].startedAt == second.now
  {
    SignalOutcomeReopens(t, output, name, first);
    StepPreservesInv(t, first.ev, first.busy, first.now, first.pid);
    var t1 := StepOn(t, first).tunnel;
    RetryOpensAtOnce(t1, second);
    assert [first, second][1..] == [second];
    assert Trace(t, [first, second]) == [t1] + Trace(t1, [second]);
  }

  /** Along a run fed by the real runner, `GetError` is empty exactly when
      no error is recorded. */
  lemma {:induction false} RunnerRunsKeepErrorText(t: Tunnel, ins: seq<Input>)
    requires t.err.Some? ==> t.err.value != ""
    requires forall k :: 0 <= k < |ins| ==> FromRunner(ins[k].ev)
    ensures forall k :: 0 <= k < |Trace(t, ins)| ==>
      (GetError(Trace(t, ins)[k]) == "" <==> Trace(t, ins)[k].err.None?)
    decreases |ins|
  {
    if |ins| > 0 {
      var r := StepOn(t, ins[0]);
      RunnerKeepsErrorText(t, ins[0].ev, ins[0].busy, ins[0].now, ins[0].pid);
      if r.Continue? {
        RunnerRunsKeepErrorText(r.tunnel, ins[1..]);
        assert Trace(t, ins) == [r.tunnel] + Trace(r.tunnel, ins[1..]);
      }
    }
  }
}
