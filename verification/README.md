# tmancer tunnel supervisor, modelled in Dafny

tmancer keeps a set of long-lived forwarding processes alive: for every
configured tunnel (a `kubectl port-forward` session or an arbitrary command) a
supervisor loop probes the local port, launches the command, watches the child
end, classifies how it ended and relaunches it. This project models that
per-tunnel supervisor from `internal/tunnel.go` and the `Status` enum and its
generated `String()` from `internal/status.go` and `internal/status_string.go`,
and proves properties of the model.

Modules, following the program's files:

- `Basics` (basics.dfy): `Option` for nil-able values and `Result` for Go's
  `(value, error)` returns.
- `Decimal` (decimal.dfy): the base-10 rendering of `strconv.FormatInt` and
  `%d`, with a parser proving the rendering loses nothing.
- `StatusEnum` (status.dfy): the nine statuses and their `iota` numbers.
- `StatusNames` (status_string.go → status_names.dfy): `Status.String()`, the
  name string and its index table.
- `Commands` (commands.dfy): `K8sInfo`, `TunnelConfig`, `getCommand`, and
  `strings.Split(s, " ")` with its inverse `Join`.
- `SignalMatch` (signal.dfy): the regular expression `signal: ([a-z ]+)$` used
  to recognise death by signal.
- `Supervisor` (supervisor.dfy): the `Tunnel` record, its observers
  (`GetPid`, `GetError`, `GetAge`, `GetType`, the `kill` target), the
  classification of a child's outcome and one locked iteration of the loop in
  `Start` as the pure function `Step`.
- `Runs` (runs.dfy): the loop as a whole (`Trace` over a sequence of inputs),
  the one-shot `Start` guard and multi-iteration properties.

How the outside world enters the model: each iteration of the loop takes the
branch the `select` is allowed to take (`Cancel` for `ctx.Done()`,
`Exited(outcome)` for a receive from the runner channel, `Quiet` for
`default`), a boolean standing for `isPortBusy`, the clock `now` in
nanoseconds, and the pid the operating system gives a launched process. A
receive is only possible while a runner goroutine is outstanding (the
`running` field), because nobody else sends on the channel, except the loop
itself in the case below.

Where the code behaves differently from its comments or from what one might
expect of a supervisor, the model follows the code:

- When the port is free but `getCommand` fails, the loop sends on its own
  unbuffered channel (`internal/tunnel.go:158`, `:192`) while holding the lock.
  Nobody can ever receive, so the iteration never ends and the tunnel never
  shows `Error`. `Step` returns `Stuck` here, not a move to `Error`. The lock
  it holds is the single mutex the program shares between every tunnel and
  the status table (`main.go:55`), so every other tunnel's loop and the table
  freeze too, and after an interrupt the final wait for all tunnels
  (`main.go:69`) never returns.
- On a signal the stored error is the whole match, `"signal: killed"`, not the
  bare signal name, because `FindString` returns the full match rather than
  the capture group.
- The comments saying `PortBusy` and `Cooper` "transition to Reopening" are
  not what the code does. From either state the loop probes the port again
  and goes to `PortBusy` or `Opening`, or, when the command cannot be built,
  blocks for good. The model follows the code.
- `Opening` is left for `Open` on the next iteration unless the child has
  already ended. If it has, the exit is classified in that same iteration.
- A clean exit of the child is not reported as `Cooper`. The runner wraps
  the result of `CombinedOutput` with `fmt.Errorf("%s: %w", …)`
  (`internal/tunnel.go:198`). With a nil error this still yields a non-nil
  error, whose text ends in "%!w(<nil>)". That text does not match the
  signal pattern, so the exit is classified `Error` and retried through
  `Reopening`. `RunnerKeepsErrorText` states that runner-shaped outcomes
  never give `Cooper`.
- Once the child has ended, `GetPid` and `kill` still see its pid, because
  `cmd` is only replaced at the next launch (`internal/tunnel.go:78-79`,
  `:109-112`). A cancellation from `Reopening`, `PortBusy` or `Cooper` thus
  sends SIGKILL to the old process group, whose id may by then have been
  reused. `KillTarget` models exactly this.

## Model

| member | source | states |
|---|---|---|
| `Decimal.FromInt` | internal/status_string.go:28 | the rendering of an integer is non-empty, starts with '-' exactly for negatives, has only digits after that sign, and has no leading zero after the sign unless it is "0" |
| `Decimal.FromIntCanonical` | internal/status_string.go:28 | the rendering of every integer is in canonical form: digits with no leading zero, or '-' followed by such digits not starting with 0 |
| `Decimal.CanonicalUnique` | internal/status_string.go:28 | every canonical string reads as an integer whose rendering is that string, so each integer has exactly one canonical spelling |
| `Decimal.IntRoundTrip` | internal/status_string.go:28 | reading back the rendering of any integer gives that integer |
| `Decimal.FromIntInjective` | internal/tunnel.go:45 | different integers render differently |
| `StatusEnum.Ordinal` | internal/status.go:7-32 | every status has a number below nine, and the constant declared at that position is that status |
| `StatusEnum.FromOrdinal` | internal/status.go:7-32 | an integer names a status exactly when it is in 0..8, and then that status has that number |
| `StatusEnum.DeclarationOrder` | internal/status.go:7-32 | there are exactly nine constants, numbered 0..8 in declaration order, and every status is one of them |
| `StatusEnum.OrdinalRoundTrip` | internal/status.go:7-32 | a status converted to its number and back is itself |
| `StatusEnum.OrdinalInjective` | internal/status.go:7-32 | two statuses with the same number are the same status |
| `StatusNames.IndexTableBounds` | internal/status_string.go:22-24 | the index table starts at 0, grows strictly, ends at the length of the name string (59) and fits in a byte |
| `StatusNames.SlicesAreIdentifiers` | internal/status_string.go:22-24 | the slice for number k is the declared identifier of the constant numbered k |
| `StatusNames.String` | internal/status_string.go:26-31 | a number in 0..8 renders as the identifier of its constant; any other renders as "Status(" + its canonical decimal rendering + ")", from which the number can be read back |
| `StatusNames.NamesConcatenate` | internal/status_string.go:22-30 | the names of 0..8 run together in order are exactly the name string |
| `StatusNames.StringInjective` | internal/status_string.go:26-31 | two integers with the same rendering are equal, in range or not |
| `Commands.Split` | internal/tunnel.go:49 | splitting on a single space gives at least one word, no word has a space, and joining the words with single spaces gives the input back |
| `Commands.SplitUnique` | internal/tunnel.go:49 | any cut of a string into space-free words that join back to it is the split, so split and join are inverses |
| `Commands.GetCommand` | internal/tunnel.go:39-53 | k8s wins and yields `kubectl` with the k8s arguments; otherwise a non-empty custom string yields its first space-separated word as program and the other words as arguments, which join back to it and contain no space; it fails, with "config is missing command information", exactly when neither is set |
| `Commands.PortPairRoundTrip` | internal/tunnel.go:45 | the "<local>:<remote>" argument gives back both ports |
| `Commands.K8sArgsRoundTrip` | internal/tunnel.go:40-46 | the kubectl argument vector gives back namespace, service, remote port, local port, and the context exactly when it was non-empty |
| `SignalMatch.Find` | internal/tunnel.go:19 | a match start is reported only where the pattern matches, and wherever it matches that start is the one reported |
| `SignalMatch.Found` | internal/tunnel.go:174 | `FindString` gives a suffix of the text at a matching position, beginning with "signal: " and longer than it |
| `SignalMatch.MatchUnique` | internal/tunnel.go:19 | the pattern matches a text at no more than one position |
| `SignalMatch.SignalAfterOutput` | internal/tunnel.go:172-174 | whatever output precedes it, a runner error ending in ": signal: <name>" matches, and `FindString` gives "signal: <name>" |
| `Supervisor.GetPid` | internal/tunnel.go:75-82 | the pid is 0 exactly when no process was launched or it never started, and otherwise is that process's pid |
| `Supervisor.GetError` | internal/tunnel.go:89-96 | the text is empty exactly when there is no error or its text is empty, and otherwise is the error's text |
| `Supervisor.RoundToSecond` | internal/tunnel.go:103 | the result is a whole number of seconds within half a second of the input, ties going away from zero, keeping the sign |
| `Supervisor.GetAge` | internal/tunnel.go:98-106 | the age is valid exactly while `Open`, is then the time since entry into `Open` rounded to the second with halves away from zero, and is 0 otherwise |
| `Supervisor.GetType` | internal/tunnel.go:123-133 | the type is "k8s", "custom" or "N/A"; it is "N/A" exactly when the command cannot be built, and "k8s" exactly when the k8s variant is set, whose program is then `kubectl` |
| `Supervisor.KillTarget` | internal/tunnel.go:108-116 | no kill without a pid; otherwise the target is the negated pid, so the whole process group is killed |
| `Supervisor.RunnerMessage` | internal/tunnel.go:196-199 | the outcome the runner sends is never empty |
| `Supervisor.Classify` | internal/tunnel.go:168-178 | only status and error change; no outcome gives `Cooper` and keeps the error; a text the signal pattern matches gives `Signal` with the matched suffix; any other text gives `Error` with the full text |
| `Supervisor.AfterSelect` | internal/tunnel.go:162-180 | the `select` changes only status, error and the runner flag; an outcome is received, and the runner flag cleared, only while a runner is outstanding, and then status and error are those of the classification; otherwise status and error are unchanged |
| `Supervisor.Dispatch` | internal/tunnel.go:181-212 | from Close/Reopening/Cooper/PortBusy: busy port gives `PortBusy` with no launch; free port and no command blocks forever; free port and a command launches a runner and gives `Opening` with nothing else changed, or `Open` with cleared error and fresh age after `Reopening`; `Opening` becomes `Open`; `Error` and `Signal` become `Reopening` keeping the error; `Open` stays |
| `Supervisor.Step` | internal/tunnel.go:160-213 | an iteration returns exactly on cancellation, with the tunnel unchanged and the kill target; it blocks only on a free port with no command; a runner newly outstanding was launched on a free port with the configured command; entering `Open` restarts the age clock; a completed iteration is never Close and, from any status other than Undefined, leaves the tunnel Opening, Open, Reopening or PortBusy; from any status other than Undefined no iteration produces Undefined |
| `Supervisor.NewTunnelInv` | internal/tunnel.go:66-73 | a new tunnel is `Close`, not started, with pid 0, no error text and no valid age, and satisfies the loop invariant once started |
| `Supervisor.StepPreservesInv` | internal/tunnel.go:160-213 | every completed iteration preserves the loop invariant: settled status, a runner outstanding exactly in Opening/Open with the configured command, no error while Open |
| `Supervisor.OneRunnerAtATime` | internal/tunnel.go:183-204 | a launch happens only when no runner is outstanding, and nothing is launched while one is and has not reported |
| `Supervisor.LeavingOpening` | internal/tunnel.go:205-209 | from `Opening` the next iteration shows `Open`, unless the child's exit arrived and was handled in that iteration |
| `Supervisor.FailureReopens` | internal/tunnel.go:168-211 | an error outcome, signal or not, is retried through `Reopening` in the iteration that receives it, with the signal suffix or the full text as the error |
| `Supervisor.CooperRelaunchesLikeClose` | internal/tunnel.go:183-203 | after a clean exit the loop relaunches exactly as from `Close` |
| `Supervisor.RunnerKeepsErrorText` | internal/tunnel.go:196-199 | with the runner's outcomes `Cooper` is never reached and a recorded error always has text |
| `Runs.Trace` | internal/tunnel.go:160-215 | the loop sees at most one state per input (one per input until an iteration returns or blocks, as `Runs.TraceStopsOnlyAtStopOrStuck` states), never changes the configuration or the started flag, and keeps the loop invariant in every state |
| `Runs.TraceStopsOnlyAtStopOrStuck` | internal/tunnel.go:160-193 | a run is cut short exactly when an iteration fails to complete; one that returns was a cancellation, and one that blocks found the port free with a command that cannot be built |
| `Runs.RunsUntilCancelled` | internal/tunnel.go:160-215 | with a buildable command and no cancellation, every input yields a state: the loop never stops on its own |
| `Runs.Start` | internal/tunnel.go:153-157 | starting an already started tunnel runs nothing; every state of a run is started |
| `Runs.StartIsOneShot` | internal/tunnel.go:154-157 | starting a tunnel again, whatever state its loop has reached, runs nothing |
| `Runs.BusyPortStaysBusy` | internal/tunnel.go:183-188 | while the port stays busy a tunnel that has not launched is `PortBusy` on every iteration, with no valid age |
| `Runs.MissingCommandNeverOpens` | internal/tunnel.go:183-193 | a configuration with no command is `PortBusy` on every iteration it completes and never `Open`; every completed iteration found the port busy; the iteration that ends the run returns exactly when it is a cancellation and otherwise blocks for good |
| `Runs.FirstLaunch` | internal/tunnel.go:200-209 | a first launch shows `Opening` for one iteration, then `Open`; the age is valid only from `Open` on and counts from that iteration |
| `Runs.SignalOutcomeReopens` | internal/tunnel.go:172-174 | a runner outcome "<output>: signal: <name>" received while the child runs leaves the tunnel `Reopening` in the same iteration, its error reduced to "signal: <name>" and its configuration unchanged |
| `Runs.RetryOpensAtOnce` | internal/tunnel.go:162-208 | from `Reopening`, any non-cancelling iteration with a free port and a buildable command falls through to `Open`, clears the error and restarts the age clock at that iteration |
| `Runs.KilledBySignal` | internal/tunnel.go:168-211 | a child killed by a signal while `Opening` or `Open` leaves the tunnel `Reopening` with error "signal: <name>", and the next non-cancelling free-port iteration goes straight to `Open`, skipping `Opening` |
| `Runs.RunnerRunsKeepErrorText` | internal/tunnel.go:91-96 | on a run fed by the real runner, the error text is empty exactly when no error is recorded |

## Left out

- main.go is not part of this model. It covers argument handling, reading
  and decoding the JSON configuration, the signal-derived context, the
  `WaitGroup` fan-out and the terminal table with its 16-character name
  truncation. All of it is I/O, concurrency or display.
- `isPortBusy` binds a real TCP port. It is the `busy` input of each
  iteration.
- Process execution (`exec.CommandContext`, `CombinedOutput`, `Setpgid`,
  `syscall.Kill`) is not modelled. A launch records the command and an
  environment-chosen pid, and the child's end arrives later as an `Exited`
  event. The short window in which a launched command has no process yet is
  not modelled. Neither is the kill that `CommandContext` itself sends on
  cancellation.
- The error printing in `kill` is output only. The model keeps only the kill
  target.
- `sync.Locker`, the atomic swap and the two-second sleep are concurrency and
  timing. One iteration is one atomic step, `time.Now` is an integer clock in
  nanoseconds, and the start flag is a boolean.
- Two tunnels racing for the same port are not modelled. Each tunnel's view
  of the port is its own `busy` input.
- Integer widths are not modelled: Go's 64-bit `int` for ports and statuses,
  and the saturation of `time.Duration` arithmetic on overflow. Values in the
  model are unbounded.
- The classification accepts any outcome, including none, which gives
  `Cooper`. The real runner always sends a non-nil error, so `Cooper` is
  never reached from a real run. `RunnerKeepsErrorText` states this for
  outcomes shaped like the runner's.
- The clock inputs need not increase from one iteration to the next. Go's
  `time.Since` reads the monotonic clock, so the program never reports a
  negative age, while the model can. `FirstLaunch` therefore states when the
  age becomes valid, not that it is at least zero.
- Strings in the model are sequences of Unicode characters, while Go's are
  bytes. The space split and the signal pattern only involve ASCII
  characters, so this does not change their results.
- `GetName`, `GetStatus` and `GetLocalPort` only read a field. They are
  modelled as accessors and have no contract of their own.
