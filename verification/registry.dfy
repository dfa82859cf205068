/** The process table of internal/registry.go as a state machine: a map
    from id to process record plus configuration. Every operation is a pure
    transition; the OS (spawn, pipes, wait, signal delivery, liveness), the
    uuid generator and the inherited environment are parameters. */
module ProcessRegistry {
  import opened Results
  import Errors
  import opened OutputBuffers
  import opened Signals
  import opened Processes
  import opened Ordering

  type Id = string

  /** `RegistryConfig`, without the intervals and the persistence path. */
  datatype Config = Config(maxProcesses: int, outputBufferSize: nat)

  /** `DefaultRegistryConfig`: 1000 processes, 100 MiB per stream. */
  const DefaultConfig: Config := Config(1000, 100 * 1024 * 1024)

  const DefaultShell: string := "bash"

  datatype Registry = Registry(config: Config, procs: map<Id, Process>)

  /** A transition: the registry afterwards and the operation's result. */
  datatype Step<T> = Step(registry: Registry, result: Result<T, Errors.Error>)

  // ---------------------------------------------------------------------
  // StartProcess

  /** What the registry asks the OS to run: the argument vector, the
      environment (None: inherit), the working directory (None: inherit),
      and whether stdout and stderr are piped back. */
  datatype CommandLine = CommandLine(
    argv: seq<string>,
    env: Option<map<string, string>>,
    dir: Option<string>,
    pipeOutput: bool)

  /** What the OS reports for one spawn attempt, step by step: the stdin,
      stdout and stderr pipes, then the start itself (the pid on success). */
  datatype SpawnOutcome = SpawnOutcome(
    stdinPipe: Outcome<Errors.Error>,
    stdoutPipe: Outcome<Errors.Error>,
    stderrPipe: Outcome<Errors.Error>,
    start: Result<int, Errors.Error>)

  type Spawner = CommandLine -> SpawnOutcome

  /** The `exec.Cmd` built by `StartProcess`. */
  function PlanCommand(command: string, shell: string, args: seq<string>,
                       env: Option<map<string, string>>, workingDir: string,
                       inherited: map<string, string>, captureOutput: bool): (c: CommandLine)
    // explicit arguments run the command directly, otherwise the shell runs it
    ensures |args| > 0 ==> c.argv == [command] + args
    ensures |args| == 0 ==> c.argv == [shell, "-c", command]
    // without an overlay the child inherits; with one, supplied keys win
    ensures env.None? <==> c.env.None?
    ensures env.Some? ==> c.env.value.Keys == inherited.Keys + env.value.Keys
    ensures env.Some? ==> forall k :: k in env.value ==> c.env.value[k] == env.value[k]
    ensures env.Some? ==> forall k :: k in inherited && k !in env.value ==> c.env.value[k] == inherited[k]
    ensures c.dir.Some? <==> workingDir != ""
    ensures c.dir.Some? ==> c.dir.value == workingDir
    ensures c.pipeOutput == captureOutput
  {
    CommandLine(
      if |args| > 0 then [command] + args else [shell, "-c", command],
      if env.Some? then Some(inherited + env.value) else None,
      if workingDir != "" then Some(workingDir) else None,
      captureOutput)
  }

  /** `StartProcess`. `id` is the uuid the generator yields, `inherited`
      the environment of the server, `spawn` the OS. */
  function StartProcess(reg: Registry, command: string, shell: string, args: seq<string>,
                        env: Option<map<string, string>>, workingDir: string, captureOutput: bool,
                        id: Id, inherited: map<string, string>, spawn: Spawner): (s: Step<Process>)
    // admission: a full table refuses and is left as it was
    ensures |reg.procs| >= reg.config.maxProcesses ==> s == Step(reg, Err(Errors.RegistryFull))
    // any failure leaves the table as it was
    ensures s.result.Err? ==> s.registry == reg
    // the OS is asked to run the planned command line; each failing step is reported in order
    ensures var sh := if shell == "" then DefaultShell else shell;
      var o := spawn(PlanCommand(command, sh, args, env, workingDir, inherited, captureOutput));
      && (|reg.procs| < reg.config.maxProcesses && o.stdinPipe.Fail? ==>
            s.result == Err(Errors.Wrapped("failed to create stdin pipe", o.stdinPipe.error)))
      && (|reg.procs| < reg.config.maxProcesses && o.stdinPipe.Pass? && captureOutput && o.stdoutPipe.Fail? ==>
            s.result == Err(Errors.Wrapped("failed to create stdout pipe", o.stdoutPipe.error)))
      && (|reg.procs| < reg.config.maxProcesses && o.stdinPipe.Pass? && captureOutput && o.stdoutPipe.Pass?
          && o.stderrPipe.Fail? ==>
            s.result == Err(Errors.Wrapped("failed to create stderr pipe", o.stderrPipe.error)))
      && (|reg.procs| < reg.config.maxProcesses && o.stdinPipe.Pass?
          && (captureOutput ==> o.stdoutPipe.Pass? && o.stderrPipe.Pass?) && o.start.Err? ==>
            s.result == Err(Errors.Wrapped("failed to start command", o.start.error)))
      && (s.result.Ok? <==>
            && |reg.procs| < reg.config.maxProcesses
            && o.stdinPipe.Pass?
            && (captureOutput ==> o.stdoutPipe.Pass? && o.stderrPipe.Pass?)
            && o.start.Ok?)
      && (s.result.Ok? ==> s.result.value.pid == o.start.value && s.result.value.shell == sh)
    // on success exactly this one entry is added, Running, with no exit code
    ensures s.result.Ok? ==>
      var p := s.result.value;
      && s.registry == reg.(procs := reg.procs[id := p])
      && p.id == id && p.command == command && p.args == args
      && p.state == Running && p.exitCode.None?
      && p.environment == env && p.workingDir == workingDir
      && p.handles == Handles(true, true, captureOutput, captureOutput, true)
      && p.output == NewOutputBuffer(reg.config.outputBufferSize)
    ensures s.result.Ok? && id !in reg.procs ==> |s.registry.procs| == |reg.procs| + 1
  {
    if |reg.procs| >= reg.config.maxProcesses then Step(reg, Err(Errors.RegistryFull))
    else
      var sh := if shell == "" then DefaultShell else shell;
      var o := spawn(PlanCommand(command, sh, args, env, workingDir, inherited, captureOutput));
      if o.stdinPipe.Fail? then
        Step(reg, Err(Errors.Wrapped("failed to create stdin pipe", o.stdinPipe.error)))
      else if captureOutput && o.stdoutPipe.Fail? then
        Step(reg, Err(Errors.Wrapped("failed to create stdout pipe", o.stdoutPipe.error)))
      else if captureOutput && o.stderrPipe.Fail? then
        Step(reg, Err(Errors.Wrapped("failed to create stderr pipe", o.stderrPipe.error)))
      else if o.start.Err? then
        Step(reg, Err(Errors.Wrapped("failed to start command", o.start.error)))
      else
        var p := Process(id, o.start.value, command, args, sh, Running, None, env, workingDir,
                         Handles(true, true, captureOutput, captureOutput, true),
                         NewOutputBuffer(reg.config.outputBufferSize));
        Step(reg.(procs := reg.procs[id := p]), Ok(p))
  }

  // ---------------------------------------------------------------------
  // Background workers

  /** Whether the capture worker of a stream still holds its pipe. */
  predicate Captures(p: Process, kind: StreamKind) {
    if kind == Stdout then p.handles.stdout else p.handles.stderr
  }

  /** One iteration of `captureOutput`: a scanned line, with its newline
      restored, is appended to the matching stream of the process. Nothing
      happens when the process is gone or its pipe was never opened or has
      been closed by `Cleanup`. */
  function CaptureLine(reg: Registry, id: Id, kind: StreamKind, line: seq<byte>): (r: Registry)
    ensures r.config == reg.config && r.procs.Keys == reg.procs.Keys
    ensures forall other :: other in reg.procs && other != id ==> r.procs[other] == reg.procs[other]
    ensures id in reg.procs && Captures(reg.procs[id], kind) ==>
      var p := reg.procs[id];
      var q := r.procs[id];
      && q == p.(output := q.output)
      && q.output == Write(p.output, kind, line + [Newline])
      && q.output.Get(kind).End() == p.output.Get(kind).End() + |line| + 1
      && q.output.Get(kind.Other()) == p.output.Get(kind.Other())
      && (|line| + 1 <= p.output.maxSize ==>
            && |line| + 1 <= |q.output.Get(kind).data|
            && q.output.Get(kind).data[|q.output.Get(kind).data| - |line| - 1..] == line + [Newline])
    ensures !(id in reg.procs && Captures(reg.procs[id], kind)) ==> r == reg
  {
    if id in reg.procs && Captures(reg.procs[id], kind) then
      var p := reg.procs[id];
      reg.(procs := reg.procs[id := p.(output := Write(p.output, kind, line + [Newline]))])
    else reg
  }

  /** `captureOutput` over a series of scanned lines. */
  function CaptureLines(reg: Registry, id: Id, kind: StreamKind, lines: seq<seq<byte>>): (r: Registry)
    ensures r.config == reg.config && r.procs.Keys == reg.procs.Keys
    // only the capturing entry's output changes
    ensures forall other :: other in reg.procs && other != id ==> r.procs[other] == reg.procs[other]
    ensures id in reg.procs ==> r.procs[id] == reg.procs[id].(output := r.procs[id].output)
    ensures id in reg.procs ==> r.procs[id].output.Get(kind.Other()) == reg.procs[id].output.Get(kind.Other())
    // with the pipe absent or closed, nothing is captured
    ensures !(id in reg.procs && Captures(reg.procs[id], kind)) ==> r == reg
    decreases |lines|
  {
    if lines == [] then reg else CaptureLines(CaptureLine(reg, id, kind, lines[0]), id, kind, lines[1..])
  }

  /** The lines as they reach the buffer: each followed by a newline. */
  function WithNewlines(lines: seq<seq<byte>>): seq<seq<byte>>
    ensures |WithNewlines(lines)| == |lines|
    ensures forall i :: 0 <= i < |lines| ==> WithNewlines(lines)[i] == lines[i] + [Newline]
  {
    seq(|lines|, i requires 0 <= i < |lines| => lines[i] + [Newline])
  }

  /** While the pipe is open, capturing a series of lines writes each line
      and its newline to the stream in turn, and changes nothing else. */
  lemma {:induction false} CaptureLinesAppends(reg: Registry, id: Id, kind: StreamKind, lines: seq<seq<byte>>)
    requires id in reg.procs && Captures(reg.procs[id], kind)
    ensures var r := CaptureLines(reg, id, kind, lines);
      var p := reg.procs[id];
      && id in r.procs && r.procs.Keys == reg.procs.Keys
      && r.procs[id] == p.(output := r.procs[id].output)
      && r.procs[id].output.Get(kind) == AppendAll(p.output.Get(kind), WithNewlines(lines), p.output.maxSize)
      && r.procs[id].output.Get(kind.Other()) == p.output.Get(kind.Other())
    decreases |lines|
  {
    if lines != [] {
      var p := reg.procs[id];
      var next := CaptureLine(reg, id, kind, lines[0]);
      assert next.procs[id].output == Write(p.output, kind, lines[0] + [Newline]);
      CaptureLinesAppends(next, id, kind, lines[1..]);
      assert WithNewlines(lines)[0] == lines[0] + [Newline];
      assert WithNewlines(lines)[1..] == WithNewlines(lines[1..]);
    }
  }

  /** While the pipe is open, capturing a series of lines makes the stream
      a window on its previous log followed by every line and its newline;
      the other stream and all other entries are untouched. */
  lemma CaptureLinesRetains(reg: Registry, id: Id, kind: StreamKind, lines: seq<seq<byte>>, log: seq<byte>)
    requires id in reg.procs && Captures(reg.procs[id], kind)
    requires Retains(reg.procs[id].output.Get(kind), log)
    ensures var r := CaptureLines(reg, id, kind, lines);
      && id in r.procs
      && r.procs.Keys == reg.procs.Keys
      && Retains(r.procs[id].output.Get(kind), log + Flatten(WithNewlines(lines)))
      && r.procs[id].output.Get(kind.Other()) == reg.procs[id].output.Get(kind.Other())
      && r.procs[id] == reg.procs[id].(output := r.procs[id].output)
  {
    var p := reg.procs[id];
    CaptureLinesAppends(reg, id, kind, lines);
    AppendAllRetains(p.output.Get(kind), log, WithNewlines(lines), p.output.maxSize);
  }

  /** How `cmd.Wait` returned. */
  datatype WaitOutcome =
    | Exited                           // nil: exit status 0
    | ExitError(code: int)             // an *exec.ExitError carrying the exit code
    | WaitFailed(error: Errors.Error)  // any other error

  /** `monitorProcess` once `Wait` returns: the exit code is recorded when
      it is known, and the state becomes Terminated in every case. `Wait`
      also closes the parent's ends of the stdout and stderr pipes, so the
      capture workers stop with it: output they had not yet scanned is
      lost. */
  function Monitor(reg: Registry, id: Id, wait: WaitOutcome): (r: Registry)
    ensures r.config == reg.config && r.procs.Keys == reg.procs.Keys
    ensures forall other :: other in reg.procs && other != id ==> r.procs[other] == reg.procs[other]
    ensures id in reg.procs ==>
      var p := reg.procs[id];
      var q := r.procs[id];
      && q.state == Terminated
      && !Captures(q, Stdout) && !Captures(q, Stderr)
      && q == p.(state := Terminated, exitCode := q.exitCode, handles := q.handles)
      && q.handles == p.handles.(stdout := false, stderr := false)
      && (wait.Exited? ==> q.exitCode == Some(0))
      && (wait.ExitError? ==> q.exitCode == Some(wait.code))
      && (wait.WaitFailed? ==> q.exitCode == p.exitCode)
    ensures id !in reg.procs ==> r == reg
  {
    if id !in reg.procs then reg
    else
      var p := reg.procs[id];
      var p' := match wait
        case Exited => SetExitCode(p, 0)
        case ExitError(code) => SetExitCode(p, code)
        case WaitFailed(_) => p;
      var closed := p'.(handles := p'.handles.(stdout := false, stderr := false));
      reg.(procs := reg.procs[id := SetState(closed, Terminated)])
  }

  /** Once the monitor has seen the exit, a late line from either capture
      worker no longer reaches the buffer. */
  lemma NoCaptureAfterExit(reg: Registry, id: Id, wait: WaitOutcome, kind: StreamKind, line: seq<byte>)
    ensures CaptureLine(Monitor(reg, id, wait), id, kind, line) == Monitor(reg, id, wait)
  {
  }

  // ---------------------------------------------------------------------
  // Lookup and dispatch

  /** `GetProcess`. */
  function GetProcess(reg: Registry, id: Id): (r: Result<Process, Errors.Error>)
    ensures r.Ok? <==> id in reg.procs
    ensures r.Ok? ==> r.value == reg.procs[id]
    ensures r.Err? ==> r.error == Errors.ProcessNotFound
  {
    if id in reg.procs then Ok(reg.procs[id]) else Err(Errors.ProcessNotFound)
  }

  /** The result of `TerminateProcess`, and whether it left a goroutine
      behind that kills the process when the grace period ends. */
  datatype Termination = Termination(outcome: Outcome<Errors.Error>, graceKill: bool)

  /** `TerminateProcess`. The table is never changed by it: the state only
      moves once the monitor sees the exit. */
  function TerminateProcess(reg: Registry, id: Id, force: bool, gracePeriod: int, deliver: Deliver): (t: Termination)
    ensures id !in reg.procs ==> t == Termination(Fail(Errors.ProcessNotFound), false)
    ensures id in reg.procs && !reg.procs[id].IsRunning() ==>
      t == Termination(Fail(Errors.ProcessAlreadyTerminated), false)
    // force kills at once, with no grace period
    ensures id in reg.procs && reg.procs[id].IsRunning() && force ==>
      t == Termination(SendSignal(reg.procs[id], Named(SIGKILL), deliver), false)
    // otherwise SIGTERM, and a deferred kill only after a successful SIGTERM with a positive period
    ensures id in reg.procs && reg.procs[id].IsRunning() && !force ==>
      && t.outcome == SendSignal(reg.procs[id], Named(SIGTERM), deliver)
      && (t.graceKill <==> t.outcome.Pass? && gracePeriod > 0)
  {
    if id !in reg.procs then Termination(Fail(Errors.ProcessNotFound), false)
    else
      var p := reg.procs[id];
      if !p.IsRunning() then Termination(Fail(Errors.ProcessAlreadyTerminated), false)
      else if force then Termination(SendSignal(p, Named(SIGKILL), deliver), false)
      else
        var o := SendSignal(p, Named(SIGTERM), deliver);
        if o.Fail? then Termination(o, false)
        else Termination(Pass, gracePeriod > 0)
  }

  /** The deferred check when the grace period ends, on the process as it
      is then: SIGKILL if it is still Running (result ignored), else
      nothing. None means no signal was attempted. */
  function GraceExpired(p: Process, deliver: Deliver): (r: Option<Outcome<Errors.Error>>)
    ensures r.Some? <==> p.IsRunning()
    ensures r.Some? ==> r.value == SendSignal(p, Named(SIGKILL), deliver)
  {
    if p.IsRunning() then Some(SendSignal(p, Named(SIGKILL), deliver)) else None
  }

  /** `SendSignalToProcess`. */
  function SendSignalToProcess(reg: Registry, id: Id, sig: Signal, deliver: Deliver): (r: Outcome<Errors.Error>)
    ensures id !in reg.procs ==> r == Fail(Errors.ProcessNotFound)
    ensures id in reg.procs ==> r == SendSignal(reg.procs[id], sig, deliver)
  {
    if id !in reg.procs then Fail(Errors.ProcessNotFound) else SendSignal(reg.procs[id], sig, deliver)
  }

  /** `SendInputToProcess`. */
  function SendInputToProcess(reg: Registry, id: Id, data: seq<byte>, pipe: Pipe): (r: Outcome<Errors.Error>)
    ensures id !in reg.procs ==> r == Fail(Errors.ProcessNotFound)
    ensures id in reg.procs && !reg.procs[id].IsRunning() ==> r == Fail(Errors.ProcessNotRunning)
    ensures id in reg.procs && reg.procs[id].IsRunning() ==> r == WriteToStdin(reg.procs[id], data, pipe)
  {
    if id !in reg.procs then Fail(Errors.ProcessNotFound)
    else if !reg.procs[id].IsRunning() then Fail(Errors.ProcessNotRunning)
    else WriteToStdin(reg.procs[id], data, pipe)
  }

  /** The stream a name selects, if any. */
  function StreamNamed(stream: string): (k: Option<StreamKind>)
    ensures k == Some(Stdout) <==> stream == "stdout"
    ensures k == Some(Stderr) <==> stream == "stderr"
  {
    if stream == "stdout" then Some(Stdout)
    else if stream == "stderr" then Some(Stderr)
    else None
  }

  /** `ReadProcessOutput`: lookup first, then the stream name. */
  function ReadProcessOutput(reg: Registry, id: Id, stream: string, position: int, maxBytes: nat): (r: Result<ReadResult, Errors.Error>)
    ensures id !in reg.procs ==> r == Err(Errors.ProcessNotFound)
    ensures id in reg.procs && StreamNamed(stream).None? ==> r == Err(Errors.InvalidInput)
    ensures id in reg.procs && StreamNamed(stream).Some? ==>
      r == Ok(Read(reg.procs[id].output.Get(StreamNamed(stream).value), position, maxBytes))
  {
    if id !in reg.procs then Err(Errors.ProcessNotFound)
    else
      match StreamNamed(stream)
      case None => Err(Errors.InvalidInput)
      case Some(kind) => Ok(Read(reg.procs[id].output.Get(kind), position, maxBytes))
  }

  /** `OutputInfo`. */
  datatype OutputInfo = OutputInfo(stdoutSize: nat, stdoutPosition: nat, stderrSize: nat, stderrPosition: nat)

  /** `ProcessStatus`, without times and resource sampling. */
  datatype Status = Status(id: Id, pid: int, command: string, shell: string,
                           state: ProcessState, exitCode: Option<int>, outputInfo: OutputInfo)

  /** `GetProcessStatus`. */
  function GetProcessStatus(reg: Registry, id: Id): (r: Result<Status, Errors.Error>)
    ensures id !in reg.procs ==> r == Err(Errors.ProcessNotFound)
    ensures id in reg.procs ==> r.Ok?
    ensures r.Ok? ==>
      var p := reg.procs[id];
      var info := r.value.outputInfo;
      && r.value.id == p.id && r.value.pid == p.pid && r.value.command == p.command
      && r.value.shell == p.shell && r.value.state == p.state && r.value.exitCode == p.exitCode
      // the reported size and position bound what a reader can still fetch
      && info.stdoutPosition + info.stdoutSize == p.output.stdout.End()
      && info.stderrPosition + info.stderrSize == p.output.stderr.End()
      && info.stdoutPosition == p.output.stdout.base
      && info.stderrPosition == p.output.stderr.base
  {
    if id !in reg.procs then Err(Errors.ProcessNotFound)
    else
      var p := reg.procs[id];
      var (outSize, outPos) := SizeAndPosition(p.output.stdout);
      var (errSize, errPos) := SizeAndPosition(p.output.stderr);
      Ok(Status(p.id, p.pid, p.command, p.shell, p.state, p.exitCode,
                OutputInfo(outSize, outPos, errSize, errPos)))
  }

  // ---------------------------------------------------------------------
  // Sweep and shutdown

  function TerminatedIds(reg: Registry): set<Id> {
    set id | id in reg.procs && reg.procs[id].state == Terminated
  }

  /** `cleanupTerminatedProcesses`: every Terminated entry is removed (its
      resources released first, which no one can observe afterwards), and
      every other entry is kept as it is. */
  function CleanupTerminated(reg: Registry): (r: Registry)
    ensures r.config == reg.config
    ensures forall id :: id in r.procs <==> id in reg.procs && reg.procs[id].state != Terminated
    ensures forall id :: id in r.procs ==> r.procs[id] == reg.procs[id]
    ensures r.procs.Keys == reg.procs.Keys - TerminatedIds(reg)
  {
    reg.(procs := map id | id in reg.procs && reg.procs[id].state != Terminated :: reg.procs[id])
  }

  /** A sweep frees exactly one slot per Terminated entry. */
  lemma SweepFreesTerminated(reg: Registry)
    ensures |CleanupTerminated(reg).procs| == |reg.procs| - |TerminatedIds(reg)|
  {
    var r := CleanupTerminated(reg);
    var t := TerminatedIds(reg);
    assert reg.procs.Keys == r.procs.Keys + t;
    assert r.procs.Keys !! t;
  }

  /** A second sweep finds nothing left to do. */
  lemma SweepIsIdempotent(reg: Registry)
    ensures CleanupTerminated(CleanupTerminated(reg)) == CleanupTerminated(reg)
  {
    var r := CleanupTerminated(reg);
    assert CleanupTerminated(r).procs == r.procs;
  }

  /** Once the monitor has seen an exit, the next sweep removes exactly that
      entry among the ones that were not yet Terminated. */
  lemma ExitedEntryIsSwept(reg: Registry, id: Id, wait: WaitOutcome)
    requires id in reg.procs
    ensures id !in CleanupTerminated(Monitor(reg, id, wait)).procs
    ensures forall other :: other != id ==>
      (other in CleanupTerminated(Monitor(reg, id, wait)).procs <==> other in CleanupTerminated(reg).procs)
  {
  }

  /** The ids to which `Shutdown` sends SIGTERM: the Running entries whose
      signal reaches the OS. */
  function ShutdownTargets(reg: Registry): set<Id> {
    set id | id in reg.procs && reg.procs[id].IsRunning() && reg.procs[id].handles.osProcess
  }

  /** `Shutdown`: best-effort SIGTERM to every Running entry (errors
      ignored) and `Cleanup` on every entry; none is removed. */
  function Shutdown(reg: Registry): (r: (Registry, set<Id>))
    ensures r.0.config == reg.config
    ensures r.0.procs.Keys == reg.procs.Keys
    ensures forall id :: id in reg.procs ==> r.0.procs[id] == Cleanup(reg.procs[id])
    ensures forall id :: id in r.1 <==> id in reg.procs && reg.procs[id].IsRunning() && reg.procs[id].handles.osProcess
  {
    (reg.(procs := map id | id in reg.procs :: Cleanup(reg.procs[id])), ShutdownTargets(reg))
  }

  /** After `Shutdown` no entry accepts input or captures output any more,
      whatever the OS would do, while signals reach the OS as before. */
  lemma ShutdownQuiesces(reg: Registry, id: Id, data: seq<byte>, pipe: Pipe,
                         kind: StreamKind, line: seq<byte>, sig: Signal, deliver: Deliver)
    ensures var r := Shutdown(reg).0;
      && SendInputToProcess(r, id, data, pipe).Fail?
      && (id in reg.procs ==> SendInputToProcess(r, id, data, pipe) == Fail(Errors.ProcessNotRunning))
      && CaptureLine(r, id, kind, line) == r
      && SendSignalToProcess(r, id, sig, deliver) == SendSignalToProcess(reg, id, sig, deliver)
  {
    if id in reg.procs {
      AfterCleanup(reg.procs[id], data, pipe, sig, deliver);
    }
  }

  // ---------------------------------------------------------------------
  // ListProcesses

  /** The state filter: empty and "all" match everything, any other value
      matches the entries whose state it names. */
  predicate MatchesFilter(p: Process, filter: string)
    ensures filter == "" || filter == "all" ==> MatchesFilter(p, filter)
    ensures p.state.Canonical() && filter != "" && filter != "all" ==>
      (MatchesFilter(p, filter) <==> StateFromLabel(filter) == p.state)
  {
    filter == "" || filter == "all" || p.state.Label() == filter
  }

  function MatchingIds(procs: map<Id, Process>, filter: string): set<Id> {
    set id | id in procs && MatchesFilter(procs[id], filter)
  }

  /** `order` is one iteration order of the map: every key exactly once. */
  predicate Enumerates(order: seq<Id>, keys: set<Id>) {
    && Distinct(order)
    && (forall i :: 0 <= i < |order| ==> order[i] in keys)
    && (forall k :: k in keys ==> k in order)
  }

  /** The ids of the matching entries, in iteration order. */
  function FilterIds(order: seq<Id>, procs: map<Id, Process>, filter: string): (ids: seq<Id>)
    requires forall i :: 0 <= i < |order| ==> order[i] in procs
    ensures forall id :: id in ids <==> id in order && MatchesFilter(procs[id], filter)
    ensures forall i :: 0 <= i < |ids| ==> ids[i] in procs
    ensures Distinct(order) ==> Distinct(ids)
    decreases |order|
  {
    if order == [] then []
    else
      var rest := FilterIds(order[1..], procs, filter);
      assert forall id :: id in order <==> id == order[0] || id in order[1..];
      if MatchesFilter(procs[order[0]], filter) then [order[0]] + rest else rest
  }

  lemma {:induction false} DistinctCardinality<T>(s: seq<T>)
    requires Distinct(s)
    ensures |set x | x in s| == |s|
    decreases |s|
  {
    if s != [] {
      DistinctCardinality(s[1..]);
      assert (set x | x in s) == (set x | x in s[1..]) + {s[0]};
      assert s[0] !in s[1..];
    }
  }

  /** The page `filtered[start:end]` with `start` and `end` clamped to the
      length; `offset` and `limit` are non-negative because the Go slice
      expression would panic otherwise. */
  function Paginate<T>(xs: seq<T>, limit: nat, offset: nat): (page: seq<T>)
    ensures |page| == Min(limit, Max(0, |xs| - offset))
    ensures forall i :: 0 <= i < |page| ==> page[i] == xs[offset + i]
  {
    var start := Min(offset, |xs|);
    var end := Min(start + limit, |xs|);
    xs[start..end]
  }

  /** Two consecutive pages together are the page of their combined size:
      paging neither skips nor repeats an entry. */
  lemma PagesTile<T>(xs: seq<T>, limit1: nat, limit2: nat, offset: nat)
    ensures Paginate(xs, limit1, offset) + Paginate(xs, limit2, offset + limit1) == Paginate(xs, limit1 + limit2, offset)
  {
    var a := Paginate(xs, limit1, offset);
    var b := Paginate(xs, limit2, offset + limit1);
    var c := Paginate(xs, limit1 + limit2, offset);
    assert |a + b| == |c|;
    forall i | 0 <= i < |c|
      ensures (a + b)[i] == c[i]
    {
      if i >= |a| {
        assert (a + b)[i] == b[i - |a|];
      }
    }
  }

  datatype Listing = Listing(page: seq<Process>, total: nat)

  /** The table entries of `ids`, in order. */
  function Entries(procs: map<Id, Process>, ids: seq<Id>): (ps: seq<Process>)
    requires forall i :: 0 <= i < |ids| ==> ids[i] in procs
    ensures |ps| == |ids|
    ensures forall i :: 0 <= i < |ids| ==> ps[i] == procs[ids[i]]
  {
    seq(|ids|, i requires 0 <= i < |ids| => procs[ids[i]])
  }

  lemma EntriesAppend(procs: map<Id, Process>, a: seq<Id>, b: seq<Id>)
    requires forall i :: 0 <= i < |a| ==> a[i] in procs
    requires forall i :: 0 <= i < |b| ==> b[i] in procs
    ensures forall i :: 0 <= i < |a + b| ==> (a + b)[i] in procs
    ensures Entries(procs, a) + Entries(procs, b) == Entries(procs, a + b)
  {
    var l := Entries(procs, a) + Entries(procs, b);
    forall i | 0 <= i < |l|
      ensures l[i] == Entries(procs, a + b)[i]
    {
      if i >= |a| {
        assert l[i] == Entries(procs, b)[i - |a|];
      }
    }
  }

  /** `ListProcesses`. `order` is the iteration order of the Go map, which
      is unspecified; no sorting is applied and `sortBy` is ignored. */
  function ListProcesses(reg: Registry, filter: string, limit: nat, offset: nat, sortBy: string, order: seq<Id>): (l: Listing)
    requires Enumerates(order, reg.procs.Keys)
    // the total counts every matching entry, before paging
    ensures l.total == |MatchingIds(reg.procs, filter)|
    ensures l.total == |FilterIds(order, reg.procs, filter)|
    // the page is the window [offset, offset + limit) of the matches, clamped
    ensures |l.page| == Min(limit, Max(0, l.total - offset))
    ensures offset >= l.total ==> l.page == []
    ensures l.page == Entries(reg.procs, Paginate(FilterIds(order, reg.procs, filter), limit, offset))
    ensures forall i :: 0 <= i < |l.page| ==>
      l.page[i] == reg.procs[FilterIds(order, reg.procs, filter)[offset + i]]
    ensures forall i :: 0 <= i < |l.page| ==> l.page[i] in reg.procs.Values && MatchesFilter(l.page[i], filter)
  {
    var ids := FilterIds(order, reg.procs, filter);
    DistinctCardinality(ids);
    assert (set x | x in ids) == MatchingIds(reg.procs, filter);
    var page := Paginate(ids, limit, offset);
    assert forall i :: 0 <= i < |page| ==> page[i] in ids;
    Listing(Entries(reg.procs, page), |ids|)
  }

  /** Consecutive listings with the same filter and the same iteration
      order tile: the pages neither skip nor repeat an entry. Nothing ties
      the iteration order of one call to the next; see
      `UnsortedListingsRepeat`. */
  lemma ListingsTile(reg: Registry, filter: string, limit1: nat, limit2: nat, offset: nat, sortBy: string, order: seq<Id>)
    requires Enumerates(order, reg.procs.Keys)
    ensures ListProcesses(reg, filter, limit1, offset, sortBy, order).page
          + ListProcesses(reg, filter, limit2, offset + limit1, sortBy, order).page
         == ListProcesses(reg, filter, limit1 + limit2, offset, sortBy, order).page
  {
    var ids := FilterIds(order, reg.procs, filter);
    PagesTile(ids, limit1, limit2, offset);
    EntriesAppend(reg.procs, Paginate(ids, limit1, offset), Paginate(ids, limit2, offset + limit1));
  }

  /** As written, the page depends on the map's iteration order, which may
      differ between calls: with two entries and a page size of one, the
      first page under one order and the second page under the other both
      show `a`, and `b` is never shown. */
  lemma UnsortedListingsRepeat(pa: Process, pb: Process)
    ensures var reg := Registry(DefaultConfig, map["a" := pa, "b" := pb]);
      && Enumerates(["a", "b"], reg.procs.Keys)
      && Enumerates(["b", "a"], reg.procs.Keys)
      && ListProcesses(reg, "all", 1, 0, "", ["a", "b"]).page == [pa]
      && ListProcesses(reg, "all", 1, 1, "", ["b", "a"]).page == [pa]
  {
    var reg := Registry(DefaultConfig, map["a" := pa, "b" := pb]);
    assert reg.procs.Keys == {"a", "b"};
    assert FilterIds(["a", "b"], reg.procs, "all") == ["a", "b"];
    assert FilterIds(["b", "a"], reg.procs, "all") == ["b", "a"];
  }

  /** Sorting an enumeration of the keys enumerates the keys. */
  lemma SortEnumerates(started: Clock, order: seq<Id>, keys: set<Id>)
    requires Enumerates(order, keys)
    ensures Enumerates(Sort(started, order), keys)
  {
    var s := Sort(started, order);
    SortedDistinct(started, s);
    forall i | 0 <= i < |s|
      ensures s[i] in keys
    {
      assert s[i] in order;
    }
  }

  /** Filtering keeps the order of what it keeps. */
  lemma {:induction false} FilterSorted(started: Clock, s: seq<Id>, procs: map<Id, Process>, filter: string)
    requires forall i :: 0 <= i < |s| ==> s[i] in procs
    requires SortedBy(started, s)
    ensures SortedBy(started, FilterIds(s, procs, filter))
    decreases |s|
  {
    if s != [] {
      SortedTail(started, s);
      FilterSorted(started, s[1..], procs, filter);
      var rest := FilterIds(s[1..], procs, filter);
      if MatchesFilter(procs[s[0]], filter) {
        assert forall y :: y in rest ==> y in s[1..];
        SortedCons(started, s[0], rest);
      }
    }
  }

  /** `ListProcesses` with the sort its comment announces: the matching
      entries sorted by start time before paging. The comment names start
      time only; the tie-break by id is the model's, to make the order
      total. `started` gives each id's start time. */
  function ListProcessesSorted(reg: Registry, filter: string, limit: nat, offset: nat, sortBy: string,
                               order: seq<Id>, started: Clock): (l: Listing)
    requires Enumerates(order, reg.procs.Keys)
    ensures Enumerates(Sort(started, order), reg.procs.Keys)
    ensures l.total == |MatchingIds(reg.procs, filter)|
    // the matches are listed in the stable order, whatever the iteration order
    ensures SortedBy(started, FilterIds(Sort(started, order), reg.procs, filter))
    ensures |l.page| == Min(limit, Max(0, l.total - offset))
    ensures l.page == Entries(reg.procs, Paginate(FilterIds(Sort(started, order), reg.procs, filter), limit, offset))
  {
    SortEnumerates(started, order, reg.procs.Keys);
    FilterSorted(started, Sort(started, order), reg.procs, filter);
    ListProcesses(reg, filter, limit, offset, sortBy, Sort(started, order))
  }

  /** The sorted listing does not depend on the iteration order. */
  lemma SortedListingIgnoresOrder(reg: Registry, filter: string, limit: nat, offset: nat, sortBy: string,
                                  order1: seq<Id>, order2: seq<Id>, started: Clock)
    requires Enumerates(order1, reg.procs.Keys) && Enumerates(order2, reg.procs.Keys)
    ensures ListProcessesSorted(reg, filter, limit, offset, sortBy, order1, started)
         == ListProcessesSorted(reg, filter, limit, offset, sortBy, order2, started)
  {
    forall y
      ensures y in Sort(started, order1) <==> y in Sort(started, order2)
    {
      assert y in order1 <==> y in reg.procs.Keys;
      assert y in order2 <==> y in reg.procs.Keys;
    }
    SortedUnique(started, Sort(started, order1), Sort(started, order2));
  }

  /** Consecutive sorted listings tile even when each call sees the table
      in a different iteration order: paging neither skips nor repeats an
      entry. */
  lemma SortedListingsTile(reg: Registry, filter: string, limit1: nat, limit2: nat, offset: nat, sortBy: string,
                           order1: seq<Id>, order2: seq<Id>, order3: seq<Id>, started: Clock)
    requires Enumerates(order1, reg.procs.Keys)
    requires Enumerates(order2, reg.procs.Keys)
    requires Enumerates(order3, reg.procs.Keys)
    ensures ListProcessesSorted(reg, filter, limit1, offset, sortBy, order1, started).page
          + ListProcessesSorted(reg, filter, limit2, offset + limit1, sortBy, order2, started).page
         == ListProcessesSorted(reg, filter, limit1 + limit2, offset, sortBy, order3, started).page
  {
    SortedListingIgnoresOrder(reg, filter, limit1, offset, sortBy, order1, order3, started);
    SortedListingIgnoresOrder(reg, filter, limit2, offset + limit1, sortBy, order2, order3, started);
    SortEnumerates(started, order3, reg.procs.Keys);
    ListingsTile(reg, filter, limit1, limit2, offset, sortBy, Sort(started, order3));
  }

  // ---------------------------------------------------------------------
  // loadFromDisk

  /** One entry of a snapshot as it decodes: each field is None when it is
      missing or of the wrong JSON type. */
  datatype SavedEntry = SavedEntry(pid: Option<int>, command: Option<string>, shell: Option<string>,
                                   state: Option<string>, exitCode: Option<int>)

  /** What gopsutil reports for a pid: running, not running, or an error
      from either `NewProcess` or `IsRunning`. */
  datatype Liveness = Alive | Gone | ProbeFailed

  type Probe = int -> Liveness

  /** Go's `int32(x)` conversion. */
  function ToInt32(x: int): (r: int)
    ensures -0x8000_0000 <= r < 0x8000_0000
    ensures (r - x) % 0x1_0000_0000 == 0
  {
    (x + 0x8000_0000) % 0x1_0000_0000 - 0x8000_0000
  }

  function GetOr<T>(o: Option<T>, default: T): T {
    if o.Some? then o.value else default
  }

  /** The process record rebuilt for one snapshot entry: metadata only, with
      no OS handle, no pipes, and empty buffers. A recorded Running state is
      kept only when the probe finds the pid alive. */
  function LoadEntry(id: Id, e: SavedEntry, bufferSize: nat, probe: Probe): (p: Process)
    ensures p.id == id && p.pid == GetOr(e.pid, 0)
    ensures p.command == GetOr(e.command, "") && p.shell == GetOr(e.shell, "")
    ensures p.exitCode == e.exitCode
    ensures GetOr(e.state, "") == "running" ==>
      (p.state == Running <==> probe(ToInt32(GetOr(e.pid, 0))) == Alive)
    ensures GetOr(e.state, "") == "running" && p.state != Running ==> p.state == Terminated
    ensures GetOr(e.state, "") != "running" ==> p.state.Label() == GetOr(e.state, "")
    ensures p.handles == Handles(false, false, false, false, true)
    ensures p.args == [] && p.environment.None? && p.workingDir == ""
    ensures p.output == NewOutputBuffer(bufferSize)
  {
    var pid := GetOr(e.pid, 0);
    var recorded := StateFromLabel(GetOr(e.state, ""));
    var state := if recorded == Running && probe(ToInt32(pid)) != Alive then Terminated else recorded;
    Process(id, pid, GetOr(e.command, ""), [], GetOr(e.shell, ""), state, e.exitCode, None, "",
            Handles(false, false, false, false, true), NewOutputBuffer(bufferSize))
  }

  /** The table-filling loop of `loadFromDisk`: every entry that decodes
      as an object is (re)placed in the table; the others are skipped. */
  function LoadFromDisk(reg: Registry, saved: map<Id, Option<SavedEntry>>, probe: Probe): (r: Registry)
    ensures r.config == reg.config
    ensures r.procs.Keys == reg.procs.Keys + (set id | id in saved && saved[id].Some?)
    ensures forall id :: id in saved && saved[id].Some? ==>
      r.procs[id] == LoadEntry(id, saved[id].value, reg.config.outputBufferSize, probe)
    ensures forall id :: id in reg.procs && !(id in saved && saved[id].Some?) ==> r.procs[id] == reg.procs[id]
  {
    reg.(procs := reg.procs + map id | id in saved && saved[id].Some? ::
                                LoadEntry(id, saved[id].value, reg.config.outputBufferSize, probe))
  }

  /** Entries rebuilt from a snapshot are inert: signals report
      ProcessNotFound and stdin writes ProcessNotRunning, whatever the OS
      would do, and a Running one can still not be terminated. */
  lemma LoadedEntriesAreInert(id: Id, e: SavedEntry, bufferSize: nat, probe: Probe,
                              sig: Signal, deliver: Deliver, data: seq<byte>, pipe: Pipe,
                              reg: Registry, force: bool, gracePeriod: int)
    ensures var p := LoadEntry(id, e, bufferSize, probe);
      && SendSignal(p, sig, deliver) == Fail(Errors.ProcessNotFound)
      && WriteToStdin(p, data, pipe) == Fail(Errors.ProcessNotRunning)
      && (id in reg.procs && reg.procs[id] == p && p.IsRunning() ==>
            TerminateProcess(reg, id, force, gracePeriod, deliver) == Termination(Fail(Errors.ProcessNotFound), false))
  {
  }

  // ---------------------------------------------------------------------
  // The capacity bound

  /** The admission bound: no more entries than `MaxProcesses`. */
  predicate WithinCapacity(reg: Registry) {
    |reg.procs| <= reg.config.maxProcesses
  }

  /** A start, whatever the OS says, keeps the table within its bound. */
  lemma StartKeepsCapacity(reg: Registry, command: string, shell: string, args: seq<string>,
                           env: Option<map<string, string>>, workingDir: string, captureOutput: bool,
                           id: Id, inherited: map<string, string>, spawn: Spawner)
    requires WithinCapacity(reg)
    ensures WithinCapacity(StartProcess(reg, command, shell, args, env, workingDir, captureOutput,
                                        id, inherited, spawn).registry)
  {
    var s := StartProcess(reg, command, shell, args, env, workingDir, captureOutput, id, inherited, spawn);
    if s.result.Ok? && id in reg.procs {
      assert s.registry.procs.Keys == reg.procs.Keys;
    }
  }

  /** Capture, exit, sweep and shutdown never add an entry, so they keep
      the bound too. Only `LoadFromDisk` ignores it: a snapshot is loaded
      whole. */
  lemma OtherStepsKeepCapacity(reg: Registry, id: Id, kind: StreamKind, line: seq<byte>, wait: WaitOutcome)
    requires WithinCapacity(reg)
    ensures WithinCapacity(CaptureLine(reg, id, kind, line))
    ensures WithinCapacity(Monitor(reg, id, wait))
    ensures WithinCapacity(CleanupTerminated(reg))
    ensures WithinCapacity(Shutdown(reg).0)
  {
    SweepFreesTerminated(reg);
    var c := CaptureLine(reg, id, kind, line);
    assert |c.procs| == |c.procs.Keys| == |reg.procs.Keys|;
    var m := Monitor(reg, id, wait);
    assert |m.procs| == |m.procs.Keys| == |reg.procs.Keys|;
    var d := Shutdown(reg).0;
    assert |d.procs| == |d.procs.Keys| == |reg.procs.Keys|;
  }

  /** A snapshot is loaded whole: the table ends up with at least one
      entry per decoded snapshot entry, however many the bound allows. */
  lemma LoadIgnoresCapacity(reg: Registry, saved: map<Id, Option<SavedEntry>>, probe: Probe)
    requires forall id :: id in saved ==> saved[id].Some?
    ensures |LoadFromDisk(reg, saved, probe).procs| >= |saved|
    ensures |saved| > reg.config.maxProcesses ==> !WithinCapacity(LoadFromDisk(reg, saved, probe))
  {
    var r := LoadFromDisk(reg, saved, probe);
    assert saved.Keys <= r.procs.Keys;
    SubsetCardinality(saved.Keys, r.procs.Keys);
  }

  lemma {:induction false} SubsetCardinality<T>(a: set<T>, b: set<T>)
    requires a <= b
    ensures |a| <= |b|
    decreases |a|
  {
    if a != {} {
      var x :| x in a;
      SubsetCardinality(a - {x}, b - {x});
    }
  }

  // ---------------------------------------------------------------------
  // An end-to-end run

  /** With room for two processes and an OS that always starts them: a
      third start is refused, and once the first has exited and a sweep
      has run, a fourth start succeeds. */
  lemma CapacityRoundTrip(spawn: Spawner, inherited: map<string, string>, a: Id, b: Id, c: Id, d: Id)
    requires forall cl :: spawn(cl).stdinPipe.Pass? && spawn(cl).stdoutPipe.Pass?
                          && spawn(cl).stderrPipe.Pass? && spawn(cl).start.Ok?
    requires a != b && d != b
    ensures
      var r0 := Registry(Config(2, 100), map[]);
      var s1 := StartProcess(r0, "sleep 1", "", [], None, "", true, a, inherited, spawn);
      var s2 := StartProcess(s1.registry, "sleep 1", "", [], None, "", true, b, inherited, spawn);
      var s3 := StartProcess(s2.registry, "sleep 1", "", [], None, "", true, c, inherited, spawn);
      var swept := CleanupTerminated(Monitor(s2.registry, a, Exited));
      var s4 := StartProcess(swept, "sleep 1", "", [], None, "", true, d, inherited, spawn);
      && s1.result.Ok? && s2.result.Ok?
      && s3 == Step(s2.registry, Err(Errors.RegistryFull))
      && s4.result.Ok? && s4.registry.procs.Keys == {b, d}
  {
    var r0 := Registry(Config(2, 100), map[]);
    var s1 := StartProcess(r0, "sleep 1", "", [], None, "", true, a, inherited, spawn);
    var s2 := StartProcess(s1.registry, "sleep 1", "", [], None, "", true, b, inherited, spawn);
    assert s2.registry.procs.Keys == {a, b};
    assert |s2.registry.procs| == 2;
    var m := Monitor(s2.registry, a, Exited);
    var swept := CleanupTerminated(m);
    assert swept.procs.Keys == {b};
    assert |swept.procs| == 1;
  }
}
