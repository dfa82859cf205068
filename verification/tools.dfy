/** The argument normalisation and result derivation of the process tools
    in internal/tools.go. Each tool is a function of the registry, its
    arguments and the OS oracles the registry call needs; JSON rendering,
    the MCP envelope and the global registry are not modelled. */
module Tools {
  import opened Results
  import Errors
  import opened OutputBuffers
  import opened Signals
  import opened Processes
  import opened ProcessRegistry
  import opened Ordering

  const DefaultLimit: nat := 100
  const MaxLimit: nat := 1000
  const DefaultMaxBytes: nat := 1024
  const MaxReadBytes: nat := 1048576
  const DefaultGraceSeconds: int := 5

  // ---------------------------------------------------------------------
  // Argument normalisation

  /** `limit` of `ListProcessesTool`: non-positive means the default, and
      anything above the maximum is capped. */
  function NormalizeLimit(limit: int): (r: nat)
    ensures 1 <= r <= MaxLimit
    ensures 1 <= limit <= MaxLimit ==> r == limit
    ensures limit <= 0 ==> r == DefaultLimit
    ensures limit > MaxLimit ==> r == MaxLimit
  {
    if limit <= 0 then DefaultLimit else if limit > MaxLimit then MaxLimit else limit
  }

  /** `offset` of `ListProcessesTool` and `position` of
      `ReadProcessOutputTool`: negative means 0. */
  function ClampToZero(n: int): (r: nat)
    ensures n >= 0 ==> r == n
    ensures n < 0 ==> r == 0
  {
    if n < 0 then 0 else n
  }

  /** `state` of `ListProcessesTool`: empty means "all". */
  function NormalizeStateFilter(state: string): (r: string)
    ensures r != ""
    ensures state != "" ==> r == state
    ensures state == "" ==> r == "all"
  {
    if state == "" then "all" else state
  }

  /** `max_bytes` of `ReadProcessOutputTool`: non-positive means the
      default, and anything above 1 MiB is capped. */
  function NormalizeMaxBytes(maxBytes: int): (r: nat)
    ensures 1 <= r <= MaxReadBytes
    ensures 1 <= maxBytes <= MaxReadBytes ==> r == maxBytes
    ensures maxBytes <= 0 ==> r == DefaultMaxBytes
    ensures maxBytes > MaxReadBytes ==> r == MaxReadBytes
  {
    if maxBytes <= 0 then DefaultMaxBytes else if maxBytes > MaxReadBytes then MaxReadBytes else maxBytes
  }

  /** `grace_period` of `TerminateProcessTool`, in seconds: 0 means 5;
      every other value, negative ones included, is passed on. */
  function GracePeriodSeconds(gracePeriod: int): (r: int)
    ensures gracePeriod != 0 ==> r == gracePeriod
    ensures gracePeriod == 0 ==> r == DefaultGraceSeconds
    ensures r != 0
  {
    if gracePeriod == 0 then DefaultGraceSeconds else gracePeriod
  }

  /** Normalised arguments are left alone by a second normalisation, so the
      values a tool reports back are accepted as they are. */
  lemma NormalizationIsIdempotent(limit: int, offset: int, state: string, maxBytes: int, grace: int)
    ensures NormalizeLimit(NormalizeLimit(limit)) == NormalizeLimit(limit)
    ensures ClampToZero(ClampToZero(offset)) == ClampToZero(offset)
    ensures NormalizeStateFilter(NormalizeStateFilter(state)) == NormalizeStateFilter(state)
    ensures NormalizeMaxBytes(NormalizeMaxBytes(maxBytes)) == NormalizeMaxBytes(maxBytes)
    ensures GracePeriodSeconds(GracePeriodSeconds(grace)) == GracePeriodSeconds(grace)
  {
  }

  // ---------------------------------------------------------------------
  // start_process

  datatype StartArgs = StartArgs(command: string, shell: string, captureOutput: bool,
                                 environment: Option<map<string, string>>, workingDir: string)

  datatype StartOutput = StartOutput(id: Id, pid: int, command: string, shell: string)

  /** `StartProcessTool`: refuses an empty command, and never passes
      arguments, so the command always runs through the shell. */
  function StartProcessTool(reg: Registry, args: StartArgs, id: Id,
                            inherited: map<string, string>, spawn: Spawner): (s: Step<StartOutput>)
    ensures args.command == "" ==> s == Step(reg, Err(Errors.Message("command cannot be empty")))
    ensures s.result.Err? ==> s.registry == reg
    ensures s.result.Ok? ==>
      var sh := if args.shell == "" then DefaultShell else args.shell;
      var cl := PlanCommand(args.command, sh, [], args.environment, args.workingDir, inherited, args.captureOutput);
      && args.command != ""
      && cl.argv == [sh, "-c", args.command]
      && spawn(cl).start.Ok?
      && s.result.value == StartOutput(id, spawn(cl).start.value, args.command, sh)
      && id in s.registry.procs && s.registry.procs[id].args == [] && s.registry.procs[id].IsRunning()
    ensures args.command != "" && |reg.procs| >= reg.config.maxProcesses ==>
      s == Step(reg, Err(Errors.Wrapped("failed to start process", Errors.RegistryFull)))
    // any registry error, whichever step failed, comes back wrapped; a registry success is a reply
    ensures args.command != "" ==>
      var st := StartProcess(reg, args.command, args.shell, [], args.environment, args.workingDir,
                             args.captureOutput, id, inherited, spawn);
      && (s.result.Ok? <==> st.result.Ok?)
      && (st.result.Err? ==> s.result == Err(Errors.Wrapped("failed to start process", st.result.error)))
  {
    if args.command == "" then Step(reg, Err(Errors.Message("command cannot be empty")))
    else
      var st := StartProcess(reg, args.command, args.shell, [], args.environment, args.workingDir,
                             args.captureOutput, id, inherited, spawn);
      match st.result
      case Err(e) => Step(reg, Err(Errors.Wrapped("failed to start process", e)))
      case Ok(p) => Step(st.registry, Ok(StartOutput(p.id, p.pid, p.command, p.shell)))
  }

  // ---------------------------------------------------------------------
  // list_processes

  datatype ListArgs = ListArgs(state: string, limit: int, offset: int, sortBy: string)

  /** `ProcessInfo`, without start time and runtime. */
  datatype ProcessInfo = ProcessInfo(id: Id, pid: int, command: string, shell: string,
                                     state: ProcessState, exitCode: Option<int>)

  datatype ListOutput = ListOutput(processes: seq<ProcessInfo>, total: nat, limit: nat, offset: nat)

  function Info(p: Process): ProcessInfo {
    ProcessInfo(p.id, p.pid, p.command, p.shell, p.state, p.exitCode)
  }

  function Infos(ps: seq<Process>): (r: seq<ProcessInfo>)
    ensures |r| == |ps|
    ensures forall i :: 0 <= i < |ps| ==> r[i] == Info(ps[i])
  {
    seq(|ps|, i requires 0 <= i < |ps| => Info(ps[i]))
  }

  /** `ListProcessesTool`. `order` is the iteration order of the table;
      the registry pages the matches in that order, unsorted. */
  function ListProcessesTool(reg: Registry, args: ListArgs, order: seq<Id>): (out: ListOutput)
    requires Enumerates(order, reg.procs.Keys)
    ensures 1 <= out.limit <= MaxLimit && out.limit == NormalizeLimit(args.limit)
    ensures out.offset == ClampToZero(args.offset)
    ensures out.total == |MatchingIds(reg.procs, NormalizeStateFilter(args.state))|
    ensures out.total == |FilterIds(order, reg.procs, NormalizeStateFilter(args.state))|
    // no state filter lists every entry
    ensures args.state == "" ==> out.total == |reg.procs|
    // the reply is the window [offset, offset + limit) of the matching entries
    ensures |out.processes| == Min(out.limit, Max(0, out.total - out.offset))
    ensures out.processes == Infos(Entries(reg.procs, Paginate(FilterIds(order, reg.procs, NormalizeStateFilter(args.state)), out.limit, out.offset)))
  {
    var limit := NormalizeLimit(args.limit);
    var offset := ClampToZero(args.offset);
    var filter := NormalizeStateFilter(args.state);
    var l := ListProcesses(reg, filter, limit, offset, args.sortBy, order);
    assert args.state == "" ==> MatchingIds(reg.procs, filter) == reg.procs.Keys;
    ListOutput(Infos(l.page), l.total, limit, offset)
  }

  /** Entry `i` of the reply is the matching entry at position
      `offset + i` of the iteration order. */
  lemma ListReplyIsWindow(reg: Registry, args: ListArgs, order: seq<Id>)
    requires Enumerates(order, reg.procs.Keys)
    ensures var out := ListProcessesTool(reg, args, order);
      var ids := FilterIds(order, reg.procs, NormalizeStateFilter(args.state));
      forall i :: 0 <= i < |out.processes| ==> out.offset + i < |ids| && out.processes[i] == Info(reg.procs[ids[out.offset + i]])
  {
  }

  /** As written, the reply follows the iteration order: with two entries
      and a limit of one, the first page under one order and the second
      page under the other both show `a`, and `b` is never shown. */
  lemma UnsortedRepliesRepeat(pa: Process, pb: Process)
    ensures var reg := Registry(DefaultConfig, map["a" := pa, "b" := pb]);
      && Enumerates(["a", "b"], reg.procs.Keys)
      && Enumerates(["b", "a"], reg.procs.Keys)
      && ListProcessesTool(reg, ListArgs("", 1, 0, ""), ["a", "b"]).processes == [Info(pa)]
      && ListProcessesTool(reg, ListArgs("", 1, 1, ""), ["b", "a"]).processes == [Info(pa)]
  {
    UnsortedListingsRepeat(pa, pb);
    var reg := Registry(DefaultConfig, map["a" := pa, "b" := pb]);
    assert ListProcessesTool(reg, ListArgs("", 1, 0, ""), ["a", "b"]).processes
        == Infos(ListProcesses(reg, "all", 1, 0, "", ["a", "b"]).page);
    assert ListProcessesTool(reg, ListArgs("", 1, 1, ""), ["b", "a"]).processes
        == Infos(ListProcesses(reg, "all", 1, 1, "", ["b", "a"]).page);
  }

  /** `ListProcessesTool` over the corrected, sorted listing. `started`
      gives the start time of each id. */
  function ListProcessesToolSorted(reg: Registry, args: ListArgs, order: seq<Id>, started: Clock): (out: ListOutput)
    requires Enumerates(order, reg.procs.Keys)
    ensures 1 <= out.limit <= MaxLimit && out.limit == NormalizeLimit(args.limit)
    ensures out.offset == ClampToZero(args.offset)
    ensures out.total == |MatchingIds(reg.procs, NormalizeStateFilter(args.state))|
    ensures Enumerates(Sort(started, order), reg.procs.Keys)
    // the matches are listed in the stable order
    ensures SortedBy(started, FilterIds(Sort(started, order), reg.procs, NormalizeStateFilter(args.state)))
    ensures |out.processes| == Min(out.limit, Max(0, out.total - out.offset))
    ensures out.processes == Infos(Entries(reg.procs, Paginate(FilterIds(Sort(started, order), reg.procs, NormalizeStateFilter(args.state)), out.limit, out.offset)))
  {
    var limit := NormalizeLimit(args.limit);
    var offset := ClampToZero(args.offset);
    var filter := NormalizeStateFilter(args.state);
    var l := ListProcessesSorted(reg, filter, limit, offset, args.sortBy, order, started);
    ListOutput(Infos(l.page), l.total, limit, offset)
  }

  /** The corrected reply does not depend on the iteration order of the
      table. */
  lemma ListReplyIgnoresOrder(reg: Registry, args: ListArgs, order1: seq<Id>, order2: seq<Id>, started: Clock)
    requires Enumerates(order1, reg.procs.Keys) && Enumerates(order2, reg.procs.Keys)
    ensures ListProcessesToolSorted(reg, args, order1, started) == ListProcessesToolSorted(reg, args, order2, started)
  {
    SortedListingIgnoresOrder(reg, NormalizeStateFilter(args.state), NormalizeLimit(args.limit),
                              ClampToZero(args.offset), args.sortBy, order1, order2, started);
  }

  // ---------------------------------------------------------------------
  // read_process_output

  datatype ReadArgs = ReadArgs(id: Id, stream: string, position: int, maxBytes: int)

  datatype ReadOutput = ReadOutput(data: seq<byte>, position: int, hasMore: bool, bytesRead: nat)

  /** `ReadProcessOutputTool`. The stream name is checked here before the
      registry is consulted, so a bad name is refused even for an unknown
      id. */
  function ReadProcessOutputTool(reg: Registry, args: ReadArgs): (r: Result<ReadOutput, Errors.Error>)
    ensures args.id == "" ==> r == Err(Errors.Message("process ID cannot be empty"))
    ensures args.id != "" && args.stream != "" && StreamNamed(args.stream).None? ==>
      r == Err(Errors.Message("invalid stream: must be 'stdout' or 'stderr'"))
    ensures args.id != "" && (args.stream == "" || StreamNamed(args.stream).Some?) && args.id !in reg.procs ==>
      r == Err(Errors.Wrapped("failed to read process output", Errors.ProcessNotFound))
    // a known id and a valid stream always give a reply
    ensures args.id != "" && (args.stream == "" || StreamNamed(args.stream).Some?) && args.id in reg.procs ==>
      r.Ok?
    ensures r.Ok? ==>
      var kind := if args.stream == "" then Stdout else StreamNamed(args.stream).value;
      var rr := Read(reg.procs[args.id].output.Get(kind), ClampToZero(args.position), NormalizeMaxBytes(args.maxBytes));
      && args.id in reg.procs
      && r.value == ReadOutput(rr.data, rr.position, rr.hasMore, |rr.data|)
      && r.value.bytesRead <= NormalizeMaxBytes(args.maxBytes) <= MaxReadBytes
  {
    if args.id == "" then Err(Errors.Message("process ID cannot be empty"))
    else
      var stream := if args.stream == "" then "stdout" else args.stream;
      if stream != "stdout" && stream != "stderr" then
        Err(Errors.Message("invalid stream: must be 'stdout' or 'stderr'"))
      else
        match ReadProcessOutput(reg, args.id, stream, ClampToZero(args.position), NormalizeMaxBytes(args.maxBytes))
        case Err(e) => Err(Errors.Wrapped("failed to read process output", e))
        case Ok(rr) => Ok(ReadOutput(rr.data, rr.position, rr.hasMore, |rr.data|))
  }

  // ---------------------------------------------------------------------
  // get_process_status

  /** `GetProcessStatusTool`: the registry's status of a known id. */
  function GetProcessStatusTool(reg: Registry, id: Id): (r: Result<Status, Errors.Error>)
    ensures id == "" ==> r == Err(Errors.Message("process ID cannot be empty"))
    ensures id != "" && id !in reg.procs ==>
      r == Err(Errors.Wrapped("failed to get process status", Errors.ProcessNotFound))
    ensures id != "" && id in reg.procs ==> r.Ok? && r == GetProcessStatus(reg, id)
  {
    if id == "" then Err(Errors.Message("process ID cannot be empty"))
    else
      match GetProcessStatus(reg, id)
      case Err(e) => Err(Errors.Wrapped("failed to get process status", e))
      case Ok(st) => Ok(st)
  }

  // ---------------------------------------------------------------------
  // send_process_input

  datatype InputArgs = InputArgs(id: Id, input: seq<byte>, binary: bool, newline: bool)

  datatype InputOutput = InputOutput(bytesSent: nat)

  /** The newline rule of `SendProcessInputTool`: one `'\n'` is added when
      asked for, the data is non-empty and it does not already end with one. */
  function AddNewline(data: seq<byte>, addNewline: bool): (r: seq<byte>)
    ensures addNewline && |data| > 0 && data[|data| - 1] != Newline ==> r == data + [Newline]
    ensures !(addNewline && |data| > 0 && data[|data| - 1] != Newline) ==> r == data
    ensures addNewline && |data| > 0 ==> r[|r| - 1] == Newline
    ensures r[..|data|] == data
  {
    if addNewline && |data| > 0 && data[|data| - 1] != Newline then data + [Newline] else data
  }

  /** Adding the newline twice adds it once. */
  lemma AddNewlineIdempotent(data: seq<byte>, addNewline: bool)
    ensures AddNewline(AddNewline(data, addNewline), addNewline) == AddNewline(data, addNewline)
  {
  }

  /** `SendProcessInputTool`. `decoded` is what base64 decoding of the input
      yields (only consulted for binary input), `pipe` the OS stdin. */
  function SendProcessInputTool(reg: Registry, args: InputArgs, decoded: Result<seq<byte>, Errors.Error>, pipe: Pipe): (r: Result<InputOutput, Errors.Error>)
    ensures args.id == "" ==> r == Err(Errors.Message("process ID cannot be empty"))
    ensures args.id != "" && args.input == [] ==> r == Err(Errors.Message("input cannot be empty"))
    ensures r.Ok? ==> !args.binary || decoded.Ok?
    ensures r.Ok? && (!args.binary || decoded.Ok?) ==>
      // binary input always gets the newline; text input only when asked
      var raw := if args.binary then decoded.value else args.input;
      var sent := AddNewline(raw, args.binary || args.newline);
      && SendInputToProcess(reg, args.id, sent, pipe) == Pass
      && r.value.bytesSent == |sent|
    ensures args.id != "" && args.input != [] && args.id !in reg.procs && (args.binary ==> decoded.Ok?) ==>
      r == Err(Errors.Wrapped("failed to send input to process", Errors.ProcessNotFound))
    ensures args.id != "" && args.input != [] && args.binary && decoded.Err? ==>
      r == Err(Errors.Wrapped("failed to decode base64 input", decoded.error))
    // once the input is decoded, the reply follows the registry's write
    ensures args.id != "" && args.input != [] && (args.binary ==> decoded.Ok?) ==>
      var raw := if args.binary then decoded.value else args.input;
      var o := SendInputToProcess(reg, args.id, AddNewline(raw, args.binary || args.newline), pipe);
      && (r.Ok? <==> o.Pass?)
      && (o.Fail? ==> r == Err(Errors.Wrapped("failed to send input to process", o.error)))
  {
    if args.id == "" then Err(Errors.Message("process ID cannot be empty"))
    else if args.input == [] then Err(Errors.Message("input cannot be empty"))
    else if args.binary && decoded.Err? then Err(Errors.Wrapped("failed to decode base64 input", decoded.error))
    else
      var raw := if args.binary then decoded.value else args.input;
      var sent := AddNewline(raw, args.binary || args.newline);
      match SendInputToProcess(reg, args.id, sent, pipe)
      case Fail(e) => Err(Errors.Wrapped("failed to send input to process", e))
      case Pass => Ok(InputOutput(|sent|))
  }

  // ---------------------------------------------------------------------
  // terminate_process

  datatype TerminateArgs = TerminateArgs(id: Id, force: bool, gracePeriod: int)

  /** `TerminateProcessOutput`, plus whether a deferred kill was scheduled
      (not part of the reply, but the visible effect of the grace period). */
  datatype TerminateOutput = TerminateOutput(id: Id, terminated: bool, wasRunning: bool, methodName: string, graceKill: bool)

  /** `TerminateProcessTool`. Only ProcessAlreadyTerminated from the
      registry is turned into a reply; it reads `terminated: false`. */
  function TerminateProcessTool(reg: Registry, args: TerminateArgs, deliver: Deliver): (r: Result<TerminateOutput, Errors.Error>)
    ensures args.id == "" ==> r == Err(Errors.Message("process ID cannot be empty"))
    ensures args.id != "" && args.id !in reg.procs ==>
      r == Err(Errors.Wrapped("failed to get process", Errors.ProcessNotFound))
    ensures r.Ok? ==>
      var t := TerminateProcess(reg, args.id, args.force, GracePeriodSeconds(args.gracePeriod), deliver);
      && args.id in reg.procs
      && r.value.id == args.id
      && r.value.wasRunning == reg.procs[args.id].IsRunning()
      && (r.value.terminated <==> !(t.outcome.Fail? && Errors.Is(t.outcome.error, Errors.ProcessAlreadyTerminated)))
      // with no concurrent exit, the reply says terminated exactly when the process was running
      && (r.value.terminated <==> r.value.wasRunning)
      && (r.value.methodName == if args.force then "forced" else "graceful")
      // a zero grace period still schedules the deferred kill, after 5 seconds
      && r.value.graceKill == t.graceKill
    ensures r.Ok? && r.value.wasRunning && !args.force && args.gracePeriod == 0 ==> r.value.graceKill
    // for a known id, only ProcessAlreadyTerminated is turned into a reply
    ensures args.id != "" && args.id in reg.procs ==>
      var t := TerminateProcess(reg, args.id, args.force, GracePeriodSeconds(args.gracePeriod), deliver);
      && (r.Ok? <==> t.outcome.Pass? || Errors.Is(t.outcome.error, Errors.ProcessAlreadyTerminated))
      && (r.Err? ==> r == Err(Errors.Wrapped("failed to terminate process", t.outcome.error)))
    // an entry that is no longer running gets a reply that nothing was terminated
    ensures args.id != "" && args.id in reg.procs && !reg.procs[args.id].IsRunning() ==>
      r == Ok(TerminateOutput(args.id, false, false, if args.force then "forced" else "graceful", false))
  {
    if args.id == "" then Err(Errors.Message("process ID cannot be empty"))
    else
      match GetProcess(reg, args.id)
      case Err(e) => Err(Errors.Wrapped("failed to get process", e))
      case Ok(p) =>
        var wasRunning := p.IsRunning();
        var t := TerminateProcess(reg, args.id, args.force, GracePeriodSeconds(args.gracePeriod), deliver);
        var already := t.outcome.Fail? && Errors.Is(t.outcome.error, Errors.ProcessAlreadyTerminated);
        if t.outcome.Fail? && !already then
          Err(Errors.Wrapped("failed to terminate process", t.outcome.error))
        else
          Ok(TerminateOutput(args.id, !already, wasRunning,
                             if args.force then "forced" else "graceful", t.graceKill))
  }

  // ---------------------------------------------------------------------
  // send_signal

  datatype SignalArgs = SignalArgs(id: Id, signal: string)

  datatype SignalOutput = SignalOutput(id: Id, signal: string, sent: bool)

  /** `SendSignalTool`. Its inline switch is the one of the Unix
      `parseSignal`. ProcessNotFound and ProcessNotRunning from the registry
      become a reply with `sent: false`; other errors stay errors. */
  function SendSignalTool(reg: Registry, args: SignalArgs, deliver: Deliver): (r: Result<SignalOutput, Errors.Error>)
    ensures args.id == "" ==> r == Err(Errors.Message("process ID cannot be empty"))
    ensures args.id != "" && args.signal == "" ==> r == Err(Errors.Message("signal cannot be empty"))
    ensures args.id != "" && args.signal != "" && ParseSignalUnix(args.signal).Err? ==>
      r == Err(Errors.Message(ParseSignalUnix(args.signal).error))
    // an unknown id is not an error: the reply says the signal was not sent
    ensures args.id != "" && args.signal != "" && ParseSignalUnix(args.signal).Ok? && args.id !in reg.procs ==>
      r == Ok(SignalOutput(args.id, args.signal, false))
    ensures r.Ok? ==>
      var o := SendSignalToProcess(reg, args.id, ParseSignalUnix(args.signal).value, deliver);
      && ParseSignalUnix(args.signal).Ok?
      && r.value.id == args.id && r.value.signal == args.signal
      && (r.value.sent <==> o.Pass?)
      && (o.Fail? ==> Errors.Is(o.error, Errors.ProcessNotFound) || Errors.Is(o.error, Errors.ProcessNotRunning))
    // for a parsed signal, a delivery or a sentinel error is a reply, any other error an error
    ensures args.id != "" && args.signal != "" && ParseSignalUnix(args.signal).Ok? ==>
      var o := SendSignalToProcess(reg, args.id, ParseSignalUnix(args.signal).value, deliver);
      && (r.Ok? <==> o.Pass? || Errors.Is(o.error, Errors.ProcessNotFound) || Errors.Is(o.error, Errors.ProcessNotRunning))
      && (r.Err? ==> r == Err(Errors.Wrapped("failed to send signal", o.error)))
    // an entry without an OS handle gets a reply that the signal was not sent
    ensures (args.id != "" && args.signal != "" && ParseSignalUnix(args.signal).Ok?
             && args.id in reg.procs && !reg.procs[args.id].handles.osProcess) ==>
      r == Ok(SignalOutput(args.id, args.signal, false))
  {
    if args.id == "" then Err(Errors.Message("process ID cannot be empty"))
    else if args.signal == "" then Err(Errors.Message("signal cannot be empty"))
    else
      match ParseSignalUnix(args.signal)
      case Err(msg) => Err(Errors.Message(msg))
      case Ok(sig) =>
        var o := SendSignalToProcess(reg, args.id, sig, deliver);
        if o.Fail? && !Errors.Is(o.error, Errors.ProcessNotFound) && !Errors.Is(o.error, Errors.ProcessNotRunning) then
          Err(Errors.Wrapped("failed to send signal", o.error))
        else
          Ok(SignalOutput(args.id, args.signal, o.Pass?))
  }
}
