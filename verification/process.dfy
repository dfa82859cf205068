/** The per-process record of internal/process.go: metadata, lifecycle
    state, owned handles (as presence flags) and the two output streams.
    The OS process handle is an oracle: delivering a signal is a call to a
    given function of the pid and the signal; writing to stdin is a given
    outcome. */
module Processes {
  import opened Results
  import Errors
  import opened OutputBuffers
  import opened Signals

  /** `ProcessState`: the four named states, and any other label a
      persisted snapshot may carry (loading casts the recorded string). */
  datatype ProcessState = Running | Stopped | Terminated | Errored | Other(text: string) {
    /** The string value of the Go constant. */
    function Label(): string {
      match this
      case Running => "running"
      case Stopped => "stopped"
      case Terminated => "terminated"
      case Errored => "error"
      case Other(l) => l
    }

    /** No two states share a label: `Other` never carries a named label. */
    predicate Canonical() {
      Other? ==> !IsKnownLabel(text)
    }
  }

  predicate IsKnownLabel(l: string) {
    l == "running" || l == "stopped" || l == "terminated" || l == "error"
  }

  /** `ProcessState(s)`: the state a label denotes. */
  function StateFromLabel(l: string): (st: ProcessState)
    ensures st.Label() == l
    ensures st.Canonical()
  {
    if l == "running" then Running
    else if l == "stopped" then Stopped
    else if l == "terminated" then Terminated
    else if l == "error" then Errored
    else Other(l)
  }

  /** Labels identify canonical states. */
  lemma LabelIdentifiesState(st: ProcessState)
    requires st.Canonical()
    ensures StateFromLabel(st.Label()) == st
  {
  }

  /** Which of the resources a `Process` owns are present (non-nil):
      the OS process handle, stdin writer, stdout and stderr readers, and
      the signal channel. */
  datatype Handles = Handles(osProcess: bool, stdin: bool, stdout: bool, stderr: bool, signalChan: bool)

  /** The `Process` struct, without start time and lock. */
  datatype Process = Process(
    id: string,
    pid: int,
    command: string,
    args: seq<string>,
    shell: string,
    state: ProcessState,
    exitCode: Option<int>,
    environment: Option<map<string, string>>,
    workingDir: string,
    handles: Handles,
    output: OutputBuffer)
  {
    /** `IsRunning`. */
    predicate IsRunning()
      // the Go code compares labels; only the canonical Running carries "running"
      ensures IsRunning() <==> state.Label() == "running" && state.Canonical()
    {
      state == Running
    }
  }

  /** An OS signal-delivery primitive: the outcome of signalling a pid,
      failing with the text of an OS error. */
  type Deliver = (int, Signal) -> Outcome<string>

  /** An OS pipe-write primitive: the outcome of writing bytes to stdin,
      failing with the text of an OS error. */
  type Pipe = seq<byte> -> Outcome<string>

  /** An OS outcome as a Go `error`: OS errors are passed along as they are,
      and are never one of the sentinel errors. */
  function FromOs(o: Outcome<string>): (r: Outcome<Errors.Error>)
    ensures r.Pass? <==> o.Pass?
    ensures r.Fail? ==> r.error == Errors.Os(o.error)
  {
    match o
    case Pass => Pass
    case Fail(text) => Fail(Errors.Os(text))
  }

  /** `WriteToStdin`: fails with ProcessNotRunning once the stdin handle is
      gone, else reports whatever the pipe write reports. */
  function WriteToStdin(p: Process, data: seq<byte>, pipe: Pipe): (r: Outcome<Errors.Error>)
    ensures !p.handles.stdin ==> r == Fail(Errors.ProcessNotRunning)
    ensures p.handles.stdin ==> r == FromOs(pipe(data))
  {
    if !p.handles.stdin then Fail(Errors.ProcessNotRunning) else FromOs(pipe(data))
  }

  /** `SendSignal`: fails with ProcessNotFound only when there is no OS
      process handle; otherwise the signal goes to the OS. */
  function SendSignal(p: Process, sig: Signal, deliver: Deliver): (r: Outcome<Errors.Error>)
    ensures !p.handles.osProcess ==> r == Fail(Errors.ProcessNotFound)
    ensures p.handles.osProcess ==> r == FromOs(deliver(p.pid, sig))
  {
    if !p.handles.osProcess then Fail(Errors.ProcessNotFound) else FromOs(deliver(p.pid, sig))
  }

  /** `Cleanup`: closes and drops stdin, stdout, stderr and the signal
      channel. The OS process handle is not among them and survives. */
  function Cleanup(p: Process): (r: Process)
    ensures !r.handles.stdin && !r.handles.stdout && !r.handles.stderr && !r.handles.signalChan
    ensures r.handles.osProcess == p.handles.osProcess
    // nothing but the handles changes
    ensures r.(handles := p.handles) == p
  {
    p.(handles := p.handles.(stdin := false, stdout := false, stderr := false, signalChan := false))
  }

  /** After `Cleanup`, a second `Cleanup` changes nothing, stdin writes
      fail with ProcessNotRunning whatever the pipe would say, and signals
      still reach the OS exactly as before. */
  lemma AfterCleanup(p: Process, data: seq<byte>, pipe: Pipe, sig: Signal, deliver: Deliver)
    ensures Cleanup(Cleanup(p)) == Cleanup(p)
    ensures WriteToStdin(Cleanup(p), data, pipe) == Fail(Errors.ProcessNotRunning)
    ensures SendSignal(Cleanup(p), sig, deliver) == SendSignal(p, sig, deliver)
  {
  }

  /** `SetState`. */
  function SetState(p: Process, st: ProcessState): (q: Process)
    ensures q.state == st && q == p.(state := q.state)
    ensures q.IsRunning() <==> st == Running
  {
    p.(state := st)
  }

  /** `SetExitCode`. */
  function SetExitCode(p: Process, code: int): (q: Process)
    ensures q.exitCode == Some(code) && q == p.(exitCode := q.exitCode)
  {
    p.(exitCode := Some(code))
  }
}
