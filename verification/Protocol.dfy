/** The alphabet of the guest/host protocol (vmproto/src/guest.rs, vmproto/src/host.rs) and the
    few value types that several modules share. */
module Protocol {
  datatype Option<+T> = None | Some(value: T)

  type byte = x: int | 0 <= x < 256

  datatype GuestExitCode =
    | GracefulShutdown
    | FailedToPullContainerImage
    | ContainerExited(code: int)

  datatype InitVmState = Online | PullingContainerImage | ExecutingContainer

  datatype LogMessageType = System | Stdout | Stderr

  datatype LogMessage = LogMessage(text: string, timestampMs: nat, messageType: LogMessageType)

  /** Guest to host. */
  datatype GuestPacket =
    | Log(message: LogMessage)
    | VmState(state: InitVmState, timestampMs: nat)
    | Exited(exitCode: GuestExitCode)

  /** Host to guest. */
  datatype HostPacket = Shutdown

  /** What the node manager reports for a machine. */
  datatype MachineExit =
    | Unknown
    | ExitContainer(code: int)
    | ExitGraceful
    | ExitPullFailed

  function FromGuest(code: GuestExitCode): (exit: MachineExit)
    ensures exit != Unknown
  {
    match code
    case GracefulShutdown => ExitGraceful
    case FailedToPullContainerImage => ExitPullFailed
    case ContainerExited(c) => ExitContainer(c)
  }

  /** One entry of a machine's log. */
  datatype MachineLog =
    | VmLog(message: LogMessage)
    | State(state: InitVmState, timestampMs: nat)

  /** The log entries the host records for a packet sequence, in order. */
  function LogsOf(packets: seq<GuestPacket>): seq<MachineLog> {
    if packets == [] then []
    else
      var last := packets[|packets| - 1];
      LogsOf(packets[..|packets| - 1]) +
      match last
      case Log(m) => [VmLog(m)]
      case VmState(s, ts) => [State(s, ts)]
      case Exited(_) => []
  }

  predicate Distinct<T(==)>(s: seq<T>) {
    forall i, j :: 0 <= i < j < |s| ==> s[i] != s[j]
  }

  function Min(a: nat, b: nat): nat {
    if a <= b then a else b
  }
}
