/** Guest and host of one machine over all interleavings (instance/src/main.rs, instance/src/host.rs,
    machine/machine.rs, machine/vsock.rs): the guest's main thread, shutdown reader, two pipe threads,
    layer workers and container waiter, the exit channel, and the host's packet handler and shutdown.
    The packets of one hold of the communication mutex enter the stream in one event. */
module Lifecycle {
  import opened Protocol
  import opened PacketHandler

  datatype MainPc =
    | Booting               // before `Online` is sent
    | Parsing               // `Online` sent, the reader thread runs
    | ReadyToPull           // the image reference is valid
    | Pulling
    | Preparing             // image extracted, before `ExecutingContainer` is sent
    | Launching
    | FirstRecv             // container and threads spawned, waiting on the exit channel
    | SecondRecv            // a shutdown came first, waiting for the container
    | Joining(res: GuestExitCode)
    | Leaving(res: GuestExitCode) // both pipe threads joined
    | Done(res: GuestExitCode)    // `Exited` sent at the end
    | Failing(workers: bool)      // `Exited` sent early; layer workers may still be running

  datatype Waiter = NotSpawned | Waiting | Reported | Finished

  datatype PipeThread = PipeThread(lines: seq<string>, open: bool)

  datatype World = World(
    main: MainPc,
    waiter: Waiter,
    ended: Option<Option<int>>,     // has the container ended, and with which code if any
    stdout: PipeThread,
    stderr: PipeThread,
    exitChan: seq<GuestExitCode>,
    received: seq<GuestExitCode>,   // taken from the exit channel so far
    inbox: nat,                     // `Shutdown` packets on their way to the guest
    commTaken: bool,                // the host's `Machine::comm` has been taken
    extra: nat,                     // `Shutdown` packets beyond the one the host can send
    dead: bool,
    wire: seq<GuestPacket>,         // every packet the guest has written
    exitAt: Option<nat>,            // where `Exited` is in it
    taken: nat,                     // packets the host's handler has read
    history: seq<MachineLog>,
    exit: Option<MachineExit>)      // the handler has stopped

  const START: World := World(Booting, NotSpawned, None, PipeThread([], false), PipeThread([], false), [], [], 0,
                              false, 0, false, [], None, 0, [], None)

  datatype Event =
    | GoOnline(ts: nat, note: LogMessage)
    | ReadShutdown                                  // the reader thread forwards a `Shutdown`
    | ParseReference(ok: bool, note: LogMessage)
    | StartPull(ts: nat, note: LogMessage)
    | PullNote(note: LogMessage)                    // main or a layer worker reports progress
    | FinishPull(ok: bool, note: LogMessage)
    | StartExecuting(ts: nat)
    | SpawnContainer
    | EmitLine(stderr: bool, line: LogMessage)
    | ClosePipe(stderr: bool)
    | ContainerEnds(code: Option<int>)
    | WaiterReports(note: LogMessage)
    | WaiterSends
    | Receive(note: LogMessage)
    | JoinPipes
    | SendExit
    | Die                                           // panic, power-off, kill or lost connection
    | RequestShutdown                               // `_shutdown_gracefully`, once per machine
    | ExtraShutdown                                 // a second `Shutdown`; the host never sends it
    | HostTakes
    | HostStops                                     // end of stream, I/O error or malformed frame

  function ExitValue(code: Option<int>): GuestExitCode {
    ContainerExited(if code.Some? then code.value else 9999)
  }

  predicate IsNote(m: LogMessage) {
    m.messageType == System
  }

  predicate GuestEnabled(w: World, e: Event) {
    !w.dead &&
    match e
    case GoOnline(_, note) => w.main.Booting? && IsNote(note)
    case ReadShutdown => !w.main.Booting? && w.inbox > 0
    case ParseReference(_, note) => w.main.Parsing? && IsNote(note)
    case StartPull(_, note) => w.main.ReadyToPull? && IsNote(note)
    case PullNote(note) => (w.main.Pulling? || w.main == Failing(true)) && IsNote(note)
    case FinishPull(_, note) => w.main.Pulling? && IsNote(note)
    case StartExecuting(_) => w.main.Preparing?
    case SpawnContainer => w.main.Launching?
    case EmitLine(err, line) => (if err then w.stderr else w.stdout).open && line.messageType == TypeOf(err)
    case ClosePipe(err) => (if err then w.stderr else w.stdout).open
    case ContainerEnds(_) => w.waiter.Waiting? && w.ended == None
    case WaiterReports(note) => w.waiter.Waiting? && w.ended.Some? && IsNote(note)
    case WaiterSends => w.waiter.Reported?
    case Receive(note) => (w.main.FirstRecv? || w.main.SecondRecv?) && w.exitChan != [] && IsNote(note)
    case JoinPipes => w.main.Joining? && !w.stdout.open && !w.stderr.open
    case SendExit => w.main.Leaving?
    case Die => true
    case _ => false
  }

  predicate HostEnabled(w: World, e: Event) {
    match e
    case RequestShutdown => !w.commTaken
    case ExtraShutdown => true
    case HostTakes => w.exit == None && w.taken < |w.wire|
    case HostStops => w.exit == None
    case _ => false
  }

  predicate Enabled(w: World, e: Event) {
    GuestEnabled(w, e) || HostEnabled(w, e)
  }

  function TypeOf(stderr: bool): LogMessageType {
    if stderr then Stderr else Stdout
  }

  function Send(w: World, packets: seq<GuestPacket>): World {
    w.(wire := w.wire + packets)
  }

  /** `HostCommunication::exit`: the exit packet goes out before its message. */
  function SendExited(w: World, code: GuestExitCode, message: seq<GuestPacket>): World {
    w.(wire := w.wire + [Exited(code)] + message, exitAt := Some(|w.wire|))
  }

  function Emit(p: PipeThread, line: LogMessage): PipeThread {
    p.(lines := p.lines + [line.text])
  }

  function ReceiveNext(w: World, note: LogMessage): World
    requires w.exitChan != []
  {
    var res := w.exitChan[0];
    var w1 := w.(received := w.received + [res], exitChan := w.exitChan[1..]);
    if w.main.FirstRecv? && res.GracefulShutdown? then Send(w1.(main := SecondRecv), [Log(note)])
    else w1.(main := Joining(res))
  }

  function HostReads(w: World): World
    requires w.taken < |w.wire|
  {
    var packet := w.wire[w.taken];
    w.(taken := w.taken + 1,
       history := w.history + LogsOf([packet]),
       exit := if packet.Exited? then Some(FromGuest(packet.exitCode)) else None)
  }

  function Apply(w: World, e: Event): World
    requires Enabled(w, e)
  {
    match e
    case GoOnline(ts, note) => Send(w.(main := Parsing), [VmState(Online, ts), Log(note)])
    case ReadShutdown => w.(inbox := w.inbox - 1, exitChan := w.exitChan + [GracefulShutdown])
    case ParseReference(ok, note) =>
      if ok then w.(main := ReadyToPull)
      else SendExited(w.(main := Failing(false)), FailedToPullContainerImage, [Log(note)])
    case StartPull(ts, note) => Send(w.(main := Pulling), [VmState(PullingContainerImage, ts), Log(note)])
    case PullNote(note) => Send(w, [Log(note)])
    case FinishPull(ok, note) =>
      if ok then w.(main := Preparing)
      else SendExited(w.(main := Failing(true)), FailedToPullContainerImage, [Log(note)])
    case StartExecuting(ts) => Send(w.(main := Launching), [VmState(ExecutingContainer, ts)])
    case SpawnContainer =>
      w.(main := FirstRecv, waiter := Waiting, stdout := PipeThread([], true), stderr := PipeThread([], true))
    case EmitLine(err, line) =>
      Send(if err then w.(stderr := Emit(w.stderr, line)) else w.(stdout := Emit(w.stdout, line)), [Log(line)])
    case ClosePipe(err) =>
      if err then w.(stderr := w.stderr.(open := false)) else w.(stdout := w.stdout.(open := false))
    case ContainerEnds(code) => w.(ended := Some(code))
    case WaiterReports(note) => Send(w.(waiter := Reported), [Log(note)])
    case WaiterSends =>
      w.(waiter := Finished,
         exitChan := w.exitChan + [ExitValue(if w.ended.Some? then w.ended.value else None)])
    case Receive(note) => ReceiveNext(w, note)
    case JoinPipes => w.(main := Leaving(w.main.res))
    case SendExit => SendExited(w.(main := Done(w.main.res)), w.main.res, [])
    case Die => w.(dead := true)
    case RequestShutdown => w.(commTaken := true, inbox := w.inbox + 1)
    case ExtraShutdown => w.(extra := w.extra + 1, inbox := w.inbox + 1)
    case HostTakes => HostReads(w)
    case HostStops => w.(exit := Some(Unknown))
  }

  function After(events: seq<Event>): Option<World> {
    if events == [] then Some(START)
    else
      var n := |events| - 1;
      var before := After(events[..n]);
      if before.Some? && Enabled(before.value, events[n]) then Some(Apply(before.value, events[n])) else None
  }

  // ---- Projections of the stream ----

  function States(wire: seq<GuestPacket>): seq<InitVmState> {
    if wire == [] then []
    else
      var last := wire[|wire| - 1];
      States(wire[..|wire| - 1]) + if last.VmState? then [last.state] else []
  }

  /** The texts of one pipe's lines, in order. */
  function LinesOf(wire: seq<GuestPacket>, t: LogMessageType): seq<string> {
    if wire == [] then []
    else
      var last := wire[|wire| - 1];
      LinesOf(wire[..|wire| - 1], t) +
      if last.Log? && last.message.messageType == t then [last.message.text] else []
  }

  function LinesOfHistory(history: seq<MachineLog>, t: LogMessageType): seq<string> {
    if history == [] then []
    else
      var last := history[|history| - 1];
      LinesOfHistory(history[..|history| - 1], t) +
      if last.VmLog? && last.message.messageType == t then [last.message.text] else []
  }

  predicate NoExit(wire: seq<GuestPacket>) {
    forall i :: 0 <= i < |wire| ==> !wire[i].Exited?
  }

  lemma Snoc(wire: seq<GuestPacket>, p: GuestPacket)
    ensures States(wire + [p]) == States(wire) + if p.VmState? then [p.state] else []
    ensures forall t :: LinesOf(wire + [p], t) ==
                        LinesOf(wire, t) + if p.Log? && p.message.messageType == t then [p.message.text] else []
  {
    assert (wire + [p])[..|wire|] == wire;
  }

  // ---- Invariant: what the guest has written ----

  /** The states of a machine, in their order. */
  function PhaseAt(i: nat): InitVmState {
    if i == 0 then Online else if i == 1 then PullingContainerImage else ExecutingContainer
  }

  function Phases(n: nat): seq<InitVmState> {
    if n == 0 then [] else Phases(n - 1) + [PhaseAt(n - 1)]
  }

  function StatesSent(main: MainPc): nat {
    match main
    case Booting => 0
    case Parsing | ReadyToPull => 1
    case Pulling | Preparing => 2
    case Failing(workers) => if workers then 2 else 1
    case _ => 3
  }

  ghost predicate Shows(wire: seq<GuestPacket>, phases: nat, out: seq<string>, err: seq<string>) {
    && States(wire) == Phases(phases)
    && LinesOf(wire, Stdout) == out && LinesOf(wire, Stderr) == err
  }

  ghost predicate WireInv(w: World) {
    Shows(w.wire, StatesSent(w.main), w.stdout.lines, w.stderr.lines)
  }

  predicate Spawned(main: MainPc) {
    main.FirstRecv? || main.SecondRecv? || main.Joining? || main.Leaving? || main.Done?
  }

  ghost predicate PipeInv(w: World) {
    && (!Spawned(w.main) ==> w.stdout == w.stderr == PipeThread([], false) && w.waiter.NotSpawned?)
    && (w.main.Leaving? || w.main.Done? ==> !w.stdout.open && !w.stderr.open)
  }

  function ExitSent(main: MainPc): Option<GuestExitCode> {
    match main
    case Done(res) => Some(res)
    case Failing(_) => Some(FailedToPullContainerImage)
    case _ => None
  }

  /** `Exited` is written at most once, and all lines of both pipes are before it. */
  ghost predicate ExitShape(wire: seq<GuestPacket>, exitAt: Option<nat>, sent: Option<GuestExitCode>,
                            out: seq<string>, err: seq<string>)
  {
    if exitAt == None then sent == None && NoExit(wire)
    else
      var i := exitAt.value;
      && i < |wire| && NoExit(wire[..i]) && NoExit(wire[i + 1..])
      && sent.Some? && wire[i] == Exited(sent.value)
      && LinesOf(wire[..i], Stdout) == out && LinesOf(wire[..i], Stderr) == err
  }

  ghost predicate ExitInv(w: World) {
    ExitShape(w.wire, w.exitAt, ExitSent(w.main), w.stdout.lines, w.stderr.lines)
  }

  // ---- Invariant: the exit channel ----

  /** Everything ever sent to the exit channel, in order. */
  function Sent(w: World): seq<GuestExitCode> {
    w.received + w.exitChan
  }

  /** Shutdowns in the channel or on the way are those the host sent. */
  ghost predicate TokenInv(w: World) {
    multiset(Sent(w))[GracefulShutdown] + w.inbox == (if w.commTaken then 1 else 0) + w.extra
  }

  /** Anything else in the channel is the container's own exit. */
  ghost predicate SourceInv(w: World) {
    && (w.waiter.Reported? || w.waiter.Finished? ==> w.ended.Some?)
    && forall x :: x in Sent(w) ==>
         x == GracefulShutdown || (w.waiter.Finished? && x == ExitValue(w.ended.value))
  }

  ghost predicate TakingInv(w: World) {
    match w.main
    case SecondRecv => w.received == [GracefulShutdown]
    case Joining(res) => TookExit(w.received, res)
    case Leaving(res) => TookExit(w.received, res)
    case Done(res) => TookExit(w.received, res)
    case _ => w.received == []
  }

  ghost predicate ChannelInv(w: World) {
    TokenInv(w) && SourceInv(w) && TakingInv(w)
  }

  /** The exit was the first message, or the one after a shutdown. */
  predicate TookExit(received: seq<GuestExitCode>, res: GuestExitCode) {
    (received == [res] && res != GracefulShutdown) || received == [GracefulShutdown, res]
  }

  // ---- Invariant: the host ----

  /** The handler's view after `taken` packets. */
  ghost predicate HostShape(wire: seq<GuestPacket>, taken: nat, history: seq<MachineLog>, exit: Option<MachineExit>) {
    && taken <= |wire|
    && history == LogsOf(wire[..taken])
    && if exit == None || exit == Some(Unknown) then NoExit(wire[..taken])
       else taken > 0 && NoExit(wire[..taken - 1]) && wire[taken - 1].Exited?
            && exit == Some(FromGuest(wire[taken - 1].exitCode))
  }

  ghost predicate HostInv(w: World) {
    HostShape(w.wire, w.taken, w.history, w.exit)
  }

  // ---- Steps keep the invariants ----

  lemma ShowsPhase(wire: seq<GuestPacket>, n: nat, out: seq<string>, err: seq<string>, ts: nat)
    requires Shows(wire, n, out, err)
    ensures Shows(wire + [VmState(PhaseAt(n), ts)], n + 1, out, err)
  {
    Snoc(wire, VmState(PhaseAt(n), ts));
  }

  lemma ShowsPhaseAndNote(wire: seq<GuestPacket>, n: nat, out: seq<string>, err: seq<string>, ts: nat, note: LogMessage)
    requires Shows(wire, n, out, err) && IsNote(note)
    ensures Shows(wire + [VmState(PhaseAt(n), ts), Log(note)], n + 1, out, err)
  {
    var p := VmState(PhaseAt(n), ts);
    ShowsPhase(wire, n, out, err, ts);
    ShowsNote(wire + [p], n + 1, out, err, note);
    assert wire + [p, Log(note)] == wire + [p] + [Log(note)];
  }

  lemma ShowsNote(wire: seq<GuestPacket>, n: nat, out: seq<string>, err: seq<string>, note: LogMessage)
    requires Shows(wire, n, out, err) && IsNote(note)
    ensures Shows(wire + [Log(note)], n, out, err)
  {
    Snoc(wire, Log(note));
  }

  lemma ShowsExit(wire: seq<GuestPacket>, n: nat, out: seq<string>, err: seq<string>, code: GuestExitCode)
    requires Shows(wire, n, out, err)
    ensures Shows(wire + [Exited(code)], n, out, err)
  {
    Snoc(wire, Exited(code));
  }

  lemma ShowsLine(wire: seq<GuestPacket>, n: nat, out: seq<string>, err: seq<string>, stderr: bool, line: LogMessage)
    requires Shows(wire, n, out, err) && line.messageType == TypeOf(stderr)
    ensures Shows(wire + [Log(line)], n, if stderr then out else out + [line.text], if stderr then err + [line.text] else err)
  {
    Snoc(wire, Log(line));
  }

  lemma ExitKeepsWire(w: World, main: MainPc, code: GuestExitCode, note: LogMessage)
    requires WireInv(w) && IsNote(note) && StatesSent(main) == StatesSent(w.main)
    ensures WireInv(SendExited(w.(main := main), code, [Log(note)]))
    ensures WireInv(SendExited(w.(main := main), code, []))
  {
    ShowsExit(w.wire, StatesSent(main), w.stdout.lines, w.stderr.lines, code);
    ShowsNote(w.wire + [Exited(code)], StatesSent(main), w.stdout.lines, w.stderr.lines, note);
    assert w.wire + [Exited(code)] + [] == w.wire + [Exited(code)];
  }

  const SOME_NOTE: LogMessage := LogMessage("", 0, System)

  lemma PhaseKeepsWire(w: World, n: nat, main: MainPc, ts: nat, note: LogMessage)
    requires WireInv(w) && StatesSent(w.main) == n && StatesSent(main) == n + 1 && IsNote(note)
    ensures WireInv(Send(w.(main := main), [VmState(PhaseAt(n), ts), Log(note)]))
    ensures WireInv(Send(w.(main := main), [VmState(PhaseAt(n), ts)]))
  {
    ShowsPhaseAndNote(w.wire, n, w.stdout.lines, w.stderr.lines, ts, note);
    ShowsPhase(w.wire, n, w.stdout.lines, w.stderr.lines, ts);
  }

  lemma LineKeepsWire(w: World, err: bool, line: LogMessage)
    requires WireInv(w) && line.messageType == TypeOf(err)
    ensures WireInv(Send(if err then w.(stderr := Emit(w.stderr, line)) else w.(stdout := Emit(w.stdout, line)), [Log(line)]))
  {
    ShowsLine(w.wire, StatesSent(w.main), w.stdout.lines, w.stderr.lines, err, line);
  }

  // The events that write to the stream, by what they write.

  predicate WritesPhase(e: Event) {
    e.GoOnline? || e.StartPull? || e.StartExecuting?
  }

  predicate WritesExit(w: World, e: Event) {
    (e.ParseReference? && !e.ok) || (e.FinishPull? && !e.ok) || e.SendExit?
  }

  predicate WritesNote(w: World, e: Event) {
    e.PullNote? || e.WaiterReports? || (e.Receive? && w.main.FirstRecv? && w.exitChan != [] && w.exitChan[0].GracefulShutdown?)
  }

  /** All other events leave the stream, the lines and the phase alone. */
  lemma QuietEvent(w: World, e: Event)
    requires PipeInv(w) && Enabled(w, e) && !WritesPhase(e) && !WritesExit(w, e) && !WritesNote(w, e) && !e.EmitLine?
    ensures var w' := Apply(w, e);
            && w'.wire == w.wire && w'.exitAt == w.exitAt
            && w'.stdout.lines == w.stdout.lines && w'.stderr.lines == w.stderr.lines
            && StatesSent(w'.main) == StatesSent(w.main) && ExitSent(w'.main) == ExitSent(w.main)
  {
  }

  /** Notes of the init system. */
  lemma NoteEvent(w: World, e: Event)
    requires Enabled(w, e) && WritesNote(w, e)
    ensures var w' := Apply(w, e);
            && IsNote(e.note)
            && w'.wire == w.wire + [Log(e.note)] && w'.exitAt == w.exitAt
            && w'.stdout == w.stdout && w'.stderr == w.stderr
            && StatesSent(w'.main) == StatesSent(w.main) && ExitSent(w'.main) == ExitSent(w.main)
  {
  }

  lemma PhaseStepKeepsWire(w: World, e: Event)
    requires WireInv(w) && Enabled(w, e) && WritesPhase(e)
    ensures WireInv(Apply(w, e))
  {
    if e.GoOnline? {
      PhaseKeepsWire(w, 0, Parsing, e.ts, e.note);
    } else if e.StartPull? {
      PhaseKeepsWire(w, 1, Pulling, e.ts, e.note);
    } else {
      PhaseKeepsWire(w, 2, Launching, e.ts, SOME_NOTE);
    }
  }

  lemma ExitStepKeepsWire(w: World, e: Event)
    requires WireInv(w) && Enabled(w, e) && WritesExit(w, e)
    ensures WireInv(Apply(w, e))
  {
    if e.ParseReference? {
      ExitKeepsWire(w, Failing(false), FailedToPullContainerImage, e.note);
    } else if e.FinishPull? {
      ExitKeepsWire(w, Failing(true), FailedToPullContainerImage, e.note);
    } else {
      ExitKeepsWire(w, Done(w.main.res), w.main.res, SOME_NOTE);
    }
  }

  lemma StepKeepsWire(w: World, e: Event)
    requires WireInv(w) && PipeInv(w) && Enabled(w, e)
    ensures WireInv(Apply(w, e))
  {
    if WritesPhase(e) {
      PhaseStepKeepsWire(w, e);
    } else if WritesExit(w, e) {
      ExitStepKeepsWire(w, e);
    } else if WritesNote(w, e) {
      NoteEvent(w, e);
      ShowsNote(w.wire, StatesSent(w.main), w.stdout.lines, w.stderr.lines, e.note);
    } else if e.EmitLine? {
      LineKeepsWire(w, e.stderr, e.line);
    } else {
      QuietEvent(w, e);
    }
  }

  lemma StepKeepsPipes(w: World, e: Event)
    requires PipeInv(w) && Enabled(w, e)
    ensures PipeInv(Apply(w, e))
  {
  }

  lemma ShapeAfterNote(wire: seq<GuestPacket>, exitAt: Option<nat>, sent: Option<GuestExitCode>, out: seq<string>,
                       err: seq<string>, p: GuestPacket)
    requires ExitShape(wire, exitAt, sent, out, err) && !p.Exited?
    ensures ExitShape(wire + [p], exitAt, sent, out, err)
  {
    if exitAt.Some? {
      var i := exitAt.value;
      assert (wire + [p])[..i] == wire[..i];
      assert (wire + [p])[i + 1..] == wire[i + 1..] + [p];
    }
  }

  lemma ShapeAfterExit(wire: seq<GuestPacket>, out: seq<string>, err: seq<string>, code: GuestExitCode, note: LogMessage)
    requires NoExit(wire) && LinesOf(wire, Stdout) == out && LinesOf(wire, Stderr) == err
    ensures ExitShape(wire + [Exited(code)] + [], Some(|wire|), Some(code), out, err)
    ensures ExitShape(wire + [Exited(code)] + [Log(note)], Some(|wire|), Some(code), out, err)
  {
    assert (wire + [Exited(code)])[..|wire|] == wire;
    assert wire + [Exited(code)] + [] == wire + [Exited(code)];
    ShapeAfterNote(wire + [Exited(code)], Some(|wire|), Some(code), out, err, Log(note));
  }

  lemma ShapeAfterPhase(wire: seq<GuestPacket>, out: seq<string>, err: seq<string>, p: GuestPacket, note: LogMessage)
    requires ExitShape(wire, None, None, out, err) && !p.Exited?
    ensures ExitShape(wire + [p, Log(note)], None, None, out, err)
    ensures ExitShape(wire + [p], None, None, out, err)
  {
    ShapeAfterNote(wire, None, None, out, err, p);
    ShapeAfterNote(wire + [p], None, None, out, err, Log(note));
    assert wire + [p, Log(note)] == wire + [p] + [Log(note)];
  }

  lemma PhaseStepKeepsExit(w: World, e: Event)
    requires ExitInv(w) && Enabled(w, e) && WritesPhase(e)
    ensures ExitInv(Apply(w, e))
  {
    var out, err := w.stdout.lines, w.stderr.lines;
    if e.GoOnline? {
      ShapeAfterPhase(w.wire, out, err, VmState(Online, e.ts), e.note);
    } else if e.StartPull? {
      ShapeAfterPhase(w.wire, out, err, VmState(PullingContainerImage, e.ts), e.note);
    } else {
      ShapeAfterPhase(w.wire, out, err, VmState(ExecutingContainer, e.ts), SOME_NOTE);
    }
  }

  lemma FinalExitKeepsExit(w: World)
    requires WireInv(w) && ExitInv(w) && w.main.Leaving?
    ensures ExitInv(SendExited(w.(main := Done(w.main.res)), w.main.res, []))
  {
    ShapeAfterExit(w.wire, w.stdout.lines, w.stderr.lines, w.main.res, SOME_NOTE);
  }

  lemma FailedPullKeepsExit(w: World, workers: bool, note: LogMessage)
    requires WireInv(w) && ExitInv(w) && ExitSent(w.main) == None
    ensures ExitInv(SendExited(w.(main := Failing(workers)), FailedToPullContainerImage, [Log(note)]))
  {
    ShapeAfterExit(w.wire, w.stdout.lines, w.stderr.lines, FailedToPullContainerImage, note);
  }

  lemma ExitStepKeepsExit(w: World, e: Event)
    requires WireInv(w) && ExitInv(w) && Enabled(w, e) && WritesExit(w, e)
    ensures ExitInv(Apply(w, e))
  {
    if e.SendExit? {
      FinalExitKeepsExit(w);
    } else {
      FailedPullKeepsExit(w, e.FinishPull?, e.note);
    }
  }

  lemma LineStepKeepsExit(w: World, err: bool, line: LogMessage)
    requires PipeInv(w) && ExitInv(w) && Enabled(w, EmitLine(err, line))
    ensures ExitInv(Apply(w, EmitLine(err, line)))
  {
    assert w.exitAt == None;
    ShapeAfterNote(w.wire, None, None, w.stdout.lines, w.stderr.lines, Log(line));
  }

  lemma StepKeepsExit(w: World, e: Event)
    requires WireInv(w) && PipeInv(w) && ExitInv(w) && Enabled(w, e)
    ensures ExitInv(Apply(w, e))
  {
    if WritesPhase(e) {
      PhaseStepKeepsExit(w, e);
    } else if WritesExit(w, e) {
      ExitStepKeepsExit(w, e);
    } else if WritesNote(w, e) {
      NoteEvent(w, e);
      ShapeAfterNote(w.wire, w.exitAt, ExitSent(w.main), w.stdout.lines, w.stderr.lines, Log(e.note));
    } else if e.EmitLine? {
      LineStepKeepsExit(w, e.stderr, e.line);
    } else {
      QuietEvent(w, e);
    }
  }

  // ---- The exit channel ----

  predicate SendsToChannel(e: Event) {
    e.ReadShutdown? || e.WaiterSends?
  }

  lemma QuietForChannel(w: World, e: Event)
    requires Enabled(w, e) && !SendsToChannel(e) && !e.Receive? && !e.RequestShutdown? && !e.ExtraShutdown?
    ensures var w' := Apply(w, e);
            && w'.received == w.received && w'.exitChan == w.exitChan && w'.inbox == w.inbox
            && w'.commTaken == w.commTaken && w'.extra == w.extra
  {
  }

  lemma SendKeepsTokens(w: World, w': World, x: GuestExitCode)
    requires TokenInv(w)
    requires w'.received == w.received && w'.exitChan == w.exitChan + [x]
    requires w'.inbox == w.inbox - (if x == GracefulShutdown then 1 else 0)
    requires w'.commTaken == w.commTaken && w'.extra == w.extra
    ensures TokenInv(w')
  {
    assert Sent(w') == Sent(w) + [x];
  }

  lemma StepKeepsTokens(w: World, e: Event)
    requires TokenInv(w) && Enabled(w, e)
    ensures TokenInv(Apply(w, e))
  {
    if e.ReadShutdown? {
      SendKeepsTokens(w, Apply(w, e), GracefulShutdown);
    } else if e.WaiterSends? {
      SendKeepsTokens(w, Apply(w, e), ExitValue(if w.ended.Some? then w.ended.value else None));
    } else if e.Receive? {
      ReceiveKeepsSent(w, e.note);
    } else if !e.RequestShutdown? && !e.ExtraShutdown? {
      QuietForChannel(w, e);
    }
  }

  lemma ReceiveKeepsSent(w: World, note: LogMessage)
    requires w.exitChan != []
    ensures Sent(ReceiveNext(w, note)) == Sent(w)
  {
    assert w.exitChan == [w.exitChan[0]] + w.exitChan[1..];
    assert w.received + [w.exitChan[0]] + w.exitChan[1..] == w.received + w.exitChan;
  }

  lemma SentUnchanged(w: World, e: Event)
    requires Enabled(w, e) && !SendsToChannel(e)
    ensures Sent(Apply(w, e)) == Sent(w)
  {
    if e.Receive? {
      ReceiveKeepsSent(w, e.note);
    } else if !e.RequestShutdown? && !e.ExtraShutdown? {
      QuietForChannel(w, e);
    }
  }

  /** The waiter only moves forward, and the container's code is fixed before it reports. */
  lemma WaiterMoves(w: World, e: Event)
    requires PipeInv(w) && Enabled(w, e)
    ensures var w' := Apply(w, e);
            && (w.waiter.Finished? ==> w'.waiter.Finished?)
            && (w.waiter.Reported? || w.waiter.Finished? ==> w'.ended == w.ended)
            && (w'.waiter.Finished? && !w.waiter.Finished? ==> e.WaiterSends? && w.waiter.Reported?)
            && (w'.waiter.Reported? && !w.waiter.Reported? ==> w'.ended.Some?)
  {
  }

  lemma StepKeepsSources(w: World, e: Event)
    requires SourceInv(w) && PipeInv(w) && Enabled(w, e)
    ensures SourceInv(Apply(w, e))
  {
    WaiterMoves(w, e);
    if e.ReadShutdown? {
      assert w.received + (w.exitChan + [GracefulShutdown]) == Sent(w) + [GracefulShutdown];
    } else if e.WaiterSends? {
      var x := ExitValue(w.ended.value);
      assert w.received + (w.exitChan + [x]) == Sent(w) + [x];
    } else {
      SentUnchanged(w, e);
      forall x | x in Sent(Apply(w, e))
        ensures x == GracefulShutdown || (Apply(w, e).waiter.Finished? && x == ExitValue(Apply(w, e).ended.value))
      {
        assert x in Sent(w);
      }
    }
  }

  lemma ReceiveKeepsTaking(w: World, note: LogMessage)
    requires TakingInv(w) && (w.main.FirstRecv? || w.main.SecondRecv?) && w.exitChan != []
    ensures TakingInv(ReceiveNext(w, note))
  {
    var res := w.exitChan[0];
    assert [] + [res] == [res];
    assert [GracefulShutdown] + [res] == [GracefulShutdown, res];
  }

  predicate HasReceived(main: MainPc) {
    main.SecondRecv? || main.Joining? || main.Leaving? || main.Done?
  }

  /** Without a receive, what has been received stays, and so does the result taken from it. */
  lemma MainMoves(w: World, e: Event)
    requires Enabled(w, e) && !e.Receive?
    ensures var w' := Apply(w, e);
            && w'.received == w.received
            && (HasReceived(w'.main) <==> HasReceived(w.main))
            && (w'.main == w.main || !HasReceived(w.main)
                || (w.main.Joining? && w'.main == Leaving(w.main.res))
                || (w.main.Leaving? && w'.main == Done(w.main.res)))
  {
  }

  lemma StepKeepsTaking(w: World, e: Event)
    requires TakingInv(w) && Enabled(w, e)
    ensures TakingInv(Apply(w, e))
  {
    if e.Receive? {
      ReceiveKeepsTaking(w, e.note);
    } else {
      MainMoves(w, e);
    }
  }

  // ---- The host ----

  lemma HostAfterWrite(wire: seq<GuestPacket>, more: seq<GuestPacket>, taken: nat, history: seq<MachineLog>,
                       exit: Option<MachineExit>)
    requires HostShape(wire, taken, history, exit)
    ensures HostShape(wire + more, taken, history, exit)
  {
    assert (wire + more)[..taken] == wire[..taken];
    if taken > 0 {
      assert (wire + more)[..taken - 1] == wire[..taken - 1];
    }
  }

  lemma HostAfterRead(w: World)
    requires HostInv(w) && w.exit == None && w.taken < |w.wire|
    ensures HostInv(HostReads(w))
  {
    var packet := w.wire[w.taken];
    var now := w.wire[..w.taken];
    assert w.wire[..w.taken + 1] == now + [packet];
    LogsOfConcat(now, [packet]);
  }

  lemma WireGrows(w: World, e: Event)
    requires Enabled(w, e)
    ensures w.wire <= Apply(w, e).wire
  {
  }

  lemma GuestLeavesHost(w: World, e: Event)
    requires Enabled(w, e) && !e.HostTakes? && !e.HostStops?
    ensures var w' := Apply(w, e);
            w'.taken == w.taken && w'.history == w.history && w'.exit == w.exit
  {
  }

  lemma HostAfterGrowth(w: World, w': World)
    requires HostInv(w) && w.wire <= w'.wire
    requires w'.taken == w.taken && w'.history == w.history && w'.exit == w.exit
    ensures HostInv(w')
  {
    var more := w'.wire[|w.wire|..];
    assert w'.wire == w.wire + more;
    HostAfterWrite(w.wire, more, w.taken, w.history, w.exit);
  }

  lemma StepKeepsHost(w: World, e: Event)
    requires HostInv(w) && Enabled(w, e)
    ensures HostInv(Apply(w, e))
  {
    if e.HostTakes? {
      HostAfterRead(w);
    } else if !e.HostStops? {
      WireGrows(w, e);
      GuestLeavesHost(w, e);
      HostAfterGrowth(w, Apply(w, e));
    }
  }

  // ---- Runs ----

  ghost predicate Inv(w: World) {
    WireInv(w) && PipeInv(w) && ExitInv(w) && ChannelInv(w) && HostInv(w)
  }

  lemma {:induction false} RunKeepsInv(events: seq<Event>)
    ensures After(events).Some? ==> Inv(After(events).value)
  {
    if events != [] && After(events).Some? {
      var n := |events| - 1;
      RunKeepsInv(events[..n]);
      StepKeepsInv(After(events[..n]).value, events[n]);
    }
  }

  lemma StepKeepsInv(w: World, e: Event)
    requires Inv(w) && Enabled(w, e)
    ensures Inv(Apply(w, e))
  {
    StepKeepsWire(w, e);
    StepKeepsPipes(w, e);
    StepKeepsExit(w, e);
    StepKeepsTokens(w, e);
    StepKeepsSources(w, e);
    StepKeepsTaking(w, e);
    StepKeepsHost(w, e);
  }
}
