/** What holds in every reachable state of a machine's life, and of every run without failures. */
module LifecycleRuns {
  import opened Protocol
  import opened PacketHandler
  import opened Lifecycle

  // ---- States ----

  lemma {:induction false} PhasesArePrefixes(n: nat)
    requires n <= 3
    ensures |Phases(n)| == n && Phases(n) <= [Online, PullingContainerImage, ExecutingContainer]
    ensures ExecutingContainer in Phases(n) <==> n == 3
  {
    var all := [Online, PullingContainerImage, ExecutingContainer];
    if n == 0 {
      assert Phases(0) == all[..0];
    } else {
      PhasesArePrefixes(n - 1);
      assert Phases(n) == all[..n];
    }
  }

  /** Over all interleavings the guest reports its states in their order, each at most once. */
  lemma StatesAppearInOrder(events: seq<Event>)
    requires After(events).Some?
    ensures States(After(events).value.wire) <= [Online, PullingContainerImage, ExecutingContainer]
  {
    RunKeepsInv(events);
    PhasesArePrefixes(StatesSent(After(events).value.main));
  }

  // ---- The exit ----

  lemma ExitPosition(w: World, i: nat)
    requires ExitInv(w) && i < |w.wire| && w.wire[i].Exited?
    ensures w.exitAt == Some(i) && ExitSent(w.main) == Some(w.wire[i].exitCode)
  {
    if w.exitAt.Some? {
      var j := w.exitAt.value;
      assert forall k :: 0 <= k < j ==> w.wire[..j][k] == w.wire[k];
      assert forall k :: j < k < |w.wire| ==> w.wire[k] == w.wire[j + 1..][k - j - 1];
    }
  }

  /** `Exited` is sent at most once, by a guest whose panics are power-offs. */
  lemma ExitedAtMostOnce(events: seq<Event>, i: nat, j: nat)
    requires After(events).Some?
    requires i < |After(events).value.wire| && j < |After(events).value.wire|
    requires After(events).value.wire[i].Exited? && After(events).value.wire[j].Exited?
    ensures i == j
  {
    RunKeepsInv(events);
    ExitPosition(After(events).value, i);
    ExitPosition(After(events).value, j);
  }

  // ---- What the events of a run say about its exit ----

  lemma EndedAfter(w: World, e: Event)
    requires Enabled(w, e)
    ensures Apply(w, e).ended == if e.ContainerEnds? then Some(e.code) else w.ended
    ensures e.ContainerEnds? ==> w.ended == None
  {
  }

  /** The container ends at most once, and the guest keeps how. */
  lemma {:induction false} EndedIsEvent(events: seq<Event>, code: Option<int>)
    requires After(events).Some?
    ensures After(events).value.ended == Some(code) <==> ContainerEnds(code) in events
  {
    if events != [] {
      var n := |events| - 1;
      EndedIsEvent(events[..n], code);
      EndedAfter(After(events[..n]).value, events[n]);
      if events[n].ContainerEnds? {
        NotEndedNoEvent(events[..n], code);
      }
      assert events == events[..n] + [events[n]];
    }
  }

  lemma NotEndedNoEvent(events: seq<Event>, code: Option<int>)
    requires After(events).Some? && After(events).value.ended == None
    requires After(events).value.ended == Some(code) <==> ContainerEnds(code) in events
    ensures ContainerEnds(code) !in events
  {
  }

  predicate IsPullFailure(e: Event) {
    (e.ParseReference? && !e.ok) || (e.FinishPull? && !e.ok)
  }

  /** The image reference did not parse, or the image could not be pulled. */
  predicate PullFailed(events: seq<Event>) {
    exists e :: e in events && IsPullFailure(e)
  }

  lemma FailingAfter(w: World, e: Event)
    requires Enabled(w, e)
    ensures Apply(w, e).main.Failing? <==> w.main.Failing? || IsPullFailure(e)
  {
  }

  lemma {:induction false} FailingIsEvent(events: seq<Event>)
    requires After(events).Some?
    ensures After(events).value.main.Failing? <==> PullFailed(events)
  {
    if events != [] {
      var n := |events| - 1;
      FailingIsEvent(events[..n]);
      FailingAfter(After(events[..n]).value, events[n]);
      PullFailedNext(events[..n], events[n]);
      assert events == events[..n] + [events[n]];
    }
  }

  lemma PullFailedNext(events: seq<Event>, e: Event)
    ensures PullFailed(events + [e]) <==> PullFailed(events) || IsPullFailure(e)
  {
    if PullFailed(events) {
      var f :| f in events && IsPullFailure(f);
      assert f in events + [e];
    } else if IsPullFailure(e) {
      assert e in events + [e];
    }
  }

  /** The container has ended, and this is its own code, or 9999 if it has none. */
  ghost predicate IsContainersCode(events: seq<Event>, code: int) {
    && (exists c :: ContainerEnds(c) in events)
    && (forall c :: ContainerEnds(Some(c)) in events ==> code == c)
    && (ContainerEnds(None) in events ==> code == 9999)
  }

  lemma EndedCode(events: seq<Event>)
    requires After(events).Some? && After(events).value.ended.Some?
    ensures ExitValue(After(events).value.ended.value).ContainerExited?
    ensures IsContainersCode(events, ExitValue(After(events).value.ended.value).code)
  {
    var ended := After(events).value.ended.value;
    EndedIsEvent(events, ended);
    assert ContainerEnds(ended) in events;
    forall c | ContainerEnds(Some(c)) in events ensures ended == Some(c) {
      EndedIsEvent(events, Some(c));
    }
    if ContainerEnds(None) in events {
      EndedIsEvent(events, None);
    }
  }

  /** What an `Exited` packet can say, wherever a shutdown request falls: a failed pull if and only if the
      pull failed, which is before the container starts; otherwise the container's own code (9999 if it
      has none), unless the first two messages of the exit channel were both shutdowns. */
  lemma ExitSaysWhatHappened(events: seq<Event>, i: nat)
    requires After(events).Some?
    requires i < |After(events).value.wire| && After(events).value.wire[i].Exited?
    ensures var w := After(events).value;
            var code := w.wire[i].exitCode;
            && (code == FailedToPullContainerImage <==> PullFailed(events))
            && (code == FailedToPullContainerImage <==> ExecutingContainer !in States(w.wire))
            && (code == GracefulShutdown <==> w.received == [GracefulShutdown, GracefulShutdown])
            && (code.ContainerExited? ==> IsContainersCode(events, code.code))
  {
    RunKeepsInv(events);
    var w := After(events).value;
    ExitPosition(w, i);
    FailingIsEvent(events);
    PhasesArePrefixes(StatesSent(w.main));
    if w.main.Done? {
      var last := w.received[|w.received| - 1];
      assert last == w.main.res;
      assert last in Sent(w);
      if w.main.res.ContainerExited? {
        EndedCode(events);
      }
    }
  }

  lemma TwoShutdownsCounted(w: World)
    requires TokenInv(w) && w.received == [GracefulShutdown, GracefulShutdown]
    ensures w.extra >= 1
  {
    assert multiset(Sent(w)) == multiset(w.received) + multiset(w.exitChan);
    assert multiset([GracefulShutdown, GracefulShutdown])[GracefulShutdown] == 2;
  }

  /** Since the host takes the communicator before it sends a shutdown, it sends at most one; then an
      exit after the container has started always carries the container's own code, 9999 if it has none. */
  lemma OneShutdownKeepsTheCode(events: seq<Event>, i: nat)
    requires After(events).Some? && ExtraShutdown !in events
    requires i < |After(events).value.wire| && After(events).value.wire[i].Exited?
    requires ExecutingContainer in States(After(events).value.wire)
    ensures var code := After(events).value.wire[i].exitCode;
            code.ContainerExited? && IsContainersCode(events, code.code)
  {
    RunKeepsInv(events);
    var w := After(events).value;
    ExitSaysWhatHappened(events, i);
    NoExtra(events);
    if w.wire[i].exitCode == GracefulShutdown {
      TwoShutdownsCounted(w);
    }
  }

  lemma {:induction false} NoExtra(events: seq<Event>)
    requires After(events).Some? && ExtraShutdown !in events
    ensures After(events).value.extra == 0
  {
    if events != [] {
      NoExtra(events[..|events| - 1]);
    }
  }

  // ---- A second shutdown would lose the code ----

  lemma Extend(events: seq<Event>, e: Event)
    ensures After(events + [e]) ==
            if After(events).Some? && Enabled(After(events).value, e)
            then Some(Apply(After(events).value, e)) else None
  {
    assert (events + [e])[..|events|] == events;
  }

  lemma ImageIsPulled() returns (events: seq<Event>)
    ensures After(events).Some? && ExtraShutdown !in events
    ensures var w := After(events).value;
            && w.main == Preparing && w.exitChan == w.received == [] && w.inbox == 0 && !w.commTaken
            && !w.dead
  {
    var note := SOME_NOTE;
    events := [];
    Extend(events, GoOnline(0, note));
    events := events + [GoOnline(0, note)];
    Extend(events, ParseReference(true, note));
    events := events + [ParseReference(true, note)];
    Extend(events, StartPull(0, note));
    events := events + [StartPull(0, note)];
    Extend(events, FinishPull(true, note));
    events := events + [FinishPull(true, note)];
  }

  lemma ContainerStarts() returns (events: seq<Event>)
    ensures After(events).Some? && ExtraShutdown !in events
    ensures var w := After(events).value;
            && w.main == FirstRecv && w.exitChan == w.received == [] && w.inbox == 0 && !w.commTaken
            && !w.dead && w.stdout.open && w.stderr.open && w.waiter.Waiting?
  {
    events := ImageIsPulled();
    Extend(events, StartExecuting(0));
    events := events + [StartExecuting(0)];
    Extend(events, SpawnContainer);
    events := events + [SpawnContainer];
  }

  lemma TwoShutdownsAreSent() returns (events: seq<Event>)
    ensures After(events).Some?
    ensures var w := After(events).value;
            && w.main == FirstRecv && w.exitChan == w.received == [] && w.inbox == 2
            && !w.dead && w.stdout.open && w.stderr.open
  {
    events := ContainerStarts();
    Extend(events, RequestShutdown);
    events := events + [RequestShutdown];
    Extend(events, ExtraShutdown);
    events := events + [ExtraShutdown];
  }

  lemma TwoShutdownsArrive() returns (events: seq<Event>)
    ensures After(events).Some?
    ensures var w := After(events).value;
            && w.main == FirstRecv && w.exitChan == [GracefulShutdown, GracefulShutdown] && w.received == []
            && !w.dead && w.stdout.open && w.stderr.open
  {
    events := TwoShutdownsAreSent();
    Extend(events, ReadShutdown);
    events := events + [ReadShutdown];
    Extend(events, ReadShutdown);
    events := events + [ReadShutdown];
  }

  lemma TwoShutdownsAreTaken() returns (events: seq<Event>)
    ensures After(events).Some?
    ensures var w := After(events).value;
            w.main == Joining(GracefulShutdown) && !w.dead && w.stdout.open && w.stderr.open
  {
    events := TwoShutdownsArrive();
    Extend(events, Receive(SOME_NOTE));
    events := events + [Receive(SOME_NOTE)];
    Extend(events, Receive(SOME_NOTE));
    events := events + [Receive(SOME_NOTE)];
  }

  lemma PipesAreJoined() returns (events: seq<Event>)
    ensures After(events).Some?
    ensures After(events).value.main == Leaving(GracefulShutdown) && !After(events).value.dead
  {
    events := TwoShutdownsAreTaken();
    Extend(events, ClosePipe(false));
    events := events + [ClosePipe(false)];
    Extend(events, ClosePipe(true));
    events := events + [ClosePipe(true)];
    Extend(events, JoinPipes);
    events := events + [JoinPipes];
  }

  /** With two shutdowns the guest would exit as `GracefulShutdown` without the container's code: the
      host's single shutdown is needed. */
  lemma SecondShutdownLosesTheCode() returns (events: seq<Event>)
    ensures After(events).Some?
    ensures var w := After(events).value;
            w.main == Done(GracefulShutdown) && w.wire != [] && w.wire[|w.wire| - 1] == Exited(GracefulShutdown)
  {
    events := PipesAreJoined();
    Extend(events, SendExit);
    events := events + [SendExit];
  }

  // ---- The guest never hangs ----

  /** What the waiter has sent is in the exit channel or has been received. */
  ghost predicate WaiterInv(w: World) {
    && (Spawned(w.main) ==> !w.waiter.NotSpawned?)
    && (w.waiter.Finished? ==> w.ended.Some? && ExitValue(w.ended.value) in Sent(w))
  }

  lemma SentGrows(w: World, e: Event)
    requires Enabled(w, e)
    ensures Sent(w) <= Sent(Apply(w, e))
  {
    if e.ReadShutdown? {
      assert w.received + (w.exitChan + [GracefulShutdown]) == Sent(w) + [GracefulShutdown];
    } else if e.WaiterSends? {
      var x := ExitValue(if w.ended.Some? then w.ended.value else None);
      assert w.received + (w.exitChan + [x]) == Sent(w) + [x];
    } else {
      SentUnchanged(w, e);
    }
  }

  lemma StepKeepsWaiter(w: World, e: Event)
    requires PipeInv(w) && SourceInv(w) && WaiterInv(w) && Enabled(w, e)
    ensures WaiterInv(Apply(w, e))
  {
    var w' := Apply(w, e);
    WaiterMoves(w, e);
    SentGrows(w, e);
    if w'.waiter.Finished? {
      var x := ExitValue(w.ended.value);
      if w.waiter.Finished? {
        assert x in Sent(w);
      } else {
        assert w'.exitChan == w.exitChan + [x];
        assert w'.exitChan[|w.exitChan|] == x;
      }
    }
  }

  lemma {:induction false} RunKeepsWaiter(events: seq<Event>)
    ensures After(events).Some? ==> WaiterInv(After(events).value)
  {
    if events != [] && After(events).Some? {
      var n := |events| - 1;
      RunKeepsWaiter(events[..n]);
      RunKeepsInv(events[..n]);
      StepKeepsWaiter(After(events[..n]).value, events[n]);
    }
  }

  /** Once the container's waiter is done, the main thread finds a message in the exit channel, be it
      in its first receive or in the one after a shutdown. */
  lemma ReceiveIsServed(w: World)
    requires TakingInv(w) && WaiterInv(w) && w.waiter.Finished? && (w.main.FirstRecv? || w.main.SecondRecv?)
    ensures w.exitChan != []
  {
    assert ExitValue(w.ended.value) in Sent(w);
    assert ExitValue(w.ended.value) !in w.received;
  }

  predicate HasEnded(main: MainPc) {
    main.Done? || main.Failing?
  }

  /** What the guest has still to do, the container included. */
  function GuestWork(w: World): nat {
    MainWork(w.main) + WaiterWork(w.waiter, w.ended == None) + PipeWork(w.stdout) + PipeWork(w.stderr)
  }

  function MainWork(main: MainPc): nat {
    match main
    case Booting => 20
    case Parsing => 19
    case ReadyToPull => 18
    case Pulling => 17
    case Preparing => 16
    case Launching => 15
    case FirstRecv => 4
    case SecondRecv => 3
    case Joining(_) => 2
    case Leaving(_) => 1
    case Done(_) => 0
    case Failing(_) => 0
  }

  function WaiterWork(waiter: Waiter, running: bool): nat {
    match waiter
    case NotSpawned => 0
    case Waiting => if running then 3 else 2
    case Reported => 1
    case Finished => 0
  }

  function PipeWork(pipe: PipeThread): nat {
    if pipe.open then 1 else 0
  }

  predicate IsGuestEvent(e: Event) {
    !e.Die? && !e.RequestShutdown? && !e.ExtraShutdown? && !e.HostTakes? && !e.HostStops?
  }

  predicate Moves(w: World, e: Event) {
    IsGuestEvent(e) && GuestEnabled(w, e) && !Apply(w, e).dead && GuestWork(Apply(w, e)) < GuestWork(w)
  }

  lemma NextStart(w: World) returns (e: Event)
    requires PipeInv(w) && !w.dead && !Spawned(w.main) && !HasEnded(w.main)
    ensures Moves(w, e)
  {
    match w.main {
      case Booting => e := GoOnline(0, SOME_NOTE);
      case Parsing => e := ParseReference(true, SOME_NOTE);
      case ReadyToPull => e := StartPull(0, SOME_NOTE);
      case Pulling => e := FinishPull(true, SOME_NOTE);
      case Preparing => e := StartExecuting(0);
      case Launching => e := SpawnContainer;
    }
  }

  lemma NextReceive(w: World) returns (e: Event)
    requires !w.dead && (w.main.FirstRecv? || w.main.SecondRecv?)
    requires !w.waiter.NotSpawned? && (w.waiter.Finished? ==> w.exitChan != [])
    ensures Moves(w, e)
  {
    if w.exitChan != [] {
      e := Receive(SOME_NOTE);
    } else if w.waiter.Waiting? {
      e := if w.ended == None then ContainerEnds(None) else WaiterReports(SOME_NOTE);
    } else {
      e := WaiterSends;
    }
  }

  lemma NextJoin(w: World) returns (e: Event)
    requires !w.dead && (w.main.Joining? || w.main.Leaving?)
    ensures Moves(w, e)
  {
    if w.main.Leaving? {
      e := SendExit;
    } else {
      e := if w.stdout.open then ClosePipe(false) else if w.stderr.open then ClosePipe(true) else JoinPipes;
    }
  }

  lemma NextStep(w: World) returns (e: Event)
    requires PipeInv(w) && TakingInv(w) && WaiterInv(w) && !w.dead && !HasEnded(w.main)
    ensures Moves(w, e)
  {
    if !Spawned(w.main) {
      e := NextStart(w);
    } else if w.main.FirstRecv? || w.main.SecondRecv? {
      if w.waiter.Finished? {
        ReceiveIsServed(w);
      }
      e := NextReceive(w);
    } else {
      e := NextJoin(w);
    }
  }

  lemma ExitIsSent(w: World)
    requires ExitInv(w) && HasEnded(w.main)
    ensures w.exitAt.Some?
  {
  }

  /** Going on from a state. */
  function RunFrom(w: World, more: seq<Event>): Option<World> {
    if more == [] then Some(w)
    else
      var n := |more| - 1;
      var before := RunFrom(w, more[..n]);
      if before.Some? && Enabled(before.value, more[n]) then Some(Apply(before.value, more[n])) else None
  }

  lemma {:induction false} RunFromContinues(events: seq<Event>, w: World, more: seq<Event>)
    requires After(events) == Some(w)
    ensures After(events + more) == RunFrom(w, more)
  {
    if more == [] {
      assert events + [] == events;
    } else {
      var n := |more| - 1;
      RunFromContinues(events, w, more[..n]);
      Extend(events + more[..n], more[n]);
      assert events + more == events + more[..n] + [more[n]];
    }
  }

  lemma {:induction false} RunFromCons(w: World, e: Event, later: seq<Event>)
    requires Enabled(w, e)
    ensures RunFrom(w, [e] + later) == RunFrom(Apply(w, e), later)
  {
    if later == [] {
      assert [e] + later == [e] && [e][..0] == [];
      assert RunFrom(w, []) == Some(w);
    } else {
      var n := |later| - 1;
      RunFromCons(w, e, later[..n]);
      assert ([e] + later)[..|later|] == [e] + later[..n];
    }
  }

  lemma {:induction false} FinishFrom(w: World) returns (more: seq<Event>)
    requires Inv(w) && WaiterInv(w) && !w.dead
    ensures forall e :: e in more ==> IsGuestEvent(e)
    ensures RunFrom(w, more).Some?
    ensures HasEnded(RunFrom(w, more).value.main) && RunFrom(w, more).value.exitAt.Some?
    decreases GuestWork(w)
  {
    if HasEnded(w.main) {
      ExitIsSent(w);
      more := [];
    } else {
      var e := NextStep(w);
      StepKeepsInv(w, e);
      StepKeepsWaiter(w, e);
      var later := FinishFrom(Apply(w, e));
      more := [e] + later;
      RunFromCons(w, e, later);
    }
  }

  /** No interleaving leads to a hang: from every reachable state of a guest that has not died, the
      guest and its container alone can come to the end and send `Exited`. */
  lemma GuestCanAlwaysFinish(events: seq<Event>) returns (more: seq<Event>)
    requires After(events).Some? && !After(events).value.dead
    ensures forall e :: e in more ==> IsGuestEvent(e)
    ensures After(events + more).Some?
    ensures HasEnded(After(events + more).value.main) && After(events + more).value.exitAt.Some?
  {
    RunKeepsInv(events);
    RunKeepsWaiter(events);
    more := FinishFrom(After(events).value);
    RunFromContinues(events, After(events).value, more);
  }

  // ---- The init system's messages ----

  /** The message that an event is there to write, if any: a success writes none of its own, and a receive
      only when it is the first and takes a shutdown. */
  function NoteOf(before: World, e: Event): seq<string> {
    if e.GoOnline? || e.StartPull? || e.PullNote? || e.WaiterReports? || IsPullFailure(e)
       || (e.Receive? && before.main.FirstRecv? && before.exitChan != [] && before.exitChan[0] == GracefulShutdown)
    then [e.note.text] else []
  }

  function NotesOf(events: seq<Event>): seq<string> {
    if events == [] then []
    else
      var n := |events| - 1;
      NotesOf(events[..n]) + if After(events[..n]).Some? then NoteOf(After(events[..n]).value, events[n]) else []
  }

  lemma TwoPackets(wire: seq<GuestPacket>, p: GuestPacket, q: GuestPacket)
    requires !p.Log?
    ensures LinesOf(wire + [p], System) == LinesOf(wire, System)
    ensures LinesOf(wire + [p, q], System) ==
            LinesOf(wire, System) + if q.Log? && q.message.messageType == System then [q.message.text] else []
  {
    Snoc(wire, p);
    Snoc(wire + [p], q);
    assert wire + [p, q] == wire + [p] + [q];
  }

  lemma NotesAfter(w: World, e: Event)
    requires PipeInv(w) && Enabled(w, e)
    ensures LinesOf(Apply(w, e).wire, System) == LinesOf(w.wire, System) + NoteOf(w, e)
  {
    if WritesPhase(e) {
      PhaseNotes(w, e);
    } else if WritesExit(w, e) {
      ExitNotes(w, e);
    } else if WritesNote(w, e) {
      NoteEvent(w, e);
      Snoc(w.wire, Log(e.note));
    } else if e.EmitLine? {
      Snoc(w.wire, Log(e.line));
    } else {
      QuietEvent(w, e);
    }
  }

  lemma PhaseNotes(w: World, e: Event)
    requires Enabled(w, e) && WritesPhase(e)
    ensures LinesOf(Apply(w, e).wire, System) == LinesOf(w.wire, System) + NoteOf(w, e)
  {
    match e
    case GoOnline(ts, note) => TwoPackets(w.wire, VmState(Online, ts), Log(note));
    case StartPull(ts, note) => TwoPackets(w.wire, VmState(PullingContainerImage, ts), Log(note));
    case StartExecuting(ts) => Snoc(w.wire, VmState(ExecutingContainer, ts));
  }

  lemma ExitNotes(w: World, e: Event)
    requires Enabled(w, e) && WritesExit(w, e)
    ensures LinesOf(Apply(w, e).wire, System) == LinesOf(w.wire, System) + NoteOf(w, e)
  {
    if e.SendExit? {
      Snoc(w.wire, Exited(w.main.res));
      assert w.wire + [Exited(w.main.res)] + [] == w.wire + [Exited(w.main.res)];
    } else {
      FailureWritesMessage(w, e);
      Snoc(w.wire, Exited(FailedToPullContainerImage));
      Snoc(w.wire + [Exited(FailedToPullContainerImage)], Log(e.note));
    }
  }

  /** Every message of the init system is written exactly once, in the order of the events. */
  lemma {:induction false} EveryNoteIsWritten(events: seq<Event>)
    requires After(events).Some?
    ensures LinesOf(After(events).value.wire, System) == NotesOf(events)
  {
    if events != [] {
      var n := |events| - 1;
      EveryNoteIsWritten(events[..n]);
      RunKeepsInv(events[..n]);
      NotesAfter(After(events[..n]).value, events[n]);
    }
  }

  // ---- What the host reports ----

  /** The host reports `Unknown` exactly when its reader stopped before an `Exited`; otherwise it
      reports what the guest sent. */
  lemma HostReportsUnknownIff(events: seq<Event>)
    requires After(events).Some? && After(events).value.exit.Some?
    ensures var w := After(events).value;
            && w.taken <= |w.wire|
            && (w.exit.value == Unknown <==> NoExit(w.wire[..w.taken]))
            && (w.exit.value != Unknown ==>
                  w.exitAt.Some? && w.exitAt.value < |w.wire| && w.wire[w.exitAt.value].Exited?
                  && w.taken == w.exitAt.value + 1
                  && w.exit.value == FromGuest(w.wire[w.exitAt.value].exitCode))
  {
    RunKeepsInv(events);
    var w := After(events).value;
    if w.exit.value != Unknown {
      ExitPosition(w, w.taken - 1);
      assert w.wire[..w.taken][w.taken - 1].Exited?;
    }
  }

  // ---- The message behind the exit ----

  lemma ExitStays(w: World, e: Event)
    requires ExitInv(w) && Enabled(w, e) && w.exitAt.Some?
    ensures Apply(w, e).exitAt == w.exitAt
  {
  }

  lemma FailureWritesMessage(w: World, e: Event)
    requires Enabled(w, e) && IsPullFailure(e)
    ensures var w' := Apply(w, e);
            && w'.exitAt == Some(|w.wire|)
            && w'.wire == w.wire + [Exited(FailedToPullContainerImage)] + [Log(e.note)]
  {
  }

  /** After a failed parse or pull the message stands right behind `Exited` in the stream. */
  lemma {:induction false} MessageFollowsExited(events: seq<Event>, e: Event)
    requires After(events).Some? && e in events && IsPullFailure(e)
    ensures var w := After(events).value;
            && w.exitAt.Some? && w.exitAt.value + 1 < |w.wire|
            && w.wire[w.exitAt.value] == Exited(FailedToPullContainerImage)
            && w.wire[w.exitAt.value + 1] == Log(e.note)
  {
    var n := |events| - 1;
    var before := After(events[..n]).value;
    if e in events[..n] {
      MessageFollowsExited(events[..n], e);
      RunKeepsInv(events[..n]);
      ExitStays(before, events[n]);
      WireGrows(before, events[n]);
    } else {
      FailureWritesMessage(before, e);
    }
  }

  /** The handler takes nothing behind an `Exited`. */
  lemma TakenExit(w: World, i: nat)
    requires HostInv(w) && i < w.taken && w.wire[i].Exited?
    ensures w.taken == i + 1
  {
    assert forall k :: 0 <= k < w.taken ==> w.wire[..w.taken][k] == w.wire[k];
    assert forall k :: 0 <= k < w.taken - 1 ==> w.wire[..w.taken - 1][k] == w.wire[k];
  }

  lemma HistoryEndsBefore(w: World, i: nat)
    requires HostInv(w) && i < |w.wire| && w.wire[i].Exited?
    ensures w.taken <= i + 1 && w.history <= LogsOf(w.wire[..i])
  {
    if w.taken > i {
      TakenExit(w, i);
      assert w.wire[..i + 1] == w.wire[..i] + [w.wire[i]];
      LogsOfConcat(w.wire[..i], [w.wire[i]]);
      LogsOfOne(w.wire[i]);
    } else {
      assert w.wire[..i] == w.wire[..w.taken] + w.wire[w.taken..i];
      LogsOfConcat(w.wire[..w.taken], w.wire[w.taken..i]);
    }
  }

  /** ... and the host never takes it: its history ends before. */
  lemma MessageIsNeverTaken(events: seq<Event>, e: Event)
    requires After(events).Some? && e in events && IsPullFailure(e)
    ensures var w := After(events).value;
            && w.exitAt.Some? && w.taken <= w.exitAt.value + 1 < |w.wire|
            && w.wire[w.exitAt.value + 1] == Log(e.note)
            && w.history <= LogsOf(w.wire[..w.exitAt.value])
  {
    MessageFollowsExited(events, e);
    RunKeepsInv(events);
    HistoryEndsBefore(After(events).value, After(events).value.exitAt.value);
  }

  // ---- Lines ----

  lemma {:induction false} LinesOfLogs(wire: seq<GuestPacket>, t: LogMessageType)
    ensures LinesOfHistory(LogsOf(wire), t) == LinesOf(wire, t)
  {
    if wire != [] {
      var n := |wire| - 1;
      LinesOfLogs(wire[..n], t);
      var before := LogsOf(wire[..n]);
      match wire[n] {
        case Log(m) => assert (before + [VmLog(m)])[..|before|] == before;
        case VmState(s, ts) => assert (before + [State(s, ts)])[..|before|] == before;
        case Exited(_) => assert before + [] == before;
      }
    }
  }

  lemma {:induction false} LinesOfPrefix(wire: seq<GuestPacket>, n: nat, t: LogMessageType)
    requires n <= |wire|
    ensures LinesOf(wire[..n], t) <= LinesOf(wire, t)
  {
    if n < |wire| {
      var m := |wire| - 1;
      LinesOfPrefix(wire[..m], n, t);
      assert wire[..m][..n] == wire[..n];
    } else {
      assert wire[..n] == wire;
    }
  }

  /** Under any failure, each pipe's lines in the host history are a prefix of the lines its thread
      has emitted: none duplicated, none reordered, none skipped. */
  lemma HistoryHoldsAPrefixOfEachPipe(events: seq<Event>)
    requires After(events).Some?
    ensures var w := After(events).value;
            && LinesOfHistory(w.history, Stdout) <= w.stdout.lines
            && LinesOfHistory(w.history, Stderr) <= w.stderr.lines
  {
    RunKeepsInv(events);
    var w := After(events).value;
    LinesOfLogs(w.wire[..w.taken], Stdout);
    LinesOfLogs(w.wire[..w.taken], Stderr);
    LinesOfPrefix(w.wire, w.taken, Stdout);
    LinesOfPrefix(w.wire, w.taken, Stderr);
  }

  predicate FailureFree(events: seq<Event>) {
    Die !in events && HostStops !in events
  }

  lemma {:induction false} FailureFreeNeverUnknown(events: seq<Event>)
    requires After(events).Some? && FailureFree(events)
    ensures After(events).value.exit != Some(Unknown)
  {
    if events != [] {
      FailureFreeNeverUnknown(events[..|events| - 1]);
      KnownExit(After(events[..|events| - 1]).value, events[|events| - 1]);
    }
  }

  lemma KnownExit(w: World, e: Event)
    requires Enabled(w, e) && e != HostStops && w.exit != Some(Unknown)
    ensures Apply(w, e).exit != Some(Unknown)
  {
    if !e.HostTakes? {
      GuestLeavesHost(w, e);
    }
  }

  lemma ReportedExitDelivers(w: World)
    requires PipeInv(w) && ExitInv(w) && HostInv(w)
    requires w.exitAt.Some? && w.exitAt.value < |w.wire| && w.taken == w.exitAt.value + 1
    ensures w.wire[w.exitAt.value].Exited? && w.history == LogsOf(w.wire[..w.exitAt.value])
    ensures LinesOfHistory(w.history, Stdout) == w.stdout.lines && !w.stdout.open
    ensures LinesOfHistory(w.history, Stderr) == w.stderr.lines && !w.stderr.open
  {
    var i := w.exitAt.value;
    var before := w.wire[..i];
    assert w.wire[..i + 1] == before + [w.wire[i]];
    LogsOfConcat(before, [w.wire[i]]);
    LogsOfOne(w.wire[i]);
    LinesOfLogs(before, Stdout);
    LinesOfLogs(before, Stderr);
  }

  /** Once the handler of a failure-free run has stopped: it reported what the guest sent; the history
      holds exactly the packets before `Exited`; every line of both pipes is in it exactly once, in
      order; and no further line can come, since both pipes are at their end. */
  lemma FailureFreeRunDeliversEverything(events: seq<Event>)
    requires After(events).Some? && FailureFree(events) && After(events).value.exit.Some?
    ensures var w := After(events).value;
            && w.exitAt.Some? && w.exitAt.value < |w.wire| && w.wire[w.exitAt.value].Exited?
            && w.exit == Some(FromGuest(w.wire[w.exitAt.value].exitCode))
            && w.history == LogsOf(w.wire[..w.exitAt.value])
            && LinesOfHistory(w.history, Stdout) == w.stdout.lines && !w.stdout.open
            && LinesOfHistory(w.history, Stderr) == w.stderr.lines && !w.stderr.open
  {
    RunKeepsInv(events);
    FailureFreeNeverUnknown(events);
    HostReportsUnknownIff(events);
    ReportedExitDelivers(After(events).value);
  }

  /** What the node manager reports for a machine, once the handler of a failure-free run has stopped: a
      failed pull if and only if the pull failed; a graceful exit if and only if the guest took two
      shutdowns in a row; else the container's own code, 9999 if it has none. The host sends one shutdown
      at most, so then the second case cannot occur. */
  lemma HostReportsWhatHappened(events: seq<Event>)
    requires After(events).Some? && FailureFree(events) && After(events).value.exit.Some?
    ensures var w := After(events).value;
            && (w.exit.value == ExitPullFailed <==> PullFailed(events))
            && (w.exit.value == ExitGraceful <==> w.received == [GracefulShutdown, GracefulShutdown])
            && (w.exit.value != ExitPullFailed && w.exit.value != ExitGraceful ==>
                  w.exit.value.ExitContainer? && IsContainersCode(events, w.exit.value.code))
            && (ExtraShutdown !in events ==> w.exit.value != ExitGraceful)
  {
    RunKeepsInv(events);
    FailureFreeNeverUnknown(events);
    HostReportsUnknownIff(events);
    var w := After(events).value;
    ExitSaysWhatHappened(events, w.exitAt.value);
    if ExtraShutdown !in events {
      NoExtra(events);
      if w.received == [GracefulShutdown, GracefulShutdown] {
        TwoShutdownsCounted(w);
      }
    }
  }
}
