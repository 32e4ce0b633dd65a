/** Every interleaving of one machine's packet handler, its log subscribers, their forwarding
    tasks and the RPC clients behind them. Each event is one critical section or one channel
    operation of nodemanager/src/machine/vsock.rs, machine.rs or manager.rs. */
module LogStream {
  import opened Protocol
  import opened Ring
  import opened LogHub

  /** A `stream_logs` call: the snapshot it took, its bounded channel, the forwarding task's local
      entries, the RPC channel, and what the client has read. */
  datatype Client = Client(
    snapshot: seq<MachineLog>,
    since: nat,           // history length when it subscribed
    upTo: nat,            // history length when it was removed, or now
    late: bool,           // subscribed after the guest had exited
    subscribed: bool,     // its sender is in the subscriber list
    chan: Chan,
    inHand: seq<MachineLog>,
    rpc: seq<MachineLog>,
    rpcOpen: bool,
    finished: bool,       // the forwarding task has returned
    complete: bool,       // ... because the channel was closed and empty
    delivered: seq<MachineLog>)

  datatype Hub = Hub(
    history: seq<MachineLog>,
    state: GuestState,
    exited: bool,
    stopped: bool,
    clients: seq<Client>)

  const INIT := Hub([], None, false, false, [])

  datatype Event =
    | Packet(packet: GuestPacket)   // the handler processes one packet under the lock
    | Stop(lockFree: bool)          // the handler returns; `try_lock` may fail
    | Discard                       // the communicator itself is dropped
    | Subscribe                     // `get_and_subscribe_to_logs`
    | TaskSend(client: nat)         // the task's `tx.send(..).await` completes
    | TaskRecv(client: nat)         // `log_rx.recv()` yields an entry
    | TaskEnd(client: nat)          // `log_rx.recv()` yields `None`
    | RpcRead(client: nat)          // the gRPC client takes an entry
    | Hangup(client: nat)           // the gRPC client goes away

  function PushToClient(c: Client, data: MachineLog): Client {
    if !c.subscribed then c
    else if Accepts(c.chan) then c.(chan := Offer(c.chan, data), upTo := c.upTo + 1)
    else c.(subscribed := false)
  }

  function PushToClients(clients: seq<Client>, data: MachineLog): seq<Client> {
    seq(|clients|, i requires 0 <= i < |clients| => PushToClient(clients[i], data))
  }

  function Push(h: Hub, data: MachineLog): Hub {
    h.(history := h.history + [data], clients := PushToClients(h.clients, data))
  }

  function Unsubscribed(clients: seq<Client>): seq<Client> {
    seq(|clients|, i requires 0 <= i < |clients| => clients[i].(subscribed := false))
  }

  function Handle(h: Hub, packet: GuestPacket): Hub {
    match packet
    case Log(m) => Push(h, VmLog(m))
    case VmState(s, ts) => Push(h.(state := Some((s, ts))), State(s, ts))
    case Exited(_) => h.(state := None, exited := true)
  }

  function NewClient(h: Hub): Client {
    var snapshot := Snapshot(h.history, h.state);
    Client(snapshot, |h.history|, |h.history|, h.exited, true, Chan([], true), snapshot, [], true, false, false, [])
  }

  predicate ClientEnabled(c: Client, e: Event) {
    match e
    case TaskSend(_) => !c.finished && c.inHand != [] && (!c.rpcOpen || |c.rpc| < CHANNEL_CAPACITY)
    case TaskRecv(_) => !c.finished && c.inHand == [] && c.chan.queue != []
    case TaskEnd(_) => !c.finished && c.inHand == [] && c.chan.queue == [] && !c.subscribed
    case RpcRead(_) => c.rpcOpen && c.rpc != []
    case Hangup(_) => c.rpcOpen
    case _ => false
  }

  function ClientStep(c: Client, e: Event): Client
    requires ClientEnabled(c, e)
  {
    match e
    case TaskSend(_) =>
      if c.rpcOpen then c.(rpc := c.rpc + [c.inHand[0]], inHand := c.inHand[1..])
      else c.(finished := true, inHand := [], chan := Chan([], false))
    case TaskRecv(_) => c.(inHand := [c.chan.queue[0]], chan := c.chan.(queue := c.chan.queue[1..]))
    case TaskEnd(_) => c.(finished := true, complete := true, chan := Chan([], false))
    case RpcRead(_) => c.(delivered := c.delivered + [c.rpc[0]], rpc := c.rpc[1..])
    case Hangup(_) => c.(rpcOpen := false, rpc := [])
  }

  predicate Enabled(h: Hub, e: Event) {
    match e
    case Packet(_) => !h.exited && !h.stopped
    case Stop(_) => !h.stopped
    case Discard => h.stopped
    case Subscribe => true
    case _ => e.client < |h.clients| && ClientEnabled(h.clients[e.client], e)
  }

  function Apply(h: Hub, e: Event): Hub
    requires Enabled(h, e)
  {
    match e
    case Packet(p) => Handle(h, p)
    case Stop(lockFree) => h.(stopped := true, clients := if lockFree then Unsubscribed(h.clients) else h.clients)
    case Discard => h.(clients := Unsubscribed(h.clients))
    case Subscribe => h.(clients := h.clients + [NewClient(h)])
    case _ => h.(clients := h.clients[e.client := ClientStep(h.clients[e.client], e)])
  }

  /** The hub after a run, or `None` if some event of it was not possible. */
  function After(events: seq<Event>): Option<Hub> {
    if events == [] then Some(INIT)
    else
      var before := After(events[..|events| - 1]);
      if before.Some? && Enabled(before.value, events[|events| - 1])
      then Some(Apply(before.value, events[|events| - 1]))
      else None
  }

  // ---- What a client is entitled to ----

  function Entitled(c: Client, history: seq<MachineLog>): seq<MachineLog>
    requires c.since <= c.upTo <= |history|
  {
    c.snapshot + history[c.since..c.upTo]
  }

  ghost predicate ClientInv(c: Client, history: seq<MachineLog>) {
    && c.since <= c.upTo <= |history|
    && (c.subscribed ==> c.upTo == |history|)
    && |c.chan.queue| <= CHANNEL_CAPACITY && |c.rpc| <= CHANNEL_CAPACITY
    && c.snapshot == Snapshot(history[..c.since], if c.late then None else CurrentState(history[..c.since]))
    && (!c.finished && c.rpcOpen ==> c.delivered + c.rpc + c.inHand + c.chan.queue == Entitled(c, history))
    && (c.rpcOpen && c.complete ==> c.delivered + c.rpc == Entitled(c, history))
    && c.delivered + c.rpc <= Entitled(c, history)
    && (c.complete ==> c.finished && !c.subscribed)
    && (c.finished && c.rpcOpen ==> c.complete)
    && (!c.rpcOpen ==> c.rpc == [])
    && (c.finished ==> !c.chan.open)
    && (!c.finished ==> c.chan.open)
  }

  ghost predicate Inv(h: Hub) {
    && h.state == (if h.exited then None else CurrentState(h.history))
    && forall i :: 0 <= i < |h.clients| ==> ClientInv(h.clients[i], h.history)
  }

  lemma PushKeepsClient(c: Client, history: seq<MachineLog>, data: MachineLog)
    requires ClientInv(c, history)
    ensures ClientInv(PushToClient(c, data), history + [data])
  {
    var c' := PushToClient(c, data);
    assert (history + [data])[..c.since] == history[..c.since];
    if c'.upTo == c.upTo {
      assert (history + [data])[c.since..c.upTo] == history[c.since..c.upTo];
    } else {
      assert (history + [data])[c.since..c'.upTo] == history[c.since..c.upTo] + [data];
      assert Entitled(c', history + [data]) == Entitled(c, history) + [data];
      var front := c.delivered + c.rpc + c.inHand;
      assert front + (c.chan.queue + [data]) == (front + c.chan.queue) + [data];
    }
  }

  lemma SendKeepsClient(c: Client, history: seq<MachineLog>, e: Event)
    requires ClientInv(c, history) && e.TaskSend? && ClientEnabled(c, e)
    ensures ClientInv(ClientStep(c, e), history)
  {
    var c' := ClientStep(c, e);
    if c.rpcOpen {
      assert c.inHand == [c.inHand[0]] + c.inHand[1..];
      assert c'.delivered + c'.rpc + c'.inHand == c.delivered + c.rpc + c.inHand;
      assert c'.delivered + c'.rpc <= c'.delivered + c'.rpc + (c'.inHand + c'.chan.queue);
    }
  }

  lemma RecvKeepsClient(c: Client, history: seq<MachineLog>, e: Event)
    requires ClientInv(c, history) && e.TaskRecv? && ClientEnabled(c, e)
    ensures ClientInv(ClientStep(c, e), history)
  {
    var q := c.chan.queue;
    assert q == [q[0]] + q[1..];
    var front := c.delivered + c.rpc;
    assert front + [] + q == front + [q[0]] + q[1..];
  }

  lemma ReadKeepsClient(c: Client, history: seq<MachineLog>, e: Event)
    requires ClientInv(c, history) && e.RpcRead? && ClientEnabled(c, e)
    ensures ClientInv(ClientStep(c, e), history)
  {
    assert c.rpc == [c.rpc[0]] + c.rpc[1..];
    assert ClientStep(c, e).delivered + ClientStep(c, e).rpc == c.delivered + c.rpc;
  }

  lemma StepKeepsClient(c: Client, history: seq<MachineLog>, e: Event)
    requires ClientInv(c, history) && ClientEnabled(c, e)
    ensures ClientInv(ClientStep(c, e), history)
  {
    match e
    case TaskSend(_) => SendKeepsClient(c, history, e);
    case TaskRecv(_) => RecvKeepsClient(c, history, e);
    case RpcRead(_) => ReadKeepsClient(c, history, e);
    case TaskEnd(_) =>
      assert c.delivered + c.rpc + [] + [] == c.delivered + c.rpc;
    case Hangup(_) =>
      assert c.delivered + [] == c.delivered <= c.delivered + c.rpc;
  }

  lemma NewClientStarts(h: Hub)
    requires Inv(h)
    ensures ClientInv(NewClient(h), h.history)
  {
    var c := NewClient(h);
    assert h.history[..c.since] == h.history;
    assert c.delivered + c.rpc + c.inHand + c.chan.queue == c.snapshot;
    assert Entitled(c, h.history) == c.snapshot;
  }

  lemma PushKeepsInv(h: Hub, state: GuestState, data: MachineLog)
    requires forall i :: 0 <= i < |h.clients| ==> ClientInv(h.clients[i], h.history)
    requires !h.exited && h.state == CurrentState(h.history + [data])
    ensures Inv(Push(h, data))
  {
    forall i | 0 <= i < |h.clients| ensures ClientInv(Push(h, data).clients[i], h.history + [data]) {
      PushKeepsClient(h.clients[i], h.history, data);
    }
  }

  lemma PacketKeepsInv(h: Hub, packet: GuestPacket)
    requires Inv(h) && !h.exited
    ensures Inv(Handle(h, packet))
  {
    match packet
    case Log(m) =>
      assert (h.history + [VmLog(m)])[..|h.history|] == h.history;
      PushKeepsInv(h, h.state, VmLog(m));
    case VmState(s, ts) =>
      PushKeepsInv(h.(state := Some((s, ts))), h.state, State(s, ts));
    case Exited(_) =>
  }

  lemma ClientEventKeepsInv(h: Hub, e: Event)
    requires Inv(h) && (e.TaskSend? || e.TaskRecv? || e.TaskEnd? || e.RpcRead? || e.Hangup?) && Enabled(h, e)
    ensures Inv(Apply(h, e))
  {
    StepKeepsClient(h.clients[e.client], h.history, e);
  }

  lemma StepKeepsInv(h: Hub, e: Event)
    requires Inv(h) && Enabled(h, e)
    ensures Inv(Apply(h, e))
  {
    match e
    case Packet(packet) => PacketKeepsInv(h, packet);
    case Stop(_) =>
    case Discard =>
    case Subscribe => NewClientStarts(h);
    case _ => ClientEventKeepsInv(h, e);
  }

  lemma {:induction false} RunKeepsInv(events: seq<Event>)
    ensures After(events).Some? ==> Inv(After(events).value)
  {
    if events != [] && After(events).Some? {
      var n := |events| - 1;
      RunKeepsInv(events[..n]);
      StepKeepsInv(After(events[..n]).value, events[n]);
    }
  }

  // ---- Main results ----

  /** What a client's snapshot holds after the newest entries. */
  function StateRecord(c: Client): seq<MachineLog> {
    var n := Min(c.since, MAX_LINES_IN_BUFFER);
    if n <= |c.snapshot| then c.snapshot[n..] else []
  }

  lemma SnapshotParts(history: seq<MachineLog>, c: Client)
    requires ClientInv(c, history)
    ensures |StateRecord(c)| <= 1 && (forall e :: e in StateRecord(c) ==> e.State?)
    ensures c.snapshot == history[c.since - Min(c.since, MAX_LINES_IN_BUFFER)..c.since] + StateRecord(c)
    ensures !c.late ==> CurrentState(c.snapshot) == CurrentState(history[..c.since])
  {
    var past := history[..c.since];
    var state := if c.late then None else CurrentState(past);
    assert Tail(past, MAX_LINES_IN_BUFFER) == history[c.since - Min(c.since, MAX_LINES_IN_BUFFER)..c.since];
    assert StateRecord(c) == [] || StateRecord(c) == AsEntries(state);
    if !c.late {
      SnapshotShowsCurrentState(past, state);
    }
  }

  /** Over every run, a client that subscribed when the history had `since` entries has received a
      prefix of: the newest 256 of those entries, at most one state record, then the contiguous run
      of entries pushed afterwards. Nothing is lost, repeated or reordered at the seam; and unless
      the guest had exited, the snapshot shows the guest's current state. */
  lemma ObserverSeesContiguousHistory(events: seq<Event>, i: nat)
    requires After(events).Some? && i < |After(events).value.clients|
    ensures var h := After(events).value;
            var c := h.clients[i];
            && c.since <= c.upTo <= |h.history|
            && var first := c.since - Min(c.since, 256);
            && |StateRecord(c)| <= 1 && (forall e :: e in StateRecord(c) ==> e.State?)
            && c.snapshot == h.history[first..c.since] + StateRecord(c)
            && c.delivered <= h.history[first..c.since] + StateRecord(c) + h.history[c.since..c.upTo]
            && (!c.late ==> CurrentState(c.snapshot) == CurrentState(h.history[..c.since]))
  {
    RunKeepsInv(events);
    SnapshotParts(After(events).value.history, After(events).value.clients[i]);
  }

  /** A snapshot taken in any reachable state (`get_logs` and `stream_logs`, between critical sections):
      the newest 256 entries, oldest first, then the current state exactly when its entry has been
      evicted; its last state entry is the hub's current state. After the exit it is the entries alone. */
  lemma AnySnapshotShowsCurrentState(events: seq<Event>)
    requires After(events).Some?
    ensures var h := After(events).value;
            var tail := Tail(h.history, MAX_LINES_IN_BUFFER);
            var snapshot := Snapshot(h.history, h.state);
            && (!h.exited ==>
                  && snapshot == tail + (if CurrentState(tail) == None then AsEntries(h.state) else [])
                  && CurrentState(snapshot) == h.state == CurrentState(h.history))
            && (h.exited ==> snapshot == tail)
  {
    RunKeepsInv(events);
    var h := After(events).value;
    if h.exited {
      assert Tail(h.history, MAX_LINES_IN_BUFFER) + [] == Tail(h.history, MAX_LINES_IN_BUFFER);
    } else {
      SnapshotShowsCurrentState(h.history, h.state);
    }
  }

  /** A forwarding task only returns early when its client has gone: otherwise the stream ended on its
      own, and then it delivered everything its client was entitled to, once the client has read what
      was already in the RPC channel. */
  lemma CompletedStreamLosesNothing(events: seq<Event>, i: nat)
    requires After(events).Some? && i < |After(events).value.clients|
    ensures var h := After(events).value;
            var c := h.clients[i];
            && (c.finished && c.rpcOpen ==> c.complete && !c.subscribed)
            && (c.complete && c.rpcOpen && c.rpc == [] ==>
                  && c.since <= c.upTo <= |h.history|
                  && c.delivered == c.snapshot + h.history[c.since..c.upTo])
  {
    RunKeepsInv(events);
  }

  /** While a client is still subscribed it is never behind by more than what is in flight: what it
      has read, what is queued for it and what its task holds is the whole entitlement up to now. */
  lemma SubscribedClientMissesNothing(events: seq<Event>, i: nat)
    requires After(events).Some? && i < |After(events).value.clients|
    ensures var h := After(events).value;
            var c := h.clients[i];
            c.subscribed && c.rpcOpen && !c.finished ==>
              && c.since <= |h.history|
              && c.delivered + c.rpc + c.inHand + c.chan.queue == c.snapshot + h.history[c.since..]
              && |h.history| - c.since <= |c.delivered| + 2 * CHANNEL_CAPACITY + |c.inHand|
  {
    RunKeepsInv(events);
    var h := After(events).value;
    var c := h.clients[i];
    if c.subscribed && c.rpcOpen && !c.finished {
      assert h.history[c.since..c.upTo] == h.history[c.since..];
      assert |c.delivered + c.rpc + c.inHand + c.chan.queue| == |c.snapshot + h.history[c.since..]|;
    }
  }

  lemma SubscriptionAfterPush(c: Client, data: MachineLog)
    requires |c.chan.queue| <= CHANNEL_CAPACITY && (c.finished <==> !c.chan.open)
    ensures !PushToClient(c, data).subscribed <==> !c.subscribed || |c.chan.queue| == 128 || c.finished
  {
  }

  lemma SubscriptionAfterEvent(h: Hub, e: Event, i: nat)
    requires Enabled(h, e) && !e.Packet? && i < |h.clients|
    ensures i < |Apply(h, e).clients|
    ensures !Apply(h, e).clients[i].subscribed <==> !h.clients[i].subscribed || e == Stop(true) || e.Discard?
  {
  }

  /** A subscription ends only by a push into a full channel or to a task that is gone, by the handler's
      return, or with the communicator; and it never comes back. */
  lemma SubscriptionEndsIff(events: seq<Event>, e: Event, i: nat)
    requires After(events).Some? && i < |After(events).value.clients| && Enabled(After(events).value, e)
    ensures i < |Apply(After(events).value, e).clients|
    ensures var c := After(events).value.clients[i];
            var c' := Apply(After(events).value, e).clients[i];
            !c'.subscribed <==>
              || !c.subscribed
              || (e.Packet? && !e.packet.Exited? && (|c.chan.queue| == 128 || c.finished))
              || e == Stop(true)
              || e.Discard?
  {
    RunKeepsInv(events);
    var h := After(events).value;
    if e.Packet? {
      if !e.packet.Exited? {
        SubscriptionAfterPush(h.clients[i], LogsOf([e.packet])[0]);
        PacketPushes(h, e.packet);
      }
    } else {
      SubscriptionAfterEvent(h, e, i);
    }
  }

  lemma PacketPushes(h: Hub, packet: GuestPacket)
    requires !packet.Exited?
    ensures LogsOf([packet]) != []
    ensures Handle(h, packet).history == h.history + LogsOf([packet])
    ensures Handle(h, packet).clients == PushToClients(h.clients, LogsOf([packet])[0])
  {
    assert [packet][..0] == [];
  }

  /** A new client starts with the snapshot of this moment, subscribed, and is owed every entry from
      here on; no other client notices. */
  lemma SubscribeStartsNow(events: seq<Event>)
    requires After(events).Some?
    ensures Enabled(After(events).value, Subscribe)
    ensures var h := After(events).value;
            var h' := Apply(h, Subscribe);
            var c := h'.clients[|h.clients|];
            && h'.history == h.history && h'.clients[..|h.clients|] == h.clients
            && c.subscribed && c.rpcOpen && !c.finished
            && c.since == c.upTo == |h.history|
            && c.inHand == c.snapshot == Snapshot(h.history, h.state)
            && c.delivered == c.rpc == c.chan.queue == []
  {
  }

  // ---- Progress ----

  predicate IsDrain(e: Event, i: nat) {
    (e.TaskSend? || e.TaskRecv? || e.TaskEnd? || e.RpcRead?) && e.client == i
  }

  /** The steps of one client, its task included. */
  function ClientRun(c: Client, more: seq<Event>): Option<Client> {
    if more == [] then Some(c)
    else
      var n := |more| - 1;
      var before := ClientRun(c, more[..n]);
      if before.Some? && ClientEnabled(before.value, more[n]) then Some(ClientStep(before.value, more[n])) else None
  }

  lemma ClientRunSnoc(c: Client, more: seq<Event>, e: Event)
    ensures ClientRun(c, more + [e]) ==
            if ClientRun(c, more).Some? && ClientEnabled(ClientRun(c, more).value, e)
            then Some(ClientStep(ClientRun(c, more).value, e)) else None
  {
    assert (more + [e])[..|more|] == more;
  }

  lemma ClientStepIsStep(h: Hub, i: nat, e: Event)
    requires i < |h.clients| && IsDrain(e, i) && ClientEnabled(h.clients[i], e)
    ensures Enabled(h, e) && Apply(h, e) == h.(clients := h.clients[i := ClientStep(h.clients[i], e)])
  {
  }

  lemma NextEvent(events: seq<Event>, h: Hub, e: Event)
    requires After(events) == Some(h) && Enabled(h, e)
    ensures After(events + [e]) == Some(Apply(h, e))
  {
    assert (events + [e])[..|events|] == events;
  }

  lemma {:induction false} ClientRunIsRun(events: seq<Event>, h: Hub, i: nat, more: seq<Event>, c: Client)
    requires After(events) == Some(h) && i < |h.clients| && ClientRun(h.clients[i], more) == Some(c)
    requires forall e :: e in more ==> IsDrain(e, i)
    ensures After(events + more) == Some(h.(clients := h.clients[i := c]))
  {
    if more == [] {
      assert events + [] == events;
      assert h.clients[i := c] == h.clients;
    } else {
      var n := |more| - 1;
      var before := ClientRun(h.clients[i], more[..n]).value;
      ClientRunIsRun(events, h, i, more[..n], before);
      var h' := h.(clients := h.clients[i := before]);
      assert more[n] in more;
      ClientStepIsStep(h', i, more[n]);
      assert h'.clients[i := c] == h.clients[i := c];
      NextEvent(events + more[..n], h', more[n]);
      assert events + more == events + more[..n] + [more[n]];
    }
  }

  /** The entries still on their way to the client. */
  function InTransit(c: Client): nat {
    |c.rpc| + 2 * |c.inHand| + 3 * |c.chan.queue| + if c.finished then 0 else 1
  }

  /** Everything has arrived, and the stream is at its end if there is nothing more to come. */
  predicate Drained(c: Client, history: seq<MachineLog>) {
    && c.since <= c.upTo <= |history|
    && c.delivered == c.snapshot + history[c.since..c.upTo]
    && (!c.subscribed ==> c.complete)
  }

  lemma NextDrain(c: Client, history: seq<MachineLog>, i: nat) returns (e: Event)
    requires ClientInv(c, history) && c.rpcOpen && !(c.rpc == [] && (c.finished || (c.inHand == [] && c.chan.queue == [] && c.subscribed)))
    ensures IsDrain(e, i) && ClientEnabled(c, e) && InTransit(ClientStep(c, e)) < InTransit(c)
    ensures var c' := ClientStep(c, e);
            && c'.rpcOpen && c'.since == c.since && c'.upTo == c.upTo && c'.snapshot == c.snapshot
            && c'.subscribed == c.subscribed
  {
    if c.rpc != [] {
      e := RpcRead(i);
    } else if c.inHand != [] {
      e := TaskSend(i);
    } else if c.chan.queue != [] {
      e := TaskRecv(i);
    } else {
      e := TaskEnd(i);
    }
  }

  lemma {:induction false} DrainFrom(start: Client, history: seq<MachineLog>, i: nat, done: seq<Event>, c: Client)
      returns (more: seq<Event>, c': Client)
    requires ClientRun(start, done) == Some(c) && ClientInv(c, history) && c.rpcOpen
    requires forall e :: e in done ==> IsDrain(e, i)
    ensures forall e :: e in more ==> IsDrain(e, i)
    ensures ClientRun(start, more) == Some(c') && Drained(c', history)
    ensures c'.since == c.since && c'.upTo == c.upTo && c'.snapshot == c.snapshot && c'.subscribed == c.subscribed
    decreases InTransit(c)
  {
    if c.rpc == [] && (c.finished || (c.inHand == [] && c.chan.queue == [] && c.subscribed)) {
      more, c' := done, c;
      assert c.delivered + [] + [] + [] == c.delivered;
      assert c.delivered + [] == c.delivered;
    } else {
      var e := NextDrain(c, history, i);
      StepKeepsClient(c, history, e);
      ClientRunSnoc(start, done, e);
      more, c' := DrainFrom(start, history, i, done + [e], ClientStep(c, e));
    }
  }

  /** No stream stalls: from every reachable state, as long as its client is there, the forwarding task
      and the client's reads alone bring it everything it is entitled to so far, and to the end of the
      stream once it is no longer subscribed. */
  lemma StreamCanAlwaysDrain(events: seq<Event>, i: nat) returns (more: seq<Event>)
    requires After(events).Some? && i < |After(events).value.clients| && After(events).value.clients[i].rpcOpen
    ensures forall e :: e in more ==> IsDrain(e, i)
    ensures After(events + more).Some? && i < |After(events + more).value.clients|
    ensures var h, h' := After(events).value, After(events + more).value;
            var c, c' := h.clients[i], h'.clients[i];
            && h'.history == h.history
            && c'.since == c.since && c'.upTo == c.upTo && c'.snapshot == c.snapshot && c'.subscribed == c.subscribed
            && c'.since <= c'.upTo <= |h'.history|
            && c'.delivered == c'.snapshot + h'.history[c'.since..c'.upTo]
            && (!c'.subscribed ==> c'.complete)
  {
    RunKeepsInv(events);
    var h := After(events).value;
    var c';
    more, c' := DrainFrom(h.clients[i], h.history, i, [], h.clients[i]);
    ClientRunIsRun(events, h, i, more, c');
  }

  /** The channels of the subscribed clients, in subscription order. */
  function SubscriberChans(clients: seq<Client>): seq<Chan> {
    if clients == [] then []
    else
      var last := clients[|clients| - 1];
      SubscriberChans(clients[..|clients| - 1]) + if last.subscribed then [last.chan] else []
  }

  /** The push used in these runs is the one the communicator's `PushLog` performs. */
  lemma {:induction false} PushRefinesPushLog(clients: seq<Client>, data: MachineLog)
    ensures SubscriberChans(PushToClients(clients, data)) == AfterEntry(SubscriberChans(clients), data)
  {
    if clients != [] {
      var n := |clients| - 1;
      PushRefinesPushLog(clients[..n], data);
      assert PushToClients(clients, data)[..n] == PushToClients(clients[..n], data);
      var rest := SubscriberChans(clients[..n]);
      if clients[n].subscribed {
        assert (rest + [clients[n].chan])[..|rest|] == rest;
        assert AfterEntry(rest + [clients[n].chan], data) ==
               AfterEntry(rest, data) + if Accepts(clients[n].chan) then [Offer(clients[n].chan, data)] else [];
      } else {
        assert rest + [] == rest;
      }
    }
  }
}
