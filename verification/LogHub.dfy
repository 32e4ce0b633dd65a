/** The host's log hub for one machine (nodemanager/src/machine/vsock.rs): a ring of the newest
    entries, a list of bounded subscriber channels, and the last reported guest state. */
module LogHub {
  import opened Protocol
  import opened Ring

  const MAX_LINES_IN_BUFFER: nat := 256
  const CHANNEL_CAPACITY: nat := 128

  type GuestState = Option<(InitVmState, nat)>

  // ---- One bounded subscriber channel ----

  datatype Chan = Chan(queue: seq<MachineLog>, open: bool)

  predicate Accepts(c: Chan) {
    c.open && |c.queue| < CHANNEL_CAPACITY
  }

  function Offer(c: Chan, data: MachineLog): Chan {
    if Accepts(c) then c.(queue := c.queue + [data]) else c
  }

  /** The subscriber list after one entry, stated as an order-preserving filter. */
  function AfterEntry(chans: seq<Chan>, data: MachineLog): seq<Chan> {
    if chans == [] then []
    else
      var last := chans[|chans| - 1];
      AfterEntry(chans[..|chans| - 1], data) + if Accepts(last) then [Offer(last, data)] else []
  }

  class Channel {
    var queue: seq<MachineLog>
    var receiverOpen: bool

    constructor ()
      ensures View() == Chan([], true)
    {
      queue, receiverOpen := [], true;
    }

    function View(): Chan
      reads this
    {
      Chan(queue, receiverOpen)
    }

    method TrySend(data: MachineLog) returns (ok: bool)
      modifies this
      ensures ok == old(Accepts(View()))
      ensures View() == Offer(old(View()), data)
    {
      ok := receiverOpen && |queue| < CHANNEL_CAPACITY;
      if ok {
        queue := queue + [data];
      }
    }
  }

  function Views(subscribers: seq<Channel>): (views: seq<Chan>)
    reads subscribers
    ensures |views| == |subscribers|
  {
    seq(|subscribers|, i requires 0 <= i < |subscribers| reads subscribers => subscribers[i].View())
  }

  /** The subscribers among the first `n` whose flag is set, in order. */
  function Kept<T>(subscribers: seq<T>, ok: seq<bool>): seq<T>
    requires |subscribers| == |ok|
  {
    if subscribers == [] then []
    else
      var n := |subscribers| - 1;
      Kept(subscribers[..n], ok[..n]) + if ok[n] then [subscribers[n]] else []
  }

  lemma {:induction false} KeptMember<T>(subscribers: seq<T>, ok: seq<bool>, c: T)
    requires |subscribers| == |ok|
    ensures c in Kept(subscribers, ok) <==> exists i :: 0 <= i < |ok| && ok[i] && subscribers[i] == c
  {
    if subscribers != [] {
      var n := |subscribers| - 1;
      KeptMember(subscribers[..n], ok[..n], c);
      if i :| 0 <= i < n && ok[i] && subscribers[i] == c {
        assert ok[..n][i] && subscribers[..n][i] == c;
      }
    }
  }

  lemma {:induction false} KeptDistinct<T>(subscribers: seq<T>, ok: seq<bool>)
    requires |subscribers| == |ok| && Distinct(subscribers)
    ensures Distinct(Kept(subscribers, ok))
  {
    if subscribers != [] {
      var n := |subscribers| - 1;
      KeptDistinct(subscribers[..n], ok[..n]);
      if subscribers[n] in Kept(subscribers[..n], ok[..n]) {
        KeptMember(subscribers[..n], ok[..n], subscribers[n]);
      }
    }
  }

  /** Keeping the accepted channels of a list whose members each took the offer is the filter. */
  lemma {:induction false} KeptIsFilter(before: seq<Chan>, after: seq<Chan>, ok: seq<bool>, data: MachineLog)
    requires |before| == |after| == |ok|
    requires forall i :: 0 <= i < |ok| ==> ok[i] == Accepts(before[i]) && after[i] == Offer(before[i], data)
    ensures Kept(after, ok) == AfterEntry(before, data)
  {
    if before != [] {
      var n := |before| - 1;
      KeptIsFilter(before[..n], after[..n], ok[..n], data);
    }
  }

  lemma {:induction false} ViewsOfKept(subscribers: seq<Channel>, ok: seq<bool>)
    requires |subscribers| == |ok|
    ensures forall c :: c in Kept(subscribers, ok) ==> c in subscribers
    ensures Views(Kept(subscribers, ok)) == Kept(Views(subscribers), ok)
  {
    if subscribers != [] {
      var n := |subscribers| - 1;
      ViewsOfKept(subscribers[..n], ok[..n]);
      assert Views(subscribers)[..n] == Views(subscribers[..n]);
    }
  }

  // ---- Snapshots ----

  /** The last state entry of a history. */
  function CurrentState(history: seq<MachineLog>): GuestState {
    if history == [] then None
    else
      match history[|history| - 1]
      case State(s, ts) => Some((s, ts))
      case VmLog(_) => CurrentState(history[..|history| - 1])
  }

  function AsEntries(state: GuestState): seq<MachineLog> {
    match state
    case None => []
    case Some((s, ts)) => [State(s, ts)]
  }

  /** What `clone_buffer_with_state` returns, by its own test: the state record is appended when
      the ring holds no equal entry. */
  function Snapshot(history: seq<MachineLog>, state: GuestState): seq<MachineLog> {
    var tail := Tail(history, MAX_LINES_IN_BUFFER);
    tail + if forall e :: e in AsEntries(state) ==> e in tail then [] else AsEntries(state)
  }

  lemma {:induction false} CurrentStateOfConcat(a: seq<MachineLog>, b: seq<MachineLog>)
    ensures CurrentState(a + b) == if CurrentState(b) == None then CurrentState(a) else CurrentState(b)
  {
    if b == [] {
      assert a + b == a;
    } else {
      var n := |b| - 1;
      assert (a + b)[..|a| + n] == a + b[..n];
      CurrentStateOfConcat(a, b[..n]);
    }
  }

  lemma {:induction false} CurrentStateMember(h: seq<MachineLog>)
    ensures CurrentState(h) == None ==> forall e :: e in h ==> e.VmLog?
    ensures forall e :: e in AsEntries(CurrentState(h)) ==> e in h
  {
    if h != [] {
      CurrentStateMember(h[..|h| - 1]);
    }
  }

  /** While the hub's state field is the last reported state: a snapshot is the newest entries,
      oldest first, followed by that state exactly when no state entry is left among them; and its
      last state entry is the current state, however long ago that was evicted. */
  lemma SnapshotShowsCurrentState(history: seq<MachineLog>, state: GuestState)
    requires state == CurrentState(history)
    ensures var tail := Tail(history, MAX_LINES_IN_BUFFER);
            Snapshot(history, state) == tail + if CurrentState(tail) == None then AsEntries(state) else []
    ensures CurrentState(Snapshot(history, state)) == state
  {
    var tail := Tail(history, MAX_LINES_IN_BUFFER);
    var evicted := history[..|history| - |tail|];
    assert history == evicted + tail;
    CurrentStateOfConcat(evicted, tail);
    CurrentStateMember(tail);
    CurrentStateOfConcat(tail, AsEntries(state));
    assert tail + [] == tail;
    assert CurrentState(AsEntries(state)) == state;
  }

  // ---- The communicator ----

  class MachineCommunicator {
    const logBuffer: CircularBuffer<MachineLog>
    var logSubscribers: seq<Channel>
    var state: GuestState

    ghost predicate Valid()
      reads this, logBuffer, logBuffer.items
    {
      && logBuffer.Valid()
      && logBuffer.items.Length == MAX_LINES_IN_BUFFER
      && Distinct(logSubscribers)
    }

    ghost function History(): seq<MachineLog>
      reads logBuffer
    {
      logBuffer.history
    }

    constructor ()
      ensures Valid() && fresh(logBuffer) && fresh(logBuffer.items)
      ensures History() == [] && logSubscribers == [] && state == None
    {
      logBuffer := new CircularBuffer(MAX_LINES_IN_BUFFER, State(Online, 0));
      logSubscribers, state := [], None;
    }

    /** Records an entry, offers it to every subscriber, then drops the subscribers whose send
        failed (by index list and counter, as the source does). */
    method PushLog(data: MachineLog)
      requires Valid()
      modifies this`logSubscribers, logBuffer, logBuffer.items, logSubscribers
      ensures Valid()
      ensures History() == old(History()) + [data]
      ensures Views(logSubscribers) == AfterEntry(old(Views(logSubscribers)), data)
      ensures forall c :: c in old(logSubscribers) ==> c.View() == Offer(old(c.View()), data)
      ensures forall c :: c in logSubscribers <==> c in old(logSubscribers) && old(Accepts(c.View()))
    {
      logBuffer.PushFront(data);
      if logSubscribers == [] {
        return;
      }
      Distribute(data);
    }

    method Distribute(data: MachineLog)
      requires Distinct(logSubscribers)
      modifies this`logSubscribers, logSubscribers
      ensures Distinct(logSubscribers)
      ensures Views(logSubscribers) == AfterEntry(old(Views(logSubscribers)), data)
      ensures forall c :: c in old(logSubscribers) ==> c.View() == Offer(old(c.View()), data)
      ensures forall c :: c in logSubscribers <==> c in old(logSubscribers) && old(Accepts(c.View()))
    {
      ghost var subscribers := logSubscribers;
      ghost var before := Views(subscribers);
      ghost var ok := seq(|before|, i requires 0 <= i < |before| => Accepts(before[i]));
      var toDrop := OfferToAll(data, ok);
      if toDrop != [] {
        Retain(toDrop, ok);
      } else {
        KeptAll(subscribers, ok);
      }
      KeptFacts(subscribers, before, ok, data);
      forall c | c in subscribers
        ensures c.View() == Offer(old(c.View()), data)
        ensures c in logSubscribers <==> old(Accepts(c.View()))
      {
        var i :| 0 <= i < |subscribers| && subscribers[i] == c;
        assert before[i] == old(c.View()) && ok[i] == Accepts(before[i]);
      }
    }

    lemma KeptFacts(subscribers: seq<Channel>, before: seq<Chan>, ok: seq<bool>, data: MachineLog)
      requires |subscribers| == |before| == |ok| && Distinct(subscribers)
      requires forall i :: 0 <= i < |ok| ==> ok[i] == Accepts(before[i])
      requires forall i :: 0 <= i < |ok| ==> subscribers[i].View() == Offer(before[i], data)
      ensures Distinct(Kept(subscribers, ok))
      ensures forall c :: c in Kept(subscribers, ok) ==> c in subscribers
      ensures forall i :: 0 <= i < |ok| ==> (subscribers[i] in Kept(subscribers, ok) <==> ok[i])
      ensures Views(Kept(subscribers, ok)) == AfterEntry(before, data)
    {
      KeptIsFilter(before, Views(subscribers), ok, data);
      ViewsOfKept(subscribers, ok);
      KeptDistinct(subscribers, ok);
      forall i | 0 <= i < |ok| ensures subscribers[i] in Kept(subscribers, ok) <==> ok[i] {
        KeptMember(subscribers, ok, subscribers[i]);
      }
    }

    /** One `try_send` per subscriber; returns the indices of those that failed. */
    method OfferToAll(data: MachineLog, ghost ok: seq<bool>) returns (toDrop: seq<nat>)
      requires Distinct(logSubscribers)
      requires |ok| == |logSubscribers|
      requires forall i :: 0 <= i < |ok| ==> ok[i] == Accepts(logSubscribers[i].View())
      modifies logSubscribers
      ensures forall k: nat :: k in toDrop <==> k < |ok| && !ok[k]
      ensures forall k :: 0 <= k < |logSubscribers| ==> logSubscribers[k].View() == Offer(old(logSubscribers[k].View()), data)
    {
      toDrop := [];
      for i := 0 to |logSubscribers|
        invariant forall k: nat :: k in toDrop <==> k < i && !ok[k]
        invariant forall k :: 0 <= k < i ==> logSubscribers[k].View() == Offer(old(logSubscribers[k].View()), data)
        invariant forall k :: i <= k < |logSubscribers| ==> logSubscribers[k].View() == old(logSubscribers[k].View())
      {
        var sent := logSubscribers[i].TrySend(data);
        if !sent {
          toDrop := toDrop + [i];
        }
      }
    }

    /** `retain` with a running counter: keeps the subscribers whose index is not listed. */
    method Retain(toDrop: seq<nat>, ghost ok: seq<bool>)
      requires |ok| == |logSubscribers|
      requires forall k: nat :: k in toDrop <==> k < |ok| && !ok[k]
      modifies this`logSubscribers
      ensures logSubscribers == Kept(old(logSubscribers), ok)
    {
      var kept: seq<Channel> := [];
      var i := 0;
      while i < |logSubscribers|
        invariant 0 <= i <= |logSubscribers|
        invariant logSubscribers == old(logSubscribers)
        invariant kept == Kept(logSubscribers[..i], ok[..i])
      {
        assert logSubscribers[..i + 1][..i] == logSubscribers[..i] && ok[..i + 1][..i] == ok[..i];
        if i !in toDrop {
          kept := kept + [logSubscribers[i]];
        }
        i := i + 1;
      }
      assert logSubscribers[..i] == logSubscribers && ok[..i] == ok;
      logSubscribers := kept;
    }

    lemma {:induction false} KeptAll(subscribers: seq<Channel>, ok: seq<bool>)
      requires |subscribers| == |ok|
      requires forall i :: 0 <= i < |ok| ==> ok[i]
      ensures Kept(subscribers, ok) == subscribers
    {
      if subscribers != [] {
        var n := |subscribers| - 1;
        KeptAll(subscribers[..n], ok[..n]);
      }
    }

    method SubscribeLog() returns (rx: Channel)
      requires Valid()
      requires forall c :: c in logSubscribers ==> allocated(c)
      modifies this`logSubscribers
      ensures Valid() && fresh(rx) && rx.View() == Chan([], true)
      ensures logSubscribers == old(logSubscribers) + [rx]
    {
      rx := new Channel();
      logSubscribers := logSubscribers + [rx];
    }

    method CloneBufferWithState() returns (entries: seq<MachineLog>)
      requires Valid()
      ensures entries == Snapshot(History(), state)
    {
      var view := logBuffer.Iter();
      var tail := Reversed(view);
      assert tail == Tail(History(), MAX_LINES_IN_BUFFER);
      var stateFound := state.Some? && State(state.value.0, state.value.1) in view;
      assert forall e :: e in view <==> e in tail;
      entries := tail + if state.None? || stateFound then [] else [State(state.value.0, state.value.1)];
    }

    method Reversed(view: seq<MachineLog>) returns (r: seq<MachineLog>)
      ensures |r| == |view| && forall i :: 0 <= i < |r| ==> r[i] == view[|view| - 1 - i]
      ensures forall e :: e in r <==> e in view
    {
      r := [];
      for i := 0 to |view|
        invariant |r| == i && forall k :: 0 <= k < i ==> r[k] == view[i - 1 - k]
      {
        r := [view[i]] + r;
      }
      assert forall i :: 0 <= i < |view| ==> view[i] == r[|view| - 1 - i];
    }

    /** Snapshot and subscription under one hold of the communicator lock. */
    method GetAndSubscribeToLogs() returns (entries: seq<MachineLog>, rx: Channel)
      requires Valid()
      requires forall c :: c in logSubscribers ==> allocated(c)
      modifies this`logSubscribers
      ensures Valid() && fresh(rx) && rx.View() == Chan([], true)
      ensures entries == Snapshot(History(), state)
      ensures logSubscribers == old(logSubscribers) + [rx]
    {
      entries := CloneBufferWithState();
      rx := SubscribeLog();
    }

    method DropSubscribers()
      requires Valid()
      modifies this`logSubscribers
      ensures Valid() && logSubscribers == []
    {
      logSubscribers := [];
    }
  }
}
