/** The byte stream under a machine's life: what the host's reader finds in the bytes that have arrived
    is what the packet-level life lets its handler take. Composes `Wire`, `Framing` and `Lifecycle`. */
module StreamRefinement {
  import opened Protocol
  import opened Framing
  import opened PacketHandler
  import Wire
  import opened Lifecycle

  lemma {:induction false} UpToExitIsPrefix(packets: seq<GuestPacket>)
    ensures UpToExit(packets) <= packets && NoExitBeforeLast(UpToExit(packets))
  {
    if packets != [] && !packets[0].Exited? {
      UpToExitIsPrefix(packets[1..]);
      assert packets == [packets[0]] + packets[1..];
      var later := UpToExit(packets[1..]);
      assert NoExitBeforeLast([packets[0]] + later);
    }
  }

  lemma TakeOne(events: seq<Event>, w: World)
    requires After(events) == Some(w) && w.exit == None && w.taken < |w.wire|
    ensures After(events + [HostTakes]) == Some(HostReads(w))
  {
    assert (events + [HostTakes])[..|events|] == events;
  }

  /** What the handler has taken, and whether it has stopped at an `Exited`. */
  predicate HasTaken(w: World, from: World, m: nat) {
    && w.wire == from.wire && w.taken == m <= |w.wire|
    && w.stdout == from.stdout && w.stderr == from.stderr
    && w.exit == if from.taken < m && w.wire[m - 1].Exited? then Some(FromGuest(w.wire[m - 1].exitCode)) else None
  }

  /** The handler can go on up to an `Exited`. */
  predicate CanTake(w: World, n: nat) {
    && w.exit == None && w.taken + n <= |w.wire|
    && forall i :: w.taken <= i < w.taken + n - 1 ==> !w.wire[i].Exited?
  }

  function TakeMany(w: World, n: nat): (w': World)
    requires CanTake(w, n)
    ensures HasTaken(w', w, w.taken + n)
  {
    if n == 0 then w else HostReads(TakeMany(w, n - 1))
  }

  function Takes(n: nat): seq<Event> {
    seq(n, _ => HostTakes)
  }

  lemma {:induction false} TakeManyIsRun(events: seq<Event>, w: World, n: nat)
    requires After(events) == Some(w) && CanTake(w, n)
    ensures After(events + Takes(n)) == Some(TakeMany(w, n))
  {
    if n == 0 {
      assert events + Takes(0) == events;
    } else {
      TakeManyIsRun(events, w, n - 1);
      TakeOne(events + Takes(n - 1), TakeMany(w, n - 1));
      assert events + Takes(n) == events + Takes(n - 1) + [HostTakes];
    }
  }

  lemma HistoryIsTaken(events: seq<Event>, w: World)
    requires After(events) == Some(w)
    ensures w.taken <= |w.wire| && w.history == LogsOf(w.wire[..w.taken])
  {
    RunKeepsInv(events);
  }

  /** The bytes in a `Wire` stream hold a prefix of the packets its threads have begun to write. */
  lemma PacketsArePrefix(start: Wire.Wire, bytes: seq<Wire.Event>)
    requires start == Wire.Start(start.codec, start.programs) && Wire.After(start, bytes).Some?
    requires var packets := Wire.Untagged(Wire.After(start, bytes).value.log);
             Inverts(start.codec, packets) && FitsHost(start.codec, packets)
    ensures var y := Wire.After(start, bytes).value;
            var packets := Packets(start.codec, y.stream);
            packets <= Wire.Untagged(y.log) && NoExitBeforeLast(packets)
  {
    Wire.RunKeepsInv(start, bytes);
    Wire.HostReadsWholeFrames(start, bytes);
    var y := Wire.After(start, bytes).value;
    var all := Wire.Untagged(y.log);
    UpToExitIsPrefix(all[..WholeFrames(y.codec, all, |y.stream|)]);
  }

  /** Bytes refine packets. Take any run of the byte stream and any run of the machine's life in which
      the same packets have been written in the same order, whatever part of the bytes has arrived.
      Then the life can go on by steps of the handler alone to where it has taken exactly the packets
      that the arrived bytes hold, and history and exit are those that the handler's task computes
      from the bytes. */
  lemma BytesReadAreTaken(start: Wire.Wire, bytes: seq<Wire.Event>, events: seq<Event>, w: World)
      returns (more: seq<Event>, w': World)
    requires start == Wire.Start(start.codec, start.programs) && Wire.After(start, bytes).Some?
    requires Wire.Untagged(Wire.After(start, bytes).value.log) == w.wire
    requires Inverts(start.codec, w.wire) && FitsHost(start.codec, w.wire)
    requires After(events) == Some(w) && w.exit == None
    requires w.taken <= |Packets(start.codec, Wire.After(start, bytes).value.stream)|
    ensures forall e :: e in more ==> e == HostTakes
    ensures After(events + more) == Some(w') && w'.wire == w.wire && w'.taken <= |w'.wire|
    ensures w'.stdout == w.stdout && w'.stderr == w.stderr
    ensures var packets := Packets(start.codec, Wire.After(start, bytes).value.stream);
            && w'.wire[..w'.taken] == packets
            && w'.history == LogsOf(packets)
            && (w'.exit == if ExitOf(packets) == Unknown then None else Some(ExitOf(packets)))
  {
    var packets := Packets(start.codec, Wire.After(start, bytes).value.stream);
    PacketsArePrefix(start, bytes);
    assert w.wire[..|packets|] == packets;
    assert forall i :: 0 <= i < |packets| ==> w.wire[i] == packets[i];
    var n := |packets| - w.taken;
    TakeManyIsRun(events, w, n);
    more, w' := Takes(n), TakeMany(w, n);
    HistoryIsTaken(events + more, w');
    if w.taken == |packets| {
      HostHasNotStopped(events, w);
    }
  }

  /** A handler that has not stopped has not taken an `Exited`. */
  lemma HostHasNotStopped(events: seq<Event>, w: World)
    requires After(events) == Some(w) && w.exit == None
    ensures w.taken <= |w.wire| && ExitOf(w.wire[..w.taken]) == Unknown
  {
    RunKeepsInv(events);
    if w.taken > 0 {
      assert !w.wire[..w.taken][w.taken - 1].Exited?;
    }
  }
}
