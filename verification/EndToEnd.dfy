/** From a container's output to a log-stream client: the splitter, the machine's life, the byte stream
    and the log hub put together. `lossy` stands for `String::from_utf8_lossy`. */
module EndToEnd {
  import opened Protocol
  import Lines
  import Splitter
  import Framing
  import Lifecycle
  import LifecycleRuns
  import LogHub
  import LogStream
  import PacketHandler
  import StreamRefinement
  import WholeLog
  import Wire

  // ---- Lines fit their frames ----

  /** Every line the splitter ever sends makes a frame that the host accepts, when decoding at most
      triples a line and the codec adds at most `overhead` bytes to a text. */
  lemma EveryLineFitsAFrame(chunks: seq<seq<byte>>, lossy: seq<byte> -> string, utf8Length: string -> nat,
                            codec: Framing.Codec<GuestPacket>, overhead: nat, stamp: nat, kind: LogMessageType,
                            line: seq<byte>)
    requires Splitter.After(chunks).Some? && line in Splitter.AtEof(Splitter.After(chunks).value)
    requires utf8Length(lossy(line)) <= 3 * |line|
    requires forall m: LogMessage :: 0 < |codec.encode(Log(m))| <= utf8Length(m.text) + overhead
    requires overhead + 3 * (Splitter.BUFFER_LEN - 1) <= Framing.MAX_PACKET_SIZE
    ensures Framing.FitsHost(codec, [Log(LogMessage(lossy(line), stamp, kind))])
  {
    Splitter.EveryLineIsBounded(chunks);
  }

  // ---- The hub's history is the handler's ----

  /** The packets that a run of the hub has handled. */
  function Handled(events: seq<LogStream.Event>): seq<GuestPacket> {
    if events == [] then []
    else
      var n := |events| - 1;
      Handled(events[..n]) + if events[n].Packet? then [events[n].packet] else []
  }

  lemma HistoryGrowsByPackets(h: LogStream.Hub, e: LogStream.Event)
    requires LogStream.Enabled(h, e)
    ensures LogStream.Apply(h, e).history ==
            h.history + if e.Packet? then LogsOf([e.packet]) else []
  {
    if e.Packet? {
      PacketHandler.LogsOfOne(e.packet);
    }
  }

  lemma {:induction false} HubRecordsWhatItHandles(events: seq<LogStream.Event>)
    requires LogStream.After(events).Some?
    ensures LogStream.After(events).value.history == LogsOf(Handled(events))
  {
    if events != [] {
      var n := |events| - 1;
      HubRecordsWhatItHandles(events[..n]);
      HistoryGrowsByPackets(LogStream.After(events[..n]).value, events[n]);
      if events[n].Packet? {
        PacketHandler.LogsOfConcat(Handled(events[..n]), [events[n].packet]);
      } else {
        assert Handled(events) == Handled(events[..n]) + [] == Handled(events[..n]);
      }
    }
  }

  /** Before the first eviction a snapshot is the whole history. */
  lemma EarlySnapshotIsWhole(c: LogStream.Client, history: seq<MachineLog>)
    requires LogStream.ClientInv(c, history) && c.since <= LogHub.MAX_LINES_IN_BUFFER
    ensures c.snapshot == history[..c.since]
  {
    var past := history[..c.since];
    if !c.late {
      LogHub.CurrentStateMember(past);
    }
  }

  lemma WholeHistory(c: LogStream.Client, history: seq<MachineLog>)
    requires LogStream.ClientInv(c, history) && c.since <= LogHub.MAX_LINES_IN_BUFFER && c.upTo == |history|
    ensures c.snapshot + history[c.since..c.upTo] == history
  {
    EarlySnapshotIsWhole(c, history);
    var n := |history|;
    assert history == history[..c.since] + history[c.since..n];
  }

  /** A client that subscribed before the ring's first eviction, was never dropped for being slow and
      has read its stream to the end. */
  predicate HasReadAll(hub: LogStream.Hub, i: nat) {
    i < |hub.clients| &&
    var c := hub.clients[i];
    c.since <= LogHub.MAX_LINES_IN_BUFFER && c.complete && c.rpcOpen && c.rpc == [] && c.upTo == |hub.history|
  }

  /** Such a client holds the machine's whole history. */
  lemma EarlyClientHoldsEverything(events: seq<LogStream.Event>, hub: LogStream.Hub, i: nat)
    requires LogStream.After(events) == Some(hub) && HasReadAll(hub, i)
    ensures hub.clients[i].delivered == LogsOf(Handled(events))
  {
    LogStream.RunKeepsInv(events);
    HubRecordsWhatItHandles(events);
    LogStream.CompletedStreamLosesNothing(events, i);
    WholeHistory(hub.clients[i], hub.history);
  }

  // ---- What a pipe's thread has emitted ----

  /** The texts that one pipe's thread writes in a run. */
  function EmittedBy(life: seq<Lifecycle.Event>, stderr: bool): seq<string> {
    if life == [] then []
    else
      var n := |life| - 1;
      EmittedBy(life[..n], stderr) +
      if life[n].EmitLine? && life[n].stderr == stderr then [life[n].line.text] else []
  }

  function PipeOf(w: Lifecycle.World, stderr: bool): Lifecycle.PipeThread {
    if stderr then w.stderr else w.stdout
  }

  lemma PipeAfterEvent(w: Lifecycle.World, e: Lifecycle.Event, stderr: bool)
    requires Lifecycle.PipeInv(w) && Lifecycle.Enabled(w, e)
    ensures PipeOf(Lifecycle.Apply(w, e), stderr).lines ==
            PipeOf(w, stderr).lines + if e.EmitLine? && e.stderr == stderr then [e.line.text] else []
  {
  }

  lemma {:induction false} PipeHoldsWhatWasEmitted(life: seq<Lifecycle.Event>, stderr: bool)
    requires Lifecycle.After(life).Some?
    ensures PipeOf(Lifecycle.After(life).value, stderr).lines == EmittedBy(life, stderr)
  {
    if life != [] {
      var n := |life| - 1;
      PipeHoldsWhatWasEmitted(life[..n], stderr);
      Lifecycle.RunKeepsInv(life[..n]);
      PipeAfterEvent(Lifecycle.After(life[..n]).value, life[n], stderr);
    }
  }

  // ---- Bytes to client ----

  function Texts(lines: seq<seq<byte>>, lossy: seq<byte> -> string): seq<string> {
    seq(|lines|, i requires 0 <= i < |lines| => lossy(lines[i]))
  }

  /** The bytes that the guest's threads have brought onto the wire while the life came to `w`, under
      this codec, up to and including an `Exited`. */
  ghost predicate ArrivedUpToExit(w: Lifecycle.World, start: Wire.Wire, bytes: seq<Wire.Event>,
                                  packets: seq<GuestPacket>)
  {
    && start == Wire.Start(start.codec, start.programs) && Wire.After(start, bytes).Some?
    && Wire.Untagged(Wire.After(start, bytes).value.log) == w.wire
    && Framing.Inverts(start.codec, w.wire) && Framing.FitsHost(start.codec, w.wire)
    && packets == Framing.Packets(start.codec, Wire.After(start, bytes).value.stream)
    && PacketHandler.ExitOf(packets) != Unknown
  }

  /** Without failures, once the `Exited` has arrived, the bytes on the wire hold every line of both
      pipes, in order. */
  lemma ArrivedBytesHoldEveryLine(life: seq<Lifecycle.Event>, w: Lifecycle.World, start: Wire.Wire, bytes: seq<Wire.Event>,
                                  packets: seq<GuestPacket>, stderr: bool)
    requires Lifecycle.After(life) == Some(w) && LifecycleRuns.FailureFree(life)
    requires ArrivedUpToExit(w, start, bytes, packets) && w.exit == None && w.taken <= |packets|
    ensures Lifecycle.LinesOfHistory(LogsOf(packets), Lifecycle.TypeOf(stderr)) == EmittedBy(life, stderr)
  {
    var more, w' := StreamRefinement.BytesReadAreTaken(start, bytes, life, w);
    LifecycleRuns.FailureFreeRunDeliversEverything(life + more);
    PipeHoldsWhatWasEmitted(life, stderr);
    assert PipeOf(w', stderr) == PipeOf(w, stderr);
  }

  /** The whole way, on a run without failures: `chunks` are the reads of one of the container's pipes
      up to its end, its thread has emitted the splitter's lines, `packets` are those in the bytes that
      arrived, up to the `Exited`, the hub has handled them, and the client is as above. If every read
      was harmless, the client's lines of that pipe are exactly the newline split of the bytes the
      container wrote to it. */
  lemma ClientSeesTheContainersOutput(life: seq<Lifecycle.Event>, w: Lifecycle.World, start: Wire.Wire,
                                      bytes: seq<Wire.Event>, packets: seq<GuestPacket>,
                                      events: seq<LogStream.Event>, hub: LogStream.Hub, i: nat,
                                      chunks: seq<seq<byte>>, lossy: seq<byte> -> string, stderr: bool)
    requires Splitter.After(chunks).Some? && WholeLog.AllHarmless(chunks)
    requires EmittedBy(life, stderr)
          == Texts(Splitter.LogAt(Splitter.After(chunks).value, Splitter.EndOfFile), lossy)
    requires Lifecycle.After(life) == Some(w) && LifecycleRuns.FailureFree(life)
    requires ArrivedUpToExit(w, start, bytes, packets) && w.exit == None && w.taken <= |packets|
    requires LogStream.After(events) == Some(hub) && Handled(events) == packets && HasReadAll(hub, i)
    ensures Lifecycle.LinesOfHistory(hub.clients[i].delivered, Lifecycle.TypeOf(stderr))
         == Texts(Lines.SplitLines(Lines.Concat(chunks)), lossy)
  {
    WholeLog.WholeLogIsRightIff(chunks);
    EarlyClientHoldsEverything(events, hub, i);
    ArrivedBytesHoldEveryLine(life, w, start, bytes, packets, stderr);
  }
}
