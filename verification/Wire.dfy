/** The guest's threads sharing one stream (instance/src/host.rs and main.rs): every write holds the
    communication mutex, but the bytes of one hold reach the stream in any number of pieces, and the
    guest may die between any two of them. */
module Wire {
  import opened Protocol
  import opened Framing

  type Tid = nat

  /** `batch` of a thread: the packets it writes under one hold of the mutex (one log line, a state
      change and its message, an exit and its message). */
  datatype Wire = Wire(
    codec: Codec<GuestPacket>,
    programs: seq<seq<seq<GuestPacket>>>, // per thread, the batches it still has to write
    owner: Option<Tid>,
    unwritten: seq<byte>,                 // bytes of the owner's batch not yet in the stream
    stream: seq<byte>,
    log: seq<(Tid, GuestPacket)>)         // packets in the order their batches took the mutex

  datatype Event =
    | Lock(thread: Tid)
    | Write(count: nat)
    | Unlock

  predicate Enabled(w: Wire, e: Event) {
    match e
    case Lock(t) => w.owner == None && t < |w.programs| && w.programs[t] != []
    case Write(n) => w.owner.Some? && 0 < n <= |w.unwritten|
    case Unlock => w.owner.Some? && w.unwritten == []
  }

  function Tagged(t: Tid, packets: seq<GuestPacket>): seq<(Tid, GuestPacket)> {
    seq(|packets|, i requires 0 <= i < |packets| => (t, packets[i]))
  }

  function Apply(w: Wire, e: Event): Wire
    requires Enabled(w, e)
  {
    match e
    case Lock(t) =>
      var batch := w.programs[t][0];
      w.(owner := Some(t),
         programs := w.programs[t := w.programs[t][1..]],
         unwritten := Frames(w.codec, batch),
         log := w.log + Tagged(t, batch))
    case Write(n) => w.(stream := w.stream + w.unwritten[..n], unwritten := w.unwritten[n..])
    case Unlock => w.(owner := None)
  }

  function Start(codec: Codec<GuestPacket>, programs: seq<seq<seq<GuestPacket>>>): Wire {
    Wire(codec, programs, None, [], [], [])
  }

  function After(start: Wire, events: seq<Event>): Option<Wire> {
    if events == [] then Some(start)
    else
      var n := |events| - 1;
      var before := After(start, events[..n]);
      if before.Some? && Enabled(before.value, events[n]) then Some(Apply(before.value, events[n])) else None
  }

  function Untagged(log: seq<(Tid, GuestPacket)>): (r: seq<GuestPacket>)
    ensures |r| == |log|
  {
    seq(|log|, i requires 0 <= i < |log| => log[i].1)
  }

  /** One thread's packets in the log, in log order. */
  function OfThread(log: seq<(Tid, GuestPacket)>, t: Tid): seq<GuestPacket> {
    if log == [] then []
    else
      var n := |log| - 1;
      OfThread(log[..n], t) + if log[n].0 == t then [log[n].1] else []
  }

  function Flatten(batches: seq<seq<GuestPacket>>): seq<GuestPacket> {
    if batches == [] then [] else batches[0] + Flatten(batches[1..])
  }

  // ---- Invariant ----

  ghost predicate Inv(start: Wire, w: Wire) {
    && w.codec == start.codec && |w.programs| == |start.programs|
    && w.stream + w.unwritten == Frames(w.codec, Untagged(w.log))
    && (w.owner == None ==> w.unwritten == [])
    && (forall t: Tid :: t < |w.programs| ==>
          OfThread(w.log, t) + Flatten(w.programs[t]) == Flatten(start.programs[t]))
  }

  lemma {:induction false} OfThreadTagged(log: seq<(Tid, GuestPacket)>, t: Tid, u: Tid, batch: seq<GuestPacket>)
    ensures OfThread(log + Tagged(t, batch), u) == OfThread(log, u) + if t == u then batch else []
  {
    if batch == [] {
      assert log + Tagged(t, batch) == log;
    } else {
      var n := |batch| - 1;
      var all := log + Tagged(t, batch);
      assert all[..|all| - 1] == log + Tagged(t, batch[..n]);
      OfThreadTagged(log, t, u, batch[..n]);
      assert batch == batch[..n] + [batch[n]];
    }
  }

  lemma LockKeepsThread(w: Wire, t: Tid, u: Tid)
    requires Enabled(w, Lock(t)) && u < |w.programs|
    ensures var w' := Apply(w, Lock(t));
            OfThread(w'.log, u) + Flatten(w'.programs[u]) == OfThread(w.log, u) + Flatten(w.programs[u])
  {
    var batch := w.programs[t][0];
    OfThreadTagged(w.log, t, u, batch);
    var before := OfThread(w.log, u);
    if u == t {
      var later := Flatten(w.programs[t][1..]);
      assert before + batch + later == before + (batch + later);
    } else {
      assert before + [] == before;
    }
  }

  lemma LockKeepsInv(start: Wire, w: Wire, t: Tid)
    requires Inv(start, w) && Enabled(w, Lock(t))
    ensures Inv(start, Apply(w, Lock(t)))
  {
    var w' := Apply(w, Lock(t));
    var batch := w.programs[t][0];
    assert Untagged(w'.log) == Untagged(w.log) + batch;
    FramesOfConcat(w.codec, Untagged(w.log), batch);
    assert w.stream + [] == w.stream;
    forall u: Tid | u < |w.programs|
      ensures OfThread(w'.log, u) + Flatten(w'.programs[u]) == Flatten(start.programs[u])
    {
      LockKeepsThread(w, t, u);
    }
  }

  lemma StepKeepsInv(start: Wire, w: Wire, e: Event)
    requires Inv(start, w) && Enabled(w, e)
    ensures Inv(start, Apply(w, e))
  {
    match e
    case Lock(t) => LockKeepsInv(start, w, t);
    case Write(n) =>
      assert w.unwritten == w.unwritten[..n] + w.unwritten[n..];
      assert w.stream + w.unwritten[..n] + w.unwritten[n..] == w.stream + w.unwritten;
    case Unlock =>
  }

  lemma {:induction false} RunKeepsInv(start: Wire, events: seq<Event>)
    requires start == Start(start.codec, start.programs)
    ensures After(start, events).Some? ==> Inv(start, After(start, events).value)
  {
    if events == [] {
      assert Untagged([]) == [];
      forall t: Tid | t < |start.programs| ensures OfThread([], t) + Flatten(start.programs[t]) == Flatten(start.programs[t]) {
      }
    } else if After(start, events).Some? {
      var n := |events| - 1;
      RunKeepsInv(start, events[..n]);
      StepKeepsInv(start, After(start, events[..n]).value, events[n]);
    }
  }

  // ---- Main results ----

  /** No frame is torn: at every moment of every run, what the host can read from the stream is
      exactly the packets of the frames that are complete in it, in mutex order, up to `Exited`. */
  lemma HostReadsWholeFrames(start: Wire, events: seq<Event>)
    requires start == Start(start.codec, start.programs) && After(start, events).Some?
    requires var packets := Untagged(After(start, events).value.log);
             Inverts(start.codec, packets) && FitsHost(start.codec, packets)
    ensures var w := After(start, events).value;
            var packets := Untagged(w.log);
            && Packets(w.codec, w.stream) == UpToExit(packets[..WholeFrames(w.codec, packets, |w.stream|)])
            && (w.owner == None ==> Packets(w.codec, w.stream) == UpToExit(packets))
  {
    RunKeepsInv(start, events);
    var w := After(start, events).value;
    var packets := Untagged(w.log);
    var all := Frames(w.codec, packets);
    assert w.stream == all[..|w.stream|];
    CutStreamYieldsWholeFrames(w.codec, packets, |w.stream|);
    if w.owner == None {
      assert w.stream + [] == w.stream;
      StreamRoundTrip(w.codec, packets);
    }
  }

  /** The packets in the stream are an interleaving of the threads' own sequences: restricted to one
      thread they are a prefix of what that thread writes, and all of it once it has nothing left. */
  lemma LogInterleavesThreads(start: Wire, events: seq<Event>, t: Tid)
    requires start == Start(start.codec, start.programs) && After(start, events).Some?
    requires t < |start.programs|
    ensures var w := After(start, events).value;
            && |w.programs| == |start.programs|
            && OfThread(w.log, t) <= Flatten(start.programs[t])
            && (w.programs[t] == [] ==> OfThread(w.log, t) == Flatten(start.programs[t]))
  {
    RunKeepsInv(start, events);
    var w := After(start, events).value;
    assert OfThread(w.log, t) + [] == OfThread(w.log, t);
  }
}
