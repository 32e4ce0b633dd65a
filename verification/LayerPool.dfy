/** The worker threads that download an image's layers (instance/src/containers/mod.rs): a shared queue,
    a progress counter advanced under the communication mutex, and a main thread that joins the workers
    in the order it spawned them. */
module LayerPool {
  import opened Protocol

  const CONCURRENT_LAYER_DOWNLOADS: nat := 5

  datatype Worker =
    | Idle                             // at the top of its loop
    | Extracting(layer: nat)           // downloading and unpacking
    | Extracted(layer: nat)            // waiting for the communication mutex
    | Locked(layer: nat)               // holds it
    | Counted(layer: nat, ordinal: nat)  // has advanced the counter, still holds it
    | Finished                         // returned `Ok`, the queue was empty
    | Aborted(layer: nat)              // returned an error

  datatype Report = Report(ordinal: nat, layer: nat)

  /** What main's join loop has come to. */
  datatype Answer = Joining | Pulled | PullFailed

  datatype Pool = Pool(
    count: nat,             // layers of the manifest
    next: nat,              // the queue holds the layers from here on
    workers: seq<Worker>,
    extracted: seq<nat>,    // layers unpacked so far, in order
    progress: nat,
    comm: Option<nat>,      // the worker that holds the communication mutex
    reports: seq<Report>,
    joined: nat,
    answer: Answer)

  datatype Event =
    | Pop(t: nat)
    | Extract(t: nat, ok: bool)
    | Lock(t: nat)
    | Count(t: nat)
    | Announce(t: nat)      // logs the message and releases the mutex
    | Join                  // main takes the next worker's result
    | Succeed

  function Start(count: nat): Pool {
    Pool(count, 0, seq(Min(CONCURRENT_LAYER_DOWNLOADS, count), _ => Idle), [], 0, None, [], 0, Joining)
  }

  predicate Enabled(p: Pool, e: Event) {
    match e
    case Pop(t) => t < |p.workers| && p.workers[t].Idle?
    case Extract(t, _) => t < |p.workers| && p.workers[t].Extracting?
    case Lock(t) => t < |p.workers| && p.workers[t].Extracted? && p.comm == None
    case Count(t) => t < |p.workers| && p.workers[t].Locked?
    case Announce(t) => t < |p.workers| && p.workers[t].Counted?
    case Join => p.answer == Joining && p.joined < |p.workers| &&
                 (p.workers[p.joined].Finished? || p.workers[p.joined].Aborted?)
    case Succeed => p.answer == Joining && p.joined == |p.workers|
  }

  function Put(p: Pool, t: nat, w: Worker): Pool
    requires t < |p.workers|
  {
    p.(workers := p.workers[t := w])
  }

  function Apply(p: Pool, e: Event): Pool
    requires Enabled(p, e)
  {
    match e
    case Pop(t) => if p.next < p.count then Put(p, t, Extracting(p.next)).(next := p.next + 1) else Put(p, t, Finished)
    case Extract(t, ok) =>
      var i := p.workers[t].layer;
      if ok then Put(p, t, Extracted(i)).(extracted := p.extracted + [i]) else Put(p, t, Aborted(i))
    case Lock(t) => Put(p, t, Locked(p.workers[t].layer)).(comm := Some(t))
    case Count(t) => Put(p, t, Counted(p.workers[t].layer, p.progress + 1)).(progress := p.progress + 1)
    case Announce(t) =>
      var w := p.workers[t];
      Put(p, t, Idle).(comm := None, reports := p.reports + [Report(w.ordinal, w.layer)])
    case Join => if p.workers[p.joined].Finished? then p.(joined := p.joined + 1) else p.(answer := PullFailed)
    case Succeed => p.(answer := Pulled)
  }

  function After(count: nat, events: seq<Event>): Option<Pool> {
    if events == [] then Some(Start(count))
    else
      var n := |events| - 1;
      var before := After(count, events[..n]);
      if before.Some? && Enabled(before.value, events[n]) then Some(Apply(before.value, events[n])) else None
  }

  // ---- Where each layer is ----

  datatype Place = InFlight | Unreported | Failed

  predicate IsAt(w: Worker, place: Place, i: nat) {
    match w
    case Extracting(layer) => place == InFlight && layer == i
    case Extracted(layer) => place == Unreported && layer == i
    case Locked(layer) => place == Unreported && layer == i
    case Counted(layer, _) => place == Unreported && layer == i
    case Aborted(layer) => place == Failed && layer == i
    case _ => false
  }

  /** The number of workers that have layer `i` at a place. */
  function At(workers: seq<Worker>, place: Place, i: nat): nat {
    if workers == [] then 0
    else At(workers[..|workers| - 1], place, i) + if IsAt(workers[|workers| - 1], place, i) then 1 else 0
  }

  function Queued(p: Pool, i: nat): nat {
    if p.next <= i < p.count then 1 else 0
  }

  function ReportedLayers(reports: seq<Report>): multiset<nat> {
    if reports == [] then multiset{}
    else ReportedLayers(reports[..|reports| - 1]) + multiset{reports[|reports| - 1].layer}
  }

  lemma {:induction false} AtAfterUpdate(workers: seq<Worker>, t: nat, w: Worker, place: Place, i: nat)
    requires t < |workers|
    ensures At(workers[t := w], place, i) + (if IsAt(workers[t], place, i) then 1 else 0)
         == At(workers, place, i) + if IsAt(w, place, i) then 1 else 0
  {
    var n := |workers| - 1;
    if t == n {
      assert workers[t := w][..n] == workers[..n];
    } else {
      assert workers[t := w][..n] == workers[..n][t := w];
      AtAfterUpdate(workers[..n], t, w, place, i);
    }
  }

  lemma {:induction false} AtNowhere(workers: seq<Worker>, place: Place, i: nat)
    requires forall t :: 0 <= t < |workers| ==> !IsAt(workers[t], place, i)
    ensures At(workers, place, i) == 0
  {
    if workers != [] {
      AtNowhere(workers[..|workers| - 1], place, i);
    }
  }

  lemma AddReport(reports: seq<Report>, r: Report, i: nat)
    ensures ReportedLayers(reports + [r])[i] == ReportedLayers(reports)[i] + if r.layer == i then 1 else 0
  {
    assert (reports + [r])[..|reports|] == reports;
  }

  // ---- Invariants ----

  /** Layer `i` of the manifest is in exactly one place, and extracted layers are reported once. */
  ghost predicate PlaceInv(p: Pool, i: nat) {
    && p.next <= p.count
    && Queued(p, i) + At(p.workers, InFlight, i) + multiset(p.extracted)[i] + At(p.workers, Failed, i)
       == (if i < p.count then 1 else 0)
    && multiset(p.extracted)[i] == At(p.workers, Unreported, i) + ReportedLayers(p.reports)[i]
  }

  predicate HoldsComm(w: Worker) {
    w.Locked? || w.Counted?
  }

  /** Labels are handed out in the order in which they are sent. */
  ghost predicate LabelInv(p: Pool) {
    && (forall t :: 0 <= t < |p.workers| ==> (HoldsComm(p.workers[t]) <==> p.comm == Some(t)))
    && (p.comm.Some? ==> p.comm.value < |p.workers|)
    && (forall t :: 0 <= t < |p.workers| && p.workers[t].Counted? ==> p.workers[t].ordinal == p.progress)
    && p.progress == |p.reports| + (if p.comm.Some? && p.workers[p.comm.value].Counted? then 1 else 0)
    && (forall k :: 0 <= k < |p.reports| ==> p.reports[k].ordinal == k + 1)
  }

  ghost predicate JoinInv(p: Pool) {
    && |p.workers| == Min(CONCURRENT_LAYER_DOWNLOADS, p.count)
    && p.joined <= |p.workers|
    && (forall t :: 0 <= t < |p.workers| && p.workers[t].Finished? ==> p.next == p.count)
    && (forall t :: 0 <= t < p.joined ==> p.workers[t].Finished?)
    && (p.answer == Pulled ==> p.joined == |p.workers|)
    && (p.answer == PullFailed ==> p.joined < |p.workers| && p.workers[p.joined].Aborted?)
  }

  ghost predicate Inv(p: Pool) {
    p.next <= p.count && LabelInv(p) && JoinInv(p)
  }

  lemma StartPlaces(count: nat, i: nat)
    ensures PlaceInv(Start(count), i)
  {
    AtNowhere(Start(count).workers, InFlight, i);
    AtNowhere(Start(count).workers, Unreported, i);
    AtNowhere(Start(count).workers, Failed, i);
  }

  /** Replacing worker `t` by `w` moves its layer from one place to another. */
  lemma Moved(p: Pool, t: nat, w: Worker, i: nat)
    requires t < |p.workers|
    ensures forall place :: At(Put(p, t, w).workers, place, i) + (if IsAt(p.workers[t], place, i) then 1 else 0)
                         == At(p.workers, place, i) + if IsAt(w, place, i) then 1 else 0
  {
    forall place {
      AtAfterUpdate(p.workers, t, w, place, i);
    }
  }

  lemma PopKeepsPlaces(p: Pool, t: nat, i: nat)
    requires PlaceInv(p, i) && Enabled(p, Pop(t))
    ensures PlaceInv(Apply(p, Pop(t)), i)
  {
    Moved(p, t, Apply(p, Pop(t)).workers[t], i);
  }

  lemma ExtractKeepsPlaces(p: Pool, t: nat, ok: bool, i: nat)
    requires PlaceInv(p, i) && Enabled(p, Extract(t, ok))
    ensures PlaceInv(Apply(p, Extract(t, ok)), i)
  {
    Moved(p, t, Apply(p, Extract(t, ok)).workers[t], i);
  }

  lemma AnnounceKeepsPlaces(p: Pool, t: nat, i: nat)
    requires PlaceInv(p, i) && Enabled(p, Announce(t))
    ensures PlaceInv(Apply(p, Announce(t)), i)
  {
    var w := p.workers[t];
    Moved(p, t, Idle, i);
    AddReport(p.reports, Report(w.ordinal, w.layer), i);
    assert IsAt(w, Unreported, i) <==> w.layer == i;
    assert !IsAt(w, InFlight, i) && !IsAt(w, Failed, i);
  }

  lemma LockKeepsPlaces(p: Pool, t: nat, i: nat)
    requires PlaceInv(p, i) && t < |p.workers|
    ensures Enabled(p, Lock(t)) ==> PlaceInv(Apply(p, Lock(t)), i)
    ensures Enabled(p, Count(t)) ==> PlaceInv(Apply(p, Count(t)), i)
  {
    if p.workers[t].Extracted? {
      Moved(p, t, Locked(p.workers[t].layer), i);
    } else if p.workers[t].Locked? {
      Moved(p, t, Counted(p.workers[t].layer, p.progress + 1), i);
    }
  }

  lemma StepKeepsPlaces(p: Pool, e: Event, i: nat)
    requires PlaceInv(p, i) && Enabled(p, e)
    ensures PlaceInv(Apply(p, e), i)
  {
    match e {
      case Pop(t) => PopKeepsPlaces(p, t, i);
      case Extract(t, ok) => ExtractKeepsPlaces(p, t, ok, i);
      case Lock(t) => LockKeepsPlaces(p, t, i);
      case Count(t) => LockKeepsPlaces(p, t, i);
      case Announce(t) => AnnounceKeepsPlaces(p, t, i);
      case _ =>
    }
  }

  lemma StepKeepsLabels(p: Pool, e: Event)
    requires LabelInv(p) && Enabled(p, e)
    ensures LabelInv(Apply(p, e))
  {
  }

  lemma StepKeepsJoins(p: Pool, e: Event)
    requires p.next <= p.count && JoinInv(p) && Enabled(p, e)
    ensures JoinInv(Apply(p, e))
  {
  }

  lemma StepKeepsInv(p: Pool, e: Event)
    requires Inv(p) && Enabled(p, e)
    ensures Inv(Apply(p, e)) && Apply(p, e).count == p.count
  {
    StepKeepsLabels(p, e);
    StepKeepsJoins(p, e);
  }

  lemma {:induction false} RunKeepsInv(count: nat, events: seq<Event>)
    ensures After(count, events).Some? ==> After(count, events).value.count == count && Inv(After(count, events).value)
  {
    if events != [] && After(count, events).Some? {
      var n := |events| - 1;
      RunKeepsInv(count, events[..n]);
      StepKeepsInv(After(count, events[..n]).value, events[n]);
    }
  }

  lemma {:induction false} RunKeepsPlaces(count: nat, events: seq<Event>, i: nat)
    ensures After(count, events).Some? ==> PlaceInv(After(count, events).value, i)
  {
    if events == [] {
      StartPlaces(count, i);
    } else if After(count, events).Some? {
      var n := |events| - 1;
      RunKeepsPlaces(count, events[..n], i);
      StepKeepsPlaces(After(count, events[..n]).value, events[n], i);
    }
  }

  // ---- Results over every interleaving ----

  function Extractors(workers: seq<Worker>): (n: nat)
    ensures n <= |workers|
  {
    if workers == [] then 0
    else Extractors(workers[..|workers| - 1]) + if workers[|workers| - 1].Extracting? then 1 else 0
  }

  /** Every layer is in exactly one place: queued, in flight, extracted or failed; and at most five
      are in flight, with as many workers as there are layers up to five. */
  lemma LayersArePartitioned(count: nat, events: seq<Event>, i: nat)
    requires After(count, events).Some? && i < count
    ensures var p := After(count, events).value;
            && (if p.next <= i then 1 else 0) + At(p.workers, InFlight, i) + multiset(p.extracted)[i]
               + At(p.workers, Failed, i) == 1
            && Extractors(p.workers) <= |p.workers| == Min(5, count)
  {
    RunKeepsInv(count, events);
    RunKeepsPlaces(count, events, i);
  }

  /** The progress messages carry the labels 1, 2, 3 and so on in the order in which they are sent, and
      each reports another layer that has been extracted. */
  lemma LabelsCountUp(count: nat, events: seq<Event>)
    requires After(count, events).Some?
    ensures var p := After(count, events).value;
            && (forall k :: 0 <= k < |p.reports| ==> p.reports[k].ordinal == k + 1)
            && ReportedLayers(p.reports) <= multiset(p.extracted)
  {
    RunKeepsInv(count, events);
    var p := After(count, events).value;
    forall i: nat ensures ReportedLayers(p.reports)[i] <= multiset(p.extracted)[i] {
      RunKeepsPlaces(count, events, i);
    }
  }

  /** The layers before `n`, each once. */
  function UpTo(n: nat): (m: multiset<nat>)
    ensures |m| == n
    ensures forall i: nat :: m[i] == if i < n then 1 else 0
  {
    if n == 0 then multiset{} else UpTo(n - 1) + multiset{n - 1}
  }

  lemma {:induction false} CountReports(reports: seq<Report>)
    ensures |ReportedLayers(reports)| == |reports|
  {
    if reports != [] {
      CountReports(reports[..|reports| - 1]);
    }
  }

  lemma DoneWorkersHoldNothing(p: Pool, i: nat)
    requires forall t :: 0 <= t < |p.workers| ==> p.workers[t].Finished?
    requires PlaceInv(p, i) && p.next == p.count
    ensures multiset(p.extracted)[i] == ReportedLayers(p.reports)[i] == if i < p.count then 1 else 0
  {
    AtNowhere(p.workers, InFlight, i);
    AtNowhere(p.workers, Unreported, i);
    AtNowhere(p.workers, Failed, i);
  }

  lemma SuccessMeansDone(p: Pool)
    requires Inv(p) && p.answer == Pulled
    ensures p.next == p.count
    ensures forall t :: 0 <= t < |p.workers| ==> p.workers[t].Finished?
  {
    if p.count > 0 {
      assert p.workers[0].Finished?;
    }
  }

  /** When main goes on to mount the image, every layer has been extracted exactly once and reported
      exactly once, under the labels 1 to the number of layers. */
  lemma SuccessMeansEveryLayerOnce(count: nat, events: seq<Event>)
    requires After(count, events).Some? && After(count, events).value.answer == Pulled
    ensures var p := After(count, events).value;
            && multiset(p.extracted) == UpTo(count) == ReportedLayers(p.reports)
            && |p.reports| == count
            && (forall k :: 0 <= k < count ==> p.reports[k].ordinal == k + 1)
  {
    RunKeepsInv(count, events);
    var p := After(count, events).value;
    SuccessMeansDone(p);
    forall i: nat
      ensures multiset(p.extracted)[i] == UpTo(count)[i] == ReportedLayers(p.reports)[i]
    {
      RunKeepsPlaces(count, events, i);
      DoneWorkersHoldNothing(p, i);
    }
    assert multiset(p.extracted) == UpTo(count);
    assert ReportedLayers(p.reports) == UpTo(count);
    CountReports(p.reports);
  }

  predicate NoneFailed(p: Pool) {
    forall t :: 0 <= t < |p.workers| ==> !p.workers[t].Aborted?
  }

  /** Some layer could not be downloaded or unpacked. */
  predicate SomeFailed(events: seq<Event>) {
    exists e :: e in events && e.Extract? && !e.ok
  }

  lemma FailedAfter(p: Pool, e: Event)
    requires Enabled(p, e)
    ensures NoneFailed(Apply(p, e)) <==> NoneFailed(p) && !(e.Extract? && !e.ok)
  {
    var p' := Apply(p, e);
    if e.Extract? && !e.ok {
      assert p'.workers[e.t].Aborted?;
    }
    forall t | 0 <= t < |p.workers| && p.workers[t].Aborted? ensures p'.workers[t].Aborted? {
    }
  }

  lemma SomeFailedNext(events: seq<Event>, e: Event)
    ensures SomeFailed(events + [e]) <==> SomeFailed(events) || (e.Extract? && !e.ok)
  {
    if SomeFailed(events) {
      var f :| f in events && f.Extract? && !f.ok;
      assert f in events + [e];
    } else if e.Extract? && !e.ok {
      assert e in events + [e];
    }
  }

  lemma {:induction false} FailedIsEvent(count: nat, events: seq<Event>)
    requires After(count, events).Some?
    ensures NoneFailed(After(count, events).value) <==> !SomeFailed(events)
  {
    if events != [] {
      var n := |events| - 1;
      FailedIsEvent(count, events[..n]);
      FailedAfter(After(count, events[..n]).value, events[n]);
      SomeFailedNext(events[..n], events[n]);
      assert events == events[..n] + [events[n]];
    }
  }

  /** Main's answer, even while workers still run after a failure: it succeeds if and only if no layer has
      failed. */
  lemma SucceedsIffNoneFailed(count: nat, events: seq<Event>)
    requires After(count, events).Some? && After(count, events).value.answer != Joining
    ensures After(count, events).value.answer == Pulled <==> !SomeFailed(events)
  {
    RunKeepsInv(count, events);
    FailedIsEvent(count, events);
    AnswerIsRight(After(count, events).value);
  }

  lemma AnswerIsRight(p: Pool)
    requires JoinInv(p) && p.answer != Joining
    ensures p.answer == Pulled <==> NoneFailed(p)
  {
    if p.answer == Pulled {
      assert forall t :: 0 <= t < |p.workers| ==> p.workers[t].Finished?;
    } else {
      assert p.workers[p.joined].Aborted?;
    }
  }

  // ---- Every pull ends ----

  function Rank(w: Worker): nat {
    match w
    case Extracting(_) => 5
    case Extracted(_) => 4
    case Locked(_) => 3
    case Counted(_, _) => 2
    case Idle => 1
    case Finished | Aborted(_) => 0
  }

  function Ranks(workers: seq<Worker>): nat {
    if workers == [] then 0 else Ranks(workers[..|workers| - 1]) + Rank(workers[|workers| - 1])
  }

  /** Queued and unfinished work. */
  function Work(p: Pool): nat
    requires p.next <= p.count && p.joined <= |p.workers|
  {
    5 * (p.count - p.next) + Ranks(p.workers) + (|p.workers| - p.joined) + if p.answer == Joining then 1 else 0
  }

  lemma {:induction false} RanksOfUpdate(workers: seq<Worker>, t: nat, w: Worker)
    requires t < |workers|
    ensures Ranks(workers[t := w]) + Rank(workers[t]) == Ranks(workers) + Rank(w)
  {
    var n := |workers| - 1;
    if t == n {
      assert workers[t := w][..n] == workers[..n];
    } else {
      assert workers[t := w][..n] == workers[..n][t := w];
      RanksOfUpdate(workers[..n], t, w);
    }
  }

  lemma EveryStepDoesWork(p: Pool, e: Event)
    requires p.next <= p.count && p.joined <= |p.workers| && Enabled(p, e)
    ensures var p' := Apply(p, e);
            p'.next <= p'.count && p'.joined <= |p'.workers| && Work(p') < Work(p)
  {
    if !e.Join? && !e.Succeed? {
      RanksOfUpdate(p.workers, e.t, Apply(p, e).workers[e.t]);
    }
  }

  lemma {:induction false} RanksOfIdle(n: nat)
    ensures Ranks(seq(n, _ => Idle)) == n
  {
    if n > 0 {
      assert seq(n, _ => Idle)[..n - 1] == seq(n - 1, _ => Idle);
      RanksOfIdle(n - 1);
    }
  }

  lemma {:induction false} RunsAreBounded(count: nat, events: seq<Event>)
    requires After(count, events).Some?
    ensures var p := After(count, events).value; p.next <= p.count && p.joined <= |p.workers|
    ensures |events| + Work(After(count, events).value) <= 5 * count + 2 * Min(CONCURRENT_LAYER_DOWNLOADS, count) + 1
  {
    if events == [] {
      RanksOfIdle(Min(CONCURRENT_LAYER_DOWNLOADS, count));
    } else {
      var n := |events| - 1;
      RunsAreBounded(count, events[..n]);
      EveryStepDoesWork(After(count, events[..n]).value, events[n]);
    }
  }

  /** A pull without an answer can always go on, so under any scheduling it ends with one. */
  lemma NeverStuck(count: nat, events: seq<Event>) returns (e: Event)
    requires After(count, events).Some? && After(count, events).value.answer == Joining
    ensures Enabled(After(count, events).value, e)
  {
    RunKeepsInv(count, events);
    var p := After(count, events).value;
    var t := p.joined;
    if t == |p.workers| {
      return Succeed;
    }
    var holder := if p.comm.Some? then p.comm.value else t;
    assert p.comm.Some? ==> HoldsComm(p.workers[holder]);
    match p.workers[t] {
      case Idle => return Pop(t);
      case Extracting(_) => return Extract(t, true);
      case Extracted(_) =>
        if p.comm == None { return Lock(t); }
        return if p.workers[holder].Locked? then Count(holder) else Announce(holder);
      case Locked(_) => return Count(t);
      case Counted(_, _) => return Announce(t);
      case Finished => return Join;
      case Aborted(_) => return Join;
    }
  }

  // ---- The shared state ----

  function Pending(next: nat, count: nat): seq<nat>
    decreases count - next
  {
    if next >= count then [] else [next] + Pending(next + 1, count)
  }

  /** What the workers share: the queue, the counter and the messages sent. */
  class SharedWork {
    var layers: seq<nat>
    var progress: nat
    var reports: seq<Report>

    ghost predicate Shows(p: Pool)
      reads this
    {
      layers == Pending(p.next, p.count) && progress == p.progress && reports == p.reports
    }

    constructor (count: nat)
      ensures Shows(Start(count))
    {
      layers := [];
      progress := 0;
      reports := [];
      new;
      var i: nat := count;
      while i > 0
        invariant i <= count
        invariant layers == Pending(i, count) && progress == 0 && reports == []
        modifies this
      {
        i := i - 1;
        layers := [i] + layers;
      }
    }

    /** `layers.lock().unwrap().pop_front()` in worker `t`. */
    method PopFront(ghost p: Pool, t: nat) returns (layer: Option<nat>)
      requires Shows(p) && Enabled(p, Pop(t))
      modifies this
      ensures Shows(Apply(p, Pop(t)))
      ensures Apply(p, Pop(t)).workers[t] == if layer.Some? then Extracting(layer.value) else Finished
    {
      if layers == [] {
        layer := None;
      } else {
        layer := Some(layers[0]);
        layers := layers[1..];
      }
    }

    /** From `fetch_add` to the release of the communication mutex. */
    method CountAndAnnounce(ghost p: Pool, t: nat, layer: nat)
      requires Shows(p) && Enabled(p, Count(t)) && p.workers[t].layer == layer
      modifies this
      ensures Enabled(Apply(p, Count(t)), Announce(t))
      ensures Shows(Apply(Apply(p, Count(t)), Announce(t)))
    {
      var i := progress;
      progress := progress + 1;
      reports := reports + [Report(i + 1, layer)];
    }
  }
}
