/** Lock order and progress of the node manager's tasks (nodemanager/src/manager.rs, machine/machine.rs,
    machine/vsock.rs). Locks are granted first come, first served. No timeout is used: waiting for a
    machine's handler to finish is waiting for a lock the handler holds for as long as it runs. */
module LockOrder {
  datatype Lock =
    | Machines         // the read-write lock around the machine map
    | Network          // the network manager
    | Stack(m: nat)    // one machine's own network stack
    | Alive(m: nat)    // held by a machine's packet handler until it returns
    | Comm(m: nat)     // one machine's communicator

  function Rank(lock: Lock): (r: nat)
    ensures r <= 3
  {
    match lock
    case Machines => 0
    case Network => 1
    case Stack(_) => 1
    case Alive(_) => 2
    case Comm(_) => 3
  }

  datatype Instr =
    | Acquire(lock: Lock, exclusive: bool)
    | Release(lock: Lock)
    | Touch(lock: Lock, write: bool) // read or write what the lock protects
    | Work                           // anything else: commands, I/O, non-blocking sends

  // ---- The tasks ----

  datatype Job =
    | ProvisionJob
    | DeprovisionJob(m: nat, graceful: bool)
    | MissingJob                     // deprovisioning an id that is not in the map
    | DrainJob(ms: seq<nat>)
    | LogsJob(m: nat)                // stream_logs and get_logs
    | ListJob
    | PublishJob(m: nat)
    | CleanupJob(m: nat)
    | HandlerJob(m: nat, packets: nat)

  /** `Machine::shutdown`: with a timeout, ask the guest to stop and wait for the handler. */
  function ShutdownCode(m: nat, graceful: bool): seq<Instr> {
    if graceful
    then [Acquire(Comm(m), true), Touch(Comm(m), true), Release(Comm(m)), Acquire(Alive(m), true), Release(Alive(m)), Work]
    else [Work]
  }

  /** One machine's shutdown and the return of its stack. */
  function TakeDown(m: nat, graceful: bool): seq<Instr> {
    ShutdownCode(m, graceful) + [Touch(Network, true)]
  }

  function TakeDownAll(ms: seq<nat>): seq<Instr> {
    if ms == [] then [] else TakeDown(ms[0], true) + TakeDownAll(ms[1..])
  }

  const UNLOCK_BOTH: seq<Instr> := [Release(Network), Release(Machines)]

  function DeprovisionCode(m: nat, graceful: bool): seq<Instr> {
    [Acquire(Machines, true), Touch(Machines, true), Acquire(Network, true)] + (TakeDown(m, graceful) + UNLOCK_BOTH)
  }

  function HandlerCode(m: nat, packets: nat): seq<Instr> {
    if packets == 0 then [Work, Release(Alive(m))]
    else [Work, Acquire(Comm(m), true), Touch(Comm(m), true), Release(Comm(m))] + HandlerCode(m, packets - 1)
  }

  function Code(job: Job): seq<Instr> {
    match job
    case ProvisionJob =>
      // The network manager is unlocked again before the machine starts.
      [Acquire(Machines, true), Acquire(Network, true), Touch(Network, true), Release(Network), Work,
       Touch(Machines, true), Release(Machines)]
    case DeprovisionJob(m, graceful) => DeprovisionCode(m, graceful)
    case MissingJob => [Acquire(Machines, true), Touch(Machines, true), Release(Machines)]
    case DrainJob(ms) =>
      [Acquire(Machines, true), Acquire(Network, true), Touch(Machines, true)] + (TakeDownAll(ms) + UNLOCK_BOTH)
    case LogsJob(m) => ReadCode(Comm(m))
    case ListJob => [Acquire(Machines, false), Touch(Machines, false), Release(Machines)]
    case PublishJob(m) => ReadCode(Stack(m))
    case CleanupJob(m) =>
      // Waits for the handler's exit, reports it, then deprovisions.
      [Acquire(Alive(m), true), Release(Alive(m)), Work] + DeprovisionCode(m, false)
    case HandlerJob(m, packets) => HandlerCode(m, packets)
  }

  /** Looks a machine up under the read lock and works on one of its parts under that part's lock. */
  function ReadCode(lock: Lock): seq<Instr> {
    [Acquire(Machines, false), Touch(Machines, false), Acquire(lock, true), Touch(lock, true), Release(lock), Release(Machines)]
  }

  /** A handler is born holding its `Alive` lock; every other task holds nothing. */
  function BornWith(job: Job): map<Lock, bool> {
    if job.HandlerJob? then map[Alive(job.m) := true] else map[]
  }

  // ---- The order ----

  ghost predicate Below(held: map<Lock, bool>, lock: Lock) {
    forall h :: h in held ==> Rank(h) < Rank(lock)
  }

  /** A task that holds `held` acquires only above what it holds, touches only what it has locked, for
      writing only what it has locked exclusively, and ends holding nothing. */
  ghost predicate Ordered(held: map<Lock, bool>, code: seq<Instr>)
    decreases |code|
  {
    if code == [] then held == map[]
    else
      match code[0]
      case Acquire(lock, exclusive) => Below(held, lock) && Ordered(held[lock := exclusive], code[1..])
      case Release(lock) => lock in held && Ordered(held - {lock}, code[1..])
      case Touch(lock, write) => lock in held && (write ==> held[lock]) && Ordered(held, code[1..])
      case Work => Ordered(held, code[1..])
  }

  lemma OrderedAcquire(held: map<Lock, bool>, lock: Lock, exclusive: bool, rest: seq<Instr>)
    requires Below(held, lock) && Ordered(held[lock := exclusive], rest)
    ensures Ordered(held, [Acquire(lock, exclusive)] + rest)
  {
    assert ([Acquire(lock, exclusive)] + rest)[1..] == rest;
  }

  lemma OrderedWork(held: map<Lock, bool>, rest: seq<Instr>)
    requires Ordered(held, rest)
    ensures Ordered(held, [Work] + rest)
  {
    assert ([Work] + rest)[1..] == rest;
  }

  lemma OrderedTouch(held: map<Lock, bool>, lock: Lock, write: bool, rest: seq<Instr>)
    requires lock in held && (write ==> held[lock]) && Ordered(held, rest)
    ensures Ordered(held, [Touch(lock, write)] + rest)
  {
    assert ([Touch(lock, write)] + rest)[1..] == rest;
  }

  /** Releasing: the state before the acquisition is restored. */
  lemma OrderedRelease(held: map<Lock, bool>, lock: Lock, exclusive: bool, rest: seq<Instr>)
    requires lock !in held && Ordered(held, rest)
    ensures Ordered(held[lock := exclusive], [Release(lock)] + rest)
  {
    assert held[lock := exclusive] - {lock} == held;
    assert ([Release(lock)] + rest)[1..] == rest;
  }

  const WRITING: map<Lock, bool> := map[Machines := true]
  const BOTH: map<Lock, bool> := WRITING[Network := true]

  lemma OrderedUnlock(exclusive: bool)
    ensures Ordered(map[Machines := exclusive], [Release(Machines)])
  {
    OrderedRelease(map[], Machines, exclusive, []);
    assert map[][Machines := exclusive] == map[Machines := exclusive];
    assert [Release(Machines)] + [] == [Release(Machines)];
  }

  lemma OrderedUnlockBoth()
    ensures Ordered(BOTH, UNLOCK_BOTH)
  {
    OrderedUnlock(true);
    OrderedRelease(WRITING, Network, true, [Release(Machines)]);
    assert [Release(Network)] + [Release(Machines)] == UNLOCK_BOTH;
  }

  lemma OrderedLock(exclusive: bool, rest: seq<Instr>)
    requires Ordered(map[Machines := exclusive], rest)
    ensures Ordered(map[], [Acquire(Machines, exclusive)] + rest)
  {
    assert map[][Machines := exclusive] == map[Machines := exclusive];
    OrderedAcquire(map[], Machines, exclusive, rest);
  }

  /** A critical section that writes what its lock protects. */
  lemma OrderedSection(held: map<Lock, bool>, lock: Lock, rest: seq<Instr>)
    requires Below(held, lock) && Ordered(held, rest)
    ensures Ordered(held, [Acquire(lock, true), Touch(lock, true), Release(lock)] + rest)
  {
    assert lock !in held;
    var locked := held[lock := true];
    OrderedRelease(held, lock, true, rest);
    OrderedTouch(locked, lock, true, [Release(lock)] + rest);
    OrderedAcquire(held, lock, true, [Touch(lock, true)] + ([Release(lock)] + rest));
    assert [Acquire(lock, true), Touch(lock, true), Release(lock)] + rest ==
           [Acquire(lock, true)] + ([Touch(lock, true)] + ([Release(lock)] + rest));
  }

  /** Waiting for a handler: acquire its `Alive` lock and give it back. */
  lemma OrderedWait(held: map<Lock, bool>, m: nat, rest: seq<Instr>)
    requires Below(held, Alive(m)) && Ordered(held, rest)
    ensures Ordered(held, [Acquire(Alive(m), true), Release(Alive(m)), Work] + rest)
  {
    assert Alive(m) !in held;
    OrderedWork(held, rest);
    OrderedRelease(held, Alive(m), true, [Work] + rest);
    OrderedAcquire(held, Alive(m), true, [Release(Alive(m))] + ([Work] + rest));
    assert [Acquire(Alive(m), true), Release(Alive(m)), Work] + rest ==
           [Acquire(Alive(m), true)] + ([Release(Alive(m))] + ([Work] + rest));
  }

  lemma OrderedTakeDown(m: nat, graceful: bool, rest: seq<Instr>)
    requires Ordered(BOTH, rest)
    ensures Ordered(BOTH, TakeDown(m, graceful) + rest)
  {
    var returned := [Touch(Network, true)] + rest;
    OrderedTouch(BOTH, Network, true, rest);
    if graceful {
      OrderedWait(BOTH, m, returned);
      var tail := [Acquire(Alive(m), true), Release(Alive(m)), Work] + returned;
      OrderedSection(BOTH, Comm(m), tail);
      assert TakeDown(m, true) + rest == [Acquire(Comm(m), true), Touch(Comm(m), true), Release(Comm(m))] + tail;
    } else {
      OrderedWork(BOTH, returned);
      assert TakeDown(m, false) + rest == [Work] + returned;
    }
  }

  lemma {:induction false} OrderedTakeDownAll(ms: seq<nat>)
    ensures Ordered(BOTH, TakeDownAll(ms) + UNLOCK_BOTH)
  {
    if ms == [] {
      OrderedUnlockBoth();
      assert [] + UNLOCK_BOTH == UNLOCK_BOTH;
    } else {
      OrderedTakeDownAll(ms[1..]);
      OrderedTakeDown(ms[0], true, TakeDownAll(ms[1..]) + UNLOCK_BOTH);
      assert TakeDownAll(ms) + UNLOCK_BOTH == TakeDown(ms[0], true) + (TakeDownAll(ms[1..]) + UNLOCK_BOTH);
    }
  }

  lemma {:induction false} OrderedHandler(m: nat, packets: nat)
    ensures Ordered(map[Alive(m) := true], HandlerCode(m, packets))
  {
    var held := map[Alive(m) := true];
    if packets == 0 {
      OrderedRelease(map[], Alive(m), true, []);
      assert map[][Alive(m) := true] == held;
      OrderedWork(held, [Release(Alive(m))] + []);
      assert [Work] + ([Release(Alive(m))] + []) == HandlerCode(m, 0);
    } else {
      var rest := HandlerCode(m, packets - 1);
      OrderedHandler(m, packets - 1);
      OrderedSection(held, Comm(m), rest);
      OrderedWork(held, [Acquire(Comm(m), true), Touch(Comm(m), true), Release(Comm(m))] + rest);
      assert HandlerCode(m, packets) ==
             [Work] + ([Acquire(Comm(m), true), Touch(Comm(m), true), Release(Comm(m))] + rest);
    }
  }

  lemma OrderedRead(lock: Lock)
    requires Rank(lock) > 0
    ensures Ordered(map[], ReadCode(lock))
  {
    var held := map[Machines := false];
    OrderedUnlock(false);
    OrderedSection(held, lock, [Release(Machines)]);
    var tail := [Acquire(lock, true), Touch(lock, true), Release(lock)] + [Release(Machines)];
    OrderedTouch(held, Machines, false, tail);
    OrderedLock(false, [Touch(Machines, false)] + tail);
    assert ReadCode(lock) == [Acquire(Machines, false)] + ([Touch(Machines, false)] + tail);
  }

  lemma OrderedDeprovision(m: nat, graceful: bool)
    ensures Ordered(map[], DeprovisionCode(m, graceful))
  {
    var tail := TakeDown(m, graceful) + UNLOCK_BOTH;
    OrderedUnlockBoth();
    OrderedTakeDown(m, graceful, UNLOCK_BOTH);
    OrderedAcquire(WRITING, Network, true, tail);
    OrderedTouch(WRITING, Machines, true, [Acquire(Network, true)] + tail);
    OrderedLock(true, [Touch(Machines, true)] + ([Acquire(Network, true)] + tail));
    assert DeprovisionCode(m, graceful) ==
           [Acquire(Machines, true)] + ([Touch(Machines, true)] + ([Acquire(Network, true)] + tail));
  }

  lemma OrderedDrain(ms: seq<nat>)
    ensures Ordered(map[], Code(DrainJob(ms)))
  {
    var tail := TakeDownAll(ms) + UNLOCK_BOTH;
    OrderedTakeDownAll(ms);
    OrderedTouch(BOTH, Machines, true, tail);
    OrderedAcquire(WRITING, Network, true, [Touch(Machines, true)] + tail);
    OrderedLock(true, [Acquire(Network, true)] + ([Touch(Machines, true)] + tail));
    assert Code(DrainJob(ms)) ==
           [Acquire(Machines, true)] + ([Acquire(Network, true)] + ([Touch(Machines, true)] + tail));
  }

  lemma OrderedProvision()
    ensures Ordered(map[], Code(ProvisionJob))
  {
    var insert := [Touch(Machines, true)] + [Release(Machines)];
    OrderedUnlock(true);
    OrderedTouch(WRITING, Machines, true, [Release(Machines)]);
    OrderedWork(WRITING, insert);
    OrderedSection(WRITING, Network, [Work] + insert);
    var tail := [Acquire(Network, true), Touch(Network, true), Release(Network)] + ([Work] + insert);
    OrderedLock(true, tail);
    assert Code(ProvisionJob) == [Acquire(Machines, true)] + tail;
  }

  lemma OrderedTouchOnly(write: bool)
    ensures Ordered(map[], [Acquire(Machines, write), Touch(Machines, write), Release(Machines)])
  {
    OrderedUnlock(write);
    OrderedTouch(map[Machines := write], Machines, write, [Release(Machines)]);
    OrderedLock(write, [Touch(Machines, write)] + [Release(Machines)]);
    assert [Acquire(Machines, write)] + ([Touch(Machines, write)] + [Release(Machines)]) ==
           [Acquire(Machines, write), Touch(Machines, write), Release(Machines)];
  }

  /** Every task of the node manager takes its locks in rising rank: machine map, then network manager
      or one machine's stack, then the wait for a handler, then a communicator; and it touches what a
      lock protects only while holding that lock, to write it only while holding it exclusively. */
  lemma EveryJobIsOrdered(job: Job)
    ensures Ordered(BornWith(job), Code(job))
  {
    match job
    case ProvisionJob => OrderedProvision();
    case DeprovisionJob(m, graceful) => OrderedDeprovision(m, graceful);
    case MissingJob => OrderedTouchOnly(true);
    case DrainJob(ms) => OrderedDrain(ms);
    case LogsJob(m) => OrderedRead(Comm(m));
    case ListJob => OrderedTouchOnly(false);
    case PublishJob(m) => OrderedRead(Stack(m));
    case CleanupJob(m) =>
      OrderedDeprovision(m, false);
      OrderedWait(map[], m, DeprovisionCode(m, false));
    case HandlerJob(m, packets) => OrderedHandler(m, packets);
  }

  // ---- What each operation is there to read and write ----

  lemma ReadersTouchTheirData(m: nat)
    ensures Touch(Machines, false) in Code(LogsJob(m)) && Touch(Comm(m), true) in Code(LogsJob(m))
    ensures Touch(Machines, false) in Code(PublishJob(m)) && Touch(Stack(m), true) in Code(PublishJob(m))
    ensures Touch(Machines, false) in Code(ListJob)
  {
    assert ReadCode(Comm(m))[1] == ReadCode(Stack(m))[1] == Touch(Machines, false);
    assert ReadCode(Comm(m))[3] == Touch(Comm(m), true) && ReadCode(Stack(m))[3] == Touch(Stack(m), true);
    assert Code(ListJob)[1] == Touch(Machines, false);
  }

  lemma ProvisionTouchesItsData()
    ensures Touch(Network, true) in Code(ProvisionJob) && Touch(Machines, true) in Code(ProvisionJob)
    ensures Touch(Machines, true) in Code(MissingJob)
  {
    assert Code(ProvisionJob)[2] == Touch(Network, true) && Code(ProvisionJob)[5] == Touch(Machines, true);
    assert Code(MissingJob)[1] == Touch(Machines, true);
  }

  lemma HandlerTouchesItsData(m: nat, packets: nat)
    requires packets > 0
    ensures Touch(Comm(m), true) in Code(HandlerJob(m, packets))
  {
    assert HandlerCode(m, packets)[2] == Touch(Comm(m), true);
  }

  lemma CleanupTouchesItsData(m: nat)
    ensures Touch(Machines, true) in Code(CleanupJob(m)) && Touch(Network, true) in Code(CleanupJob(m))
  {
    TakeDownTouches(m, false);
  }

  lemma TakeDownTouches(m: nat, graceful: bool)
    ensures Touch(Network, true) in TakeDown(m, graceful)
    ensures graceful ==> Touch(Comm(m), true) in TakeDown(m, graceful)
    ensures Touch(Machines, true) in DeprovisionCode(m, graceful) && Touch(Network, true) in DeprovisionCode(m, graceful)
    ensures graceful ==> Touch(Comm(m), true) in DeprovisionCode(m, graceful)
  {
    var code := TakeDown(m, graceful);
    assert code[|code| - 1] == Touch(Network, true);
    if graceful {
      assert code[1] == Touch(Comm(m), true);
    }
    assert DeprovisionCode(m, graceful)[1] == Touch(Machines, true);
  }

  lemma {:induction false} TakeDownAllTouches(ms: seq<nat>)
    ensures forall x :: x in ms ==> Touch(Comm(x), true) in TakeDownAll(ms) && Touch(Network, true) in TakeDownAll(ms)
    ensures Touch(Machines, true) in Code(DrainJob(ms))
    ensures forall x :: x in ms ==> Touch(Comm(x), true) in Code(DrainJob(ms)) && Touch(Network, true) in Code(DrainJob(ms))
  {
    assert Code(DrainJob(ms))[2] == Touch(Machines, true);
    if ms != [] {
      TakeDownAllTouches(ms[1..]);
      TakeDownTouches(ms[0], true);
    }
  }

  // ---- The system ----

  datatype Task = Task(held: map<Lock, bool>, rest: seq<Instr>)

  /** `queue`: the tasks that wait for a lock, in the order in which they asked. */
  datatype System = System(tasks: seq<Task>, queue: seq<nat>)

  datatype Event =
    | Spawn(job: Job)
    | Ask(t: nat)     // reach an acquisition and queue up for it
    | Grant(t: nat)   // the lock is handed over
    | Advance(t: nat) // any other instruction

  predicate Wants(task: Task, lock: Lock) {
    task.rest != [] && task.rest[0].Acquire? && task.rest[0].lock == lock
  }

  /** Nobody holds the lock in a way that excludes this request. */
  predicate Compatible(s: System, lock: Lock, exclusive: bool) {
    forall t :: 0 <= t < |s.tasks| ==>
      lock in s.tasks[t].held ==> !exclusive && !s.tasks[t].held[lock]
  }

  /** `s.queue[k]` is the first in the queue for the lock it wants. */
  predicate FirstInLine(s: System, k: nat, lock: Lock)
    requires k < |s.queue| && (forall i :: 0 <= i < |s.queue| ==> s.queue[i] < |s.tasks|)
  {
    forall i :: 0 <= i < k ==> !Wants(s.tasks[s.queue[i]], lock)
  }

  predicate WellFormed(s: System) {
    && (forall i :: 0 <= i < |s.queue| ==> s.queue[i] < |s.tasks|)
    && (forall i :: 0 <= i < |s.queue| ==> s.tasks[s.queue[i]].rest != [] && s.tasks[s.queue[i]].rest[0].Acquire?)
    && (forall i, j :: 0 <= i < j < |s.queue| ==> s.queue[i] != s.queue[j])
  }

  predicate Enabled(s: System, e: Event)
    requires WellFormed(s)
  {
    match e
    case Spawn(job) =>
      job.HandlerJob? ==>
        forall t :: 0 <= t < |s.tasks| ==> Alive(job.m) !in s.tasks[t].held && !Wants(s.tasks[t], Alive(job.m))
    case Ask(t) => t < |s.tasks| && t !in s.queue && s.tasks[t].rest != [] && s.tasks[t].rest[0].Acquire?
    case Grant(t) =>
      && t in s.queue
      && Compatible(s, s.tasks[t].rest[0].lock, s.tasks[t].rest[0].exclusive)
      && FirstInLine(s, IndexOf(s.queue, t), s.tasks[t].rest[0].lock)
    case Advance(t) => t < |s.tasks| && s.tasks[t].rest != [] && !s.tasks[t].rest[0].Acquire?
  }

  function IndexOf(queue: seq<nat>, t: nat): (k: nat)
    requires t in queue
    ensures k < |queue| && queue[k] == t
  {
    if queue[0] == t then 0 else 1 + IndexOf(queue[1..], t)
  }

  function Step(task: Task): Task
    requires task.rest != []
  {
    match task.rest[0]
    case Acquire(lock, exclusive) => Task(task.held[lock := exclusive], task.rest[1..])
    case Release(lock) => Task(task.held - {lock}, task.rest[1..])
    case Touch(_, _) => Task(task.held, task.rest[1..])
    case Work => Task(task.held, task.rest[1..])
  }

  function Apply(s: System, e: Event): System
    requires WellFormed(s) && Enabled(s, e)
  {
    match e
    case Spawn(job) => s.(tasks := s.tasks + [Task(BornWith(job), Code(job))])
    case Ask(t) => s.(queue := s.queue + [t])
    case Grant(t) =>
      var k := IndexOf(s.queue, t);
      System(s.tasks[t := Step(s.tasks[t])], s.queue[..k] + s.queue[k + 1..])
    case Advance(t) => s.(tasks := s.tasks[t := Step(s.tasks[t])])
  }

  // ---- Progress ----

  ghost predicate Inv(s: System) {
    && WellFormed(s)
    && forall t :: 0 <= t < |s.tasks| ==> Ordered(s.tasks[t].held, s.tasks[t].rest)
  }

  lemma StepKeepsOrder(task: Task)
    requires task.rest != [] && Ordered(task.held, task.rest)
    ensures Ordered(Step(task).held, Step(task).rest)
  {
  }

  /** Removing the k-th of distinct entries. */
  lemma RemoveAt(q: seq<nat>, k: nat)
    requires k < |q| && forall i, j :: 0 <= i < j < |q| ==> q[i] != q[j]
    ensures var r := q[..k] + q[k + 1..];
            && (forall i, j :: 0 <= i < j < |r| ==> r[i] != r[j])
            && (forall i :: 0 <= i < |r| ==> r[i] in q && r[i] != q[k])
  {
    var r := q[..k] + q[k + 1..];
    assert forall i :: 0 <= i < |r| ==> r[i] == q[if i < k then i else i + 1];
  }

  lemma GrantKeepsQueue(s: System, t: nat)
    requires WellFormed(s) && Enabled(s, Grant(t))
    ensures WellFormed(Apply(s, Grant(t)))
  {
    var k := IndexOf(s.queue, t);
    RemoveAt(s.queue, k);
    var s' := Apply(s, Grant(t));
    forall i | 0 <= i < |s'.queue|
      ensures s'.queue[i] < |s.tasks| && s'.tasks[s'.queue[i]] == s.tasks[s'.queue[i]]
      ensures s.tasks[s'.queue[i]].rest != [] && s.tasks[s'.queue[i]].rest[0].Acquire?
    {
      assert s'.queue[i] in s.queue && s'.queue[i] != t;
    }
  }

  lemma EventKeepsQueue(s: System, e: Event)
    requires WellFormed(s) && Enabled(s, e)
    ensures WellFormed(Apply(s, e))
  {
    if e.Grant? {
      GrantKeepsQueue(s, e.t);
    }
  }

  lemma EventKeepsInv(s: System, e: Event)
    requires Inv(s) && Enabled(s, e)
    ensures Inv(Apply(s, e))
  {
    EventKeepsQueue(s, e);
    match e
    case Spawn(job) => EveryJobIsOrdered(job);
    case Ask(t) =>
    case Grant(t) => StepKeepsOrder(s.tasks[t]);
    case Advance(t) => StepKeepsOrder(s.tasks[t]);
  }

  ghost predicate Reaches(events: seq<Event>, s: System) {
    if events == [] then s == System([], [])
    else
      exists before :: Reaches(events[..|events| - 1], before) && WellFormed(before)
        && Enabled(before, events[|events| - 1]) && s == Apply(before, events[|events| - 1])
  }

  lemma {:induction false} ReachableKeepsInv(events: seq<Event>, s: System)
    requires Reaches(events, s)
    ensures Inv(s)
  {
    if events != [] {
      var n := |events| - 1;
      var before :| Reaches(events[..n], before) && WellFormed(before)
        && Enabled(before, events[n]) && s == Apply(before, events[n]);
      ReachableKeepsInv(events[..n], before);
      EventKeepsInv(before, events[n]);
    }
  }

  // ---- Mutual exclusion ----

  predicate Share(a: Task, b: Task, lock: Lock) {
    lock in a.held && lock in b.held
  }

  /** A lock held by two tasks is held by both for reading only. */
  ghost predicate Excludes(s: System) {
    forall t, u, lock :: 0 <= t < |s.tasks| && 0 <= u < |s.tasks| && t != u && Share(s.tasks[t], s.tasks[u], lock) ==>
      !s.tasks[t].held[lock] && !s.tasks[u].held[lock]
  }

  lemma GrantExcludes(s: System, t: nat)
    requires WellFormed(s) && Excludes(s) && Enabled(s, Grant(t))
    ensures Excludes(Apply(s, Grant(t)))
  {
  }

  lemma EventKeepsExclusion(s: System, e: Event)
    requires WellFormed(s) && Excludes(s) && Enabled(s, e)
    ensures Excludes(Apply(s, e))
  {
    if e.Grant? {
      GrantExcludes(s, e.t);
    }
  }

  lemma {:induction false} ReachableExcludes(events: seq<Event>, s: System)
    requires Reaches(events, s)
    ensures Excludes(s)
  {
    if events != [] {
      var n := |events| - 1;
      var before :| Reaches(events[..n], before) && WellFormed(before)
        && Enabled(before, events[n]) && s == Apply(before, events[n]);
      ReachableExcludes(events[..n], before);
      EventKeepsExclusion(before, events[n]);
    }
  }

  /** The locks protect what they should: in every reachable state, an exclusively held lock has one holder,
      and two tasks about to touch the same data are both about to read it. */
  lemma NoDataRace(events: seq<Event>, s: System, t: nat, u: nat)
    requires Reaches(events, s) && t < |s.tasks| && u < |s.tasks| && t != u
    ensures forall lock :: lock in s.tasks[t].held && s.tasks[t].held[lock] ==> lock !in s.tasks[u].held
    ensures s.tasks[t].rest != [] && s.tasks[u].rest != [] && s.tasks[t].rest[0].Touch? && s.tasks[u].rest[0].Touch?
            && s.tasks[t].rest[0].lock == s.tasks[u].rest[0].lock ==>
              !s.tasks[t].rest[0].write && !s.tasks[u].rest[0].write
  {
    ReachableKeepsInv(events, s);
    ReachableExcludes(events, s);
    assert forall lock :: Share(s.tasks[t], s.tasks[u], lock) ==> !s.tasks[t].held[lock];
    assert Ordered(s.tasks[t].held, s.tasks[t].rest) && Ordered(s.tasks[u].held, s.tasks[u].rest);
  }

  // ---- No deadlock ----

  ghost predicate CanStep(s: System)
    requires WellFormed(s)
  {
    exists e: Event :: !e.Spawn? && Enabled(s, e)
  }

  /** The first task in the queue that wants a lock some queued task wants. */
  lemma {:induction false} FirstWaiter(s: System, k: nat, lock: Lock) returns (i: nat)
    requires WellFormed(s) && k < |s.queue| && Wants(s.tasks[s.queue[k]], lock)
    ensures i < |s.queue| && Wants(s.tasks[s.queue[i]], lock) && FirstInLine(s, i, lock)
  {
    i := 0;
    while !Wants(s.tasks[s.queue[i]], lock)
      invariant i <= k && FirstInLine(s, i, lock)
      decreases k - i
    {
      i := i + 1;
    }
  }

  lemma IndexIsUnique(s: System, i: nat)
    requires WellFormed(s) && i < |s.queue|
    ensures IndexOf(s.queue, s.queue[i]) == i
  {
  }

  /** Following whoever holds the wanted lock leads, in rising rank, to a task that can step. */
  lemma {:induction false} UnfinishedLeadsToStep(s: System, t: nat, rank: nat)
    requires Inv(s) && t < |s.tasks| && s.tasks[t].rest != []
    requires s.tasks[t].rest[0].Acquire? ==> Rank(s.tasks[t].rest[0].lock) >= rank
    ensures CanStep(s)
    decreases 4 - rank
  {
    if !s.tasks[t].rest[0].Acquire? {
      assert Enabled(s, Advance(t));
    } else if t !in s.queue {
      assert Enabled(s, Ask(t));
    } else {
      var lock := s.tasks[t].rest[0].lock;
      var i := FirstWaiter(s, IndexOf(s.queue, t), lock);
      var first := s.queue[i];
      IndexIsUnique(s, i);
      if Compatible(s, lock, s.tasks[first].rest[0].exclusive) {
        assert Enabled(s, Grant(first));
      } else {
        var holder :| 0 <= holder < |s.tasks| && lock in s.tasks[holder].held;
        assert Ordered(s.tasks[holder].held, s.tasks[holder].rest);
        UnfinishedLeadsToStep(s, holder, Rank(lock) + 1);
      }
    }
  }

  /** The node manager is deadlock free: in every reachable state with an unfinished task, some task
      can step, without the help of any timeout. */
  lemma NoDeadlock(events: seq<Event>, s: System)
    requires Reaches(events, s)
    requires exists t :: 0 <= t < |s.tasks| && s.tasks[t].rest != []
    ensures WellFormed(s) && CanStep(s)
  {
    ReachableKeepsInv(events, s);
    var t :| 0 <= t < |s.tasks| && s.tasks[t].rest != [];
    UnfinishedLeadsToStep(s, t, 0);
  }

  // ---- Every task finishes ----

  function Remaining(tasks: seq<Task>): nat {
    if tasks == [] then 0 else Remaining(tasks[..|tasks| - 1]) + |tasks[|tasks| - 1].rest|
  }

  lemma {:induction false} RemainingAfterStep(tasks: seq<Task>, t: nat)
    requires t < |tasks| && tasks[t].rest != []
    ensures Remaining(tasks[t := Step(tasks[t])]) == Remaining(tasks) - 1
  {
    var n := |tasks| - 1;
    if t < n {
      RemainingAfterStep(tasks[..n], t);
      assert tasks[t := Step(tasks[t])][..n] == tasks[..n][t := Step(tasks[t])];
    } else {
      assert tasks[t := Step(tasks[t])][..n] == tasks[..n];
    }
  }

  function Ids(n: nat): (r: set<nat>)
    ensures |r| == n && forall t: nat :: t in r <==> t < n
  {
    if n == 0 then {} else Ids(n - 1) + {n - 1}
  }

  function Queued(q: seq<nat>): (r: set<nat>)
    requires forall i, j :: 0 <= i < j < |q| ==> q[i] != q[j]
    ensures |r| == |q| && forall t :: t in r <==> t in q
  {
    if q == [] then {}
    else
      var n := |q| - 1;
      assert q == q[..n] + [q[n]];
      Queued(q[..n]) + {q[n]}
  }

  lemma {:induction false} SubsetIsSmaller(a: set<nat>, b: set<nat>)
    requires a <= b
    ensures |a| <= |b|
  {
    assert |b| == |a| + |b - a| by {
      assert b == a + (b - a);
    }
  }

  lemma QueueFits(s: System)
    requires WellFormed(s)
    ensures |s.queue| <= |s.tasks|
  {
    SubsetIsSmaller(Queued(s.queue), Ids(|s.tasks|));
  }

  /** Every step uses up a finite measure, so with no deadlock all tasks finish once no more arrive. */
  lemma EveryStepMakesProgress(s: System, e: Event)
    requires Inv(s) && Enabled(s, e) && !e.Spawn?
    ensures var s' := Apply(s, e);
            && |s'.tasks| == |s.tasks|
            && 0 <= 2 * Remaining(s'.tasks) + |s'.tasks| - |s'.queue| < 2 * Remaining(s.tasks) + |s.tasks| - |s.queue|
  {
    EventKeepsInv(s, e);
    QueueFits(Apply(s, e));
    if e.Grant? || e.Advance? {
      RemainingAfterStep(s.tasks, e.t);
    }
  }
}
