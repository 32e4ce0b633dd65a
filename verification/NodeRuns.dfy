/** What holds in every reachable state of the node manager. */
module NodeRuns {
  import opened Protocol
  import opened Slots
  import opened RuleTable
  import opened Node
  import opened NodeEvents
  import opened NodeKernel

  // ---- Machines, stacks and notifications ----

  /** Every machine ever provisioned is live or was given back exactly once, and a machine whose cleanup
      is done is no longer live. */
  ghost predicate Ledger(live: set<string>, reclaimed: seq<string>, watch: map<string, Watch>) {
    && Distinct(reclaimed)
    && live !! Elements(reclaimed)
    && live + Elements(reclaimed) == watch.Keys
    && (forall u :: u in watch && watch[u].Finished? ==> u !in live)
  }

  ghost predicate MachinesInv(n: NodeState) {
    Ledger(n.machines.Keys, n.reclaimed, n.watch)
  }

  lemma LedgerJoin(live: set<string>, reclaimed: seq<string>, watch: map<string, Watch>, u: string)
    requires Ledger(live, reclaimed, watch) && u !in watch
    ensures Ledger(live + {u}, reclaimed, watch[u := Waiting])
  {
  }

  lemma LedgerLeave(live: set<string>, reclaimed: seq<string>, watch: map<string, Watch>, u: string)
    requires Ledger(live, reclaimed, watch) && u in live
    ensures Ledger(live - {u}, reclaimed + [u], watch)
  {
    AppendElement(reclaimed, u);
    MoveIntoSecond(live + Elements(reclaimed), live, Elements(reclaimed), {}, u);
  }

  /** A cleanup task moves on; a machine that is still live is not done. */
  lemma LedgerWatch(live: set<string>, reclaimed: seq<string>, watch: map<string, Watch>, u: string, w: Watch)
    requires Ledger(live, reclaimed, watch) && u in watch && (w.Finished? ==> u !in live)
    ensures Ledger(live, reclaimed, watch[u := w])
  {
    assert watch[u := w].Keys == watch.Keys;
  }

  lemma DeprovisionKeepsMachines(n: NodeState, uuid: string)
    requires MachinesInv(n)
    ensures MachinesInv(AfterDeprovision(n, uuid))
  {
    DeprovisionRemoves(n, uuid);
    if uuid in n.machines {
      LedgerLeave(n.machines.Keys, n.reclaimed, n.watch, uuid);
    } else {
      assert AfterDeprovision(n, uuid) == n;
    }
  }

  lemma {:induction false} DrainKeepsMachines(n: NodeState, order: seq<string>)
    requires MachinesInv(n)
    ensures MachinesInv(AfterDrain(n, order))
    decreases |order|
  {
    if order != [] {
      DeprovisionKeepsMachines(n, order[0]);
      DrainKeepsMachines(AfterDeprovision(n, order[0]), order[1..]);
    }
  }

  lemma ProvisionKeepsMachines(n: NodeState, uuid: string, outcome: Outcome)
    requires MachinesInv(n) && uuid !in n.watch
    ensures MachinesInv(AfterProvision(n, uuid, outcome))
  {
    var n' := AfterProvision(n, uuid, outcome);
    if outcome.Runs? && Taken(n.pool).Some? {
      LedgerJoin(n.machines.Keys, n.reclaimed, n.watch, uuid);
      assert n'.machines.Keys == n.machines.Keys + {uuid};
    } else {
      assert n'.machines == n.machines;
    }
  }

  lemma PublishChangesNoMachine(n: NodeState, uuid: string, kind: RuleKind)
    requires uuid in n.machines
    ensures var n' := AfterPublish(n, uuid, kind);
            && n'.machines.Keys == n.machines.Keys && n'.reclaimed == n.reclaimed
            && n'.watch == n.watch && n'.notices == n.notices && n'.pool == n.pool
  {
  }

  lemma StepKeepsMachines(n: NodeState, e: Event)
    requires MachinesInv(n) && Enabled(n, e)
    ensures MachinesInv(Apply(n, e))
  {
    match e
    case Provision(uuid, outcome) => ProvisionKeepsMachines(n, uuid, outcome);
    case Publish(uuid, kind) => PublishChangesNoMachine(n, uuid, kind);
    case Deprovision(uuid) => DeprovisionKeepsMachines(n, uuid);
    case Drain(order) => DrainKeepsMachines(n, order);
    case HandlerStops(uuid, exit) =>
      LedgerWatch(n.machines.Keys, n.reclaimed, n.watch, uuid, Fired(exit));
    case Notify(uuid) =>
      LedgerWatch(n.machines.Keys, n.reclaimed, n.watch, uuid, Notified(n.watch[uuid].exit));
    case CleanUp(uuid) => CleanUpKeepsMachines(n, uuid);
  }

  lemma CleanUpKeepsMachines(n: NodeState, uuid: string)
    requires MachinesInv(n) && Enabled(n, CleanUp(uuid))
    ensures MachinesInv(Apply(n, CleanUp(uuid)))
  {
    DeprovisionKeepsMachines(n, uuid);
    DeprovisionRemoves(n, uuid);
    var n' := AfterDeprovision(n, uuid);
    LedgerWatch(n'.machines.Keys, n'.reclaimed, n'.watch, uuid, Finished(n.watch[uuid].exit));
  }

  // ---- Recovered slots ----

  ghost predicate RecoveredInv(start: NodeState, n: NodeState) {
    forall s :: s in n.pool.recovered ==> s.tapDevName !in start.taps
  }

  lemma {:induction false} DrainKeepsRecovered(start: NodeState, n: NodeState, order: seq<string>)
    requires NodeInv(start, n) && RecoveredInv(start, n)
    ensures RecoveredInv(start, AfterDrain(n, order))
    decreases |order|
  {
    if order != [] {
      DeprovisionKeeps(start, n, order[0]);
      DeprovisionKeepsRecovered(start, n, order[0]);
      DrainKeepsRecovered(start, AfterDeprovision(n, order[0]), order[1..]);
    }
  }

  lemma DeprovisionKeepsRecovered(start: NodeState, n: NodeState, uuid: string)
    requires KernelInv(start, n) && RecoveredInv(start, n)
    ensures RecoveredInv(start, AfterDeprovision(n, uuid))
  {
    if uuid in n.machines {
      assert n.machines[uuid].slot.tapDevName in LiveTaps(n.machines);
    }
  }

  // ---- Runs ----

  lemma StepKeepsNode(start: NodeState, n: NodeState, e: Event)
    requires NodeInv(start, n) && MachinesInv(n) && Enabled(n, e)
    ensures NodeInv(start, Apply(n, e))
  {
    match e
    case Provision(uuid, outcome) =>
      assert uuid !in n.machines;
      ProvisionKeepsSlots(n, uuid, outcome);
      if outcome.Runs? && Taken(n.pool).Some? {
        JoinKeepsKernel(start, n, uuid);
      } else if !outcome.Runs? {
        FailedProvisionLeavesNoTrace(start, n, uuid, outcome);
      }
    case Publish(uuid, kind) =>
      PublishKeepsSlots(n, uuid, kind);
      PublishKeepsKernel(start, n, uuid, kind);
    case Deprovision(uuid) => DeprovisionKeeps(start, n, uuid);
    case Drain(order) => DrainKeeps(start, n, order);
    case HandlerStops(uuid, exit) =>
    case Notify(uuid) =>
    case CleanUp(uuid) => DeprovisionKeeps(start, n.(watch := n.watch[uuid := Finished(n.watch[uuid].exit)]), uuid);
  }

  lemma ProvisionKeepsRecovered(start: NodeState, n: NodeState, uuid: string, outcome: Outcome)
    requires RecoveredInv(start, n)
    ensures RecoveredInv(start, AfterProvision(n, uuid, outcome))
  {
    assert AfterProvision(n, uuid, outcome).pool == AfterTaking(n.pool);
    assert forall s :: s in AfterTaking(n.pool).recovered ==> s in n.pool.recovered;
  }

  lemma StepKeepsRecovered(start: NodeState, n: NodeState, e: Event)
    requires NodeInv(start, n) && RecoveredInv(start, n) && Enabled(n, e)
    ensures RecoveredInv(start, Apply(n, e))
  {
    match e
    case Provision(uuid, outcome) => ProvisionKeepsRecovered(start, n, uuid, outcome);
    case Publish(uuid, kind) => PublishChangesNoMachine(n, uuid, kind);
    case Deprovision(uuid) => DeprovisionKeepsRecovered(start, n, uuid);
    case Drain(order) => DrainKeepsRecovered(start, n, order);
    case HandlerStops(uuid, exit) =>
    case Notify(uuid) =>
    case CleanUp(uuid) => DeprovisionKeepsRecovered(start, n.(watch := n.watch[uuid := Finished(n.watch[uuid].exit)]), uuid);
  }

  ghost predicate Inv(start: NodeState, n: NodeState) {
    NodeInv(start, n) && MachinesInv(n) && RecoveredInv(start, n)
  }

  lemma {:induction false} RunKeepsInv(start: NodeState, events: seq<Event>)
    requires FreshHost(start)
    ensures After(start, events).Some? ==> Inv(start, After(start, events).value)
  {
    if events == [] {
      StartHolds(start);
    } else if After(start, events).Some? {
      var n := |events| - 1;
      RunKeepsInv(start, events[..n]);
      var before := After(start, events[..n]).value;
      StepKeepsNode(start, before, events[n]);
      StepKeepsMachines(before, events[n]);
      StepKeepsRecovered(start, before, events[n]);
    }
  }

  // ---- Main results: slots ----

  /** Over every run: recovered, live and lost slots are pairwise disjoint and together are exactly the
      slots of the ids handed out so far; no two live machines share an address, gateway or tap. */
  lemma SlotsArePartitioned(start: NodeState, events: seq<Event>)
    requires FreshHost(start) && After(start, events).Some?
    ensures var n := After(start, events).value;
            && Elements(n.pool.recovered) !! LiveSlots(n.machines) !! n.lost
            && Elements(n.pool.recovered) + LiveSlots(n.machines) + n.lost == SlotsBelow(Made(n.pool))
            && Distinct(n.pool.recovered)
            && forall u, v :: u in n.machines && v in n.machines && u != v ==>
                 var s, t := n.machines[u].slot, n.machines[v].slot;
                 s.ipv4Addr != t.ipv4Addr && s.gateway != t.gateway && s.tapDevName != t.tapDevName
  {
    RunKeepsInv(start, events);
    var n := After(start, events).value;
    forall u, v | u in n.machines && v in n.machines && u != v
      ensures n.machines[u].slot.ipv4Addr != n.machines[v].slot.ipv4Addr
      ensures n.machines[u].slot.gateway != n.machines[v].slot.gateway
      ensures n.machines[u].slot.tapDevName != n.machines[v].slot.tapDevName
    {
      LiveSlotsDiffer(n, u, v);
    }
  }

  /** The slots in use (or lost) while this event runs, counting the one being provisioned. */
  function Demand(n: NodeState, e: Event): nat {
    if e.Provision? then |n.machines| + |n.lost| + 1 else 0
  }

  /** The largest demand of a run. */
  function HighWater(start: NodeState, events: seq<Event>): nat {
    if events == [] then 0
    else
      var n := |events| - 1;
      var earlier := HighWater(start, events[..n]);
      match After(start, events[..n])
      case None => earlier
      case Some(before) => if Demand(before, events[n]) > earlier then Demand(before, events[n]) else earlier
  }

  /** Some provisioning of the run hit the arithmetic overflow in `next_slot`. */
  predicate SomeOverflow(start: NodeState, events: seq<Event>) {
    events != [] &&
    var n := |events| - 1;
    SomeOverflow(start, events[..n]) ||
    match After(start, events[..n])
    case None => false
    case Some(before) => events[n].Provision? && Taken(before.pool).None?
  }

  ghost predicate CounterInv(pool: Pool, highWater: nat, overflow: bool) {
    && (overflow <==> highWater > SLOTS)
    && (!overflow ==> pool.nextId == highWater)
    && (overflow ==> pool.nextId > SLOTS)
  }

  lemma CounterStep(pool: Pool, machines: map<string, Stack>, lost: set<Slot>, highWater: nat, overflow: bool)
    requires Partition(pool, machines, lost) && CounterInv(pool, highWater, overflow)
    ensures var demand := |machines| + |lost| + 1;
            CounterInv(AfterTaking(pool), if demand > highWater then demand else highWater,
                       overflow || Taken(pool).None?)
  {
    SlotExistsIff(pool.nextId);
    if pool.recovered != [] {
      assert |pool.recovered| >= 1;
    }
  }

  lemma DrainKeepsCounter(n: NodeState, order: seq<string>)
    ensures AfterDrain(n, order).pool.nextId == n.pool.nextId
    decreases |order|
  {
    if order != [] {
      DrainKeepsCounter(AfterDeprovision(n, order[0]), order[1..]);
    }
  }

  lemma OtherEventsKeepCounter(n: NodeState, e: Event)
    requires Enabled(n, e)
    ensures Apply(n, e).pool.nextId == if e.Provision? then AfterTaking(n.pool).nextId else n.pool.nextId
  {
    if e.Drain? {
      DrainKeepsCounter(n, e.order);
    }
  }

  /** In every reachable state before an overflow the id counter equals the high-water mark of the
      slots live, in flight or lost; and a run overflows u16 or u8 arithmetic if and only if that mark
      exceeds 16384. */
  lemma {:induction false} NextIdIsHighWater(start: NodeState, events: seq<Event>)
    requires FreshHost(start) && After(start, events).Some?
    ensures SomeOverflow(start, events) <==> HighWater(start, events) > SLOTS
    ensures !SomeOverflow(start, events) ==> After(start, events).value.pool.nextId == HighWater(start, events)
    ensures SomeOverflow(start, events) ==> After(start, events).value.pool.nextId > SLOTS
  {
    if events != [] {
      var n := |events| - 1;
      NextIdIsHighWater(start, events[..n]);
      RunKeepsInv(start, events[..n]);
      var before := After(start, events[..n]).value;
      OtherEventsKeepCounter(before, events[n]);
      if events[n].Provision? {
        CounterStep(before.pool, before.machines, before.lost, HighWater(start, events[..n]), SomeOverflow(start, events[..n]));
      }
    }
  }

  /** A slot whose provisioning fails is lost for good: in no continuation of the run is it recovered or
      used by a machine. */
  lemma FailedProvisionLosesItsSlot(start: NodeState, events: seq<Event>, uuid: string, outcome: Outcome, more: seq<Event>)
    requires FreshHost(start) && After(start, events).Some? && !outcome.Runs?
    requires Enabled(After(start, events).value, Provision(uuid, outcome)) && Taken(After(start, events).value.pool).Some?
    requires After(start, events + [Provision(uuid, outcome)] + more).Some?
    ensures var slot := Taken(After(start, events).value.pool).value;
            var n := After(start, events + [Provision(uuid, outcome)] + more).value;
            slot in n.lost && slot !in n.pool.recovered && slot !in LiveSlots(n.machines)
  {
    var slot := Taken(After(start, events).value.pool).value;
    Extend(start, events, After(start, events).value, Provision(uuid, outcome));
    LostStaysLost(start, events + [Provision(uuid, outcome)], more);
    RunKeepsInv(start, events + [Provision(uuid, outcome)] + more);
    var n := After(start, events + [Provision(uuid, outcome)] + more).value;
    assert slot !in Elements(n.pool.recovered);
  }

  /** A provisioning that succeeds: the machine is live on the slot handed out, its tap device exists, its
      cleanup task waits, and nothing else has changed. */
  ghost predicate IsLiveNow(n: NodeState, n': NodeState, uuid: string, slot: Slot) {
    && uuid !in n.machines && uuid in n'.machines && n'.machines[uuid].slot == slot
    && n'.machines == n.machines[uuid := n'.machines[uuid]]
    && n'.taps == n.taps + {slot.tapDevName}
    && n'.watch == n.watch[uuid := Waiting]
    && n'.lost == n.lost
    && n'.table == n.table + n'.machines[uuid].book
  }

  lemma SuccessMakesLive(n: NodeState, uuid: string)
    requires uuid !in n.machines && Taken(n.pool).Some?
    ensures IsLiveNow(n, AfterProvision(n, uuid, Runs), uuid, Taken(n.pool).value)
  {
  }

  lemma ProvisionedMachineIsLive(start: NodeState, events: seq<Event>, uuid: string)
    requires FreshHost(start) && After(start, events).Some?
    requires Enabled(After(start, events).value, Provision(uuid, Runs)) && Taken(After(start, events).value.pool).Some?
    ensures var n := After(start, events).value;
            IsLiveNow(n, Apply(n, Provision(uuid, Runs)), uuid, Taken(n.pool).value)
  {
    RunKeepsInv(start, events);
    assert uuid !in After(start, events).value.machines.Keys;
    SuccessMakesLive(After(start, events).value, uuid);
  }

  // ---- Main results: the kernel ----

  lemma {:induction false} FilterCounts(table: Table, rules: iset<Rule>, rule: Rule)
    ensures rule in rules ==> multiset(Keep(table, rules))[rule] == multiset(table)[rule]
    ensures rule !in rules ==> multiset(Without(table, rules))[rule] == multiset(table)[rule]
  {
    if table != [] {
      FilterCounts(table[1..], rules, rule);
      assert table == [table[0]] + table[1..];
    }
  }

  /** In every reachable state the table is the host's own rules, in their own order, plus, rule by
      rule, what the books of the live machines list. */
  lemma TableIsBasePlusLiveBooks(start: NodeState, events: seq<Event>, rule: Rule)
    requires FreshHost(start) && After(start, events).Some?
    ensures var n := After(start, events).value;
            && Without(n.table, StackRules()) == start.table
            && (!IsStackRule(rule) ==> multiset(n.table)[rule] == multiset(start.table)[rule])
            && (IsStackRule(rule) && rule in n.table ==>
                  exists u :: u in n.machines && rule in OwnedBy(n.machines[u].slot))
            && (forall u :: u in n.machines && rule in OwnedBy(n.machines[u].slot) ==>
                  multiset(n.table)[rule] == multiset(n.machines[u].book)[rule])
  {
    RunKeepsInv(start, events);
    var n := After(start, events).value;
    FilterCounts(n.table, StackRules(), rule);
    forall u | u in n.machines && rule in OwnedBy(n.machines[u].slot)
      ensures multiset(n.table)[rule] == multiset(n.machines[u].book)[rule]
    {
      LiveBookCounts(start, n, u, rule);
    }
    if IsStackRule(rule) && rule in n.table {
      StackRuleIsLive(start, n, rule);
    }
  }

  lemma LiveBookCounts(start: NodeState, n: NodeState, u: string, rule: Rule)
    requires NodeInv(start, n) && u in n.machines && rule in OwnedBy(n.machines[u].slot)
    ensures multiset(n.table)[rule] == multiset(n.machines[u].book)[rule]
  {
    assert n.machines[u].slot in LiveSlots(n.machines);
    var id := IdOf(n.machines[u].slot, Made(n.pool));
    FilterCounts(n.table, OwnedBy(SlotAt(id)), rule);
    assert multiset(RulesAt(n.table, id)) == multiset(n.machines[u].book);
  }

  lemma StackRuleIsLive(start: NodeState, n: NodeState, rule: Rule)
    requires KernelInv(start, n) && IsStackRule(rule) && rule in n.table
    ensures exists u :: u in n.machines && rule in OwnedBy(n.machines[u].slot)
  {
    var id: nat :| id < SLOTS && rule in OwnedBy(SlotAt(id));
    KeepMembers(n.table, OwnedBy(SlotAt(id)));
    assert rule in RulesAt(n.table, id);
    assert SlotAt(id) in LiveSlots(n.machines);
  }

  lemma DroppedStackAt(start: NodeState, n: NodeState, u: string) returns (id: nat)
    requires NodeInv(start, n) && u in n.machines
    ensures id < SLOTS && SlotAt(id) == n.machines[u].slot
    ensures AfterDeprovision(n, u).table == Without(n.table, OwnedBy(SlotAt(id)))
    ensures SameElsewhere(n.table, AfterDeprovision(n, u).table, id)
  {
    assert n.machines[u].slot in LiveSlots(n.machines);
    id := IdOf(n.machines[u].slot, Made(n.pool));
    DroppingABook(n.table, n.machines[u].book, id);
  }

  lemma SparedMachine(start: NodeState, n: NodeState, u: string, v: string)
    requires NodeInv(start, n) && u in n.machines && v in n.machines && u != v
    ensures Keep(AfterDeprovision(n, u).table, OwnedBy(n.machines[v].slot)) == Keep(n.table, OwnedBy(n.machines[v].slot))
  {
    var id := DroppedStackAt(start, n, u);
    assert n.machines[v].slot in LiveSlots(n.machines);
    var j := IdOf(n.machines[v].slot, Made(n.pool));
    assert n.machines[u].slot != n.machines[v].slot;
    assert RulesAt(AfterDeprovision(n, u).table, j) == RulesAt(n.table, j);
  }

  /** Cleanup does not interfere: dropping one machine's stack removes exactly its own rules. The
      rules of every other live machine, and the host's own, keep their number and their order. */
  lemma DroppingOneStackSparesTheOthers(start: NodeState, events: seq<Event>, u: string)
    requires FreshHost(start) && After(start, events).Some? && u in After(start, events).value.machines
    ensures var n := After(start, events).value;
            var table' := AfterDeprovision(n, u).table;
            && table' == Without(n.table, OwnedBy(n.machines[u].slot))
            && Without(table', StackRules()) == start.table
            && (forall v :: v in n.machines && v != u ==>
                  Keep(table', OwnedBy(n.machines[v].slot)) == Keep(n.table, OwnedBy(n.machines[v].slot)))
  {
    RunKeepsInv(start, events);
    var n := After(start, events).value;
    var id := DroppedStackAt(start, n, u);
    forall v | v in n.machines && v != u
      ensures Keep(AfterDeprovision(n, u).table, OwnedBy(n.machines[v].slot)) == Keep(n.table, OwnedBy(n.machines[v].slot))
    {
      SparedMachine(start, n, u, v);
    }
  }

  lemma NoMachinesNoTrace(start: NodeState, n: NodeState)
    requires KernelInv(start, n) && n.machines == map[]
    ensures n.table == start.table && n.taps == start.taps
  {
    KeepMembers(n.table, StackRules());
    forall rule | rule in n.table ensures rule !in StackRules() {
      if IsStackRule(rule) {
        StackRuleIsLive(start, n, rule);
      }
    }
    KeepNone(n.table, StackRules());
    assert LiveTaps(n.machines) == {};
  }

  /** A node without machines has restored the host: same rules in the same order, same taps,
      whatever was provisioned, published, failed or torn down before. */
  lemma EmptyNodeRestoresTheHost(start: NodeState, events: seq<Event>)
    requires FreshHost(start) && After(start, events).Some?
    requires After(start, events).value.machines == map[]
    ensures var n := After(start, events).value;
            n.table == start.table && n.taps == start.taps
  {
    RunKeepsInv(start, events);
    NoMachinesNoTrace(start, After(start, events).value);
  }

  /** ... in particular after a drain. */
  lemma DrainRestoresTheHost(start: NodeState, events: seq<Event>, order: seq<string>)
    requires FreshHost(start) && After(start, events).Some? && Enabled(After(start, events).value, Drain(order))
    ensures var n := AfterDrain(After(start, events).value, order);
            n.machines == map[] && n.table == start.table && n.taps == start.taps
  {
    RunKeepsInv(start, events);
    var before := After(start, events).value;
    DrainRemoves(before, order);
    DrainKeeps(start, before, order);
    assert Elements(order) == before.machines.Keys;
    assert AfterDrain(before, order).machines.Keys == {};
    NoMachinesNoTrace(start, AfterDrain(before, order));
  }

  /** When a recovered slot is about to be handed out again, its tap device and all rules of its
      former users are gone. */
  lemma RecoveredSlotIsClean(start: NodeState, events: seq<Event>, slot: Slot)
    requires FreshHost(start) && After(start, events).Some?
    requires slot in After(start, events).value.pool.recovered
    ensures var n := After(start, events).value;
            slot.tapDevName !in n.taps && (forall rule :: rule in n.table ==> rule !in OwnedBy(slot))
  {
    RunKeepsInv(start, events);
    var n := After(start, events).value;
    assert slot in Elements(n.pool.recovered);
    var id := IdOf(slot, Made(n.pool));
    assert slot !in LiveSlots(n.machines);
    KeepMembers(n.table, OwnedBy(slot));
    assert RulesAt(n.table, id) == [];
    forall u | u in n.machines ensures n.machines[u].slot.tapDevName != slot.tapDevName {
      assert n.machines[u].slot in LiveSlots(n.machines);
      var j := IdOf(n.machines[u].slot, Made(n.pool));
      SlotAtInjective(id, j);
    }
  }

  // ---- Main results: machines ----

  /** Over every race of explicit deprovisioning, guest exit and drain: each machine ever provisioned is
      either live or was given back, never both and never twice; after its cleanup it is not live. */
  lemma EachMachineConsumedOnce(start: NodeState, events: seq<Event>)
    requires FreshHost(start) && After(start, events).Some?
    ensures var n := After(start, events).value;
            && n.machines.Keys + Elements(n.reclaimed) == n.watch.Keys
            && n.machines.Keys !! Elements(n.reclaimed)
            && Distinct(n.reclaimed)
            && (forall u :: CleanUp(u) in events ==> u in n.reclaimed)
  {
    RunKeepsInv(start, events);
    var n := After(start, events).value;
    forall u | CleanUp(u) in events ensures u in n.reclaimed {
      WatchTellsTheEvents(start, events, u);
      assert u in n.watch.Keys;
      assert u in Elements(n.reclaimed);
    }
  }
}
