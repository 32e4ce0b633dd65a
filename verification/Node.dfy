/** The node manager over whole runs (nodemanager/src/manager.rs, networking.rs, machine/machine.rs).
    Every event is one critical section of the `machines` write lock, one iptables command of a port
    publication, or one step of a machine's cleanup task. Delete commands are taken to succeed. */
module Node {
  import opened Protocol
  import opened Slots
  import opened RuleTable

  /** A machine's network stack. Its tap device exists exactly as long as the stack. */
  datatype Stack = Stack(slot: Slot, book: seq<Rule>)

  /** A machine's cleanup task: awaiting the handler's exit, holding it, past the notification, done. */
  datatype Watch = Waiting | Fired(exit: MachineExit) | Notified(exit: MachineExit) | Finished(exit: MachineExit)

  /** What a subscriber of machine states is sent. */
  datatype Notice = Notice(uuid: string, exit: MachineExit)

  /** How far a provisioning gets. */
  datatype Outcome = TapFails | AddressFails | UpFails | NatFails(second: bool) | VmFails | Runs

  datatype NodeState = NodeState(
    outIf: string,
    subscribed: bool,               // is there a machine-state subscription
    pool: Pool,
    taps: set<string>,
    table: Table,
    machines: map<string, Stack>,
    lost: set<Slot>,                // slots whose provisioning failed; the source drops them
    reclaimed: seq<string>,         // machines whose stack was given back, in order
    watch: map<string, Watch>,
    notices: seq<Notice>)           // the exits reported, in order

  datatype Event =
    | Provision(uuid: string, outcome: Outcome)
    | Publish(uuid: string, kind: RuleKind) // one successful command of `setup_forwarding`
    | Deprovision(uuid: string)
    | Drain(order: seq<string>)             // the order in which the map yields its entries
    | HandlerStops(uuid: string, exit: MachineExit)
    | Notify(uuid: string)
    | CleanUp(uuid: string)

  // ---- Steps ----

  function NatRules(slot: Slot, outIf: string): (rules: seq<Rule>) {
    [Args(Masquerade(outIf), slot), Args(ForwardOut(outIf), slot)]
  }

  /** The rules added before a provisioning stops. */
  function AddedRules(slot: Slot, outIf: string, outcome: Outcome): seq<Rule> {
    match outcome
    case TapFails | AddressFails | UpFails => []
    case NatFails(second) => if second then NatRules(slot, outIf)[..1] else []
    case VmFails | Runs => NatRules(slot, outIf)
  }

  function AfterProvision(n: NodeState, uuid: string, outcome: Outcome): NodeState {
    var slot := Taken(n.pool);
    var n1 := n.(pool := AfterTaking(n.pool));
    if slot.None? then n1
    else if outcome.TapFails? then n1.(lost := n1.lost + {slot.value})
    else
      var added := AddedRules(slot.value, n.outIf, outcome);
      var n2 := n1.(taps := n1.taps + {slot.value.tapDevName}, table := n1.table + added);
      if outcome.Runs? then
        n2.(machines := n2.machines[uuid := Stack(slot.value, added)], watch := n2.watch[uuid := Waiting])
      else
        // The stack is dropped: its tap device and its rule book undo themselves, the slot is gone.
        n2.(taps := n2.taps - {slot.value.tapDevName}, table := DeleteAll(n2.table, added),
            lost := n2.lost + {slot.value})
  }

  function AfterPublish(n: NodeState, uuid: string, kind: RuleKind): NodeState
    requires uuid in n.machines
  {
    var stack := n.machines[uuid];
    var rule := Args(kind, stack.slot);
    n.(table := Add(n.table, rule, AtHead(kind)),
       machines := n.machines[uuid := stack.(book := stack.book + [rule])])
  }

  function AfterDeprovision(n: NodeState, uuid: string): NodeState {
    if uuid !in n.machines then n
    else
      var stack := n.machines[uuid];
      n.(machines := n.machines - {uuid},
         taps := n.taps - {stack.slot.tapDevName},
         table := DeleteAll(n.table, stack.book),
         pool := Returned(n.pool, stack.slot),
         reclaimed := n.reclaimed + [uuid])
  }

  function AfterDrain(n: NodeState, order: seq<string>): NodeState
    decreases |order|
  {
    if order == [] then n else AfterDrain(AfterDeprovision(n, order[0]), order[1..])
  }

  predicate Enabled(n: NodeState, e: Event) {
    match e
    case Provision(uuid, outcome) =>
      && uuid !in n.watch
      && (Taken(n.pool).Some? && !outcome.TapFails? ==> Taken(n.pool).value.tapDevName !in n.taps)
    case Publish(uuid, kind) => uuid in n.machines && (kind.Dnat? || kind.ForwardReply? || kind.ForwardNew?)
    case Deprovision(_) => true
    case Drain(order) => (set u | u in order) == n.machines.Keys && |order| == |n.machines|
    case HandlerStops(uuid, _) => uuid in n.watch && n.watch[uuid].Waiting?
    case Notify(uuid) => uuid in n.watch && n.watch[uuid].Fired?
    case CleanUp(uuid) => uuid in n.watch && n.watch[uuid].Notified?
  }

  function Apply(n: NodeState, e: Event): NodeState
    requires Enabled(n, e)
  {
    match e
    case Provision(uuid, outcome) => AfterProvision(n, uuid, outcome)
    case Publish(uuid, kind) => AfterPublish(n, uuid, kind)
    case Deprovision(uuid) => AfterDeprovision(n, uuid)
    case Drain(order) => AfterDrain(n, order)
    case HandlerStops(uuid, exit) => n.(watch := n.watch[uuid := Fired(exit)])
    case Notify(uuid) =>
      var exit := n.watch[uuid].exit;
      n.(watch := n.watch[uuid := Notified(exit)],
         notices := if n.subscribed then n.notices + [Notice(uuid, exit)] else n.notices)
    case CleanUp(uuid) => AfterDeprovision(n.(watch := n.watch[uuid := Finished(n.watch[uuid].exit)]), uuid)
  }

  /** A node manager that has just started, on a host with some taps and rules of its own. */
  function Start(outIf: string, subscribed: bool, taps: set<string>, table: Table): NodeState {
    NodeState(outIf, subscribed, Pool([], 0), taps, table, map[], {}, [], map[], [])
  }

  function After(start: NodeState, events: seq<Event>): Option<NodeState> {
    if events == [] then Some(start)
    else
      var n := |events| - 1;
      var before := After(start, events[..n]);
      if before.Some? && Enabled(before.value, events[n]) then Some(Apply(before.value, events[n])) else None
  }

  // ---- Slots ----

  function SlotAt(id: nat): Slot
    requires id < SLOTS
  {
    SlotExistsIff(id);
    SlotFor(id).value
  }

  /** How many slots have been made so far. */
  function Made(pool: Pool): nat {
    Min(pool.nextId, SLOTS)
  }

  /** The slots of the ids below `count`. */
  function SlotsBelow(count: nat): set<Slot>
    requires count <= SLOTS
  {
    set id: nat | id < count :: SlotAt(id)
  }

  function Elements<T(==)>(s: seq<T>): set<T> {
    set x | x in s
  }

  function LiveSlots(machines: map<string, Stack>): set<Slot> {
    set u | u in machines :: machines[u].slot
  }

  ghost predicate OwnSlots(machines: map<string, Stack>) {
    forall u, v :: u in machines && v in machines && u != v ==> machines[u].slot != machines[v].slot
  }

  /** Recovered, live and lost slots partition the slots made so far. */
  ghost predicate Partition(pool: Pool, machines: map<string, Stack>, lost: set<Slot>) {
    && pool.nextId < U16
    && SlotsBelow(Made(pool)) == Elements(pool.recovered) + LiveSlots(machines) + lost
    && Elements(pool.recovered) !! LiveSlots(machines) !! lost
    && Distinct(pool.recovered) && OwnSlots(machines)
    && |pool.recovered| + |machines| + |lost| == Made(pool)
  }

  ghost predicate SlotsInv(n: NodeState) {
    Partition(n.pool, n.machines, n.lost)
  }

  lemma SlotAtInjective(i: nat, j: nat)
    requires i < SLOTS && j < SLOTS && i != j
    ensures SlotAt(i) != SlotAt(j) && SlotAt(i).tapDevName != SlotAt(j).tapDevName
    ensures SlotAt(i).ipv4Addr != SlotAt(j).ipv4Addr && SlotAt(i).gateway != SlotAt(j).gateway
    ensures OwnedBy(SlotAt(i)) !! OwnedBy(SlotAt(j))
  {
    SlotsDisjoint(i, j);
    RulesOfSlotsDisjoint(i, j);
  }

  lemma NextSlotIsNew(id: nat)
    requires id < SLOTS
    ensures SlotsBelow(id + 1) == SlotsBelow(id) + {SlotAt(id)}
    ensures SlotAt(id) !in SlotsBelow(id)
  {
    forall i: nat | i < id ensures SlotAt(i) != SlotAt(id) {
      SlotAtInjective(i, id);
    }
  }

  lemma LastElement<T>(s: seq<T>)
    requires s != [] && Distinct(s)
    ensures var last := s[|s| - 1];
            && Elements(s[..|s| - 1]) == Elements(s) - {last} && Distinct(s[..|s| - 1]) && last in Elements(s)
  {
    var init := s[..|s| - 1];
    assert s == init + [s[|s| - 1]];
  }

  lemma AppendElement<T>(s: seq<T>, x: T)
    ensures Elements(s + [x]) == Elements(s) + {x}
    ensures Distinct(s) && x !in s ==> Distinct(s + [x])
  {
  }

  lemma LiveAfterInsert(machines: map<string, Stack>, u: string, stack: Stack)
    requires u !in machines
    ensures LiveSlots(machines[u := stack]) == LiveSlots(machines) + {stack.slot}
    ensures |machines[u := stack]| == |machines| + 1
    ensures OwnSlots(machines) && stack.slot !in LiveSlots(machines) ==> OwnSlots(machines[u := stack])
  {
    var m := machines[u := stack];
    assert m[u] == stack;
    assert forall v :: v in machines ==> m[v] == machines[v] && m[v].slot in LiveSlots(m);
    assert forall v :: v in machines ==> machines[v].slot in LiveSlots(machines);
  }

  lemma LiveAfterRemove(machines: map<string, Stack>, u: string)
    requires u in machines && OwnSlots(machines)
    ensures LiveSlots(machines - {u}) == LiveSlots(machines) - {machines[u].slot}
    ensures machines[u].slot in LiveSlots(machines)
    ensures |machines - {u}| == |machines| - 1 && OwnSlots(machines - {u})
  {
    var m := machines - {u};
    assert m.Keys == machines.Keys - {u};
    assert |m.Keys| == |machines.Keys| - 1;
    assert forall v :: v in m ==> m[v] == machines[v];
    assert forall v :: v in machines && v != u ==> v in m && m[v].slot in LiveSlots(m);
  }

  lemma LiveAfterUpdate(machines: map<string, Stack>, u: string, stack: Stack)
    requires u in machines && stack.slot == machines[u].slot
    ensures LiveSlots(machines[u := stack]) == LiveSlots(machines)
    ensures |machines[u := stack]| == |machines|
    ensures OwnSlots(machines) ==> OwnSlots(machines[u := stack])
  {
    var m := machines[u := stack];
    assert m.Keys == machines.Keys;
    assert forall v :: v in machines ==> m[v].slot == machines[v].slot;
  }

  /** A slot that `next_slot` yields is not in use, not lost, and will not be handed out again; it
      stays accounted for whether it becomes live or is lost. */
  lemma TakenSlotIsFree(pool: Pool, machines: map<string, Stack>, lost: set<Slot>)
    requires Partition(pool, machines, lost) && Taken(pool).Some?
    ensures var slot := Taken(pool).value;
            var after := AfterTaking(pool);
            && after.nextId < U16
            && slot in SlotsBelow(Made(after)) && slot !in LiveSlots(machines) && slot !in lost
            && SlotsBelow(Made(after)) == SlotsBelow(Made(pool)) + {slot}
            && Elements(after.recovered) == Elements(pool.recovered) - {slot} && Distinct(after.recovered)
            && |after.recovered| + |machines| + |lost| + 1 == Made(after)
  {
    if pool.recovered == [] {
      SlotExistsIff(pool.nextId);
      NextSlotIsNew(pool.nextId);
    } else {
      LastElement(pool.recovered);
    }
  }

  /** One element moves into (or appears in) the last of three disjoint parts. */
  lemma MoveInto<T>(whole: set<T>, from: set<T>, other: set<T>, to: set<T>, x: T)
    requires whole == from + other + to && from !! other !! to
    requires x !in other && x !in to
    ensures whole + {x} == (from - {x}) + other + (to + {x})
    ensures (from - {x}) !! other !! (to + {x})
    ensures |to + {x}| == |to| + 1
  {
  }

  lemma TakenSlotLost(pool: Pool, machines: map<string, Stack>, lost: set<Slot>)
    requires Partition(pool, machines, lost) && Taken(pool).Some?
    ensures Partition(AfterTaking(pool), machines, lost + {Taken(pool).value})
  {
    TakenSlotIsFree(pool, machines, lost);
    MoveInto(SlotsBelow(Made(pool)), Elements(pool.recovered), LiveSlots(machines), lost, Taken(pool).value);
  }

  lemma TakenSlotLive(pool: Pool, machines: map<string, Stack>, lost: set<Slot>, uuid: string, stack: Stack)
    requires Partition(pool, machines, lost) && Taken(pool) == Some(stack.slot) && uuid !in machines
    ensures Partition(AfterTaking(pool), machines[uuid := stack], lost)
  {
    TakenSlotIsFree(pool, machines, lost);
    LiveAfterInsert(machines, uuid, stack);
    MoveIntoSecond(SlotsBelow(Made(pool)), Elements(pool.recovered), LiveSlots(machines), lost, stack.slot);
  }

  lemma MoveIntoSecond<T>(whole: set<T>, from: set<T>, to: set<T>, other: set<T>, x: T)
    requires whole == from + to + other && from !! to !! other
    requires x !in other && x !in to
    ensures whole + {x} == (from - {x}) + (to + {x}) + other
    ensures (from - {x}) !! (to + {x}) !! other
  {
  }

  lemma MoveIntoFirst<T>(whole: set<T>, to: set<T>, from: set<T>, other: set<T>, x: T)
    requires whole == to + from + other && to !! from !! other
    requires x in from
    ensures whole == (to + {x}) + (from - {x}) + other
    ensures (to + {x}) !! (from - {x}) !! other
    ensures x !in to
  {
  }

  lemma NoSlotTaken(pool: Pool, machines: map<string, Stack>, lost: set<Slot>)
    requires Partition(pool, machines, lost) && Taken(pool) == None
    ensures Partition(AfterTaking(pool), machines, lost)
  {
    SlotExistsIff(pool.nextId);
  }

  lemma SlotReturned(pool: Pool, machines: map<string, Stack>, lost: set<Slot>, uuid: string)
    requires Partition(pool, machines, lost) && uuid in machines
    ensures Partition(Returned(pool, machines[uuid].slot), machines - {uuid}, lost)
  {
    var slot := machines[uuid].slot;
    LiveAfterRemove(machines, uuid);
    MoveIntoFirst(SlotsBelow(Made(pool)), Elements(pool.recovered), LiveSlots(machines), lost, slot);
    AppendElement(pool.recovered, slot);
  }

  lemma ProvisionKeepsSlots(n: NodeState, uuid: string, outcome: Outcome)
    requires SlotsInv(n) && uuid !in n.machines
    ensures SlotsInv(AfterProvision(n, uuid, outcome))
  {
    if Taken(n.pool).None? {
      NoSlotTaken(n.pool, n.machines, n.lost);
    } else if outcome.Runs? {
      TakenSlotLive(n.pool, n.machines, n.lost, uuid, AfterProvision(n, uuid, outcome).machines[uuid]);
    } else {
      TakenSlotLost(n.pool, n.machines, n.lost);
    }
  }

  lemma DeprovisionKeepsSlots(n: NodeState, uuid: string)
    requires SlotsInv(n)
    ensures SlotsInv(AfterDeprovision(n, uuid))
  {
    if uuid in n.machines {
      SlotReturned(n.pool, n.machines, n.lost, uuid);
    }
  }

  lemma PublishKeepsSlots(n: NodeState, uuid: string, kind: RuleKind)
    requires SlotsInv(n) && uuid in n.machines
    ensures SlotsInv(AfterPublish(n, uuid, kind))
  {
    LiveAfterUpdate(n.machines, uuid, AfterPublish(n, uuid, kind).machines[uuid]);
  }
}
