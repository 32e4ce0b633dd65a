/** What the node manager's steps do to the kernel's rule table and tap devices. */
module NodeKernel {
  import opened Protocol
  import opened Slots
  import opened RuleTable
  import opened Node

  ghost predicate IsStackRule(rule: Rule) {
    exists id: nat :: id < SLOTS && rule in OwnedBy(SlotAt(id))
  }

  /** Every rule some stack could add. */
  ghost function StackRules(): iset<Rule> {
    iset rule: Rule | IsStackRule(rule)
  }

  lemma OwnedAreStackRules(id: nat)
    requires id < SLOTS
    ensures OwnedBy(SlotAt(id)) <= StackRules()
  {
  }

  // ---- One stack's rules in a table ----

  lemma {:induction false} KeepWhole(rules: seq<Rule>, owned: iset<Rule>)
    requires forall r :: r in rules ==> r in owned
    ensures Keep(rules, owned) == rules && Without(rules, owned) == []
  {
    if rules != [] {
      KeepWhole(rules[1..], owned);
      assert rules == [rules[0]] + rules[1..];
    }
  }

  lemma {:induction false} KeepNone(rules: seq<Rule>, other: iset<Rule>)
    requires forall r :: r in rules ==> r !in other
    ensures Keep(rules, other) == [] && Without(rules, other) == rules
  {
    if rules != [] {
      KeepNone(rules[1..], other);
      assert rules == [rules[0]] + rules[1..];
    }
  }

  /** The table restricted to one slot. */
  ghost function RulesAt(table: Table, id: nat): Table
    requires id < SLOTS
  {
    Keep(table, OwnedBy(SlotAt(id)))
  }

  ghost predicate SameElsewhere(table: Table, table': Table, id: nat) {
    && Without(table', StackRules()) == Without(table, StackRules())
    && forall j: nat :: j < SLOTS && j != id ==> RulesAt(table', j) == RulesAt(table, j)
  }

  lemma AddingRules(table: Table, added: seq<Rule>, id: nat)
    requires id < SLOTS && forall r :: r in added ==> r in OwnedBy(SlotAt(id))
    ensures RulesAt(table + added, id) == RulesAt(table, id) + added
    ensures SameElsewhere(table, table + added, id)
  {
    KeepOfConcat(table, added, OwnedBy(SlotAt(id)));
    KeepWhole(added, OwnedBy(SlotAt(id)));
    OwnedAreStackRules(id);
    KeepOfConcat(table, added, StackRules());
    KeepWhole(added, StackRules());
    forall j: nat | j < SLOTS && j != id ensures RulesAt(table + added, j) == RulesAt(table, j) {
      SlotAtInjective(id, j);
      KeepOfConcat(table, added, OwnedBy(SlotAt(j)));
      KeepNone(added, OwnedBy(SlotAt(j)));
    }
  }

  lemma AddingOneRule(table: Table, rule: Rule, atHead: bool, id: nat)
    requires id < SLOTS && rule in OwnedBy(SlotAt(id))
    ensures RulesAt(Add(table, rule, atHead), id) == Add(RulesAt(table, id), rule, atHead)
    ensures SameElsewhere(table, Add(table, rule, atHead), id)
  {
    KeepAfterAdd(table, rule, atHead, OwnedBy(SlotAt(id)));
    OwnedAreStackRules(id);
    KeepAfterAdd(table, rule, atHead, StackRules());
    forall j: nat | j < SLOTS && j != id ensures RulesAt(Add(table, rule, atHead), j) == RulesAt(table, j) {
      SlotAtInjective(id, j);
      KeepAfterAdd(table, rule, atHead, OwnedBy(SlotAt(j)));
    }
  }

  lemma DroppingABook(table: Table, book: seq<Rule>, id: nat)
    requires id < SLOTS && multiset(RulesAt(table, id)) == multiset(book)
    ensures DeleteAll(table, book) == Without(table, OwnedBy(SlotAt(id)))
    ensures RulesAt(DeleteAll(table, book), id) == []
    ensures SameElsewhere(table, DeleteAll(table, book), id)
  {
    var owned := OwnedBy(SlotAt(id));
    DeletingABookRemovesItsRules(table, book, owned);
    KeepOfWithoutSame(table, owned);
    OwnedAreStackRules(id);
    WithoutAfterWithout(table, owned, StackRules());
    forall j: nat | j < SLOTS && j != id ensures RulesAt(DeleteAll(table, book), j) == RulesAt(table, j) {
      SlotAtInjective(id, j);
      KeepAfterWithout(table, owned, OwnedBy(SlotAt(j)));
    }
  }

  lemma {:induction false} KeepOfWithoutSame(table: Table, owned: iset<Rule>)
    ensures Keep(Without(table, owned), owned) == []
  {
    if table != [] {
      KeepOfWithoutSame(table[1..], owned);
      if table[0] !in owned {
        KeepOfConcat([table[0]], Without(table[1..], owned), owned);
        KeepOfOne(table[0], owned);
      } else {
        assert Without(table, owned) == Without(table[1..], owned);
      }
    }
  }

  /** A stack whose setup stops part way leaves the table exactly as it found it. */
  lemma SetupAndDropIsNothing(table: Table, added: seq<Rule>, id: nat)
    requires id < SLOTS && RulesAt(table, id) == []
    requires forall r :: r in added ==> r in OwnedBy(SlotAt(id))
    ensures DeleteAll(table + added, added) == table
  {
    var owned := OwnedBy(SlotAt(id));
    AddingRules(table, added, id);
    assert RulesAt(table + added, id) == added;
    DroppingABook(table + added, added, id);
    KeepOfConcat(table, added, owned);
    KeepWhole(added, owned);
    KeepMembers(table, owned);
  }

  // ---- The invariant ----

  /** The rules that are nobody's are the host's own, in their order; each live machine's rules in the
      table are those of its book; and there are no others. */
  ghost predicate RulesInv(table: Table, machines: map<string, Stack>, base: Table) {
    && Without(table, StackRules()) == base
    && BooksListTheirRules(table, machines)
    && OtherSlotsAreClear(table, machines)
  }

  ghost predicate BooksListTheirRules(table: Table, machines: map<string, Stack>) {
    forall u, id: nat :: u in machines && id < SLOTS && machines[u].slot == SlotAt(id) ==>
      multiset(RulesAt(table, id)) == multiset(machines[u].book)
  }

  ghost predicate OtherSlotsAreClear(table: Table, machines: map<string, Stack>) {
    forall id: nat :: id < SLOTS && SlotAt(id) !in LiveSlots(machines) ==> RulesAt(table, id) == []
  }

  function LiveTaps(machines: map<string, Stack>): set<string> {
    set u | u in machines :: machines[u].slot.tapDevName
  }

  ghost predicate TapsInv(taps: set<string>, machines: map<string, Stack>, base: set<string>) {
    taps == base + LiveTaps(machines) && base !! LiveTaps(machines)
  }

  ghost predicate KernelInv(start: NodeState, n: NodeState) {
    && RulesInv(n.table, n.machines, start.table)
    && TapsInv(n.taps, n.machines, start.taps)
    && n.outIf == start.outIf
  }

  /** The host's own rules coincide with no stack rule. */
  ghost predicate FreshHost(start: NodeState) {
    && start == Start(start.outIf, start.subscribed, start.taps, start.table)
    && forall rule :: rule in start.table ==> !IsStackRule(rule)
  }

  lemma StartHolds(start: NodeState)
    requires FreshHost(start)
    ensures SlotsInv(start) && KernelInv(start, start)
  {
    KeepNone(start.table, StackRules());
    forall id: nat | id < SLOTS ensures RulesAt(start.table, id) == [] {
      OwnedAreStackRules(id);
      KeepNone(start.table, OwnedBy(SlotAt(id)));
    }
    assert LiveSlots(start.machines) == {} && SlotsBelow(0) == {};
  }

  /** A machine joins: only the rules at its slot change, and they become its book. */
  lemma RulesAfterJoin(table: Table, machines: map<string, Stack>, base: Table, table': Table, uuid: string,
                       stack: Stack, id: nat)
    requires RulesInv(table, machines, base) && uuid !in machines
    requires id < SLOTS && stack.slot == SlotAt(id) && stack.slot !in LiveSlots(machines)
    requires SameElsewhere(table, table', id) && multiset(RulesAt(table', id)) == multiset(stack.book)
    ensures RulesInv(table', machines[uuid := stack], base)
  {
    var m := machines[uuid := stack];
    LiveAfterInsert(machines, uuid, stack);
    forall u, j: nat | u in m && j < SLOTS && m[u].slot == SlotAt(j)
      ensures multiset(RulesAt(table', j)) == multiset(m[u].book)
    {
      if u == uuid {
        assert j == id by { if j != id { SlotAtInjective(j, id); } }
      } else {
        assert machines[u].slot in LiveSlots(machines);
      }
    }
  }

  lemma BooksAfterLeave(table: Table, machines: map<string, Stack>, table': Table, uuid: string, id: nat)
    requires BooksListTheirRules(table, machines) && uuid in machines && OwnSlots(machines)
    requires id < SLOTS && machines[uuid].slot == SlotAt(id) && SameElsewhere(table, table', id)
    ensures BooksListTheirRules(table', machines - {uuid})
  {
    var m := machines - {uuid};
    forall u, j: nat | u in m && j < SLOTS && m[u].slot == SlotAt(j)
      ensures multiset(RulesAt(table', j)) == multiset(m[u].book)
    {
      assert u in machines && m[u] == machines[u] && machines[u].slot != machines[uuid].slot;
      assert j != id;
      assert RulesAt(table', j) == RulesAt(table, j);
    }
  }

  lemma ClearAfterLeave(table: Table, machines: map<string, Stack>, table': Table, uuid: string, id: nat)
    requires OtherSlotsAreClear(table, machines) && uuid in machines && OwnSlots(machines)
    requires id < SLOTS && machines[uuid].slot == SlotAt(id)
    requires SameElsewhere(table, table', id) && RulesAt(table', id) == []
    ensures OtherSlotsAreClear(table', machines - {uuid})
  {
    LiveAfterRemove(machines, uuid);
    forall j: nat | j < SLOTS && SlotAt(j) !in LiveSlots(machines - {uuid})
      ensures RulesAt(table', j) == []
    {
      if j != id {
        SlotAtInjective(j, id);
        assert RulesAt(table', j) == RulesAt(table, j);
      }
    }
  }

  /** A machine leaves: the rules at its slot are gone, all others are untouched. */
  lemma RulesAfterLeave(table: Table, machines: map<string, Stack>, base: Table, table': Table, uuid: string, id: nat)
    requires RulesInv(table, machines, base) && uuid in machines && OwnSlots(machines)
    requires id < SLOTS && machines[uuid].slot == SlotAt(id)
    requires SameElsewhere(table, table', id) && RulesAt(table', id) == []
    ensures RulesInv(table', machines - {uuid}, base)
  {
    BooksAfterLeave(table, machines, table', uuid, id);
    ClearAfterLeave(table, machines, table', uuid, id);
  }

  /** A machine's book grows with the rules at its slot. */
  lemma RulesAfterGrowth(table: Table, machines: map<string, Stack>, base: Table, table': Table, uuid: string,
                         stack: Stack, id: nat)
    requires RulesInv(table, machines, base) && uuid in machines && OwnSlots(machines)
    requires id < SLOTS && machines[uuid].slot == stack.slot == SlotAt(id)
    requires SameElsewhere(table, table', id) && multiset(RulesAt(table', id)) == multiset(stack.book)
    ensures RulesInv(table', machines[uuid := stack], base)
  {
    var m := machines[uuid := stack];
    LiveAfterUpdate(machines, uuid, stack);
    assert stack.slot in LiveSlots(machines);
    forall u, j: nat | u in m && j < SLOTS && m[u].slot == SlotAt(j)
      ensures multiset(RulesAt(table', j)) == multiset(m[u].book)
    {
      if u == uuid {
        assert j == id by { if j != id { SlotAtInjective(j, id); } }
      } else {
        assert machines[u].slot == SlotAt(j) != SlotAt(id);
      }
    }
  }

  // ---- Steps keep the invariant ----

  lemma IdOf(slot: Slot, count: nat) returns (id: nat)
    requires count <= SLOTS && slot in SlotsBelow(count)
    ensures id < count && SlotAt(id) == slot
  {
    id :| 0 <= id < count && SlotAt(id) == slot;
  }

  lemma NatRulesOwned(slot: Slot, outIf: string, outcome: Outcome)
    ensures forall r :: r in AddedRules(slot, outIf, outcome) ==> r in OwnedBy(slot)
  {
    assert IsRuleOf(Args(Masquerade(outIf), slot), slot);
    assert IsRuleOf(Args(ForwardOut(outIf), slot), slot);
  }

  /** A slot that is handed out, fresh or recovered, has no rule left in the table. */
  lemma TakenSlotIsClean(start: NodeState, n: NodeState) returns (id: nat)
    requires SlotsInv(n) && KernelInv(start, n) && Taken(n.pool).Some?
    ensures id < SLOTS && SlotAt(id) == Taken(n.pool).value && RulesAt(n.table, id) == []
    ensures SlotAt(id) !in LiveSlots(n.machines)
  {
    TakenSlotIsFree(n.pool, n.machines, n.lost);
    id := IdOf(Taken(n.pool).value, Made(AfterTaking(n.pool)));
  }

  /** A provisioning that fails at any point leaves the rule table and the taps as they were. */
  lemma FailedProvisionLeavesNoTrace(start: NodeState, n: NodeState, uuid: string, outcome: Outcome)
    requires SlotsInv(n) && KernelInv(start, n) && Enabled(n, Provision(uuid, outcome)) && !outcome.Runs?
    ensures var n' := AfterProvision(n, uuid, outcome);
            n'.table == n.table && n'.taps == n.taps && n'.machines == n.machines && n'.outIf == n.outIf
  {
    if Taken(n.pool).Some? && !outcome.TapFails? {
      var slot := Taken(n.pool).value;
      var id := TakenSlotIsClean(start, n);
      NatRulesOwned(slot, n.outIf, outcome);
      SetupAndDropIsNothing(n.table, AddedRules(slot, n.outIf, outcome), id);
      AddThenRemove(n.taps, slot.tapDevName);
    }
  }

  lemma AddThenRemove(taps: set<string>, tap: string)
    requires tap !in taps
    ensures taps + {tap} - {tap} == taps
  {
  }

  lemma JoinKeepsRules(table: Table, machines: map<string, Stack>, base: Table, outIf: string, uuid: string,
                       slot: Slot, id: nat)
    requires RulesInv(table, machines, base) && uuid !in machines
    requires id < SLOTS && slot == SlotAt(id) && slot !in LiveSlots(machines) && RulesAt(table, id) == []
    ensures var added := AddedRules(slot, outIf, Runs);
            RulesInv(table + added, machines[uuid := Stack(slot, added)], base)
  {
    var added := AddedRules(slot, outIf, Runs);
    NatRulesOwned(slot, outIf, Runs);
    AddingRules(table, added, id);
    assert RulesAt(table + added, id) == added;
    RulesAfterJoin(table, machines, base, table + added, uuid, Stack(slot, added), id);
  }

  lemma JoinKeepsKernel(start: NodeState, n: NodeState, uuid: string)
    requires SlotsInv(n) && KernelInv(start, n) && Enabled(n, Provision(uuid, Runs)) && uuid !in n.machines
    requires Taken(n.pool).Some?
    ensures KernelInv(start, AfterProvision(n, uuid, Runs))
  {
    var slot := Taken(n.pool).value;
    var id := TakenSlotIsClean(start, n);
    JoinKeepsRules(n.table, n.machines, start.table, n.outIf, uuid, slot, id);
    TapsAfterJoin(n.taps, n.machines, start.taps, uuid, Stack(slot, AddedRules(slot, n.outIf, Runs)));
  }

  lemma TapsAfterJoin(taps: set<string>, machines: map<string, Stack>, base: set<string>, uuid: string, stack: Stack)
    requires TapsInv(taps, machines, base) && uuid !in machines && stack.slot.tapDevName !in taps
    ensures TapsInv(taps + {stack.slot.tapDevName}, machines[uuid := stack], base)
  {
    var m := machines[uuid := stack];
    assert m[uuid] == stack;
    assert forall u :: u in machines ==> m[u] == machines[u];
    assert LiveTaps(m) == LiveTaps(machines) + {stack.slot.tapDevName};
  }

  lemma TapsAfterLeave(taps: set<string>, machines: map<string, Stack>, base: set<string>, uuid: string)
    requires TapsInv(taps, machines, base) && uuid in machines
    requires forall u :: u in machines && u != uuid ==> machines[u].slot.tapDevName != machines[uuid].slot.tapDevName
    ensures TapsInv(taps - {machines[uuid].slot.tapDevName}, machines - {uuid}, base)
  {
    var tap := machines[uuid].slot.tapDevName;
    var m := machines - {uuid};
    assert forall u :: u in m ==> m[u] == machines[u];
    assert forall u :: u in machines && u != uuid ==> u in m && m[u].slot.tapDevName in LiveTaps(m);
    assert tap in LiveTaps(machines);
    assert LiveTaps(m) == LiveTaps(machines) - {tap};
  }

  lemma TapsAfterUpdate(machines: map<string, Stack>, uuid: string, stack: Stack)
    requires uuid in machines && stack.slot == machines[uuid].slot
    ensures LiveTaps(machines[uuid := stack]) == LiveTaps(machines)
  {
    var m := machines[uuid := stack];
    assert m.Keys == machines.Keys;
    assert forall u :: u in machines ==> m[u].slot == machines[u].slot;
  }

  /** Two live machines share no address, no gateway and no tap name. */
  lemma LiveSlotsDiffer(n: NodeState, u: string, v: string)
    requires SlotsInv(n) && u in n.machines && v in n.machines && u != v
    ensures var s, t := n.machines[u].slot, n.machines[v].slot;
            s.ipv4Addr != t.ipv4Addr && s.gateway != t.gateway && s.tapDevName != t.tapDevName
  {
    assert n.machines[u].slot in LiveSlots(n.machines) && n.machines[v].slot in LiveSlots(n.machines);
    var i := IdOf(n.machines[u].slot, Made(n.pool));
    var j := IdOf(n.machines[v].slot, Made(n.pool));
    SlotAtInjective(i, j);
  }

  lemma LeaveKeepsKernel(start: NodeState, n: NodeState, uuid: string)
    requires SlotsInv(n) && KernelInv(start, n) && uuid in n.machines
    ensures KernelInv(start, AfterDeprovision(n, uuid))
  {
    var stack := n.machines[uuid];
    assert stack.slot in LiveSlots(n.machines);
    var id := IdOf(stack.slot, Made(n.pool));
    DroppingABook(n.table, stack.book, id);
    RulesAfterLeave(n.table, n.machines, start.table, DeleteAll(n.table, stack.book), uuid, id);
    forall u | u in n.machines && u != uuid
      ensures n.machines[u].slot.tapDevName != stack.slot.tapDevName
    {
      LiveSlotsDiffer(n, u, uuid);
    }
    TapsAfterLeave(n.taps, n.machines, start.taps, uuid);
  }

  lemma PublishKeepsKernel(start: NodeState, n: NodeState, uuid: string, kind: RuleKind)
    requires SlotsInv(n) && KernelInv(start, n) && uuid in n.machines
    ensures KernelInv(start, AfterPublish(n, uuid, kind))
  {
    var stack := n.machines[uuid];
    var rule := Args(kind, stack.slot);
    var grown := stack.(book := stack.book + [rule]);
    assert stack.slot in LiveSlots(n.machines);
    var id := IdOf(stack.slot, Made(n.pool));
    assert IsRuleOf(rule, stack.slot);
    AddingOneRule(n.table, rule, AtHead(kind), id);
    AddCounts(RulesAt(n.table, id), rule, AtHead(kind));
    RulesAfterGrowth(n.table, n.machines, start.table, Add(n.table, rule, AtHead(kind)), uuid, grown, id);
    TapsAfterUpdate(n.machines, uuid, grown);
  }

  ghost predicate NodeInv(start: NodeState, n: NodeState) {
    SlotsInv(n) && KernelInv(start, n)
  }

  lemma DeprovisionKeeps(start: NodeState, n: NodeState, uuid: string)
    requires NodeInv(start, n)
    ensures NodeInv(start, AfterDeprovision(n, uuid))
  {
    if uuid in n.machines {
      DeprovisionKeepsSlots(n, uuid);
      LeaveKeepsKernel(start, n, uuid);
    } else {
      assert AfterDeprovision(n, uuid) == n;
    }
  }

  lemma DeprovisionRemoves(n: NodeState, uuid: string)
    ensures AfterDeprovision(n, uuid).machines.Keys == n.machines.Keys - {uuid}
  {
  }

  lemma {:induction false} DrainKeeps(start: NodeState, n: NodeState, order: seq<string>)
    requires NodeInv(start, n)
    ensures NodeInv(start, AfterDrain(n, order))
    decreases |order|
  {
    if order != [] {
      DeprovisionKeeps(start, n, order[0]);
      DrainKeeps(start, AfterDeprovision(n, order[0]), order[1..]);
    }
  }

  lemma {:induction false} DrainRemoves(n: NodeState, order: seq<string>)
    ensures AfterDrain(n, order).machines.Keys == n.machines.Keys - Elements(order)
    decreases |order|
  {
    if order != [] {
      DeprovisionRemoves(n, order[0]);
      DrainRemoves(AfterDeprovision(n, order[0]), order[1..]);
      ElementsOfRest(order);
    }
  }

  lemma ElementsOfRest(order: seq<string>)
    requires order != []
    ensures Elements(order) == {order[0]} + Elements(order[1..])
  {
    assert forall x :: x in order <==> x == order[0] || x in order[1..];
  }
}
