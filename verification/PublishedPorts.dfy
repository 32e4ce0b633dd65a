/** Published ports and outbound traffic of the machines over every run of the node manager. */
module PublishedPorts {
  import opened Protocol
  import opened Decimal
  import opened Slots
  import opened RuleTable
  import opened Node
  import opened NodeKernel
  import opened NodeEvents
  import opened NodeRuns
  import opened Forwarding

  // ---- A live machine's rules are in the table ----

  lemma LiveRuleIsInTable(start: NodeState, events: seq<Event>, u: string, rule: Rule)
    requires FreshHost(start) && After(start, events).Some? && u in After(start, events).value.machines
    requires rule in After(start, events).value.machines[u].book && IsRuleOf(rule, After(start, events).value.machines[u].slot)
    ensures rule in After(start, events).value.table
  {
    TableIsBasePlusLiveBooks(start, events, rule);
    var n := After(start, events).value;
    assert multiset(n.machines[u].book)[rule] > 0;
  }

  /** Every rule of the table is the host's own or one of some slot's. */
  lemma {:induction false} RuleOrigin(table: Table, rule: Rule)
    requires rule in table && !IsStackRule(rule)
    ensures rule in Without(table, StackRules())
  {
    if table[0] != rule {
      RuleOrigin(table[1..], rule);
    }
  }

  lemma HostOrStack(start: NodeState, events: seq<Event>, rule: Rule)
    requires FreshHost(start) && After(start, events).Some? && rule in After(start, events).value.table
    ensures rule in start.table || exists kind, id: nat :: id < SLOTS && rule == Args(kind, SlotAt(id))
  {
    TableIsBasePlusLiveBooks(start, events, rule);
    if IsStackRule(rule) {
      var id: nat :| id < SLOTS && rule in OwnedBy(SlotAt(id));
      var kind :| Args(kind, SlotAt(id)) == rule;
    } else {
      RuleOrigin(After(start, events).value.table, rule);
    }
  }

  /** In every reachable state a packet that enters on a published host port, claimed by no other rule, goes to
      the machine that published it and to the guest port. */
  lemma PublishedPortsReachTheirMachines(start: NodeState, events: seq<Event>, u: string, inIf: string, hostPort: nat,
                                         guestPort: nat, p: Packet)
    requires FreshHost(start) && After(start, events).Some? && u in After(start, events).value.machines
    requires Args(Dnat(inIf, hostPort, guestPort), After(start, events).value.machines[u].slot)
             in After(start, events).value.machines[u].book
    requires p.inIf == inIf && p.dst.port == hostPort
    requires forall r :: r in After(start, events).value.table && Hits(r, "PREROUTING", "nat", p) ==>
               r == Args(Dnat(inIf, hostPort, guestPort), After(start, events).value.machines[u].slot)
    ensures var n := After(start, events).value;
            Rewritten(n.table, p) == p.(dst := Endpoint(n.machines[u].slot.ipv4Addr, guestPort))
  {
    var n := After(start, events).value;
    var kind, slot := Dnat(inIf, hostPort, guestPort), n.machines[u].slot;
    assert IsRuleOf(Args(kind, slot), slot);
    LiveRuleIsInTable(start, events, u, Args(kind, slot));
    DnatMeans(inIf, hostPort, guestPort, slot, p);
    FirstHitIs(n.table, "PREROUTING", "nat", p);
  }

  /** No rule of the host's own decides about the packet in FORWARD. */
  predicate HostIgnores(start: NodeState, p: Packet) {
    forall r :: r in start.table ==> !Hits(r, "FORWARD", "filter", p)
  }

  /** In every reachable state, what a machine's rules let through is let through, unless a rule of the
      host's own decides otherwise: no machine's rules shut out another's. */
  lemma LiveRulesAccept(start: NodeState, events: seq<Event>, u: string, rule: Rule, p: Packet)
    requires FreshHost(start) && After(start, events).Some? && u in After(start, events).value.machines
    requires rule in After(start, events).value.machines[u].book && IsRuleOf(rule, After(start, events).value.machines[u].slot)
    requires Hits(rule, "FORWARD", "filter", p)
    requires HostIgnores(start, p)
    ensures Accepted(After(start, events).value.table, p)
  {
    var n := After(start, events).value;
    LiveRuleIsInTable(start, events, u, rule);
    FirstHitIs(n.table, "FORWARD", "filter", p);
    var hit := FirstHit(n.table, "FORWARD", "filter", p).value;
    HostOrStack(start, events, hit);
    var kind, id: nat :| id < SLOTS && hit == Args(kind, SlotAt(id));
    StackRuleMeans(kind, SlotAt(id), p);
  }

  // ---- Publishing ----

  /** The three commands of `setup_forwarding`, in their order. */
  function PublishCommands(u: string, inIf: string, hostPort: nat, guestPort: nat): seq<Event> {
    [Publish(u, Dnat(inIf, hostPort, guestPort)), Publish(u, ForwardReply(inIf, guestPort)),
     Publish(u, ForwardNew(inIf, guestPort))]
  }

  lemma PublishOne(start: NodeState, events: seq<Event>, n: NodeState, u: string, kind: RuleKind)
    requires After(start, events) == Some(n) && u in n.machines && (kind.Dnat? || kind.ForwardReply? || kind.ForwardNew?)
    ensures var n' := AfterPublish(n, u, kind);
            var rule := Args(kind, n.machines[u].slot);
            && After(start, events + [Publish(u, kind)]) == Some(n')
            && n'.table == Add(n.table, rule, AtHead(kind))
            && u in n'.machines && n'.machines[u] == Stack(n.machines[u].slot, n.machines[u].book + [rule])
  {
    Extend(start, events, n, Publish(u, kind));
  }

  /** Every live machine's port can be published: the three commands go through, and a packet for the host port
      that no earlier rule claims then reaches the machine at the guest port. */
  lemma PublishingReachesTheMachine(start: NodeState, events: seq<Event>, u: string, inIf: string, hostPort: nat,
                                    guestPort: nat, p: Packet)
    requires After(start, events).Some? && u in After(start, events).value.machines
    requires p.inIf == inIf && p.dst.port == hostPort
    requires FirstHit(After(start, events).value.table, "PREROUTING", "nat", p) == None
    ensures After(start, events + PublishCommands(u, inIf, hostPort, guestPort)).Some?
    ensures var n, n' := After(start, events).value, After(start, events + PublishCommands(u, inIf, hostPort, guestPort)).value;
            var slot := n.machines[u].slot;
            && u in n'.machines && n'.machines[u].slot == slot
            && n'.table == Published(n.table, slot, inIf, hostPort, guestPort)
            && Rewritten(n'.table, p) == p.(dst := Endpoint(slot.ipv4Addr, guestPort))
            && Accepted(n'.table, Rewritten(n'.table, p).(outIf := slot.tapDevName))
  {
    var n := After(start, events).value;
    var commands := PublishCommands(u, inIf, hostPort, guestPort);
    var dnat, reply, inward := Dnat(inIf, hostPort, guestPort), ForwardReply(inIf, guestPort), ForwardNew(inIf, guestPort);
    PublishOne(start, events, n, u, dnat);
    var n1 := AfterPublish(n, u, dnat);
    PublishOne(start, events + [commands[0]], n1, u, reply);
    var n2 := AfterPublish(n1, u, reply);
    PublishOne(start, events + [commands[0]] + [commands[1]], n2, u, inward);
    assert events + commands == events + [commands[0]] + [commands[1]] + [commands[2]];
    PublishedPortReachesTheMachine(n.table, n.machines[u].slot, inIf, hostPort, guestPort, p);
  }

  // ---- Outbound traffic ----

  ghost predicate BooksStartWithNat(n: NodeState) {
    forall u :: u in n.machines ==> NatRules(n.machines[u].slot, n.outIf) <= n.machines[u].book
  }

  lemma DeprovisionKeepsNat(n: NodeState, uuid: string)
    requires BooksStartWithNat(n)
    ensures BooksStartWithNat(AfterDeprovision(n, uuid)) && AfterDeprovision(n, uuid).outIf == n.outIf
  {
  }

  lemma {:induction false} DrainKeepsNat(n: NodeState, order: seq<string>)
    requires BooksStartWithNat(n)
    ensures BooksStartWithNat(AfterDrain(n, order))
    decreases |order|
  {
    if order != [] {
      DeprovisionKeepsNat(n, order[0]);
      DrainKeepsNat(AfterDeprovision(n, order[0]), order[1..]);
    }
  }

  lemma ProvisionKeepsNat(n: NodeState, uuid: string, outcome: Outcome)
    requires BooksStartWithNat(n)
    ensures BooksStartWithNat(AfterProvision(n, uuid, outcome))
  {
  }

  lemma PublishKeepsNat(n: NodeState, uuid: string, kind: RuleKind)
    requires BooksStartWithNat(n) && uuid in n.machines
    ensures BooksStartWithNat(AfterPublish(n, uuid, kind))
  {
  }

  lemma StepKeepsNat(n: NodeState, e: Event)
    requires BooksStartWithNat(n) && Enabled(n, e)
    ensures BooksStartWithNat(Apply(n, e))
  {
    match e
    case Provision(uuid, outcome) => ProvisionKeepsNat(n, uuid, outcome);
    case Publish(uuid, kind) => PublishKeepsNat(n, uuid, kind);
    case Deprovision(uuid) => DeprovisionKeepsNat(n, uuid);
    case Drain(order) => DrainKeepsNat(n, order);
    case HandlerStops(uuid, exit) =>
    case Notify(uuid) =>
    case CleanUp(uuid) => DeprovisionKeepsNat(n.(watch := n.watch[uuid := Finished(n.watch[uuid].exit)]), uuid);
  }

  lemma {:induction false} RunKeepsNat(start: NodeState, events: seq<Event>)
    requires start.machines == map[] && After(start, events).Some?
    ensures BooksStartWithNat(After(start, events).value)
  {
    if events != [] {
      RunKeepsNat(start, events[..|events| - 1]);
      StepKeepsNat(After(start, events[..|events| - 1]).value, events[|events| - 1]);
    }
  }

  /** In every reachable state each live machine can reach out: its packets to the public interface are
      accepted, unless a rule of the host's own decides otherwise, and a rule masquerades exactly the
      packets from its own address. */
  lemma MachinesCanReachOut(start: NodeState, events: seq<Event>, u: string, p: Packet)
    requires FreshHost(start) && After(start, events).Some? && u in After(start, events).value.machines
    ensures var n := After(start, events).value;
            var slot := n.machines[u].slot;
            && (p.inIf == slot.tapDevName && p.outIf == start.outIf && HostIgnores(start, p) ==> Accepted(n.table, p))
            && Args(Masquerade(start.outIf), slot) in n.table
            && (Masquerades(Args(Masquerade(start.outIf), slot), p) <==>
                  p.outIf == start.outIf && p.src.addr == slot.ipv4Addr)
  {
    RunKeepsNat(start, events);
    RunKeepsInv(start, events);
    var n := After(start, events).value;
    var slot := n.machines[u].slot;
    var masq, out := Args(Masquerade(n.outIf), slot), Args(ForwardOut(n.outIf), slot);
    assert NatRules(slot, n.outIf) == [masq, out];
    assert n.machines[u].book[0] == masq && n.machines[u].book[1] == out;
    assert IsRuleOf(masq, slot) && IsRuleOf(out, slot);
    LiveRuleIsInTable(start, events, u, masq);
    MasqueradeMeans(n.outIf, slot, p);
    ForwardOutMeans(n.outIf, slot, p);
    if Hits(out, "FORWARD", "filter", p) && HostIgnores(start, p) {
      LiveRulesAccept(start, events, u, out, p);
    }
  }

  // ---- After the drop ----

  lemma {:induction false} NotIn(table: Table, gone: iset<Rule>, rule: Rule)
    requires rule in Without(table, gone)
    ensures rule !in gone && rule in table
  {
    if table != [] && (table[0] in gone || rule != table[0]) {
      NotIn(table[1..], gone, rule);
    }
  }

  /** An interface that is no slot's tap device. */
  ghost predicate Outside(name: string) {
    forall id: nat :: id < SLOTS ==> SlotAt(id).tapDevName != name
  }

  lemma OtherSlotsRule(slot: Slot, other: Slot, kind: RuleKind, p: Packet)
    requires slot.ipv4Addr != other.ipv4Addr && slot.tapDevName != other.tapDevName
    requires p.inIf != other.tapDevName && p.outIf != other.tapDevName
    ensures var rule := Args(kind, other);
            && (Destination(rule).Some? ==> Destination(rule).value.addr != slot.ipv4Addr)
            && !Hits(rule, "FORWARD", "filter", p)
  {
    StackRuleMeans(kind, other, p);
  }

  /** Once a machine is deprovisioned, nothing the node manager added sends packets to its address, or lets them
      through between its tap device and an outside interface: a rule that still does is the host's own. */
  lemma DroppedMachineIsUnreachable(start: NodeState, events: seq<Event>, u: string, rule: Rule, p: Packet)
    requires FreshHost(start) && After(start, events).Some? && u in After(start, events).value.machines
    requires rule in AfterDeprovision(After(start, events).value, u).table
    requires var tap := After(start, events).value.machines[u].slot.tapDevName;
             (p.inIf == tap && Outside(p.outIf)) || (p.outIf == tap && Outside(p.inIf))
    ensures var slot := After(start, events).value.machines[u].slot;
            rule !in start.table ==>
              && (Destination(rule).Some? ==> Destination(rule).value.addr != slot.ipv4Addr)
              && !Hits(rule, "FORWARD", "filter", p)
  {
    var n := After(start, events).value;
    var slot := n.machines[u].slot;
    DroppingOneStackSparesTheOthers(start, events, u);
    NotIn(n.table, OwnedBy(slot), rule);
    if rule !in start.table {
      var j := SlotId(start, events, u);
      HostOrStack(start, events, rule);
      var kind, id: nat :| id < SLOTS && rule == Args(kind, SlotAt(id));
      assert IsRuleOf(Args(kind, SlotAt(id)), SlotAt(id));
      assert rule in OwnedBy(SlotAt(id));
      assert id != j;
      SlotAtInjective(id, j);
      OtherSlotsRule(slot, SlotAt(id), kind, p);
    }
  }

  lemma SlotId(start: NodeState, events: seq<Event>, u: string) returns (j: nat)
    requires FreshHost(start) && After(start, events).Some? && u in After(start, events).value.machines
    ensures j < SLOTS && SlotAt(j) == After(start, events).value.machines[u].slot
  {
    RunKeepsInv(start, events);
    var n := After(start, events).value;
    assert n.machines[u].slot in LiveSlots(n.machines);
    j := IdOf(n.machines[u].slot, Made(n.pool));
  }
}
