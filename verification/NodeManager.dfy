/** The node manager's operations as they update its state (nodemanager/src/manager.rs), proved
    against the steps of `Node`. Each runs under the `machines` write lock. */
module NodeManager {
  import opened Protocol
  import opened Slots
  import opened RuleTable
  import opened Node

  class InnerNodeManager {
    const outIf: string
    const subscribed: bool
    const network: NetworkManager
    const kernel: Kernel
    var machines: map<string, Stack>
    var watch: map<string, Watch>
    var notices: seq<Notice>
    ghost var lost: set<Slot>
    ghost var reclaimed: seq<string>

    ghost function Value(): NodeState
      reads this, network, kernel
    {
      NodeState(outIf, subscribed, network.Value(), kernel.taps, kernel.table, machines, lost, reclaimed, watch, notices)
    }

    constructor (outIf: string, subscribed: bool, kernel: Kernel)
      ensures Value() == Start(outIf, subscribed, kernel.taps, kernel.table)
      ensures this.kernel == kernel && fresh(network)
    {
      this.outIf, this.subscribed, this.kernel := outIf, subscribed, kernel;
      network := new NetworkManager();
      machines, watch, notices := map[], map[], [];
      lost, reclaimed := {}, [];
    }

    /** `_provision`. Which step fails, if any, is up to the system. */
    method Provision(uuid: string, outcome: Outcome) returns (ok: bool)
      modifies this, network, kernel
      ensures Value() == AfterProvision(old(Value()), uuid, outcome)
      ensures ok <==> outcome.Runs? && old(Taken(network.Value())).Some?
    {
      var slot := network.NextSlot();
      if slot.None? {
        return false;
      }
      if outcome.TapFails? {
        lost := lost + {slot.value};
        return false;
      }
      kernel.taps := kernel.taps + {slot.value.tapDevName};
      var book := new IpRuleBook();
      ok := SetUp(book, slot.value, outcome);
      if ok {
        machines := machines[uuid := Stack(slot.value, book.deleteArgs)];
        watch := watch[uuid := Waiting];
      } else {
        kernel.taps := kernel.taps - {slot.value.tapDevName};
        book.Drop(kernel);
        lost := lost + {slot.value};
      }
    }

    /** Everything between the tap device and the running machine. */
    method SetUp(book: IpRuleBook, slot: Slot, outcome: Outcome) returns (ok: bool)
      requires !outcome.TapFails? && book.deleteArgs == []
      modifies book, kernel`table
      ensures ok == outcome.Runs?
      ensures book.deleteArgs == AddedRules(slot, outIf, outcome)
      ensures kernel.table == old(kernel.table) + AddedRules(slot, outIf, outcome)
    {
      if outcome.AddressFails? || outcome.UpFails? {
        return false;
      }
      ok := book.AddIpRule(kernel, Masquerade(outIf), slot, outcome != NatFails(false));
      if !ok {
        return;
      }
      ok := book.AddIpRule(kernel, ForwardOut(outIf), slot, outcome != NatFails(true));
      if !ok {
        return;
      }
      assert kernel.table == old(kernel.table) + NatRules(slot, outIf);
      ok := !outcome.VmFails?;
    }

    /** `_deprovision` with the stack's `reclaim`: the tap and the rules go before the slot returns. */
    method Deprovision(uuid: string)
      modifies this, network, kernel
      ensures Value() == AfterDeprovision(old(Value()), uuid)
    {
      if uuid in machines {
        var stack := machines[uuid];
        machines := machines - {uuid};
        kernel.taps := kernel.taps - {stack.slot.tapDevName};
        kernel.DeleteRules(stack.book);
        network.Reclaim(stack.slot);
        reclaimed := reclaimed + [uuid];
      }
    }

    /** One command of `setup_forwarding` for a live machine. */
    method Publish(uuid: string, kind: RuleKind, succeeds: bool) returns (ok: bool)
      modifies this, kernel
      ensures ok <==> uuid in old(machines) && succeeds
      ensures Value() == if ok then AfterPublish(old(Value()), uuid, kind) else old(Value())
    {
      ok := uuid in machines && succeeds;
      if ok {
        var stack := machines[uuid];
        var rule := Args(kind, stack.slot);
        kernel.table := Add(kernel.table, rule, AtHead(kind));
        machines := machines[uuid := stack.(book := stack.book + [rule])];
      }
    }

    /** `handle_machine_exit` of a machine whose handler has stopped: a subscriber is sent its exit, then
        the machine is deprovisioned. */
    method HandleMachineExit(uuid: string, exit: MachineExit)
      requires uuid in watch && watch[uuid] == Fired(exit)
      modifies this, network, kernel
      ensures notices == old(notices) + if subscribed then [Notice(uuid, exit)] else []
      ensures watch == old(watch)[uuid := Finished(exit)] && uuid !in machines
      ensures var notified := Apply(old(Value()), Notify(uuid));
              Enabled(notified, CleanUp(uuid)) && Value() == Apply(notified, CleanUp(uuid))
    {
      if subscribed {
        notices := notices + [Notice(uuid, exit)];
      }
      watch := watch[uuid := Notified(exit)];
      watch := watch[uuid := Finished(exit)];
      Deprovision(uuid);
    }

    /** `_drain`: every machine, in whatever order the map yields them. */
    method DrainAll() returns (ghost order: seq<string>)
      modifies this, network, kernel
      ensures Enabled(old(Value()), Drain(order)) && Value() == AfterDrain(old(Value()), order)
      ensures machines == map[]
    {
      ghost var start := Value();
      order := [];
      while machines.Keys != {}
        invariant Value() == AfterDrain(start, order)
        invariant Drained(start.machines.Keys, machines.Keys, order)
        decreases machines.Keys
      {
        var uuid :| uuid in machines.Keys;
        AfterDrainSnoc(start, order, uuid);
        DrainedNext(start.machines.Keys, machines.Keys, order, uuid);
        Deprovision(uuid);
        assert machines.Keys == old(machines.Keys) - Elements(order) - {uuid};
        order := order + [uuid];
      }
    }

    ghost predicate Drained(all: set<string>, left: set<string>, order: seq<string>) {
      left == all - Elements(order) && Elements(order) <= all && |order| + |left| == |all|
    }

    lemma DrainedNext(all: set<string>, left: set<string>, order: seq<string>, uuid: string)
      requires Drained(all, left, order) && uuid in left
      ensures Drained(all, left - {uuid}, order + [uuid])
    {
      AppendElement(order, uuid);
    }

    lemma {:induction false} AfterDrainSnoc(n: NodeState, order: seq<string>, uuid: string)
      ensures AfterDrain(n, order + [uuid]) == AfterDeprovision(AfterDrain(n, order), uuid)
      decreases |order|
    {
      if order == [] {
        assert [] + [uuid] == [uuid];
      } else {
        assert (order + [uuid])[0] == order[0] && (order + [uuid])[1..] == order[1..] + [uuid];
        AfterDrainSnoc(AfterDeprovision(n, order[0]), order[1..], uuid);
      }
    }
  }
}
