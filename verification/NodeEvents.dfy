/** What the events of a run say about its machines: exit notifications, cleanup, provisioning
    (nodemanager/src/manager.rs). */
module NodeEvents {
  import opened Protocol
  import opened Slots
  import opened RuleTable
  import opened Node

  // ---- One event ----

  predicate Provisions(n: NodeState, e: Event) {
    e.Provision? && e.outcome.Runs? && Taken(n.pool).Some?
  }

  /** The cleanup tasks after an event. */
  function WatchAfter(n: NodeState, e: Event): map<string, Watch>
    requires Enabled(n, e)
  {
    match e
    case Provision(uuid, _) => if Provisions(n, e) then n.watch[uuid := Waiting] else n.watch
    case HandlerStops(uuid, exit) => n.watch[uuid := Fired(exit)]
    case Notify(uuid) => n.watch[uuid := Notified(n.watch[uuid].exit)]
    case CleanUp(uuid) => n.watch[uuid := Finished(n.watch[uuid].exit)]
    case _ => n.watch
  }

  lemma {:induction false} DrainKeepsReports(n: NodeState, order: seq<string>)
    ensures var n' := AfterDrain(n, order);
            n'.watch == n.watch && n'.notices == n.notices && n'.subscribed == n.subscribed && n'.lost == n.lost
    decreases |order|
  {
    if order != [] {
      DrainKeepsReports(AfterDeprovision(n, order[0]), order[1..]);
    }
  }

  lemma ProvisionReports(n: NodeState, uuid: string, outcome: Outcome)
    ensures var n' := AfterProvision(n, uuid, outcome);
            && n'.watch == (if outcome.Runs? && Taken(n.pool).Some? then n.watch[uuid := Waiting] else n.watch)
            && n'.notices == n.notices && n'.subscribed == n.subscribed && n.lost <= n'.lost
  {
  }

  lemma DeprovisionReports(n: NodeState, uuid: string)
    ensures var n' := AfterDeprovision(n, uuid);
            n'.watch == n.watch && n'.notices == n.notices && n'.subscribed == n.subscribed && n'.lost == n.lost
  {
  }

  lemma ReportsAfter(n: NodeState, e: Event)
    requires Enabled(n, e)
    ensures var n' := Apply(n, e);
            && n'.watch == WatchAfter(n, e) && n'.subscribed == n.subscribed
            && n'.notices == n.notices + (if e.Notify? && n.subscribed then [Notice(e.uuid, n.watch[e.uuid].exit)] else [])
            && n.lost <= n'.lost
  {
    match e
    case Provision(uuid, outcome) => ProvisionReports(n, uuid, outcome);
    case Publish(uuid, kind) =>
    case Deprovision(uuid) => DeprovisionReports(n, uuid);
    case Drain(order) => DrainKeepsReports(n, order);
    case HandlerStops(uuid, exit) =>
    case Notify(uuid) =>
    case CleanUp(uuid) => DeprovisionReports(n.(watch := n.watch[uuid := Finished(n.watch[uuid].exit)]), uuid);
  }

  lemma Extend(start: NodeState, events: seq<Event>, n: NodeState, e: Event)
    requires After(start, events) == Some(n) && Enabled(n, e)
    ensures After(start, events + [e]) == Some(Apply(n, e))
  {
    assert (events + [e])[..|events|] == events;
  }

  // ---- Exit notifications ----

  /** What the cleanup task of `u` tells about the events so far. */
  ghost predicate Tells(watch: map<string, Watch>, events: seq<Event>, u: string) {
    && (forall x :: HandlerStops(u, x) in events <==> u in watch && !watch[u].Waiting? && watch[u].exit == x)
    && (Notify(u) in events <==> u in watch && (watch[u].Notified? || watch[u].Finished?))
    && (CleanUp(u) in events <==> u in watch && watch[u].Finished?)
  }

  lemma TellsNext(n: NodeState, events: seq<Event>, e: Event, u: string)
    requires Enabled(n, e) && Tells(n.watch, events, u)
    ensures Tells(WatchAfter(n, e), events + [e], u)
  {
  }

  lemma {:induction false} WatchTellsTheEvents(start: NodeState, events: seq<Event>, u: string)
    requires start.watch == map[] && After(start, events).Some?
    ensures Tells(After(start, events).value.watch, events, u)
  {
    if events != [] {
      var n := |events| - 1;
      var before := After(start, events[..n]).value;
      WatchTellsTheEvents(start, events[..n], u);
      ReportsAfter(before, events[n]);
      TellsNext(before, events[..n], events[n], u);
      assert events == events[..n] + [events[n]];
    }
  }

  ghost predicate Reported(n: NodeState) {
    && (!n.subscribed ==> n.notices == [])
    && (forall i, j :: 0 <= i < j < |n.notices| ==> n.notices[i].uuid != n.notices[j].uuid)
    && (n.subscribed ==>
          forall u, x :: Notice(u, x) in n.notices <==> u in n.watch && (n.watch[u] == Notified(x) || n.watch[u] == Finished(x)))
  }

  lemma NotifyIsReported(n: NodeState, uuid: string)
    requires Reported(n) && Enabled(n, Notify(uuid))
    ensures Reported(Apply(n, Notify(uuid)))
  {
    var exit := n.watch[uuid].exit;
    forall i | 0 <= i < |n.notices| ensures n.notices[i].uuid != uuid {
      var notice := n.notices[i];
      assert Notice(notice.uuid, notice.exit) in n.notices;
    }
  }

  lemma StepKeepsReported(n: NodeState, e: Event)
    requires Reported(n) && Enabled(n, e)
    ensures Reported(Apply(n, e))
  {
    if e.Notify? {
      NotifyIsReported(n, e.uuid);
    } else {
      ReportsAfter(n, e);
      assert n.notices + [] == n.notices;
    }
  }

  lemma {:induction false} RunKeepsReported(start: NodeState, events: seq<Event>)
    requires start.watch == map[] && start.notices == [] && After(start, events).Some?
    ensures Reported(After(start, events).value) && After(start, events).value.subscribed == start.subscribed
  {
    if events != [] {
      var n := |events| - 1;
      RunKeepsReported(start, events[..n]);
      StepKeepsReported(After(start, events[..n]).value, events[n]);
      ReportsAfter(After(start, events[..n]).value, events[n]);
    }
  }

  /** Over every run of a manager with a subscription, the exits reported are exactly those of the machines
      whose cleanup task got that far, each once and with the exit with which that machine's handler
      stopped. Without a subscription none is reported. */
  lemma ReportedExitsAreTheHandlers(start: NodeState, events: seq<Event>, u: string, x: MachineExit)
    requires start.watch == map[] && start.notices == [] && After(start, events).Some?
    ensures var n := After(start, events).value;
            && (start.subscribed ==>
                  (Notice(u, x) in n.notices <==> Notify(u) in events && HandlerStops(u, x) in events))
            && (!start.subscribed ==> n.notices == [])
            && (forall i, j :: 0 <= i < j < |n.notices| ==> n.notices[i].uuid != n.notices[j].uuid)
  {
    RunKeepsReported(start, events);
    WatchTellsTheEvents(start, events, u);
  }

  // ---- Every machine can be cleaned up ----

  lemma AfterCleanUp(n: NodeState, uuid: string)
    requires Enabled(n, CleanUp(uuid))
    ensures var n' := Apply(n, CleanUp(uuid));
            uuid !in n'.machines && n'.watch == n.watch[uuid := Finished(n.watch[uuid].exit)]
  {
  }

  predicate IsCleanup(e: Event, u: string, x: MachineExit) {
    e == HandlerStops(u, x) || e == Notify(u) || e == CleanUp(u)
  }

  /** The next step of a cleanup that is not done. */
  lemma NextCleanup(n: NodeState, u: string, x: MachineExit) returns (e: Event)
    requires u in n.watch && !n.watch[u].Finished?
    ensures IsCleanup(e, u, x) && Enabled(n, e)
    ensures u in Apply(n, e).watch && ToDo(Apply(n, e).watch[u]) < ToDo(n.watch[u])
    ensures Apply(n, e).watch[u].Finished? ==> u !in Apply(n, e).machines
  {
    match n.watch[u]
    case Waiting => e := HandlerStops(u, x);
    case Fired(_) => e := Notify(u);
    case Notified(_) =>
      e := CleanUp(u);
      AfterCleanUp(n, u);
  }

  function ToDo(w: Watch): nat {
    match w
    case Waiting => 3
    case Fired(_) => 2
    case Notified(_) => 1
    case Finished(_) => 0
  }

  /** Going on from a state. */
  function RunFrom(n: NodeState, more: seq<Event>): Option<NodeState> {
    if more == [] then Some(n)
    else
      var k := |more| - 1;
      Then(RunFrom(n, more[..k]), more[k])
  }

  function Then(before: Option<NodeState>, e: Event): Option<NodeState> {
    if before.Some? && Enabled(before.value, e) then Some(Apply(before.value, e)) else None
  }

  lemma {:induction false} RunFromContinues(start: NodeState, events: seq<Event>, n: NodeState, more: seq<Event>)
    requires After(start, events) == Some(n)
    ensures After(start, events + more) == RunFrom(n, more)
  {
    if more == [] {
      assert events + more == events;
    } else {
      var k := |more| - 1;
      RunFromContinues(start, events, n, more[..k]);
      assert (events + more)[..|events + more| - 1] == events + more[..k];
    }
  }

  lemma RunFromSnoc(n: NodeState, more: seq<Event>, e: Event)
    ensures RunFrom(n, more + [e]) == Then(RunFrom(n, more), e)
  {
    assert (more + [e])[..|more|] == more;
  }

  lemma {:induction false} RunFromCons(n: NodeState, n': NodeState, e: Event, later: seq<Event>)
    requires Then(Some(n), e) == Some(n')
    ensures RunFrom(n, [e] + later) == RunFrom(n', later)
  {
    if later == [] {
      RunFromSnoc(n, [], e);
      assert [e] + later == [] + [e];
    } else {
      var k := |later| - 1;
      RunFromCons(n, n', e, later[..k]);
      RunFromSnoc(n, [e] + later[..k], later[k]);
      RunFromSnoc(n', later[..k], later[k]);
      assert later == later[..k] + [later[k]];
      assert [e] + later == [e] + later[..k] + [later[k]];
    }
  }

  lemma {:induction false} CleanupFrom(n: NodeState, u: string, x: MachineExit) returns (more: seq<Event>, n': NodeState)
    requires u in n.watch && !n.watch[u].Finished?
    ensures forall e :: e in more ==> IsCleanup(e, u, x)
    ensures RunFrom(n, more) == Some(n') && u in n'.watch && n'.watch[u].Finished? && u !in n'.machines
    decreases ToDo(n.watch[u])
  {
    var e := NextCleanup(n, u, x);
    var later: seq<Event> := [];
    var next := Apply(n, e);
    n' := next;
    if !next.watch[u].Finished? {
      later, n' := CleanupFrom(next, u, x);
    }
    more := [e] + later;
    RunFromCons(n, next, e, later);
  }

  /** From every reachable state each machine whose cleanup is not done can be brought to its end, by its
      handler's stop with any exit, the notification and the deprovisioning alone; then it is not live. */
  lemma CleanupCanAlwaysFinish(start: NodeState, events: seq<Event>, u: string, x: MachineExit)
      returns (more: seq<Event>, n: NodeState)
    requires After(start, events).Some? && u in After(start, events).value.watch
    requires !After(start, events).value.watch[u].Finished?
    ensures forall e :: e in more ==> IsCleanup(e, u, x)
    ensures After(start, events + more) == Some(n) && u in n.watch && n.watch[u].Finished? && u !in n.machines
  {
    more, n := CleanupFrom(After(start, events).value, u, x);
    RunFromContinues(start, events, After(start, events).value, more);
  }

  // ---- Slots that are lost ----

  lemma LostGrows(start: NodeState, events: seq<Event>)
    requires events != [] && After(start, events).Some?
    ensures After(start, events[..|events| - 1]).Some?
    ensures After(start, events[..|events| - 1]).value.lost <= After(start, events).value.lost
  {
    ReportsAfter(After(start, events[..|events| - 1]).value, events[|events| - 1]);
  }

  lemma {:induction false} LostStaysLost(start: NodeState, events: seq<Event>, more: seq<Event>)
    requires After(start, events).Some? && After(start, events + more).Some?
    ensures After(start, events).value.lost <= After(start, events + more).value.lost
  {
    if more == [] {
      assert events + more == events;
    } else {
      LostGrows(start, events + more);
      assert (events + more)[..|events + more| - 1] == events + more[..|more| - 1];
      LostStaysLost(start, events, more[..|more| - 1]);
    }
  }
}
