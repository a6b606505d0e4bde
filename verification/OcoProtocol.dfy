// One sweeper running over the whole ledger while every other writer keeps going: housekeeping cancels the
// siblings of filled legs, then armed triggers are evaluated against one mark per symbol
// (app/services/conditional_orders.py).
module OcoProtocol {
  import opened Money
  import opened Orders
  import opened Positions
  import opened OrderService
  import opened ConditionalOrders
  import opened Ledger
  import opened LedgerTheorems
  import Broker = BrokerFillSync

  // A group with a filled leg, as the housekeeping query collected it.
  datatype FilledGroup = FilledGroup(group: int, filledId: int)

  // An armed order as the trigger query read it; the row may be stale by the time it is used.
  datatype Candidate = Candidate(id: int, snapshot: OrderRow)

  datatype Phase =
    | Idle
    | Housekeeping(groups: seq<FilledGroup>)
    | Triggering(todo: seq<Candidate>, marks: map<int, Option<real>>)

  datatype System = System(w: World, phase: Phase)

  datatype SysEvent =
    | Other(e: Event)                                        // any step of another writer
    | BeginSweep(groups: seq<FilledGroup>)                   // the filled-groups query
    | CancelNext                                             // _cancel_oco_siblings for one group
    | ReadArmed(todo: seq<Candidate>)                        // the armed-orders query
    | TriggerNext(quote: Option<real>, result: AdapterResult) // one turn of the trigger loop
    | EndSweep
    | Abort                                                  // the pass raised; the next one starts afresh

  predicate IsOco(o: OrderRow) { o.terms.orderType == OrderType.OCO && o.oco.Some? }

  predicate FilledLeg(w: World, id: int)
  {
    id in w.orders && IsOco(w.orders[id]) && w.orders[id].status == Some(FILLED)
  }

  predicate LegOf(w: World, group: int, id: int)
  {
    id in w.orders && IsOco(w.orders[id]) && w.orders[id].oco.value.group == group
  }

  /** The dict the housekeeping query builds: every group with a filled leg, each with one such leg. */
  ghost predicate FilledGroupsOf(w: World, groups: seq<FilledGroup>)
  {
    && (forall i :: 0 <= i < |groups| ==>
      FilledLeg(w, groups[i].filledId) && w.orders[groups[i].filledId].oco.value.group == groups[i].group)
    && (forall id :: FilledLeg(w, id) ==> Listed(groups, w.orders[id].oco.value.group))
  }

  ghost predicate Listed(groups: seq<FilledGroup>, group: int)
  {
    exists i :: 0 <= i < |groups| && groups[i].group == group
  }

  /** The rows of the armed-orders query: every armed order, as it stands. */
  ghost predicate ReadFrom(w: World, todo: seq<Candidate>)
  {
    && (forall i :: 0 <= i < |todo| ==>
          todo[i].id in w.orders && todo[i].snapshot == w.orders[todo[i].id] && Armed(todo[i].snapshot))
    && (forall i, j :: 0 <= i < j < |todo| ==> todo[i].id != todo[j].id)
    && (forall id :: id in w.orders && Armed(w.orders[id]) ==> Awaits(todo, id))
  }

  ghost predicate Awaits(todo: seq<Candidate>, id: int)
  {
    exists i :: 0 <= i < |todo| && todo[i].id == id
  }

  /** The mark used for a symbol in this sweep: cached, or fetched now. */
  function MarkFor(marks: map<int, Option<real>>, symbol: int, quote: Option<real>): Option<real>
  {
    if symbol in marks then marks[symbol] else quote
  }

  ghost predicate Enabled(s: System, ev: SysEvent)
  {
    match ev
    case Other(e) => Admissible(e) && !e.Trigger? && !e.CancelSiblings?
    case BeginSweep(groups) => s.phase.Idle? && FilledGroupsOf(s.w, groups)
    case CancelNext => s.phase.Housekeeping? && s.phase.groups != []
    case ReadArmed(todo) => s.phase.Housekeeping? && s.phase.groups == [] && ReadFrom(s.w, todo)
    case TriggerNext(_, r) => s.phase.Triggering? && s.phase.todo != [] && Sane(r)
    case EndSweep => s.phase.Triggering? && s.phase.todo == []
    case Abort => !s.phase.Idle?
  }

  function Step(s: System, ev: SysEvent): (s': System)
    requires Sound(s.w) && Enabled(s, ev)
    ensures Sound(s'.w)
  {
    match ev
    case Other(e) => s.(w := Apply(s.w, e))
    case BeginSweep(groups) => s.(phase := Housekeeping(groups))
    case CancelNext =>
      var g := s.phase.groups[0];
      System(Apply(s.w, CancelSiblings(g.group, g.filledId)), Housekeeping(s.phase.groups[1..]))
    case ReadArmed(todo) => s.(phase := Triggering(todo, map[]))
    case TriggerNext(quote, r) =>
      var c := s.phase.todo[0];
      var symbol := c.snapshot.terms.key.symbol;
      var mark := MarkFor(s.phase.marks, symbol, quote);
      var next := Triggering(s.phase.todo[1..], s.phase.marks[symbol := mark]);
      if mark.Some? && IsTriggered(c.snapshot, mark.value)
      then System(Apply(s.w, Trigger(c.id, mark.value, r)), next)
      else s.(phase := next)
    case EndSweep => s.(phase := Idle)
    case Abort => s.(phase := Idle)
  }

  ghost predicate Takes(s: System, ev: SysEvent, s': System)
  {
    Sound(s.w) && Enabled(s, ev) && s' == Step(s, ev)
  }

  /** A run from the empty ledger: every event enabled where it happens. */
  ghost predicate IsRun(states: seq<System>, events: seq<SysEvent>)
  {
    && |states| == |events| + 1 && states[0] == System(EMPTY_WORLD, Idle)
    && forall i :: 0 <= i < |events| ==> Takes(states[i], events[i], states[i + 1])
  }

  ghost predicate LegTurn(s: System, ev: SysEvent, group: int)
  {
    ev.TriggerNext? && s.phase.Triggering? && s.phase.todo != [] && LegOf(s.w, group, s.phase.todo[0].id)
  }

  /** On the turn of a leg of the group its adapter fills or raises: the leg is not left resting at the broker. */
  ghost predicate FillsOrRaises(s: System, ev: SysEvent, group: int)
  {
    LegTurn(s, ev, group) && ev.result.Returned? ==> ev.result.filled
  }

  /** The limit of a submitted pair is on the profitable side of its stop. */
  predicate ProperSides(e: Event)
    requires e.SubmitOco?
  {
    if e.terms.side == BUY then e.limit < e.stop else e.limit > e.stop
  }

  /** The event creates a group: both of its ids are new. */
  predicate Opens(s: System, ev: SysEvent, group: int)
  {
    ev.Other? && ev.e.SubmitOco? && ev.e.id == group && ev.e.id !in s.w.orders && ev.e.stopId !in s.w.orders
  }

  // ---------------------------------------------------------------- what every step keeps of the OCO rows

  /** Every OCO row is a leg of a group named by an existing order. */
  ghost predicate Linked(w: World)
  {
    forall id :: id in w.orders && w.orders[id].terms.orderType == OrderType.OCO ==>
      IsOco(w.orders[id]) && w.orders[id].oco.value.group in w.orders
  }

  /** New legs come in pairs, in the group of a fresh order id. */
  lemma NewLegs(w: World, e: Event, id: int)
    requires Sound(w) && Admissible(e) && id !in w.orders && id in Apply(w, e).orders
    requires Apply(w, e).orders[id].terms.orderType == OrderType.OCO
    ensures IsOco(Apply(w, e).orders[id]) && e.SubmitOco? && e.id !in w.orders && e.stopId !in w.orders
    ensures Apply(w, e).orders[id].oco.value.group == e.id && e.id in Apply(w, e).orders
  {
    CreatedRows(w, e, id);
  }

  lemma LinkedStays(w: World, e: Event)
    requires Sound(w) && Linked(w) && Admissible(e)
    ensures Linked(Apply(w, e))
  {
    hide Apply;
    var w' := Apply(w, e);
    forall id | id in w'.orders && w'.orders[id].terms.orderType == OrderType.OCO
      ensures IsOco(w'.orders[id]) && w'.orders[id].oco.value.group in w'.orders
    {
      if id in w.orders {
        StepEvolves(w, e, id);
        StepEvolves(w, e, w.orders[id].oco.value.group);
      } else {
        NewLegs(w, e, id);
      }
    }
  }

  /** The ledger step that a system step takes, if it takes one. */
  function LedgerEvent(s: System, ev: SysEvent): Option<Event>
    requires Sound(s.w) && Enabled(s, ev)
  {
    match ev
    case Other(e) => Some(e)
    case CancelNext => Some(CancelSiblings(s.phase.groups[0].group, s.phase.groups[0].filledId))
    case TriggerNext(quote, r) =>
      var c := s.phase.todo[0];
      var mark := MarkFor(s.phase.marks, c.snapshot.terms.key.symbol, quote);
      if mark.Some? && IsTriggered(c.snapshot, mark.value) then Some(Trigger(c.id, mark.value, r)) else None
    case _ => None
  }

  lemma StepIsLedgerStep(s: System, ev: SysEvent)
    requires Sound(s.w) && Enabled(s, ev)
    ensures var e := LedgerEvent(s, ev);
            && (e.Some? ==> Admissible(e.value) && Step(s, ev).w == Apply(s.w, e.value))
            && (e.None? ==> Step(s, ev).w == s.w)
  {
    hide Apply, IsTriggered;
  }

  lemma {:induction false} RunLinked(states: seq<System>, events: seq<SysEvent>, k: nat)
    requires IsRun(states, events) && k <= |events|
    ensures Sound(states[k].w) && Linked(states[k].w)
  {
    hide Apply, Step, Enabled, Sound, LedgerEvent;
    if k == 0 {
      EmptySound();
    } else {
      RunLinked(states, events, k - 1);
      assert Takes(states[k - 1], events[k - 1], states[k]);
      StepIsLedgerStep(states[k - 1], events[k - 1]);
      var e := LedgerEvent(states[k - 1], events[k - 1]);
      if e.Some? { LinkedStays(states[k - 1].w, e.value); }
    }
  }

  lemma EmptySound()
    ensures Sound(EMPTY_WORLD)
  {}

  // ---------------------------------------------------------------- what a cancel reaches

  /** A cancel reaches its own order and the legs of its own group: every other row stays as it is. */
  lemma CancelReachesItsGroup(w: World, e: Event, id: int)
    requires Sound(w) && Admissible(e) && id in w.orders && (e.UserCancel? || e.CancelSiblings?)
    requires e.UserCancel? ==>
      id != e.id && (e.id in w.orders && w.orders[e.id].oco.Some? ==> !LegOf(w, w.orders[e.id].oco.value.group, id))
    requires e.CancelSiblings? ==> !LegOf(w, e.group, id)
    ensures id in Apply(w, e).orders && Apply(w, e).orders[id] == w.orders[id]
  {}

  /** Cancelling a leg that is not terminal ends it, and leaves no leg of its group open. */
  lemma CancelEndsGroup(w: World, id: int)
    requires Sound(w) && id in w.orders && IsOco(w.orders[id]) && !Terminal(w.orders[id].status.value)
    ensures var w', group := Apply(w, UserCancel(id)), w.orders[id].oco.value.group;
            && id in w'.orders && w'.orders[id].status == Some(CANCELLED)
            && forall x :: LegOf(w', group, x) ==> !Open(w'.orders[x].status)
  {
    hide Apply;
    assert RowSound(w.orders[id]);
    CancelIsCancelling(w, id);
  }

  lemma CancelIsCancelling(w: World, id: int)
    requires Sound(w) && id in w.orders
    ensures Apply(w, UserCancel(id)) == Cancelling(w, id)
  {}

  // ---------------------------------------------------------------- housekeeping, for every adapter and every pair

  /** No leg of the group is open. */
  ghost predicate Cleared(w: World, group: int)
  {
    forall id :: LegOf(w, group, id) ==> !Open(w.orders[id].status)
  }

  ghost predicate Waits(s: System, i: int, group: int)
    requires s.phase.Housekeeping?
  {
    0 <= i < |s.phase.groups| && s.phase.groups[i].group == group && FilledLeg(s.w, s.phase.groups[i].filledId)
  }

  /** The group still waits for its turn, with the leg it was queried for still FILLED. */
  ghost predicate Queued(s: System, group: int)
  {
    && s.phase.Housekeeping?
    && exists i :: Waits(s, i, group)
  }

  lemma NotOpenIsTerminal(o: OrderRow)
    requires RowSound(o) && !Open(o.status)
    ensures o.status.Some? && Terminal(o.status.value)
  {}

  /** Once cleared, a group stays cleared: its legs are final, and a new pair opens a group of its own. */
  lemma ClearedStays(w: World, e: Event, group: int)
    requires Sound(w) && Linked(w) && Admissible(e) && group in w.orders && Cleared(w, group)
    ensures Cleared(Apply(w, e), group)
  {
    hide Apply, RowSound;
    var w' := Apply(w, e);
    forall id | LegOf(w', group, id) ensures !Open(w'.orders[id].status) {
      if id in w.orders {
        StepEvolves(w, e, id);
        assert LegOf(w, group, id);
        NotOpenIsTerminal(w.orders[id]);
      } else {
        NewLegs(w, e, id);
      }
    }
  }

  lemma FilledStays(w: World, e: Event, id: int)
    requires Sound(w) && Admissible(e) && FilledLeg(w, id)
    ensures FilledLeg(Apply(w, e), id)
  {
    hide Apply;
    StepEvolves(w, e, id);
  }

  /** Cancelling the siblings of a filled leg clears the group. */
  lemma CancellingClears(w: World, group: int, filledId: int)
    requires Sound(w) && FilledLeg(w, filledId)
    ensures Cleared(Apply(w, CancelSiblings(group, filledId)), group)
  {
    var w' := Apply(w, CancelSiblings(group, filledId));
    forall id | LegOf(w', group, id) ensures !Open(w'.orders[id].status) {
      if id != filledId { assert w'.orders[id] == CancelLeg(w.orders[id], group); }
    }
  }

  /** A housekeeping step keeps every group queued or cleared. */
  lemma QueueStays(s: System, ev: SysEvent, group: int)
    requires Sound(s.w) && Linked(s.w) && Enabled(s, ev) && group in s.w.orders
    requires s.phase.Housekeeping? && Step(s, ev).phase.Housekeeping?
    requires Queued(s, group) || Cleared(s.w, group)
    ensures Queued(Step(s, ev), group) || Cleared(Step(s, ev).w, group)
  {
    hide Apply, Cleared, FilledLeg, Sound;
    var e := if ev.CancelNext? then CancelSiblings(s.phase.groups[0].group, s.phase.groups[0].filledId) else ev.e;
    if Cleared(s.w, group) {
      ClearedStays(s.w, e, group);
    } else {
      var i :| Waits(s, i, group);
      FilledStays(s.w, e, s.phase.groups[i].filledId);
      if ev.CancelNext? {
        if i == 0 {
          CancellingClears(s.w, group, s.phase.groups[0].filledId);
        } else {
          assert s.phase.groups[1..][i - 1] == s.phase.groups[i];
          assert Waits(Step(s, ev), i - 1, group);
        }
      } else {
        assert Waits(Step(s, ev), i, group);
      }
    }
  }

  /** The states from a housekeeping query on, as long as the sweep is in that phase. */
  ghost predicate SweptSince(states: seq<System>, events: seq<SysEvent>, j: nat, k: nat)
    requires |states| == |events| + 1
  {
    && j < k <= |events| && events[j].BeginSweep?
    && forall i :: j < i <= k ==> states[i].phase.Housekeeping?
  }

  /** The query queues every group that has a filled leg. */
  lemma QueriedWaits(s: System, ev: SysEvent, group: int, a: int)
    requires Sound(s.w) && Enabled(s, ev) && ev.BeginSweep? && FilledLeg(s.w, a) && LegOf(s.w, group, a)
    ensures Queued(Step(s, ev), group)
  {
    hide Sound;
    assert Listed(ev.groups, group);
    var i :| 0 <= i < |ev.groups| && ev.groups[i].group == group;
    assert Waits(Step(s, ev), i, group);
  }

  lemma {:induction false} SweepKeepsQueue(states: seq<System>, events: seq<SysEvent>, j: nat, k: nat, a: int)
    requires IsRun(states, events) && SweptSince(states, events, j, k) && FilledLeg(states[j].w, a)
    ensures var group := states[j].w.orders[a].oco.value.group;
            group in states[k].w.orders && (Queued(states[k], group) || Cleared(states[k].w, group))
  {
    hide Apply, Step, Enabled, Sound, Queued, Cleared;
    var group := states[j].w.orders[a].oco.value.group;
    RunLinked(states, events, k - 1);
    assert Takes(states[k - 1], events[k - 1], states[k]);
    if j == k - 1 {
      QueriedWaits(states[j], events[j], group, a);
      GroupStays(states[j], events[j], group);
    } else {
      SweepKeepsQueue(states, events, j, k - 1, a);
      GroupStays(states[k - 1], events[k - 1], group);
      QueueStays(states[k - 1], events[k - 1], group);
    }
  }

  lemma GroupStays(s: System, ev: SysEvent, id: int)
    requires Sound(s.w) && Enabled(s, ev) && id in s.w.orders
    ensures id in Step(s, ev).w.orders
  {
    hide Apply, Step, Enabled, Sound, LedgerEvent;
    StepIsLedgerStep(s, ev);
    var e := LedgerEvent(s, ev);
    if e.Some? { StepEvolves(s.w, e.value, id); }
  }

  /**
   * A completed housekeeping phase leaves no open leg in any group that had a filled leg when the phase began,
   * in every run: whether that leg filled at once or while resting at the broker, and whatever the sides of the
   * pair.
   */
  lemma CompletedHousekeeping(states: seq<System>, events: seq<SysEvent>, j: nat, k: nat, a: int, b: int)
    requires IsRun(states, events) && SweptSince(states, events, j, k) && states[k].phase.groups == []
    requires FilledLeg(states[j].w, a) && LegOf(states[k].w, states[j].w.orders[a].oco.value.group, b)
    ensures !Open(states[k].w.orders[b].status)
  {
    SweepKeepsQueue(states, events, j, k, a);
  }

  /** Every housekeeping state belongs to such a phase. */
  lemma {:induction false} SweepBegan(states: seq<System>, events: seq<SysEvent>, k: nat) returns (j: nat)
    requires IsRun(states, events) && k <= |events| && states[k].phase.Housekeeping?
    ensures SweptSince(states, events, j, k)
  {
    hide Apply;
    assert k > 0 && Takes(states[k - 1], events[k - 1], states[k]);
    if events[k - 1].BeginSweep? {
      j := k - 1;
    } else {
      j := SweepBegan(states, events, k - 1);
    }
  }

  // ---------------------------------------------------------------- the exclusion invariant of one group

  /** While open, the group's legs are armed: none rests at the broker. */
  ghost predicate LegsArmed(w: World, group: int)
  {
    forall id :: LegOf(w, group, id) && Open(w.orders[id].status) ==> Armed(w.orders[id])
  }

  /** Two legs of the group are a proper pair. */
  ghost predicate ProperGroup(w: World, group: int)
  {
    forall a, b :: LegOf(w, group, a) && LegOf(w, group, b) && a != b ==>
      ProperPair(w.orders[a], w.orders[b]) || ProperPair(w.orders[b], w.orders[a])
  }

  ghost predicate Paired(w: World, group: int) { Linked(w) && LegsArmed(w, group) && ProperGroup(w, group) }

  /** A filled leg of the group beside a sibling that is still armed. */
  ghost predicate Conflict(w: World, group: int, a: int, b: int)
  {
    FilledIn(w, group, a) && LegOf(w, group, b) && Armed(w.orders[b])
  }

  predicate FilledIn(w: World, group: int, id: int) { LegOf(w, group, id) && w.orders[id].status == Some(FILLED) }

  ghost predicate Exclusive(w: World, group: int)
  {
    forall a, b :: FilledIn(w, group, a) && FilledIn(w, group, b) ==> a == b
  }

  /** What the sweeper's phase guarantees about the group's conflicts that are left. */
  ghost predicate Guarded(s: System, group: int)
  {
    match s.phase
    case Idle => true
    case Housekeeping(groups) =>
      && (forall i :: 0 <= i < |groups| ==> FilledLeg(s.w, groups[i].filledId))
      && (forall a, b :: Conflict(s.w, group, a, b) ==> Listed(groups, group))
    case Triggering(todo, marks) =>
      && (forall i :: 0 <= i < |todo| ==>
        todo[i].id in s.w.orders && SameTrigger(todo[i].snapshot, s.w.orders[todo[i].id]))
      && (forall a, b :: Conflict(s.w, group, a, b) ==> Untriggerable(marks, s.w.orders[b]))
  }

  /** The sweep's cached mark for the row's symbol does not trigger it. */
  ghost predicate Untriggerable(marks: map<int, Option<real>>, o: OrderRow)
  {
    var symbol := o.terms.key.symbol;
    symbol in marks && marks[symbol].Some? && !IsTriggered(o, marks[symbol].value)
  }

  ghost predicate Invariant(s: System, group: int)
  {
    Sound(s.w) && Paired(s.w, group) && Exclusive(s.w, group) && Guarded(s, group)
  }

  // ---------------------------------------------------------------- steps that only cancel

  /** Every leg of the group either stays as it is or is cancelled without having filled; no OCO row appears. */
  ghost predicate OnlyCancels(w: World, w': World, group: int)
  {
    && (forall id :: id in w.orders ==> id in w'.orders && SameTrigger(w.orders[id], w'.orders[id]))
    && (forall id :: LegOf(w, group, id) ==> Unfired(w.orders[id], w'.orders[id]))
    && (forall id :: FilledLeg(w, id) ==> FilledLeg(w', id))
    && (forall id :: id in w'.orders && id !in w.orders ==> w'.orders[id].terms.orderType != OrderType.OCO)
  }

  ghost predicate Unfired(o: OrderRow, o': OrderRow)
  {
    o' == o || (o.status != Some(FILLED) && o'.status == Some(CANCELLED))
  }

  lemma ProperPairStable(l: OrderRow, s: OrderRow, l': OrderRow, s': OrderRow)
    requires ProperPair(l, s) && SameTrigger(l, l') && SameTrigger(s, s')
    ensures ProperPair(l', s')
  {}

  /** The pairing depends on what triggers look at, so it survives any step that keeps that. */
  lemma PairedStable(w: World, w': World, group: int)
    requires Paired(w, group)
    requires forall id :: id in w.orders ==> id in w'.orders && SameTrigger(w.orders[id], w'.orders[id])
    requires forall id :: id in w'.orders && id !in w.orders ==> w'.orders[id].terms.orderType != OrderType.OCO
    requires forall id :: LegOf(w, group, id) && Open(w'.orders[id].status) ==> w'.orders[id] == w.orders[id]
    ensures Paired(w', group)
  {
    forall a | LegOf(w', group, a) ensures LegOf(w, group, a) {}
    forall a, b | LegOf(w', group, a) && LegOf(w', group, b) && a != b
      ensures ProperPair(w'.orders[a], w'.orders[b]) || ProperPair(w'.orders[b], w'.orders[a])
    {
      if ProperPair(w.orders[a], w.orders[b]) {
        ProperPairStable(w.orders[a], w.orders[b], w'.orders[a], w'.orders[b]);
      } else {
        ProperPairStable(w.orders[b], w.orders[a], w'.orders[b], w'.orders[a]);
      }
    }
  }

  lemma OnlyCancelsConflicts(w: World, w': World, group: int)
    requires OnlyCancels(w, w', group)
    ensures forall id :: LegOf(w', group, id) <==> LegOf(w, group, id)
    ensures forall id :: FilledIn(w', group, id) ==> FilledIn(w, group, id)
    ensures forall a, b :: Conflict(w', group, a, b) ==> Conflict(w, group, a, b) && w'.orders[b] == w.orders[b]
  {
    forall id | LegOf(w', group, id) ensures LegOf(w, group, id) {}
  }

  lemma OnlyCancelsKeeps(s: System, w': World, group: int)
    requires Invariant(s, group) && Sound(w') && OnlyCancels(s.w, w', group)
    ensures Invariant(s.(w := w'), group)
  {
    hide Paired;
    PairedStillCancels(s.w, w', group);
    OnlyCancelsConflicts(s.w, w', group);
    assert forall x :: FilledIn(w', group, x) ==> FilledIn(s.w, group, x);
  }

  lemma PairedStillCancels(w: World, w': World, group: int)
    requires Paired(w, group) && OnlyCancels(w, w', group)
    ensures Paired(w', group)
  {
    PairedStable(w, w', group);
  }

  /** A leg that was not fired stays as it is or is cancelled unfilled. */
  lemma LegUnfired(o: OrderRow, o': OrderRow)
    requires RowSound(o) && (Open(o.status) ==> Armed(o)) && Evolves(o, o', false)
    ensures Unfired(o, o')
  {}

  lemma OtherOnlyCancels(w: World, e: Event, group: int)
    requires Sound(w) && LegsArmed(w, group) && Admissible(e) && !e.Trigger? && !e.SubmitOco?
    ensures OnlyCancels(w, Apply(w, e), group)
  {
    hide Apply;
    var w' := Apply(w, e);
    forall id | id in w.orders
      ensures id in w'.orders && SameTrigger(w.orders[id], w'.orders[id])
      ensures LegOf(w, group, id) ==> Unfired(w.orders[id], w'.orders[id])
    {
      StepEvolves(w, e, id);
      if LegOf(w, group, id) { LegUnfired(w.orders[id], w'.orders[id]); }
    }
    forall id | FilledLeg(w, id) ensures FilledLeg(w', id) { FilledStays(w, e, id); }
    forall id | id in w'.orders && id !in w.orders ensures w'.orders[id].terms.orderType != OrderType.OCO {
      CreatedRows(w, e, id);
    }
  }

  // ---------------------------------------------------------------- a new pair

  /** Rows kept, and two armed legs added in a group of their own. */
  ghost predicate AddsPair(w: World, w': World, id: int, stopId: int)
  {
    && id !in w.orders && stopId !in w.orders && id != stopId
    && w'.orders.Keys == w.orders.Keys + {id, stopId}
    && (forall x :: x in w.orders ==> w'.orders[x] == w.orders[x])
    && LegOf(w', id, id) && LegOf(w', id, stopId) && Armed(w'.orders[id]) && Armed(w'.orders[stopId])
  }

  lemma SubmitAddsPair(w: World, e: Event)
    requires Sound(w) && Admissible(e) && e.SubmitOco? && e.id !in w.orders && e.stopId !in w.orders
    ensures AddsPair(w, Apply(w, e), e.id, e.stopId)
    ensures ProperSides(e) <==> ProperPair(Apply(w, e).orders[e.id], Apply(w, e).orders[e.stopId])
  {}

  /** The group named by a new id has no legs yet. */
  lemma FreshGroup(w: World, group: int)
    requires Linked(w) && group !in w.orders
    ensures forall id :: !LegOf(w, group, id)
  {}

  lemma PairAdded(w: World, w': World, id: int, stopId: int, group: int)
    requires Paired(w, group) && AddsPair(w, w', id, stopId)
    requires group == id ==> ProperPair(w'.orders[id], w'.orders[stopId])
    ensures Paired(w', group)
    ensures forall x :: LegOf(w', group, x) ==> LegOf(w, group, x) || w'.orders[x].status != Some(FILLED)
    ensures forall a, b :: Conflict(w', group, a, b) ==> Conflict(w, group, a, b) && w'.orders[b] == w.orders[b]
  {
    FreshGroup(w, id);
    forall a, b | LegOf(w', group, a) && LegOf(w', group, b) && a != b
      ensures ProperPair(w'.orders[a], w'.orders[b]) || ProperPair(w'.orders[b], w'.orders[a])
    {
      if group != id { assert LegOf(w, group, a) && LegOf(w, group, b); }
    }
  }

  lemma NewPairKeeps(s: System, e: Event, group: int)
    requires Invariant(s, group) && Admissible(e) && e.SubmitOco? && (Opens(s, Other(e), group) ==> ProperSides(e))
    ensures Invariant(s.(w := Apply(s.w, e)), group)
  {
    if e.id !in s.w.orders && e.stopId !in s.w.orders {
      SubmitAddsPair(s.w, e);
      AddedKeeps(s, Apply(s.w, e), e.id, e.stopId, group);
    }
  }

  lemma AddedKeeps(s: System, w': World, id: int, stopId: int, group: int)
    requires Invariant(s, group) && Sound(w') && AddsPair(s.w, w', id, stopId)
    requires group == id ==> ProperPair(w'.orders[id], w'.orders[stopId])
    ensures Invariant(s.(w := w'), group)
  {
    PairAdded(s.w, w', id, stopId, group);
    assert forall x :: FilledIn(w', group, x) ==> FilledIn(s.w, group, x);
  }

  // ---------------------------------------------------------------- housekeeping and firing

  lemma ListedInTail(groups: seq<FilledGroup>, group: int)
    requires groups != [] && Listed(groups, group) && groups[0].group != group
    ensures Listed(groups[1..], group)
  {
    var i :| 0 <= i < |groups| && groups[i].group == group;
    assert groups[1..][i - 1].group == group;
  }

  lemma ClearedHousekeeping(s: System, w': World, group: int)
    requires Invariant(s, group) && s.phase.Housekeeping? && s.phase.groups != [] && Sound(w')
    requires OnlyCancels(s.w, w', group)
    requires s.phase.groups[0].group == group ==> Cleared(w', group)
    ensures Invariant(System(w', Housekeeping(s.phase.groups[1..])), group)
  {
    hide Paired, Exclusive, IsTriggered;
    OnlyCancelsKeeps(s, w', group);
    var tail := s.phase.groups[1..];
    forall a, b | Conflict(w', group, a, b) ensures Listed(tail, group) {
      ListedInTail(s.phase.groups, group);
    }
    assert forall i :: 0 <= i < |tail| ==> tail[i] == s.phase.groups[i + 1];
  }

  lemma CancelNextKeeps(s: System, group: int)
    requires Invariant(s, group) && Enabled(s, CancelNext)
    ensures Invariant(Step(s, CancelNext), group)
  {
    hide Apply, Exclusive;
    var g := s.phase.groups[0];
    OtherOnlyCancels(s.w, CancelSiblings(g.group, g.filledId), group);
    CancellingClears(s.w, g.group, g.filledId);
    ClearedHousekeeping(s, Apply(s.w, CancelSiblings(g.group, g.filledId)), group);
  }

  /** With nothing left to visit, the group has no conflict. */
  lemma HousekeepingLeavesNoConflict(s: System, group: int, a: int, b: int)
    requires Invariant(s, group) && s.phase.Housekeeping? && s.phase.groups == []
    ensures !Conflict(s.w, group, a, b)
  {
    assert !Listed(s.phase.groups, group);
  }

  /** Firing an armed order changes its own row, and nothing its trigger looks at. */
  ghost predicate FiresOnly(w: World, w': World, id: int)
  {
    && id in w.orders && w'.orders.Keys == w.orders.Keys
    && SameTrigger(w.orders[id], w'.orders[id])
    && forall x :: x in w.orders && x != id ==> w'.orders[x] == w.orders[x]
  }

  lemma FiredRow(w: World, id: int, mark: real, r: AdapterResult)
    requires Sound(w) && Sane(r) && id in w.orders && Armed(w.orders[id])
    ensures var w' := Apply(w, Trigger(id, mark, r));
            && FiresOnly(w, w', id)
            && (Open(w'.orders[id].status) <==> r.Returned? && !r.filled)
            && (w'.orders[id].status == Some(FILLED) <==> r.Returned? && r.filled)
            && (r.Returned? ==> w'.orders[id].brokerId == r.brokerId)
  {
    var o := AtMark(w.orders[id], mark);
    FireEvolves(w.orders[id], mark, r);
    SubmittedOutcome(o, r, if r.Returned? then Or(r.filledQty, o.terms.qty) else 0.0,
                     if r.Returned? then Or(r.avgPrice, Or(o.price, 0.0)) else 0.0);
  }

  lemma FiringPaired(w: World, w': World, id: int, group: int)
    requires Paired(w, group) && FiresOnly(w, w', id) && (LegOf(w, group, id) ==> !Open(w'.orders[id].status))
    ensures Paired(w', group)
  {
    forall x | x in w.orders ensures SameTrigger(w.orders[x], w'.orders[x]) {}
    PairedStable(w, w', group);
  }

  /** Firing an order outside the group changes none of its legs. */
  lemma FiringElsewhere(w: World, w': World, id: int, group: int)
    requires FiresOnly(w, w', id) && !LegOf(w, group, id)
    ensures forall x :: LegOf(w', group, x) <==> LegOf(w, group, x)
    ensures forall x :: LegOf(w, group, x) ==> w'.orders[x] == w.orders[x]
    ensures Exclusive(w, group) ==> Exclusive(w', group)
    ensures forall a, b :: Conflict(w', group, a, b) ==> Conflict(w, group, a, b) && w'.orders[b] == w.orders[b]
  {
    assert forall x :: FilledIn(w', group, x) ==> FilledIn(w, group, x);
  }

  /** One fired leg with no filled sibling: exclusion holds, and the siblings cannot trigger at the same mark. */
  lemma FiringConflicts(w: World, w': World, id: int, mark: real, marks: map<int, Option<real>>, group: int)
    requires Paired(w, group) && Exclusive(w, group) && FiresOnly(w, w', id) && !Open(w'.orders[id].status)
    requires LegOf(w, group, id)
    requires Armed(w.orders[id])
    requires IsTriggered(w.orders[id], mark)
    requires w.orders[id].terms.key.symbol in marks && marks[w.orders[id].terms.key.symbol] == Some(mark)
    requires forall a, b :: Conflict(w, group, a, b) ==> Untriggerable(marks, w.orders[b])
    ensures Exclusive(w', group) && (forall a, b :: Conflict(w', group, a, b) ==> Untriggerable(marks, w'.orders[b]))
  {
    hide IsTriggered;
    forall a | LegOf(w, group, a) ensures w.orders[a].status != Some(FILLED) { assert !Conflict(w, group, a, id); }
    forall a, b | Conflict(w', group, a, b) ensures Untriggerable(marks, w'.orders[b]) {
      SiblingUntriggered(w, id, b, mark, group);
    }
  }

  lemma SiblingUntriggered(w: World, id: int, b: int, mark: real, group: int)
    requires ProperGroup(w, group) && LegOf(w, group, id) && LegOf(w, group, b) && id != b
    requires IsTriggered(w.orders[id], mark)
    ensures !IsTriggered(w.orders[b], mark) && w.orders[b].terms == w.orders[id].terms
  {
    if ProperPair(w.orders[id], w.orders[b]) {
      OneMarkOneLeg(w.orders[id], w.orders[b], mark);
    } else {
      OneMarkOneLeg(w.orders[b], w.orders[id], mark);
    }
  }

  /** The trigger turn of an order that is still armed and is triggered at the sweep's mark. */
  lemma FireTurnKeeps(s: System, id: int, mark: real, r: AdapterResult, group: int)
    requires Invariant(s, group) && s.phase.Triggering? && Sane(r)
    requires LegOf(s.w, group, id) && r.Returned? ==> r.filled
    requires id in s.w.orders && Armed(s.w.orders[id]) && IsTriggered(s.w.orders[id], mark)
    requires var symbol := s.w.orders[id].terms.key.symbol;
      symbol in s.phase.marks && s.phase.marks[symbol] == Some(mark)
    ensures Invariant(s.(w := Apply(s.w, Trigger(id, mark, r))), group)
  {
    hide Apply, IsTriggered, Paired;
    var w' := Apply(s.w, Trigger(id, mark, r));
    FiredRow(s.w, id, mark, r);
    FiringPaired(s.w, w', id, group);
    CandidatesStable(s.w, Trigger(id, mark, r), s.phase.todo);
    if LegOf(s.w, group, id) {
      FiringConflicts(s.w, w', id, mark, s.phase.marks, group);
    } else {
      FiringElsewhere(s.w, w', id, group);
    }
  }

  /** Caching a mark and dropping the head of the list keeps what the phase guarantees. */
  lemma CachingKeeps(s: System, mark: Option<real>, group: int)
    requires Guarded(s, group) && s.phase.Triggering? && s.phase.todo != []
    requires var symbol := s.phase.todo[0].snapshot.terms.key.symbol; symbol in s.phase.marks ==>
      s.phase.marks[symbol] == mark
    ensures Guarded(Cached(s, mark), group)
  {
    hide IsTriggered;
    var tail := s.phase.todo[1..];
    assert forall i :: 0 <= i < |tail| ==> tail[i] == s.phase.todo[i + 1];
  }

  function Cached(s: System, mark: Option<real>): System
    requires s.phase.Triggering? && s.phase.todo != []
  {
    s.(phase := Triggering(s.phase.todo[1..], s.phase.marks[s.phase.todo[0].snapshot.terms.key.symbol := mark]))
  }

  /** Nothing is fired that is no longer armed when its lock is taken. */
  lemma UnarmedTrigger(w: World, id: int, mark: real, r: AdapterResult)
    requires Sound(w) && Sane(r)
    ensures id !in w.orders || !Armed(w.orders[id]) ==> Apply(w, Trigger(id, mark, r)) == w
  {}

  lemma TriggerNextKeeps(s: System, quote: Option<real>, r: AdapterResult, group: int)
    requires Invariant(s, group) && Enabled(s, TriggerNext(quote, r)) && FillsOrRaises(s, TriggerNext(quote, r), group)
    ensures Invariant(Step(s, TriggerNext(quote, r)), group)
  {
    hide Apply, Paired, Exclusive, IsTriggered;
    var c := s.phase.todo[0];
    var mark := MarkFor(s.phase.marks, c.snapshot.terms.key.symbol, quote);
    CachingKeeps(s, mark, group);
    var o := s.w.orders[c.id];
    if mark.Some? && IsTriggered(c.snapshot, mark.value) && Armed(o) {
      TriggerIsStable(c.snapshot, o, mark.value);
      FireTurnKeeps(Cached(s, mark), c.id, mark.value, r, group);
    } else if mark.Some? {
      UnarmedTrigger(s.w, c.id, mark.value, r);
    }
  }

  lemma CandidatesStable(w: World, e: Event, todo: seq<Candidate>)
    requires Sound(w) && Admissible(e)
    requires forall i :: 0 <= i < |todo| ==>
      todo[i].id in w.orders && SameTrigger(todo[i].snapshot, w.orders[todo[i].id])
    ensures forall i :: 0 <= i < |todo| ==>
      todo[i].id in Apply(w, e).orders && SameTrigger(todo[i].snapshot, Apply(w, e).orders[todo[i].id])
  {
    hide Apply;
    forall i | 0 <= i < |todo|
      ensures todo[i].id in Apply(w, e).orders && SameTrigger(todo[i].snapshot, Apply(w, e).orders[todo[i].id])
    {
      StepEvolves(w, e, todo[i].id);
    }
  }

  /** The group opens, if at all, on its proper sides, and the adapters of its own legs fill or raise. */
  ghost predicate ProperStep(s: System, ev: SysEvent, group: int)
  {
    FillsOrRaises(s, ev, group) && (Opens(s, ev, group) ==> ProperSides(ev.e))
  }

  /** Every step keeps a group's exclusion, if the group opens on proper sides and its own legs fill or raise. */
  lemma StepKeeps(s: System, ev: SysEvent, group: int)
    requires Invariant(s, group) && Enabled(s, ev)
    ensures ProperStep(s, ev, group) ==> Invariant(Step(s, ev), group)
  {
    hide Apply, Exclusive, IsTriggered;
    if !ProperStep(s, ev, group) { return; }
    match ev
    case Other(e) =>
      if e.SubmitOco? {
        NewPairKeeps(s, e, group);
      } else {
        OtherOnlyCancels(s.w, e, group);
        OnlyCancelsKeeps(s, Apply(s.w, e), group);
      }
    case CancelNext => CancelNextKeeps(s, group);
    case TriggerNext(quote, r) => TriggerNextKeeps(s, quote, r, group);
    case ReadArmed(todo) =>
      forall a, b ensures !Conflict(s.w, group, a, b) { HousekeepingLeavesNoConflict(s, group, a, b); }
    case _ =>
  }

  // ---------------------------------------------------------------- one cancels other, over whole runs

  /** A run that opens the group, if at all, on its proper sides, and whose adapters fill or raise on its legs. */
  ghost predicate ProperRun(states: seq<System>, events: seq<SysEvent>, group: int)
  {
    IsRun(states, events) && forall i :: 0 <= i < |events| ==> ProperStep(states[i], events[i], group)
  }

  lemma {:induction false} RunKeeps(states: seq<System>, events: seq<SysEvent>, k: nat, group: int)
    requires ProperRun(states, events, group) && k <= |events|
    ensures Invariant(states[k], group)
  {
    hide Apply, Step, Enabled, ProperStep;
    if k > 0 {
      RunKeeps(states, events, k - 1, group);
      assert Takes(states[k - 1], events[k - 1], states[k]);
      StepKeeps(states[k - 1], events[k - 1], group);
    }
  }

  /**
   * One cancels other, over whole runs: with one sweeper, two legs of a group opened on its proper sides whose
   * adapters fill or raise are never both FILLED, whatever the marks, the user cancels, the other orders' adapters
   * and sides, and every other writer do.
   */
  lemma AtMostOneLegFills(states: seq<System>, events: seq<SysEvent>, k: nat, group: int, a: int, b: int)
    requires ProperRun(states, events, group) && k <= |events|
    requires FilledIn(states[k].w, group, a) && FilledIn(states[k].w, group, b)
    ensures a == b
  {
    RunKeeps(states, events, k, group);
  }

  /** With adapters that fill or raise, a completed housekeeping leaves no open sibling of any filled leg. */
  lemma HousekeepingOfProperGroup(states: seq<System>, events: seq<SysEvent>, k: nat, group: int, a: int, b: int)
    requires ProperRun(states, events, group) && k <= |events|
    requires states[k].phase.Housekeeping? && states[k].phase.groups == []
    requires FilledIn(states[k].w, group, a) && LegOf(states[k].w, group, b)
    ensures !Open(states[k].w.orders[b].status)
  {
    RunKeeps(states, events, k, group);
    HousekeepingLeavesNoConflict(states[k], group, a, b);
  }

  /** A run that opens the pair of `e` and ends with both of its legs FILLED; unless it may, no leg of it rests. */
  ghost predicate FillsBothLegs(states: seq<System>, events: seq<SysEvent>, e: Event, mayRest: bool)
    requires e.SubmitOco?
  {
    && IsRun(states, events)
    && (mayRest || forall i :: 0 <= i < |events| ==> FillsOrRaises(states[i], events[i], e.id))
    && (exists i :: 0 <= i < |events| && events[i] == Other(e) && Opens(states[i], events[i], e.id))
    && FilledIn(states[|events|].w, e.id, e.id) && FilledIn(states[|events|].w, e.id, e.stopId)
  }

  /** A group is opened at most once: afterwards its id is taken. */
  lemma {:induction false} IdStaysTaken(states: seq<System>, events: seq<SysEvent>, i: nat, k: nat, id: int)
    requires IsRun(states, events) && i <= k <= |events| && id in states[i].w.orders
    ensures id in states[k].w.orders
  {
    hide Apply, Step, Enabled;
    if i < k {
      IdStaysTaken(states, events, i, k - 1, id);
      assert Takes(states[k - 1], events[k - 1], states[k]);
      GroupStays(states[k - 1], events[k - 1], id);
    }
  }

  lemma OpensOnce(states: seq<System>, events: seq<SysEvent>, i: nat, k: nat, group: int)
    requires IsRun(states, events) && i < |events| && k < |events|
    requires Opens(states[i], events[i], group) && Opens(states[k], events[k], group)
    ensures i == k
  {
    OpeningTakes(states, events, i, group);
    OpeningTakes(states, events, k, group);
    if i < k { IdStaysTaken(states, events, i + 1, k, group); }
    if k < i { IdStaysTaken(states, events, k + 1, i, group); }
  }

  lemma OpeningTakes(states: seq<System>, events: seq<SysEvent>, i: nat, group: int)
    requires IsRun(states, events) && i < |events| && Opens(states[i], events[i], group)
    ensures group !in states[i].w.orders && group in states[i + 1].w.orders
  {
    hide Apply;
    assert Takes(states[i], events[i], states[i + 1]);
    SubmitAddsPair(states[i].w, events[i].e);
  }

  lemma TurnFires(s: System, quote: Option<real>, mark: real, r: AdapterResult)
    requires Sound(s.w) && Sane(r) && s.phase.Triggering? && s.phase.todo != []
    requires MarkFor(s.phase.marks, s.phase.todo[0].snapshot.terms.key.symbol, quote) == Some(mark)
    ensures Enabled(s, TriggerNext(quote, r))
    ensures IsTriggered(s.phase.todo[0].snapshot, mark) ==>
      Step(s, TriggerNext(quote, r)) == Cached(s, Some(mark)).(w := Apply(s.w, Trigger(s.phase.todo[0].id, mark, r)))
    ensures !IsTriggered(s.phase.todo[0].snapshot, mark) ==> Step(s, TriggerNext(quote, r)) == Cached(s, Some(mark))
  {
    hide Apply, IsTriggered;
  }

  // ---------------------------------------------------------------- the runs that fill both legs

  // An adapter that fills, and one that leaves the order resting under an id.
  const FILLING := Returned(Some(0), true, None, None)
  const RESTING := Returned(Some(7), false, None, None)

  /** The pair as submitted to the empty ledger: two armed orders of one symbol, the only ones. */
  ghost predicate OnlyPair(w: World, e: Event)
    requires e.SubmitOco?
  {
    && Sound(w) && e.id != e.stopId && w.orders.Keys == {e.id, e.stopId}
    && LegOf(w, e.id, e.id) && LegOf(w, e.id, e.stopId) && w.orders[e.id].terms == w.orders[e.stopId].terms
    && IsTriggered(w.orders[e.id], e.limit) && IsTriggered(w.orders[e.stopId], e.stop)
    && (IsTriggered(w.orders[e.stopId], e.limit) <==> !ProperSides(e))
  }

  lemma PairSubmitted(e: Event)
    requires Admissible(e) && e.SubmitOco?
    ensures var w := Apply(EMPTY_WORLD, e);
            && OnlyPair(w, e) && Armed(w.orders[e.id]) && Armed(w.orders[e.stopId])
            && Opens(System(EMPTY_WORLD, Idle), Other(e), e.id)
  {}

  lemma NothingFilled(w: World, e: Event)
    requires e.SubmitOco? && OnlyPair(w, e) && !FilledLeg(w, e.id) && !FilledLeg(w, e.stopId)
    ensures FilledGroupsOf(w, [])
  {
    assert forall id :: id in w.orders ==> id == e.id || id == e.stopId;
  }

  lemma PairRead(w: World, e: Event)
    requires e.SubmitOco? && OnlyPair(w, e) && Armed(w.orders[e.id]) && Armed(w.orders[e.stopId])
    ensures ReadFrom(w, [Candidate(e.id, w.orders[e.id]), Candidate(e.stopId, w.orders[e.stopId])])
  {
    var todo := [Candidate(e.id, w.orders[e.id]), Candidate(e.stopId, w.orders[e.stopId])];
    assert todo[0].id == e.id && todo[1].id == e.stopId;
    forall id | id in w.orders && Armed(w.orders[id]) ensures Awaits(todo, id) {}
  }

  lemma StopRead(w: World, e: Event)
    requires e.SubmitOco? && OnlyPair(w, e) && !Armed(w.orders[e.id]) && Armed(w.orders[e.stopId])
    ensures ReadFrom(w, [Candidate(e.stopId, w.orders[e.stopId])])
  {
    var todo := [Candidate(e.stopId, w.orders[e.stopId])];
    assert todo[0].id == e.stopId;
    forall id | id in w.orders && Armed(w.orders[id]) ensures Awaits(todo, id) {}
  }

  /** Firing one of the pair leaves the pair in place. */
  lemma PairFired(w: World, e: Event, id: int, mark: real, r: AdapterResult)
    requires Admissible(e) && e.SubmitOco? && OnlyPair(w, e) && id in w.orders && Armed(w.orders[id]) && Sane(r)
    ensures var w' := Apply(w, Trigger(id, mark, r));
            && OnlyPair(w', e) && FiresOnly(w, w', id)
            && (w'.orders[id].status == Some(FILLED) <==> r.Returned? && r.filled)
            && (Open(w'.orders[id].status) <==> r.Returned? && !r.filled)
            && (r.Returned? ==> w'.orders[id].brokerId == r.brokerId)
  {
    hide Apply, IsTriggered, Sound;
    FiredRow(w, id, mark, r);
    var w' := Apply(w, Trigger(id, mark, r));
    TriggerIsStable(w.orders[e.id], w'.orders[e.id], e.limit);
    TriggerIsStable(w.orders[e.stopId], w'.orders[e.stopId], e.stop);
    TriggerIsStable(w.orders[e.stopId], w'.orders[e.stopId], e.limit);
  }

  /** Submit a pair on the wrong sides and sweep once: both legs fill at the limit. */
  lemma ImproperRun(e: Event, mayRest: bool) returns (states: seq<System>, events: seq<SysEvent>)
    requires Admissible(e) && e.SubmitOco? && !ProperSides(e)
    ensures FillsBothLegs(states, events, e, mayRest)
  {
    hide Apply, IsTriggered, Armed, Sound, FilledGroupsOf, ReadFrom, ProperSides;
    EmptySound();
    PairSubmitted(e);
    var s0, submitted := System(EMPTY_WORLD, Idle), Apply(EMPTY_WORLD, e);
    ArmedUnfilled(submitted.orders[e.id]);
    ArmedUnfilled(submitted.orders[e.stopId]);
    NothingFilled(submitted, e);
    PairRead(submitted, e);
    var todo := [Candidate(e.id, submitted.orders[e.id]), Candidate(e.stopId, submitted.orders[e.stopId])];
    var turn := TriggerNext(Some(e.limit), FILLING);
    var s1 := Step(s0, Other(e));
    var s2 := Step(s1, BeginSweep([]));
    var s3 := Step(s2, ReadArmed(todo));
    TurnFires(s3, Some(e.limit), e.limit, FILLING);
    PairFired(s3.w, e, e.id, e.limit, FILLING);
    var s4 := Step(s3, turn);
    TurnFires(s4, Some(e.limit), e.limit, FILLING);
    PairFired(s4.w, e, e.stopId, e.limit, FILLING);
    states := [s0, s1, s2, s3, s4, Step(s4, turn)];
    events := [Other(e), BeginSweep([]), ReadArmed(todo), turn, turn];
    assert events[0] == Other(e) && Opens(states[0], events[0], e.id);
  }

  lemma ArmedUnfilled(o: OrderRow)
    requires Armed(o)
    ensures o.status == Some(SUBMITTED)
  {}

  // The broker's report that the resting limit leg has filled.
  function LimitFills(e: Event): Event
    requires e.SubmitOco?
  {
    BrokerSync(e.id, Broker.Observation(Some(Broker.View(Broker.V_FILLED, e.terms.qty, e.limit)), None))
  }

  lemma RestingLegFills(w: World, e: Event)
    requires Admissible(e) && e.SubmitOco? && OnlyPair(w, e)
    requires Open(w.orders[e.id].status) && w.orders[e.id].brokerId.Some?
    ensures var w' := Apply(w, LimitFills(e));
            && FilledIn(w', e.id, e.id) && e.stopId in w'.orders && w'.orders[e.stopId] == w.orders[e.stopId]
  {
    hide IsTriggered, Value, NetAll, Broker.FillPrice;
    Broker.MirrorsBroker(w.orders[e.id], LimitFills(e).ob);
    Broker.SyncFrame(w.orders[e.id], LimitFills(e).ob);
  }

  /** The limit leg fired and resting: it is neither armed nor filled, and its sibling is untouched. */
  lemma LimitRests(w: World, e: Event)
    requires Admissible(e) && e.SubmitOco? && OnlyPair(w, e) && Armed(w.orders[e.id]) && Armed(w.orders[e.stopId])
    ensures var w' := Apply(w, Trigger(e.id, e.limit, RESTING));
            && OnlyPair(w', e) && w'.orders[e.stopId] == w.orders[e.stopId]
            && Open(w'.orders[e.id].status) && w'.orders[e.id].brokerId == Some(7) && !Armed(w'.orders[e.id])
            && FilledGroupsOf(w', []) && ReadFrom(w', [Candidate(e.stopId, w'.orders[e.stopId])])
  {
    hide Apply, OnlyPair, FilledGroupsOf, ReadFrom;
    PairIds(w, e);
    PairFired(w, e, e.id, e.limit, RESTING);
    var w' := Apply(w, Trigger(e.id, e.limit, RESTING));
    NothingFilled(w', e);
    StopRead(w', e);
  }

  lemma PairIds(w: World, e: Event)
    requires e.SubmitOco? && OnlyPair(w, e)
    ensures e.id in w.orders && e.stopId in w.orders && e.id != e.stopId && Sound(w)
  {}

  /** Then the stop leg fires and fills, and the resting leg fills at the broker: both are FILLED. */
  lemma BothFill(w: World, e: Event)
    requires Admissible(e) && e.SubmitOco? && OnlyPair(w, e) && Armed(w.orders[e.stopId])
    requires Open(w.orders[e.id].status) && w.orders[e.id].brokerId.Some?
    ensures var w' := Apply(w, Trigger(e.stopId, e.stop, FILLING));
            && Sound(w')
            && FilledIn(Apply(w', LimitFills(e)), e.id, e.id) && FilledIn(Apply(w', LimitFills(e)), e.id, e.stopId)
  {
    hide Apply, IsTriggered;
    PairFired(w, e, e.stopId, e.stop, FILLING);
    RestingLegFills(Apply(w, Trigger(e.stopId, e.stop, FILLING)), e);
  }

  /**
   * Submit a pair on its proper sides: the limit leg fires and rests at the broker, the stop leg fires and fills
   * in the next sweep, and then the resting leg fills too.
   */
  lemma RestingRun(e: Event) returns (states: seq<System>, events: seq<SysEvent>)
    requires Admissible(e) && e.SubmitOco? && ProperSides(e)
    ensures FillsBothLegs(states, events, e, true)
  {
    hide Apply, IsTriggered, Armed, Sound, FilledGroupsOf, ReadFrom, ProperSides, OnlyPair, FilledIn;
    EmptySound();
    PairSubmitted(e);
    var w1 := Apply(EMPTY_WORLD, e);
    PairTriggers(w1, e);
    ArmedUnfilled(w1.orders[e.id]);
    ArmedUnfilled(w1.orders[e.stopId]);
    NothingFilled(w1, e);
    PairRead(w1, e);
    LimitRests(w1, e);
    var w2 := Apply(w1, Trigger(e.id, e.limit, RESTING));
    PairTriggers(w2, e);
    BothFill(w2, e);
    var todo := [Candidate(e.id, w1.orders[e.id]), Candidate(e.stopId, w1.orders[e.stopId])];
    var rest := [Candidate(e.stopId, w2.orders[e.stopId])];
    var fire, skip := TriggerNext(Some(e.limit), RESTING), TriggerNext(None, FILLING);
    var fire' := TriggerNext(Some(e.stop), FILLING);
    events := [Other(e), BeginSweep([]), ReadArmed(todo), fire, skip, EndSweep,
               BeginSweep([]), ReadArmed(rest), fire', Other(LimitFills(e))];
    var s3 := System(w1, Triggering(todo, map[]));
    TurnFires(s3, Some(e.limit), e.limit, RESTING);
    var s4 := Step(s3, fire);
    TurnFires(s4, None, e.limit, FILLING);
    var s8 := System(w2, Triggering(rest, map[]));
    TurnFires(s8, Some(e.stop), e.stop, FILLING);
    var s9 := Step(s8, fire');
    states := [System(EMPTY_WORLD, Idle), System(w1, Idle), System(w1, Housekeeping([])), s3, s4, Step(s4, skip),
               System(w2, Idle), System(w2, Housekeeping([])), s8, s9, Step(s9, Other(LimitFills(e)))];
    assert todo[1..] == [todo[1]] && todo[1..][1..] == [];
    assert events[0] == Other(e) && Opens(states[0], events[0], e.id);
  }

  lemma PairTriggers(w: World, e: Event)
    requires e.SubmitOco? && OnlyPair(w, e)
    ensures e.id in w.orders && e.stopId in w.orders && e.id != e.stopId && Sound(w)
    ensures w.orders[e.id].terms == w.orders[e.stopId].terms
    ensures IsTriggered(w.orders[e.id], e.limit) && IsTriggered(w.orders[e.stopId], e.stop)
    ensures IsTriggered(w.orders[e.stopId], e.limit) <==> !ProperSides(e)
  {
    hide IsTriggered, ProperSides;
  }

  /**
   * The exact condition, over whole runs: some run in which this pair's own legs rest at the broker only if they
   * may fills both of its legs if and only if they may rest, or its limit is not on the profitable side of its
   * stop. Nothing checks the sides, and nothing keeps a fired leg from resting beside an armed one.
   */
  lemma BothLegsCanFillExactlyWhen(e: Event, mayRest: bool)
    requires Admissible(e) && e.SubmitOco?
    ensures (exists states, events :: FillsBothLegs(states, events, e, mayRest)) <==> mayRest || !ProperSides(e)
  {
    hide FillsBothLegs, ProperSides;
    if !ProperSides(e) {
      var states, events := ImproperRun(e, mayRest);
    } else if mayRest {
      var states, events := RestingRun(e);
    } else {
      forall states, events ensures !FillsBothLegs(states, events, e, false) {
        if FillsBothLegs(states, events, e, false) { ProperNeverFillsBoth(states, events, e); }
      }
    }
  }

  lemma ProperNeverFillsBoth(states: seq<System>, events: seq<SysEvent>, e: Event)
    requires Admissible(e) && e.SubmitOco? && FillsBothLegs(states, events, e, false)
    ensures !ProperSides(e)
  {
    hide Apply, Step, Enabled, ProperSides, Opens, FillsOrRaises;
    var i :| 0 <= i < |events| && events[i] == Other(e) && Opens(states[i], events[i], e.id);
    if ProperSides(e) {
      forall k | 0 <= k < |events| && Opens(states[k], events[k], e.id) ensures events[k] == Other(e) {
        OpensOnce(states, events, i, k, e.id);
      }
      AtMostOneLegFills(states, events, |events|, e.id, e.id, e.stopId);
    }
  }
}
