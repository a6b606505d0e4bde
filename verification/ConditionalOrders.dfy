// Armed orders: when a trigger is hit, what firing one does, and the one-cancels-other rule
// (app/services/conditional_orders.py).
module ConditionalOrders {
  import opened Money
  import opened Orders
  import opened Positions
  import opened PositionTables
  import opened OrderService

  // Held app-side, waiting for its trigger: SUBMITTED and never sent to the broker.
  predicate Armed(o: OrderRow)
  {
    Conditional(o.terms.orderType) && o.status == Some(SUBMITTED) && o.brokerId.None?
  }

  predicate IsStopLeg(o: OrderRow)
  {
    o.terms.orderType == OrderType.OCO && o.oco.Some? && o.oco.value.leg == StopLeg
  }

  predicate IsTriggered(o: OrderRow, mark: real)
  {
    var buy := o.terms.side == BUY;
    if o.terms.orderType == STOP_LIMIT || IsStopLeg(o) then
      var stop := Or(o.stopPrice, 0.0);
      stop > 0.0 && (if buy then mark >= stop else mark <= stop)
    else if o.terms.orderType == OrderType.OCO then
      var limit := Or(o.price, 0.0);
      limit > 0.0 && (if buy then mark <= limit else mark >= limit)
    else false
  }

  /**
   * When what was submitted with a limit and a stop triggers, in those two numbers: STOP_LIMIT orders and stop legs
   * at the stop or beyond it in the direction of the trade, limit legs at the limit or better, others never.
   */
  lemma SubmittedTriggers(t: Terms, limit: real, stop: real, group: int, mark: real)
    requires 0.0 < limit && 0.0 < stop
    ensures var stopHit := if t.side == BUY then mark >= stop else mark <= stop;
            var limitHit := if t.side == BUY then mark <= limit else mark >= limit;
            && (t.orderType == STOP_LIMIT ==> (IsTriggered(ArmedStopLimit(t, limit, stop), mark) <==> stopHit))
            && (t.orderType == OrderType.OCO ==> (IsTriggered(OcoLimitLeg(t, limit, group), mark) <==> limitHit))
            && (t.orderType == OrderType.OCO ==> (IsTriggered(OcoStopLeg(t, stop, group), mark) <==> stopHit))
            && (!Conditional(t.orderType) ==> forall p, s :: !IsTriggered(Allocated(t, p, s), mark))
  {}

  /** At what price they fill when the broker names none: the limit, or the mark for a stop leg. */
  lemma SubmittedFillsAt(t: Terms, limit: real, stop: real, group: int, mark: real, r: AdapterResult)
    requires 0.0 < limit && r.Returned? && r.filled && r.avgPrice.None? && mark != 0.0
    ensures t.orderType == STOP_LIMIT ==>
      var p := Fire(ArmedStopLimit(t, limit, stop), mark, r); |p.fills| == 1 && p.fills[0].price == limit
    ensures t.orderType == OrderType.OCO ==>
      var p := Fire(OcoLimitLeg(t, limit, group), mark, r); |p.fills| == 1 && p.fills[0].price == limit
    ensures t.orderType == OrderType.OCO ==>
      var p := Fire(OcoStopLeg(t, stop, group), mark, r); |p.fills| == 1 && p.fills[0].price == mark
  {}

  /** Everything a trigger looks at; a stop leg's price is not part of it. */
  ghost predicate SameTrigger(o: OrderRow, o': OrderRow)
  {
    && o'.terms == o.terms && o'.stopPrice == o.stopPrice && o'.oco == o.oco
    && (IsStopLeg(o) || o'.price == o.price)
  }

  lemma TriggerIsStable(o: OrderRow, o': OrderRow, mark: real)
    requires SameTrigger(o, o')
    ensures IsTriggered(o', mark) == IsTriggered(o, mark)
  {}

  /** Stop legs execute at the market: the trigger mark becomes their price. */
  function AtMark(o: OrderRow, mark: real): OrderRow
  {
    if IsStopLeg(o) then o.(price := Some(mark)) else o
  }

  /** Fire one armed order at its broker. */
  function Fire(o: OrderRow, mark: real, r: AdapterResult): Posting
    requires Armed(o)
  {
    Submitted(AtMark(o, mark), r)
  }

  lemma FireKeeps(o: OrderRow, mark: real, r: AdapterResult)
    requires Armed(o) && o.filledQty == 0.0 && 0.0 < o.terms.qty && Sane(r)
    ensures Keeps(o, Fire(o, mark, r))
  {
    SubmittedKeeps(AtMark(o, mark), r);
  }

  /** A fired stop leg whose broker names no price fills at the mark that triggered it, a limit leg at its own price. */
  lemma FiredPrice(o: OrderRow, mark: real, r: AdapterResult)
    requires Armed(o) && IsTriggered(o, mark) && r.Returned? && r.filled && Or(r.avgPrice, 0.0) == 0.0
    ensures var fills := Fire(o, mark, r).fills;
            && |fills| == 1 && (IsStopLeg(o) ==> fills[0].price == mark)
              && (!IsStopLeg(o) ==> fills[0].price == Or(o.price, 0.0))
  {}

  /** The order can be fired a second time exactly when the broker neither raised nor filled and gave no id. */
  lemma RefiresExactlyWithoutId(o: OrderRow, mark: real, r: AdapterResult)
    requires Armed(o)
    ensures Armed(Fire(o, mark, r).row) <==> r.Returned? && !r.filled && r.brokerId.None?
  {}

  /** The two legs of an OCO pair: same side, and a limit on the profitable side of the stop. */
  ghost predicate ProperPair(l: OrderRow, s: OrderRow)
  {
    && l.terms == s.terms && l.terms.orderType == OrderType.OCO
    && l.oco.Some? && s.oco.Some? && l.oco.value.leg == LimitLeg && s.oco.value.leg == StopLeg
    && (if l.terms.side == BUY then Or(l.price, 0.0) < Or(s.stopPrice, 0.0)
      else Or(l.price, 0.0) > Or(s.stopPrice, 0.0))
  }

  /** One mark never triggers both legs of a proper pair. */
  lemma OneMarkOneLeg(l: OrderRow, s: OrderRow, mark: real)
    requires ProperPair(l, s)
    ensures !(IsTriggered(l, mark) && IsTriggered(s, mark))
  {}

  /**
   * Nothing checks the sides of an OCO pair: some mark triggers both of its legs exactly when the limit is
   * not on the profitable side of the stop.
   */
  lemma SomeMarkTriggersBothExactlyWhenImproper(l: OrderRow, s: OrderRow)
    requires l.terms == s.terms && l.terms.orderType == OrderType.OCO
    requires l.oco.Some? && s.oco.Some? && l.oco.value.leg == LimitLeg && s.oco.value.leg == StopLeg
    requires 0.0 < Or(l.price, 0.0) && 0.0 < Or(s.stopPrice, 0.0)
    ensures (exists mark :: IsTriggered(l, mark) && IsTriggered(s, mark)) <==> !ProperPair(l, s)
  {
    if !ProperPair(l, s) {
      assert IsTriggered(l, Or(l.price, 0.0)) && IsTriggered(s, Or(l.price, 0.0));
    }
  }

  // ---------------------------------------------------------------- the mutable transactions

  /** Fire one triggered order, re-checked under its lock. */
  method ExecuteTriggered(order: Order, positions: PositionTable, mark: real, r: AdapterResult)
    requires Conditional(order.terms.orderType) && 0.0 < order.terms.qty && Sane(r) && positions.Valid()
    modifies order, positions, positions.Cells()
    ensures var o := old(order.Row());
            var p := if Armed(o) then Fire(o, mark, r) else Posting(o, []);
            && order.Row() == p.row && order.fills == old(order.fills) + p.fills && PositiveFills(p.fills)
            && positions.Rows() == NetAll(old(positions.Rows()), order.terms.key, p.fills)
    ensures positions.Valid() && fresh(positions.Cells() - old(positions.Cells()))
  {
    if order.status != Some(SUBMITTED) || order.brokerId.Some? {
      return;
    }
    if order.terms.orderType == OrderType.OCO && order.oco.Some? && order.oco.value.leg == StopLeg {
      order.price := Some(mark);
    }
    SubmitToBroker(order, positions, r);
  }

  /** Cancel every open leg of the group other than the filled one. */
  method CancelOcoSiblings(legs: seq<Order>, group: int)
    requires forall i, j :: 0 <= i < j < |legs| ==> legs[i] != legs[j]
    modifies legs
    ensures forall i :: 0 <= i < |legs| ==>
      legs[i].fills == old(legs[i].fills) && legs[i].Row() == CancelLeg(old(legs[i].Row()), group)
    ensures forall i :: 0 <= i < |legs| && (legs[i].oco.None? || legs[i].oco.value.group != group) ==>
      legs[i].Row() == old(legs[i].Row())
    ensures forall i :: 0 <= i < |legs| && legs[i].terms.orderType == OrderType.OCO && legs[i].oco.Some? ==>
      legs[i].oco.value.group != group || !Open(legs[i].status)
  {
    var i := 0;
    while i < |legs|
      invariant 0 <= i <= |legs|
      invariant forall j :: 0 <= j < |legs| ==> legs[j].fills == old(legs[j].fills)
      invariant forall j :: i <= j < |legs| ==> legs[j].Row() == old(legs[j].Row())
      invariant forall j :: 0 <= j < i ==> legs[j].Row() == CancelLeg(old(legs[j].Row()), group)
    {
      CancelSibling(legs[i], group);
      i := i + 1;
    }
  }
}
