// Creating and cancelling orders: the instant path, algorithmic and conditional allocation, OCO legs, and the
// user cancel (app/services/order_service.py).
module OrderService {
  import opened Money
  import opened Orders
  import opened Positions
  import opened PositionTables
  import opened Booking

  // What a broker adapter's submit call does: raise, or return an id, a status and maybe a price and quantity.
  datatype AdapterResult =
    | Raised
    | Returned(brokerId: Option<int>, filled: bool, avgPrice: Option<real>, filledQty: Option<real>)

  // Adapters never report a negative executed quantity.
  predicate Sane(r: AdapterResult) { r.Returned? && r.filledQty.Some? ==> 0.0 <= r.filledQty.value }

  /** The single execution of an instant or triggered fill: the broker's numbers, the order's own when missing. */
  function WholeFill(o: OrderRow, r: AdapterResult): Print
    requires r.Returned?
  {
    Print(Or(r.filledQty, o.terms.qty), Or(r.avgPrice, Or(o.price, 0.0)))
  }

  function FilledOutright(o: OrderRow, r: AdapterResult): Posting
    requires r.Returned? && Open(o.status)
  {
    var x := WholeFill(o, r);
    Posting(Move(o.(brokerId := r.brokerId, filledQty := x.qty, avgFill := Some(x.price)), FILLED), [Booked(o, x)])
  }

  /** One submit call: rejected when it raises, filled outright, or resting at the broker. */
  function Submitted(o: OrderRow, r: AdapterResult): Posting
    requires o.status == Some(SUBMITTED)
  {
    match r
    case Raised => Posting(Move(o, REJECTED), [])
    case Returned(id, filled, _, _) =>
      if filled then FilledOutright(o, r)
      else Posting(Move(o.(brokerId := id), SUBMITTED), [])
  }

  lemma SubmittedKeeps(o: OrderRow, r: AdapterResult)
    requires o.status == Some(SUBMITTED) && o.filledQty == 0.0 && 0.0 < o.terms.qty && Sane(r)
    ensures Keeps(o, Submitted(o, r))
  {
    hide Value;
    if r.Returned? && r.filled {
      ValueAtZero(AvgOrZero(o));
      SumsOfOne(Booked(o, WholeFill(o, r)));
      ValueAtZero(WholeFill(o, r).qty);
    }
  }

  /**
   * What a submission leaves behind: REJECTED and untouched when the adapter raises, FILLED with one Fill row at
   * the broker's own quantity and price (the order's when the broker gives none), or SUBMITTED under the
   * broker's id with nothing filled.
   */
  lemma SubmittedOutcome(o: OrderRow, r: AdapterResult, q: real, p: real)
    requires o.status == Some(SUBMITTED) && 0.0 < o.terms.qty
    requires r.Returned? ==> q == Or(r.filledQty, o.terms.qty) && p == Or(r.avgPrice, Or(o.price, 0.0))
    ensures var out := Submitted(o, r); var row := out.row;
            && (row.status == Some(REJECTED) <==> r.Raised?)
            && (row.status == Some(FILLED) <==> r.Returned? && r.filled)
            && (row.status == Some(FILLED) ==>
                  row.filledQty == q && row.avgFill == Some(p) && row.brokerId == r.brokerId &&
                  |out.fills| == 1 && out.fills[0].qty == q && out.fills[0].price == p)
            && (row.status != Some(FILLED) ==>
              out.fills == [] && row.filledQty == o.filledQty && row.avgFill == o.avgFill)
            && (row.status == Some(SUBMITTED) ==> row.brokerId == r.brokerId)
            && |row.history| == |o.history| + 1
  {}

  // ---------------------------------------------------------------- allocation

  function Allocated(terms: Terms, price: Option<real>, stopPrice: Option<real>): OrderRow
  {
    Move(FreshRow(terms, price, stopPrice, None), SUBMITTED)
  }

  /** The two rows of an OCO order: the limit leg keeps the price, the stop leg only the trigger. */
  function OcoLimitLeg(terms: Terms, price: real, group: int): OrderRow
  {
    Move(Allocated(terms, Some(price), None).(oco := Some(OcoLink(group, LimitLeg))), SUBMITTED)
  }

  function OcoStopLeg(terms: Terms, stopPrice: real, group: int): OrderRow
  {
    Move(FreshRow(terms, None, Some(stopPrice), Some(OcoLink(group, StopLeg))), SUBMITTED)
  }

  function ArmedStopLimit(terms: Terms, price: real, stopPrice: real): OrderRow
  {
    Move(Allocated(terms, Some(price), Some(stopPrice)), SUBMITTED)
  }

  // ---------------------------------------------------------------- user cancel

  datatype CancelOutcome = Conflict | InvalidTransition | Cancelled

  /** The request's own guard lists three terminal statuses; the state machine is what stops the fourth. */
  function CancelOutcomeOf(o: OrderRow): CancelOutcome
  {
    if o.status == Some(FILLED) || o.status == Some(CANCELLED) || o.status == Some(REJECTED) then Conflict
    else if !Allowed(o.status, CANCELLED) then InvalidTransition
    else Cancelled
  }

  function Cancel(o: OrderRow): OrderRow
  {
    if CancelOutcomeOf(o) == Cancelled then Move(o, CANCELLED) else o
  }

  /** An inserted order's cancel fails with the state machine's own error exactly when the order has expired. */
  lemma CancelRaisesExactlyWhenExpired(o: OrderRow)
    requires o.status.Some?
    ensures CancelOutcomeOf(o) == InvalidTransition <==> o.status == Some(EXPIRED)
    ensures CancelOutcomeOf(o) == Cancelled <==> !Terminal(o.status.value)
  {}

  /** Whether cancelling `o` takes the other legs of a group with it. */
  predicate CancelsPair(o: OrderRow)
  {
    CancelOutcomeOf(o) == Cancelled && o.terms.orderType == OrderType.OCO && o.oco.Some?
  }

  predicate Sibling(o: OrderRow, group: int)
  {
    o.terms.orderType == OrderType.OCO && o.oco.Some? && o.oco.value.group == group && Open(o.status)
  }

  function CancelLeg(leg: OrderRow, group: int): OrderRow
  {
    if Sibling(leg, group) then Move(leg, CANCELLED) else leg
  }

  /** Cancelling the legs of a group ends every open one and touches no order outside the group. */
  lemma CancelLegMeans(leg: OrderRow, group: int)
    ensures var inGroup := leg.terms.orderType == OrderType.OCO && leg.oco.Some? && leg.oco.value.group == group;
            && (!inGroup ==> CancelLeg(leg, group) == leg)
            && (inGroup ==> !Open(CancelLeg(leg, group).status))
            && (Open(leg.status) ==> CancelLeg(leg, group) == leg || CancelLeg(leg, group).status == Some(CANCELLED))
            && (!Open(leg.status) ==> CancelLeg(leg, group) == leg)
  {}

  // ---------------------------------------------------------------- the mutable transactions

  /** The outright-fill branch shared by instant submission and triggered execution. */
  method TakeWholeFill(order: Order, positions: PositionTable, r: AdapterResult)
    requires r.Returned? && Sane(r) && Open(order.status) && 0.0 < order.terms.qty && positions.Valid()
    modifies order, positions, positions.Cells()
    ensures var p := FilledOutright(old(order.Row()), r);
            && order.Row() == p.row && order.fills == old(order.fills) + p.fills && PositiveFills(p.fills)
            && positions.Rows() == NetAll(old(positions.Rows()), order.terms.key, p.fills)
    ensures positions.Valid() && fresh(positions.Cells() - old(positions.Cells()))
  {
    var x := Print(Or(r.filledQty, order.terms.qty), Or(r.avgPrice, Or(order.price, 0.0)));
    PostFill(order, positions, x);
    CompleteWith(order, r.brokerId, x);
  }

  method CompleteWith(order: Order, brokerId: Option<int>, x: Print)
    requires Open(order.status)
    modifies order`brokerId, order`filledQty, order`avgFill, order`status, order`history
    ensures order.Row() == Move(old(order.Row()).(brokerId := brokerId, filledQty := x.qty,
      avgFill := Some(x.price)), FILLED)
  {
    order.brokerId := brokerId;
    order.filledQty := x.qty;
    order.avgFill := Some(x.price);
    var raised := order.Transition(FILLED);
    assert !raised;
  }

  /** Submit one order to its broker and book what comes back. */
  method SubmitToBroker(order: Order, positions: PositionTable, r: AdapterResult)
    requires Sane(r) && order.status == Some(SUBMITTED) && 0.0 < order.terms.qty && positions.Valid()
    modifies order, positions, positions.Cells()
    ensures var p := Submitted(old(order.Row()), r);
            && order.Row() == p.row && order.fills == old(order.fills) + p.fills && PositiveFills(p.fills)
            && positions.Rows() == NetAll(old(positions.Rows()), order.terms.key, p.fills)
    ensures positions.Valid() && fresh(positions.Cells() - old(positions.Cells()))
  {
    if r.Raised? {
      var raised := order.Transition(REJECTED);
      assert !raised;
    } else if r.filled {
      TakeWholeFill(order, positions, r);
    } else {
      order.brokerId := r.brokerId;
      var raised := order.Transition(SUBMITTED);
      assert !raised;
    }
  }

  /** Create the two linked legs of an OCO order. */
  method CreateOco(terms: Terms, price: real, stopPrice: real, group: int) returns (limitLeg: Order, stopLeg: Order)
    ensures fresh(limitLeg) && fresh(stopLeg) && limitLeg != stopLeg
    ensures limitLeg.Row() == OcoLimitLeg(terms, price, group) && limitLeg.fills == []
    ensures stopLeg.Row() == OcoStopLeg(terms, stopPrice, group) && stopLeg.fills == []
  {
    limitLeg := new Order(terms, Some(price), Some(stopPrice));
    var raised := limitLeg.Transition(SUBMITTED);
    limitLeg.oco := Some(OcoLink(group, LimitLeg));
    limitLeg.stopPrice := None;
    raised := limitLeg.Transition(SUBMITTED);
    stopLeg := new Order(terms, None, Some(stopPrice));
    stopLeg.oco := Some(OcoLink(group, StopLeg));
    raised := stopLeg.Transition(SUBMITTED);
  }

  /** The user cancel of one row, then of every open sibling leg. */
  method CancelOrder(order: Order, legs: seq<Order>) returns (outcome: CancelOutcome)
    requires order !in legs && (forall i, j :: 0 <= i < j < |legs| ==> legs[i] != legs[j])
    modifies order, legs
    ensures outcome == CancelOutcomeOf(old(order.Row()))
    ensures order.Row() == Cancel(old(order.Row())) && order.fills == old(order.fills)
    ensures forall i :: 0 <= i < |legs| ==> legs[i].fills == old(legs[i].fills)
    ensures forall i :: 0 <= i < |legs| ==>
      legs[i].Row() == if CancelsPair(old(order.Row())) then CancelLeg(old(legs[i].Row()), order.oco.value.group)
        else old(legs[i].Row())
    ensures forall i :: 0 <= i < |legs| ==>
      || (order.oco.Some? && legs[i].oco.Some? && legs[i].oco.value.group == order.oco.value.group)
      || legs[i].Row() == old(legs[i].Row())
    ensures outcome == Cancelled && order.terms.orderType == OrderType.OCO && order.oco.Some? ==>
      forall i :: 0 <= i < |legs| && legs[i].terms.orderType == OrderType.OCO && legs[i].oco.Some? ==>
        legs[i].oco.value.group != order.oco.value.group || !Open(legs[i].status)
  {
    if order.status == Some(FILLED) || order.status == Some(CANCELLED) || order.status == Some(REJECTED) {
      return Conflict;
    }
    var raised := order.Transition(CANCELLED);
    if raised {
      return InvalidTransition;
    }
    if order.terms.orderType == OrderType.OCO && order.oco.Some? {
      var group := order.oco.value.group;
      var i := 0;
      while i < |legs|
        invariant 0 <= i <= |legs|
        invariant order.Row() == Cancel(old(order.Row())) && order.fills == old(order.fills)
        invariant forall j :: 0 <= j < |legs| ==> legs[j].fills == old(legs[j].fills)
        invariant forall j :: i <= j < |legs| ==> legs[j].Row() == old(legs[j].Row())
        invariant forall j :: 0 <= j < i ==> legs[j].Row() == CancelLeg(old(legs[j].Row()), group)
      {
        CancelSibling(legs[i], group);
        i := i + 1;
      }
    }
    return Cancelled;
  }

  method CancelSibling(leg: Order, group: int)
    modifies leg
    ensures leg.fills == old(leg.fills)
    ensures leg.Row() == CancelLeg(old(leg.Row()), group)
  {
    if leg.terms.orderType == OrderType.OCO && leg.oco.Some? && leg.oco.value.group == group && Open(leg.status) {
      var raised := leg.Transition(CANCELLED);
      assert !raised;
    }
  }
}
