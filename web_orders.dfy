/** The pharmacy web portal's order board: three columns by status, their counters,
    and the buttons that move an order from one column to the next. The board uses
    the upper-case status vocabulary. */
module WebOrders {
  import opened Common

  const Pending := "PENDING"
  const Ready := "READY"
  const Completed := "COMPLETED"
  const Cancelled := "CANCELLED"

  /** The statuses that have a column, left to right. */
  const ColumnStatuses: seq<string> := [Pending, Ready, Completed]

  datatype BoardOrder = BoardOrder(
    id: string, customer: string, items: int, total: int, time: string, status: string, kind: string)

  /** The list handleStatusUpdate installs. */
  function WithStatus(orders: seq<BoardOrder>, id: string, newStatus: string): (r: seq<BoardOrder>)
    ensures |r| == |orders|
    ensures forall i :: 0 <= i < |orders| ==> r[i].(status := orders[i].status) == orders[i]
    ensures forall i :: 0 <= i < |orders| ==> r[i].status == if orders[i].id == id then newStatus else orders[i].status
    ensures (forall i :: 0 <= i < |orders| ==> orders[i].id != id) ==> r == orders
  {
    seq(|orders|, i requires 0 <= i < |orders| =>
      if orders[i].id == id then orders[i].(status := newStatus) else orders[i])
  }

  /** The cards of one column, in list order. */
  function Column(orders: seq<BoardOrder>, status: string): (r: seq<BoardOrder>)
    ensures IsSubsequence(r, orders)
    ensures forall i :: 0 <= i < |r| ==> r[i].status == status
    ensures forall i :: 0 <= i < |orders| && orders[i].status == status ==> orders[i] in r
  {
    Filter(orders, (o: BoardOrder) => o.status == status)
  }

  /** The statuses of the orders, in list order. */
  function Statuses(orders: seq<BoardOrder>): (r: seq<string>)
    ensures |r| == |orders| && forall i :: 0 <= i < |orders| ==> r[i] == orders[i].status
  {
    seq(|orders|, i requires 0 <= i < |orders| => orders[i].status)
  }

  /** A column's counter is the number of orders holding that column's status. */
  lemma {:induction false} ColumnCountIsMultiplicity(orders: seq<BoardOrder>, status: string)
    ensures |Column(orders, status)| == multiset(Statuses(orders))[status]
  {
    if orders != [] {
      ColumnCountIsMultiplicity(orders[1..], status);
      assert Statuses(orders) == [orders[0].status] + Statuses(orders[1..]);
    }
  }

  /** An order sits in the column of its own status and in no other; an order whose
      status has no column (a cancelled one) is on no column at all. */
  lemma InOneColumnOnly(orders: seq<BoardOrder>, k: nat, c: string)
    requires k < |orders| && c in ColumnStatuses
    ensures orders[k] in Column(orders, c) <==> orders[k].status == c
  {
    if orders[k] in Column(orders, c) {
      var r := Column(orders, c);
      var i :| 0 <= i < |r| && r[i] == orders[k];
    }
  }

  /** Every order is counted by exactly one column or is off the board. */
  lemma {:induction false} BoardPartition(orders: seq<BoardOrder>)
    ensures |Column(orders, Pending)| + |Column(orders, Ready)| + |Column(orders, Completed)|
          + |Filter(orders, (o: BoardOrder) => o.status !in ColumnStatuses)| == |orders|
  {
    if orders != [] {
      BoardPartition(orders[1..]);
    }
  }

  /** The buttons on a card: accept or refuse a pending order, finish a ready one. */
  function BoardActions(status: string): (r: seq<string>)
    ensures status == Pending ==> r == [Ready, Cancelled]
    ensures status == Ready ==> r == [Completed]
    ensures status != Pending && status != Ready ==> r == []
  {
    if status == Pending then [Ready, Cancelled]
    else if status == Ready then [Completed]
    else []
  }

  /** Position in the board's lifecycle; finished and refused orders are last. */
  function BoardStage(status: string): nat
  {
    if status == Pending then 0 else if status == Ready then 1 else 2
  }

  /** Every button moves an order strictly forward, so a card moves at most twice. */
  lemma BoardMovesForward(status: string, target: string)
    requires target in BoardActions(status)
    ensures BoardStage(target) > BoardStage(status)
    ensures BoardActions(target) == [] || (status == Pending && target == Ready)
  {
  }

  /** With distinct ids, moving one order takes one card from its column to the target's. */
  lemma {:induction false} MoveShiftsOneCard(orders: seq<BoardOrder>, k: nat, target: string)
    requires k < |orders|
    requires forall i, j :: 0 <= i < j < |orders| ==> orders[i].id != orders[j].id
    ensures multiset(Statuses(WithStatus(orders, orders[k].id, target)))
         == multiset(Statuses(orders)) - multiset{orders[k].status} + multiset{target}
  {
    var id := orders[k].id;
    var r := WithStatus(orders, id, target);
    assert Statuses(orders) == Statuses(orders[..k]) + [orders[k].status] + Statuses(orders[k + 1..]);
    assert Statuses(r) == Statuses(orders[..k]) + [target] + Statuses(orders[k + 1..]);
  }

  class OrdersBoard {
    var orders: seq<BoardOrder>

    constructor (initial: seq<BoardOrder>)
      ensures orders == initial
    {
      orders := initial;
    }

    /** handleStatusUpdate: install a copy with the matching orders' status replaced. */
    method HandleStatusUpdate(id: string, newStatus: string)
      modifies this
      ensures orders == WithStatus(old(orders), id, newStatus)
    {
      orders := WithStatus(orders, id, newStatus);
    }

    /** Clicking one of the buttons on the k-th card. */
    method Click(k: nat, target: string)
      requires k < |orders| && target in BoardActions(orders[k].status)
      modifies this
      ensures orders == WithStatus(old(orders), old(orders)[k].id, target)
      ensures orders[k].status == target && BoardStage(target) > BoardStage(old(orders)[k].status)
    {
      BoardMovesForward(orders[k].status, target);
      HandleStatusUpdate(orders[k].id, target);
    }
  }
}
