/** The pharmacy professional's order screen: the fixed successor table that drives
    the "mark as" button, the cancel button, and the update of the held order.
    The server writes any status it receives, so this table is the only place the
    lifecycle discipline lives. */
module ProfessionalOrderDetail {
  import opened Common
  import opened StatusText

  /** The statusFlow table of getNextStatus; a status missing from it has no successor. */
  const StatusFlow: map<string, Option<string>> := map[
    Pending := Some(Confirmed),
    Confirmed := Some(Processing),
    Processing := Some(InDelivery),
    InDelivery := Some(Delivered),
    Delivered := None,
    Cancelled := None
  ]

  /** getNextStatus: the next link of the delivery chain, if any. */
  function NextStatus(s: string): (r: Option<string>)
    ensures r.Some? <==> s in Chain && s != Delivered
    ensures forall i :: 0 <= i < |Chain| - 1 && s == Chain[i] ==> r == Some(Chain[i + 1])
    ensures s == Delivered || s == Cancelled || !IsKnown(s) ==> r == None
  {
    if s in StatusFlow then StatusFlow[s] else None
  }

  /** The status reached after `n` presses of the advance button, None once no
      successor is left. */
  function AdvanceBy(s: string, n: nat): Option<string>
    decreases n
  {
    if n == 0 then Some(s)
    else match NextStatus(s)
      case None => None
      case Some(t) => AdvanceBy(t, n - 1)
  }

  /** From the i-th link, n presses land exactly n links further on, or run out. */
  lemma {:induction false} AdvanceAlongChain(i: nat, n: nat)
    requires i < |Chain|
    ensures AdvanceBy(Chain[i], n) == if i + n < |Chain| then Some(Chain[i + n]) else None
    decreases n
  {
    if n > 0 {
      if i + 1 < |Chain| {
        AdvanceAlongChain(i + 1, n - 1);
      }
    }
  }

  /** A status off the chain (cancelled or unknown) cannot be advanced at all. */
  lemma AdvanceOffChain(s: string, n: nat)
    requires s !in Chain && n > 0
    ensures AdvanceBy(s, n) == None
  {
  }

  /** From pending, four presses reach delivered, and delivered has no successor. */
  lemma PendingToDelivered()
    ensures AdvanceBy(Pending, 4) == Some(Delivered)
    ensures NextStatus(Delivered) == None
    ensures forall n :: n > 4 ==> AdvanceBy(Pending, n) == None
  {
    AdvanceAlongChain(0, 4);
    forall n | n > 4 ensures AdvanceBy(Pending, n) == None {
      AdvanceAlongChain(0, n);
    }
  }

  /** No status is visited twice along the advance path: there is no rollback. */
  lemma NoRevisit(s: string, m: nat, n: nat)
    requires m < n
    ensures AdvanceBy(s, n).Some? ==> AdvanceBy(s, m) != AdvanceBy(s, n)
  {
    if s in Chain {
      var i := IndexOf(Chain, s).value;
      ChainDistinct();
      AdvanceAlongChain(i, m);
      AdvanceAlongChain(i, n);
    } else {
      AdvanceOffChain(s, n);
    }
  }

  /** The two buttons of the screen. */
  datatype Action = MarkAs(target: string) | CancelOrder

  /** The status a button asks the server to write. */
  function RequestedStatus(a: Action): string
  {
    match a
    case MarkAs(t) => t
    case CancelOrder => Cancelled
  }

  /** The buttons shown for a held order in status `s`. */
  function OfferedActions(s: string): (r: seq<Action>)
    ensures forall t :: MarkAs(t) in r <==> NextStatus(s) == Some(t)
    ensures CancelOrder in r <==> s != Cancelled && s != Delivered
  {
    (match NextStatus(s) case Some(t) => [MarkAs(t)] case None => [])
    + (if s != Cancelled && s != Delivered then [CancelOrder] else [])
  }

  /** The lifecycle discipline: one step along the chain, or cancel before the end. */
  predicate LifecycleAllows(from: string, to: string)
  {
    NextStatus(from) == Some(to) || (to == Cancelled && from != Delivered && from != Cancelled)
  }

  /** The buttons request exactly the transitions the lifecycle allows. */
  lemma OfferedIffAllowed(s: string, t: string)
    ensures LifecycleAllows(s, t) <==> exists a :: a in OfferedActions(s) && RequestedStatus(a) == t
  {
    var r := OfferedActions(s);
    if LifecycleAllows(s, t) {
      if NextStatus(s) == Some(t) {
        assert MarkAs(t) in r && RequestedStatus(MarkAs(t)) == t;
      } else {
        assert CancelOrder in r && RequestedStatus(CancelOrder) == t;
      }
    }
  }

  /** Delivered and cancelled orders offer no button; an unrecognised status offers
      only cancellation. */
  lemma TerminalAndUnknownActions(s: string)
    ensures s == Delivered || s == Cancelled ==> OfferedActions(s) == []
    ensures !IsKnown(s) ==> OfferedActions(s) == [CancelOrder]
  {
  }

  /** The fields of an order the screen holds. */
  datatype Order = Order(id: string, orderNumber: string, status: string, notes: string,
                         subtotal: int, deliveryFee: int, total: int)

  /** The body sent with each status update. */
  datatype StatusUpdate = StatusUpdate(status: string, notes: string)

  class ProfessionalOrderScreen {
    var order: Order
    var notes: string
    var updating: bool

    constructor (loaded: Order)
      ensures order == loaded && notes == loaded.notes && !updating
    {
      order := loaded;
      notes := loaded.notes;
      updating := false;
    }

    /** updateOrderStatus. `apiOk` is the outcome of the update call; only after it
        succeeds does the held order take the new status, every other field kept. */
    method UpdateOrderStatus(newStatus: string, apiOk: bool) returns (sent: StatusUpdate)
      modifies this`order, this`updating
      ensures sent == StatusUpdate(newStatus, notes)
      ensures apiOk ==> order == old(order).(status := newStatus)
      ensures !apiOk ==> order == old(order)
      ensures !updating
    {
      updating := true;
      sent := StatusUpdate(newStatus, notes);
      if apiOk {
        order := order.(status := newStatus);
      }
      updating := false;
    }

    /** Pressing one of the buttons shown: the button's own target is sent, and the
        held order only ever moves as the lifecycle allows. */
    method Press(a: Action, apiOk: bool) returns (sent: StatusUpdate)
      requires a in OfferedActions(order.status)
      modifies this`order, this`updating
      ensures sent == StatusUpdate(RequestedStatus(a), notes)
      ensures LifecycleAllows(old(order.status), sent.status)
      ensures apiOk ==> order == old(order).(status := sent.status)
      ensures !apiOk ==> order == old(order)
    {
      OfferedIffAllowed(order.status, RequestedStatus(a));
      sent := UpdateOrderStatus(RequestedStatus(a), apiOk);
    }
  }
}
