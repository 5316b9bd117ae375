/** The patient's cart screen: line items, quantity edits, the amounts shown
    (subtotal, delivery fee, total, in whole FCFA) and the checkout sequence. */
module Cart {
  import opened Common

  datatype CartItem = CartItem(id: string, name: string, price: int, quantity: int, pharmacy: string)

  datatype DeliveryMode = Delivery | Pickup

  /** Flat delivery fee in FCFA. */
  const DeliveryFeeFcfa: nat := 2000

  /** Every item id occurs at most once. */
  predicate UniqueIds(items: seq<CartItem>)
  {
    forall i, j :: 0 <= i < j < |items| ==> items[i].id != items[j].id
  }

  /** The list removeItem saves: every item with the given id dropped. */
  function WithoutItem(items: seq<CartItem>, id: string): (r: seq<CartItem>)
    ensures IsSubsequence(r, items)
    ensures forall i :: 0 <= i < |r| ==> r[i].id != id
    ensures forall i :: 0 <= i < |items| && items[i].id != id ==> items[i] in r
    ensures forall i :: 0 <= i < |items| ==>
      multiset(r)[items[i]] == if items[i].id != id then multiset(items)[items[i]] else 0
  {
    FilterMultiplicity(items, (x: CartItem) => x.id != id);
    Filter(items, (x: CartItem) => x.id != id)
  }

  /** The list the positive branch of updateQuantity saves. */
  function WithQuantity(items: seq<CartItem>, id: string, q: int): (r: seq<CartItem>)
    ensures |r| == |items|
    ensures forall i :: 0 <= i < |items| ==>
      r[i].id == items[i].id && r[i].name == items[i].name &&
      r[i].price == items[i].price && r[i].pharmacy == items[i].pharmacy
    ensures forall i :: 0 <= i < |items| ==>
      r[i].quantity == if items[i].id == id then q else items[i].quantity
  {
    seq(|items|, i requires 0 <= i < |items| =>
      if items[i].id == id then items[i].(quantity := q) else items[i])
  }

  /** The list updateQuantity saves: a quantity of zero or less removes the item. */
  function UpdatedQuantity(items: seq<CartItem>, id: string, q: int): (r: seq<CartItem>)
    ensures q <= 0 ==> r == WithoutItem(items, id)
    ensures q > 0 ==> |r| == |items| && forall i :: 0 <= i < |items| ==>
      r[i] == if items[i].id == id then items[i].(quantity := q) else items[i]
  {
    if q <= 0 then WithoutItem(items, id) else WithQuantity(items, id, q)
  }

  function LineTotal(item: CartItem): int
  {
    item.price * item.quantity
  }

  /** calculateSubtotal: the sum of price times quantity over the cart. The source
      folds from the left; integer addition is associative, so the order is immaterial. */
  function Subtotal(items: seq<CartItem>): (r: int)
    ensures items == [] ==> r == 0
    ensures |items| == 1 ==> r == items[0].price * items[0].quantity
  {
    if items == [] then 0 else LineTotal(items[0]) + Subtotal(items[1..])
  }

  /** With non-negative prices and quantities the subtotal is never negative. */
  lemma {:induction false} SubtotalNonNegative(items: seq<CartItem>)
    requires forall i :: 0 <= i < |items| ==> items[i].price >= 0 && items[i].quantity >= 0
    ensures Subtotal(items) >= 0
  {
    if items != [] {
      SubtotalNonNegative(items[1..]);
    }
  }

  lemma {:induction false} SubtotalAppend(a: seq<CartItem>, b: seq<CartItem>)
    ensures Subtotal(a + b) == Subtotal(a) + Subtotal(b)
  {
    if a == [] {
      assert a + b == b;
    } else {
      assert (a + b)[1..] == a[1..] + b;
      SubtotalAppend(a[1..], b);
    }
  }

  /** WithQuantity works item by item, so it commutes with dropping the first item. */
  lemma WithQuantityTail(items: seq<CartItem>, id: string, q: int)
    requires items != []
    ensures WithQuantity(items, id, q)
         == [if items[0].id == id then items[0].(quantity := q) else items[0]] + WithQuantity(items[1..], id, q)
  {
    var r := WithQuantity(items, id, q);
    assert r[1..] == WithQuantity(items[1..], id, q);
    assert r == [r[0]] + r[1..];
  }

  /** A cart without the id is left as it is. */
  lemma WithQuantityAbsent(items: seq<CartItem>, id: string, q: int)
    requires forall i :: 0 <= i < |items| ==> items[i].id != id
    ensures WithQuantity(items, id, q) == items
  {
  }

  lemma SubtotalCons(head: CartItem, rest: seq<CartItem>)
    ensures Subtotal([head] + rest) == LineTotal(head) + Subtotal(rest)
  {
    assert ([head] + rest)[1..] == rest;
  }

  lemma UniqueIdsTail(items: seq<CartItem>)
    requires items != [] && UniqueIds(items)
    ensures UniqueIds(items[1..])
    ensures forall i :: 0 <= i < |items[1..]| ==> items[1..][i].id != items[0].id
  {
    var tail := items[1..];
    forall i, j | 0 <= i < j < |tail| ensures tail[i].id != tail[j].id {
      assert tail[i] == items[i + 1] && tail[j] == items[j + 1];
    }
    forall i | 0 <= i < |tail| ensures tail[i].id != items[0].id {
      assert tail[i] == items[i + 1];
    }
  }

  /** Changing a line's quantity to q moves its total by price × (q − quantity). */
  lemma LineChange(x: CartItem, q: int)
    ensures LineTotal(x.(quantity := q)) - LineTotal(x) == x.price * (q - x.quantity)
  {
  }

  /** Changing the quantity of the first item, when no later item shares its id. */
  lemma SubtotalWithQuantityHead(items: seq<CartItem>, q: int)
    requires items != []
    requires forall i :: 1 <= i < |items| ==> items[i].id != items[0].id
    ensures Subtotal(WithQuantity(items, items[0].id, q))
         == Subtotal(items) - LineTotal(items[0]) + LineTotal(items[0].(quantity := q))
  {
    var x, tail := items[0], items[1..];
    WithQuantityTail(items, x.id, q);
    assert forall i :: 0 <= i < |tail| ==> tail[i].id != x.id by {
      forall i | 0 <= i < |tail| ensures tail[i].id != x.id {
        assert tail[i] == items[i + 1];
      }
    }
    WithQuantityAbsent(tail, x.id, q);
    assert ([x.(quantity := q)] + tail)[1..] == tail;
  }

  /** Changing the quantity of one item of a cart with distinct ids replaces exactly
      that line's total in the subtotal. */
  lemma {:induction false} SubtotalWithQuantity(items: seq<CartItem>, k: nat, q: int)
    requires UniqueIds(items) && k < |items|
    ensures Subtotal(WithQuantity(items, items[k].id, q))
         == Subtotal(items) - LineTotal(items[k]) + LineTotal(items[k].(quantity := q))
  {
    if k == 0 {
      SubtotalWithQuantityHead(items, q);
    } else {
      var id, head, tail := items[k].id, items[0], items[1..];
      assert tail[k - 1] == items[k];
      assert head.id != id;
      UniqueIdsTail(items);
      SubtotalWithQuantity(tail, k - 1, q);
      var w := WithQuantity(tail, id, q);
      WithQuantityTail(items, id, q);
      assert WithQuantity(items, id, q) == [head] + w;
      SubtotalCons(head, w);
      SubtotalCons(head, tail);
      assert [head] + tail == items;
    }
  }

  /** Setting a positive quantity moves the subtotal by price × (q − old quantity). */
  lemma SubtotalQuantityDelta(items: seq<CartItem>, k: nat, q: int)
    requires UniqueIds(items) && k < |items| && q > 0
    ensures Subtotal(UpdatedQuantity(items, items[k].id, q))
         == Subtotal(items) + items[k].price * (q - items[k].quantity)
  {
    var x := items[k];
    assert UpdatedQuantity(items, x.id, q) == WithQuantity(items, x.id, q);
    SubtotalWithQuantity(items, k, q);
    LineChange(x, q);
  }

  /** Removing one item of a cart with distinct ids lowers the subtotal by that line. */
  lemma {:induction false} SubtotalWithoutItem(items: seq<CartItem>, k: nat)
    requires UniqueIds(items) && k < |items|
    ensures Subtotal(WithoutItem(items, items[k].id)) == Subtotal(items) - LineTotal(items[k])
  {
    var id := items[k].id;
    var keep := (x: CartItem) => x.id != id;
    if k == 0 {
      assert forall i :: 0 <= i < |items[1..]| ==> keep(items[1..][i]);
      FilterKeepsAll(items[1..], keep);
    } else {
      SubtotalWithoutItem(items[1..], k - 1);
    }
  }

  /** The fee shown: the flat fee for delivery, nothing for pickup at the counter. */
  function DeliveryFee(mode: DeliveryMode): (fee: nat)
    ensures fee == DeliveryFeeFcfa <==> mode == Delivery
    ensures fee == 0 <==> mode == Pickup
  {
    match mode
    case Delivery => DeliveryFeeFcfa
    case Pickup => 0
  }

  /** The total shown and sent with the order. */
  function Total(items: seq<CartItem>, mode: DeliveryMode): (t: int)
    ensures mode == Pickup ==> t == Subtotal(items)
    ensures mode == Delivery ==> t == Subtotal(items) + 2000
  {
    Subtotal(items) + DeliveryFee(mode)
  }

  /** Two tablets at 1000 FCFA and one at 500: 2500 FCFA at the counter, 4500 delivered. */
  lemma {:induction false} TotalExample()
    ensures var cart := [CartItem("a", "A", 1000, 2, "P"), CartItem("b", "B", 500, 1, "P")];
      Subtotal(cart) == 2500 && Total(cart, Pickup) == 2500 && Total(cart, Delivery) == 4500
  {
    var cart := [CartItem("a", "A", 1000, 2, "P"), CartItem("b", "B", 500, 1, "P")];
    assert cart[1..][1..] == [];
  }

  datatype CheckoutError = EmptyCart | MissingAddress

  /** The body posted to the order endpoint. */
  datatype OrderRequest = OrderRequest(items: seq<CartItem>, mode: DeliveryMode, address: Option<string>, total: int)

  /** The two guards of handleCheckout, then the request it posts. */
  function CheckoutRequest(items: seq<CartItem>, mode: DeliveryMode, address: string): (r: Result<OrderRequest, CheckoutError>)
    ensures items == [] ==> r == Err(EmptyCart)
    ensures items != [] && mode == Delivery && address == "" ==> r == Err(MissingAddress)
    ensures r.Ok? <==> items != [] && (mode == Pickup || address != "")
    ensures r.Ok? ==> r.value.items == items && r.value.mode == mode
    ensures r.Ok? ==> r.value.total == Subtotal(items) + DeliveryFee(mode)
    ensures r.Ok? ==> r.value.address == if mode == Delivery then Some(address) else None
  {
    if |items| == 0 then Err(EmptyCart)
    else if mode == Delivery && address == "" then Err(MissingAddress)
    else Ok(OrderRequest(items, mode, if mode == Delivery then Some(address) else None, Total(items, mode)))
  }

  datatype CheckoutOutcome =
    | Rejected(reason: CheckoutError)
    | CreationFailed
    | ClearFailed(orderId: string)
    | Placed(orderId: string)

  /** The screen's state: the held cart, the device storage key 'cart', the chosen
      mode, the typed address and the busy flag. */
  class CartScreen {
    var items: seq<CartItem>
    var stored: Option<seq<CartItem>>
    var mode: DeliveryMode
    var address: string
    var loading: bool

    constructor (persisted: Option<seq<CartItem>>)
      ensures items == [] && stored == persisted
      ensures mode == Delivery && address == "" && !loading
    {
      items := [];
      stored := persisted;
      mode := Delivery;
      address := "";
      loading := false;
    }

    /** loadCart: the persisted cart, when there is one, becomes the held cart. */
    method LoadCart()
      modifies this`items
      ensures items == if stored.Some? then stored.value else old(items)
    {
      if stored.Some? {
        items := stored.value;
      }
    }

    /** saveCart: write storage first; only when that succeeds is the held cart replaced. */
    method SaveCart(newItems: seq<CartItem>, storageOk: bool)
      modifies this`items, this`stored
      ensures storageOk ==> items == newItems && stored == Some(newItems)
      ensures !storageOk ==> items == old(items) && stored == old(stored)
    {
      if storageOk {
        stored := Some(newItems);
        items := newItems;
      }
    }

    method UpdateQuantity(id: string, q: int, storageOk: bool)
      modifies this`items, this`stored
      ensures storageOk ==> items == UpdatedQuantity(old(items), id, q) && stored == Some(items)
      ensures !storageOk ==> items == old(items) && stored == old(stored)
    {
      if q <= 0 {
        RemoveItem(id, storageOk);
        return;
      }
      var updated := WithQuantity(items, id, q);
      SaveCart(updated, storageOk);
    }

    method RemoveItem(id: string, storageOk: bool)
      modifies this`items, this`stored
      ensures storageOk ==> items == WithoutItem(old(items), id) && stored == Some(items)
      ensures !storageOk ==> items == old(items) && stored == old(stored)
    {
      var updated := WithoutItem(items, id);
      SaveCart(updated, storageOk);
    }

    /** handleCheckout. `created` is the order endpoint's answer (the new order's id,
        or None when the call fails); `clearOk` says whether removing the storage key
        succeeds. The guards run before any request; the cart is emptied only after
        the order exists. */
    method Checkout(created: Option<string>, clearOk: bool) returns (sent: Option<OrderRequest>, outcome: CheckoutOutcome)
      modifies this`items, this`stored, this`loading
      ensures var check := CheckoutRequest(old(items), mode, address);
        && (check.Err? ==>
              sent == None && outcome == Rejected(check.error) &&
              items == old(items) && stored == old(stored) && loading == old(loading))
        && (check.Ok? ==> sent == Some(check.value) && !loading)
        && (check.Ok? && created.None? ==>
              outcome == CreationFailed && items == old(items) && stored == old(stored))
        && (check.Ok? && created.Some? && !clearOk ==>
              outcome == ClearFailed(created.value) && items == old(items) && stored == old(stored))
        && (check.Ok? && created.Some? && clearOk ==>
              outcome == Placed(created.value) && items == [] && stored == None)
    {
      if |items| == 0 {
        return None, Rejected(EmptyCart);
      }
      if mode == Delivery && address == "" {
        return None, Rejected(MissingAddress);
      }
      loading := true;
      var request := OrderRequest(items, mode, if mode == Delivery then Some(address) else None, Total(items, mode));
      sent := Some(request);
      if created.None? {
        outcome := CreationFailed;
      } else if !clearOk {
        outcome := ClearFailed(created.value);
      } else {
        stored := None;
        items := [];
        outcome := Placed(created.value);
      }
      loading := false;
    }
  }
}
