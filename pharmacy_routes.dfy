/** The pharmacy routes of the API: drug search, a pharmacy's inventory, adding
    stock, the dashboard counters, the order status patch, and the admin
    verification of pharmacies. */
module PharmacyRoutes {
  import opened Common
  import opened Db

  const LowStockThreshold := 10
  const CompletedStatus := "COMPLETED"
  const PendingStatus := "PENDING"
  const VerifiedStatus := "VERIFIED"

  /** The search test: the row's drug name contains the query (as the store compares
      it) and some units are left. */
  predicate SearchHit(drugs: seq<Drug>, s: Stock, q: string)
  {
    && s.quantity > 0
    && match DrugById(drugs, s.drugId)
       case Some(d) => Includes(d.name, q)
       case None => false
  }

  function SearchTest(drugs: seq<Drug>, q: string): Stock -> bool
  {
    (s: Stock) => SearchHit(drugs, s, q)
  }

  /** GET /search?q= : 400 without a query, otherwise the stocked rows whose drug
      name contains it. */
  function Search(drugs: seq<Drug>, stocks: seq<Stock>, q: Option<string>): (r: Result<seq<Stock>, HttpError>)
    ensures r.Err? <==> q.None? || q.value == ""
    ensures r.Err? ==> r.error == HttpError(400, "Query required")
    ensures r.Ok? ==> IsSubsequence(r.value, stocks)
    ensures r.Ok? ==> forall i :: 0 <= i < |r.value| ==>
      r.value[i].quantity > 0 && exists d :: d in drugs && d.id == r.value[i].drugId && Includes(d.name, q.value)
    ensures r.Ok? ==> forall i :: 0 <= i < |stocks| && SearchHit(drugs, stocks[i], q.value) ==> stocks[i] in r.value
  {
    if q.None? || q.value == "" then Err(HttpError(400, "Query required"))
    else
      var hits := Filter(stocks, SearchTest(drugs, q.value));
      assert forall i :: 0 <= i < |hits| ==> SearchHit(drugs, hits[i], q.value);
      Ok(hits)
  }

  /** A query that no stocked drug name contains finds nothing. */
  lemma SearchMiss(drugs: seq<Drug>, stocks: seq<Stock>, q: string)
    requires q != ""
    requires forall d :: d in drugs ==> !Includes(d.name, q)
    ensures Search(drugs, stocks, Some(q)) == Ok([])
  {
    forall i | 0 <= i < |stocks| ensures !SearchTest(drugs, q)(stocks[i]) {
      var d := DrugById(drugs, stocks[i].drugId);
      assert d.Some? ==> d.value in drugs;
    }
    FilterNone(stocks, SearchTest(drugs, q));
  }

  /** The where-clauses of the stock queries, each a named function so that every
      use denotes the same test value (two lambda expressions written separately
      are not known to be equal). */
  function OfPharmacy(pharmacyId: nat): Stock -> bool
  {
    (s: Stock) => s.pharmacyId == pharmacyId
  }

  function LowTest(): Stock -> bool
  {
    (s: Stock) => s.quantity <= LowStockThreshold
  }

  function LowStockOf(pharmacyId: nat): Stock -> bool
  {
    (s: Stock) => s.pharmacyId == pharmacyId && s.quantity <= LowStockThreshold
  }

  /** GET /:pharmacyId/inventory : the pharmacy's stock rows. */
  function Inventory(stocks: seq<Stock>, pharmacyId: nat): (r: seq<Stock>)
    ensures IsSubsequence(r, stocks)
    ensures forall i :: 0 <= i < |r| ==> r[i].pharmacyId == pharmacyId
    ensures forall i :: 0 <= i < |stocks| && stocks[i].pharmacyId == pharmacyId ==> stocks[i] in r
  {
    Filter(stocks, OfPharmacy(pharmacyId))
  }

  /** POST /inventory : reuse the first drug of that name or create one, then
      always insert a new stock row. A pharmacy id with no row makes the insert
      fail; the drug created before it stays. */
  method AddInventory(db: Store, pharmacyId: nat, drugName: string, quantity: int, price: int)
      returns (r: Result<Stock, HttpError>)
    requires db.Valid()
    modifies db
    ensures db.Valid()
    ensures db.users == old(db.users) && db.pharmacies == old(db.pharmacies) && db.orders == old(db.orders)
    ensures FirstDrugNamed(old(db.drugs), drugName).Some? ==> db.drugs == old(db.drugs)
    ensures FirstDrugNamed(old(db.drugs), drugName).None? ==>
      db.drugs == old(db.drugs) + [Drug(|old(db.drugs)|, drugName)]
    ensures pharmacyId < |db.pharmacies| ==>
      && r.Ok? && db.stocks == old(db.stocks) + [r.value]
      && r.value.id == |old(db.stocks)| && r.value.pharmacyId == pharmacyId
      && r.value.quantity == quantity && r.value.price == price
      && r.value.drugId < |db.drugs| && db.drugs[r.value.drugId].name == drugName
      && (FirstDrugNamed(old(db.drugs), drugName).Some? ==>
            r.value.drugId == FirstDrugNamed(old(db.drugs), drugName).value.id)
    ensures pharmacyId >= |db.pharmacies| ==>
      r == Err(HttpError(500, "Update failed")) && db.stocks == old(db.stocks)
  {
    var drug := FirstDrugNamed(db.drugs, drugName);
    var d: Drug;
    if drug.None? {
      d := Drug(|db.drugs|, drugName);
      db.drugs := db.drugs + [d];
    } else {
      d := drug.value;
    }
    if pharmacyId >= |db.pharmacies| {
      return Err(HttpError(500, "Update failed"));
    }
    var stock := Stock(|db.stocks|, pharmacyId, d.id, quantity, price);
    db.stocks := db.stocks + [stock];
    r := Ok(stock);
  }

  /** The dashboard counters. */
  datatype Stats = Stats(dailySales: int, totalOrders: nat, pendingOrders: nat, lowStock: nat)

  function SumTotalPrice(orders: seq<Order>): int
  {
    if orders == [] then 0 else orders[0].totalPrice + SumTotalPrice(orders[1..])
  }

  /** The order tests of the three order counters, named for the same reason as
      the stock tests. */
  function SoldOn(pharmacyId: nat, dayStart: int): Order -> bool
  {
    (o: Order) => o.pharmacyId == pharmacyId && o.createdAt >= dayStart && o.status == CompletedStatus
  }

  function PlacedOn(pharmacyId: nat, dayStart: int): Order -> bool
  {
    (o: Order) => o.pharmacyId == pharmacyId && o.createdAt >= dayStart
  }

  function IsCompleted(): Order -> bool
  {
    (o: Order) => o.status == CompletedStatus
  }

  function AwaitingAt(pharmacyId: nat): Order -> bool
  {
    (o: Order) => o.pharmacyId == pharmacyId && o.status == PendingStatus
  }

  /** GET /:pharmacyId/stats, with the start of the current day passed in. */
  function PharmacyStats(orders: seq<Order>, stocks: seq<Stock>, pharmacyId: nat, dayStart: int): (r: Stats)
    ensures r.lowStock == |Filter(Inventory(stocks, pharmacyId), LowTest())|
    ensures r.dailySales == SumTotalPrice(Filter(Filter(orders, PlacedOn(pharmacyId, dayStart)), IsCompleted()))
    ensures (forall i :: 0 <= i < |orders| ==> !SoldOn(pharmacyId, dayStart)(orders[i])) ==> r.dailySales == 0
    ensures (forall i :: 0 <= i < |orders| ==> orders[i].totalPrice >= 0) ==> r.dailySales >= 0
    ensures |Filter(orders, SoldOn(pharmacyId, dayStart))| <= r.totalOrders
    ensures r.totalOrders
         == |set i: nat | i < |orders| && orders[i].pharmacyId == pharmacyId && orders[i].createdAt >= dayStart|
    ensures r.pendingOrders
         == |set i: nat | i < |orders| && orders[i].pharmacyId == pharmacyId && orders[i].status == PendingStatus|
    ensures r.lowStock
         == |set i: nat | i < |stocks| && stocks[i].pharmacyId == pharmacyId && stocks[i].quantity <= LowStockThreshold|
  {
    var sales := Filter(orders, SoldOn(pharmacyId, dayStart));
    var today := Filter(orders, PlacedOn(pharmacyId, dayStart));
    var pending := Filter(orders, AwaitingAt(pharmacyId));
    var low := Filter(stocks, LowStockOf(pharmacyId));
    LowStockOfInventory(stocks, pharmacyId);
    SalesOfToday(orders, pharmacyId, dayStart);
    DailySalesBounds(orders, SoldOn(pharmacyId, dayStart));
    TotalOrdersCount(orders, pharmacyId, dayStart);
    PendingOrdersCount(orders, pharmacyId);
    LowStockCount(stocks, pharmacyId);
    Stats(SumTotalPrice(sales), |today|, |pending|, |low|)
  }

  /** totalOrders counts the pharmacy's rows created since the start of the day. */
  lemma TotalOrdersCount(orders: seq<Order>, pharmacyId: nat, dayStart: int)
    ensures |Filter(orders, PlacedOn(pharmacyId, dayStart))|
         == |set i: nat | i < |orders| && orders[i].pharmacyId == pharmacyId && orders[i].createdAt >= dayStart|
  {
    FilterCount(orders, PlacedOn(pharmacyId, dayStart));
    assert PassingPositions(orders, PlacedOn(pharmacyId, dayStart))
        == set i: nat | i < |orders| && orders[i].pharmacyId == pharmacyId && orders[i].createdAt >= dayStart;
  }

  /** pendingOrders counts the pharmacy's PENDING rows, whatever their date. */
  lemma PendingOrdersCount(orders: seq<Order>, pharmacyId: nat)
    ensures |Filter(orders, AwaitingAt(pharmacyId))|
         == |set i: nat | i < |orders| && orders[i].pharmacyId == pharmacyId && orders[i].status == PendingStatus|
  {
    FilterCount(orders, AwaitingAt(pharmacyId));
    assert PassingPositions(orders, AwaitingAt(pharmacyId))
        == set i: nat | i < |orders| && orders[i].pharmacyId == pharmacyId && orders[i].status == PendingStatus;
  }

  /** lowStock counts the pharmacy's stock rows with at most ten units. */
  lemma LowStockCount(stocks: seq<Stock>, pharmacyId: nat)
    ensures |Filter(stocks, LowStockOf(pharmacyId))|
         == |set i: nat | i < |stocks| && stocks[i].pharmacyId == pharmacyId && stocks[i].quantity <= LowStockThreshold|
  {
    FilterCount(stocks, LowStockOf(pharmacyId));
    assert PassingPositions(stocks, LowStockOf(pharmacyId))
        == set i: nat | i < |stocks| && stocks[i].pharmacyId == pharmacyId && stocks[i].quantity <= LowStockThreshold;
  }

  /** No matching order means no sales; non-negative prices mean non-negative sales. */
  lemma DailySalesBounds(orders: seq<Order>, sold: Order -> bool)
    ensures (forall i :: 0 <= i < |orders| ==> !sold(orders[i])) ==> SumTotalPrice(Filter(orders, sold)) == 0
    ensures (forall i :: 0 <= i < |orders| ==> orders[i].totalPrice >= 0) ==> SumTotalPrice(Filter(orders, sold)) >= 0
  {
    if forall i :: 0 <= i < |orders| ==> !sold(orders[i]) {
      FilterNone(orders, sold);
    }
    if forall i :: 0 <= i < |orders| ==> orders[i].totalPrice >= 0 {
      SalesBounded(orders, sold);
    }
  }

  /** The day's sales rows are the completed rows among the day's orders. */
  lemma SalesOfToday(orders: seq<Order>, pharmacyId: nat, dayStart: int)
    ensures Filter(orders, SoldOn(pharmacyId, dayStart))
         == Filter(Filter(orders, PlacedOn(pharmacyId, dayStart)), IsCompleted())
  {
    FilterBoth(orders, PlacedOn(pharmacyId, dayStart), IsCompleted(), SoldOn(pharmacyId, dayStart));
  }

  /** The low-stock counter counts exactly the inventory listing's rows with at most
      ten units. */
  lemma LowStockOfInventory(stocks: seq<Stock>, pharmacyId: nat)
    ensures Filter(stocks, LowStockOf(pharmacyId)) == Filter(Inventory(stocks, pharmacyId), LowTest())
  {
    FilterBoth(stocks, OfPharmacy(pharmacyId), LowTest(), LowStockOf(pharmacyId));
  }

  /** The day's sales are the sum of the completed orders' prices; with non-negative
      prices they are never negative and never exceed the sum over all the orders. */
  lemma {:induction false} SalesBounded(orders: seq<Order>, p: Order -> bool)
    requires forall i :: 0 <= i < |orders| ==> orders[i].totalPrice >= 0
    ensures 0 <= SumTotalPrice(Filter(orders, p)) <= SumTotalPrice(orders)
  {
    if orders != [] {
      SalesBounded(orders[1..], p);
    }
  }

  /** PATCH /orders/:orderId/status : writes whatever status it is sent. */
  method UpdateOrderStatus(db: Store, orderId: nat, status: string) returns (r: Result<Order, HttpError>)
    requires db.Valid()
    modifies db
    ensures db.Valid()
    ensures db.users == old(db.users) && db.pharmacies == old(db.pharmacies)
    ensures db.drugs == old(db.drugs) && db.stocks == old(db.stocks)
    ensures orderId < |old(db.orders)| ==>
      r == Ok(old(db.orders)[orderId].(status := status))
      && db.orders == old(db.orders)[orderId := r.value]
    ensures orderId >= |old(db.orders)| ==>
      r == Err(HttpError(500, "Update status failed")) && db.orders == old(db.orders)
  {
    if orderId >= |db.orders| {
      return Err(HttpError(500, "Update status failed"));
    }
    var updated := db.orders[orderId].(status := status);
    db.orders := db.orders[orderId := updated];
    r := Ok(updated);
  }

  /** The pharmacy tests of the pending list and of the verification lemmas, named
      for the same reason as the stock tests. */
  function IsPending(): Pharmacy -> bool
  {
    (p: Pharmacy) => p.verificationStatus == PendingVerification
  }

  function NotId(pharmacyId: nat): Pharmacy -> bool
  {
    (p: Pharmacy) => p.id != pharmacyId
  }

  function PendingExcept(pharmacyId: nat): Pharmacy -> bool
  {
    (p: Pharmacy) => p.verificationStatus == PendingVerification && p.id != pharmacyId
  }

  /** GET /admin/pending : the pharmacies still awaiting verification. */
  function PendingPharmacies(pharmacies: seq<Pharmacy>): (r: seq<Pharmacy>)
    ensures IsSubsequence(r, pharmacies)
    ensures forall i :: 0 <= i < |r| ==> r[i].verificationStatus == PendingVerification
    ensures forall i :: 0 <= i < |pharmacies| && pharmacies[i].verificationStatus == PendingVerification ==>
      pharmacies[i] in r
  {
    Filter(pharmacies, IsPending())
  }

  /** The pharmacy table after the verify patch of one row. */
  function WithVerification(pharmacies: seq<Pharmacy>, pharmacyId: nat, status: string): (r: seq<Pharmacy>)
    requires pharmacyId < |pharmacies|
    ensures |r| == |pharmacies|
    ensures r[pharmacyId].verificationStatus == status
    ensures r[pharmacyId].isVerified <==> status == VerifiedStatus
    ensures r[pharmacyId].(verificationStatus := pharmacies[pharmacyId].verificationStatus,
                           isVerified := pharmacies[pharmacyId].isVerified) == pharmacies[pharmacyId]
    ensures forall i :: 0 <= i < |r| && i != pharmacyId ==> r[i] == pharmacies[i]
  {
    pharmacies[pharmacyId := pharmacies[pharmacyId].(verificationStatus := status,
                                                      isVerified := status == VerifiedStatus)]
  }

  /** Dropping one id from the pending list is filtering by the combined test. */
  lemma PendingWithoutId(pharmacies: seq<Pharmacy>, pharmacyId: nat)
    ensures Filter(PendingPharmacies(pharmacies), NotId(pharmacyId)) == Filter(pharmacies, PendingExcept(pharmacyId))
  {
    FilterBoth(pharmacies, IsPending(), NotId(pharmacyId), PendingExcept(pharmacyId));
  }

  /** In a table where row `k` is not pending and every other row has its own
      position as id, the pending rows are the pending rows other than `k`. */
  lemma PendingOfPatched(after: seq<Pharmacy>, k: nat)
    requires k < |after| && !IsPending()(after[k])
    requires forall i :: 0 <= i < |after| && i != k ==> after[i].id == i
    ensures Filter(after, IsPending()) == Filter(after, PendingExcept(k))
  {
    var others := PendingExcept(k);
    forall i | 0 <= i < |after| ensures IsPending()(after[i]) == others(after[i]) {
    }
    FilterSameTest(after, IsPending(), others);
  }

  /** A pharmacy given any status other than PENDING (VERIFIED or REJECTED in
      practice) drops out of the pending list, and the list loses nothing else. */
  lemma VerifyLeavesPendingList(pharmacies: seq<Pharmacy>, pharmacyId: nat, status: string)
    requires pharmacyId < |pharmacies|
    requires forall i :: 0 <= i < |pharmacies| ==> pharmacies[i].id == i
    requires status != PendingVerification
    ensures PendingPharmacies(WithVerification(pharmacies, pharmacyId, status))
         == Filter(PendingPharmacies(pharmacies), NotId(pharmacyId))
  {
    var after := WithVerification(pharmacies, pharmacyId, status);
    PendingWithoutId(pharmacies, pharmacyId);
    PendingOfPatched(after, pharmacyId);
    FilterSameOutside(after, pharmacies, PendingExcept(pharmacyId), pharmacyId);
  }

  /** PATCH /admin/:pharmacyId/verify */
  method VerifyPharmacy(db: Store, pharmacyId: nat, status: string) returns (r: Result<Pharmacy, HttpError>)
    requires db.Valid()
    modifies db
    ensures db.Valid()
    ensures db.users == old(db.users) && db.drugs == old(db.drugs)
    ensures db.stocks == old(db.stocks) && db.orders == old(db.orders)
    ensures pharmacyId < |old(db.pharmacies)| ==>
      db.pharmacies == WithVerification(old(db.pharmacies), pharmacyId, status)
      && r == Ok(db.pharmacies[pharmacyId])
    ensures pharmacyId >= |old(db.pharmacies)| ==>
      r == Err(HttpError(500, "Verification failed")) && db.pharmacies == old(db.pharmacies)
  {
    if pharmacyId >= |db.pharmacies| {
      return Err(HttpError(500, "Verification failed"));
    }
    db.pharmacies := WithVerification(db.pharmacies, pharmacyId, status);
    r := Ok(db.pharmacies[pharmacyId]);
  }
}
