/** The server's relational store (users, pharmacies, drugs, stock rows, orders),
    held as in-memory tables, and the HTTP error answers of the routes. Row ids are
    row positions: new rows are appended and no row is ever deleted or reordered,
    so positions identify rows. */
module Db {
  import opened Common

  datatype Role = Patient | PharmacyOwner | Admin

  datatype User = User(id: nat, phone: string, password: string, name: string, role: Role)

  datatype Pharmacy = Pharmacy(
    id: nat, userId: nat, name: string, address: string,
    verificationStatus: string, isVerified: bool)

  datatype Drug = Drug(id: nat, name: string)

  datatype Stock = Stock(id: nat, pharmacyId: nat, drugId: nat, quantity: int, price: int)

  datatype Order = Order(id: nat, patientId: nat, pharmacyId: nat, status: string, totalPrice: int, createdAt: int)

  /** An error answer: HTTP status code and the `error` text of the body. */
  datatype HttpError = HttpError(code: nat, message: string)

  /** Verification status a new pharmacy row starts with. */
  const PendingVerification := "PENDING"

  /** No phone number belongs to two users (the unique index on User.phone). */
  predicate PhonesUnique(users: seq<User>)
  {
    forall i, j :: 0 <= i < j < |users| ==> users[i].phone != users[j].phone
  }

  /** No user owns two pharmacies (the one-to-one owner relation). */
  predicate OwnersUnique(pharmacies: seq<Pharmacy>)
  {
    forall i, j :: 0 <= i < j < |pharmacies| ==> pharmacies[i].userId != pharmacies[j].userId
  }

  /** Ids are positions, unique keys hold, and every foreign key names an existing row. */
  predicate TablesValid(users: seq<User>, pharmacies: seq<Pharmacy>, drugs: seq<Drug>,
                        stocks: seq<Stock>, orders: seq<Order>)
  {
    && (forall i :: 0 <= i < |users| ==> users[i].id == i)
    && PhonesUnique(users)
    && (forall i :: 0 <= i < |pharmacies| ==> pharmacies[i].id == i && pharmacies[i].userId < |users|)
    && OwnersUnique(pharmacies)
    && (forall i :: 0 <= i < |drugs| ==> drugs[i].id == i)
    && (forall i :: 0 <= i < |stocks| ==>
          stocks[i].id == i && stocks[i].pharmacyId < |pharmacies| && stocks[i].drugId < |drugs|)
    && (forall i :: 0 <= i < |orders| ==>
          orders[i].id == i && orders[i].pharmacyId < |pharmacies| && orders[i].patientId < |users|)
  }

  /** The user with this phone (the findUnique lookup). */
  function UserByPhone(users: seq<User>, phone: string): (r: Option<User>)
    ensures r.None? <==> forall i :: 0 <= i < |users| ==> users[i].phone != phone
    ensures r.Some? ==> r.value in users && r.value.phone == phone
  {
    match FindIndex(users, (u: User) => u.phone == phone)
    case None => None
    case Some(i) => Some(users[i])
  }

  /** The pharmacy a user owns, if any. */
  function PharmacyOfUser(pharmacies: seq<Pharmacy>, userId: nat): (r: Option<Pharmacy>)
    ensures r.None? <==> forall i :: 0 <= i < |pharmacies| ==> pharmacies[i].userId != userId
    ensures r.Some? ==> r.value in pharmacies && r.value.userId == userId
  {
    match FindIndex(pharmacies, (p: Pharmacy) => p.userId == userId)
    case None => None
    case Some(i) => Some(pharmacies[i])
  }

  /** The first drug with exactly this name (the findFirst lookup). */
  function FirstDrugNamed(drugs: seq<Drug>, name: string): (r: Option<Drug>)
    ensures r.None? <==> forall i :: 0 <= i < |drugs| ==> drugs[i].name != name
    ensures r.Some? ==> r.value in drugs && r.value.name == name
  {
    match FindIndex(drugs, (d: Drug) => d.name == name)
    case None => None
    case Some(i) => Some(drugs[i])
  }

  /** The drug row with this id. */
  function DrugById(drugs: seq<Drug>, id: nat): (r: Option<Drug>)
    ensures r.None? <==> forall i :: 0 <= i < |drugs| ==> drugs[i].id != id
    ensures r.Some? ==> r.value in drugs && r.value.id == id
  {
    match FindIndex(drugs, (d: Drug) => d.id == id)
    case None => None
    case Some(i) => Some(drugs[i])
  }

  class Store {
    var users: seq<User>
    var pharmacies: seq<Pharmacy>
    var drugs: seq<Drug>
    var stocks: seq<Stock>
    var orders: seq<Order>

    predicate Valid()
      reads this
    {
      TablesValid(users, pharmacies, drugs, stocks, orders)
    }

    /** A store holding the given tables (seeded rows, or orders placed elsewhere). */
    constructor (users0: seq<User>, pharmacies0: seq<Pharmacy>, drugs0: seq<Drug>,
                 stocks0: seq<Stock>, orders0: seq<Order>)
      requires TablesValid(users0, pharmacies0, drugs0, stocks0, orders0)
      ensures Valid()
      ensures users == users0 && pharmacies == pharmacies0 && drugs == drugs0
      ensures stocks == stocks0 && orders == orders0
    {
      users, pharmacies, drugs, stocks, orders := users0, pharmacies0, drugs0, stocks0, orders0;
    }
  }
}
