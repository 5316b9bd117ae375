/** The authentication routes: registration (duplicate phone check, user insert,
    optional pharmacy insert) and login (credential check). */
module AuthRoutes {
  import opened Common
  import opened Db

  const MockToken := "mock-jwt-token"

  /** The optional pharmacyDetails of a registration; the coordinates are left out. */
  datatype PharmacyDetails = PharmacyDetails(name: Option<string>, address: string)

  /** `pharmacyDetails.name || name`: a missing or empty name falls back to the user's. */
  function PharmacyName(details: PharmacyDetails, userName: string): (r: string)
    ensures details.name.Some? && details.name.value != "" ==> r == details.name.value
    ensures details.name.None? || details.name.value == "" ==> r == userName
  {
    match details.name
    case Some(n) => if n != "" then n else userName
    case None => userName
  }

  /** The pharmacy rows a registration inserts: one for a pharmacy account that
      supplied details, none otherwise. */
  function NewPharmacies(pharmacyId: nat, userId: nat, userName: string, role: Role,
                         details: Option<PharmacyDetails>): (r: seq<Pharmacy>)
    ensures |r| <= 1
    ensures r != [] <==> role == PharmacyOwner && details.Some?
    ensures r != [] ==>
      && r[0].id == pharmacyId && r[0].userId == userId
      && r[0].name == PharmacyName(details.value, userName)
      && r[0].address == details.value.address
      && r[0].verificationStatus == PendingVerification && !r[0].isVerified
  {
    if role == PharmacyOwner && details.Some? then
      [Pharmacy(pharmacyId, userId, PharmacyName(details.value, userName), details.value.address,
                PendingVerification, false)]
    else []
  }

  /** POST /register : 400 when the phone is taken, otherwise the new user's id.
      `pharmacyInsertOk` is the outcome of the pharmacy insert, which runs after the
      user insert and outside any transaction: when it fails the user row stays and
      the answer is the catch-all 500. */
  method Register(db: Store, name: string, phone: string, password: string, role: Role,
                  details: Option<PharmacyDetails>, pharmacyInsertOk: bool) returns (r: Result<nat, HttpError>)
    requires db.Valid()
    modifies db
    ensures db.Valid()
    ensures db.drugs == old(db.drugs) && db.stocks == old(db.stocks) && db.orders == old(db.orders)
    ensures UserByPhone(old(db.users), phone).Some? ==>
      && r == Err(HttpError(400, "User already exists"))
      && db.users == old(db.users) && db.pharmacies == old(db.pharmacies)
    ensures UserByPhone(old(db.users), phone).None? ==>
      db.users == old(db.users) + [User(|old(db.users)|, phone, password, name, role)]
    ensures UserByPhone(old(db.users), phone).None? ==>
      var added := NewPharmacies(|old(db.pharmacies)|, |old(db.users)|, name, role, details);
      if added == [] || pharmacyInsertOk then
        r == Ok(|old(db.users)|) && db.pharmacies == old(db.pharmacies) + added
      else
        r == Err(HttpError(500, "Server error")) && db.pharmacies == old(db.pharmacies)
    ensures UserByPhone(db.users, phone).Some?
    ensures UserByPhone(old(db.users), phone).None? ==>
      && Login(db.users, db.pharmacies, phone, password).Ok?
      && Login(db.users, db.pharmacies, phone, password).value.user.id == |old(db.users)|
  {
    if UserByPhone(db.users, phone).Some? {
      return Err(HttpError(400, "User already exists"));
    }
    var user := User(|db.users|, phone, password, name, role);
    var added := NewPharmacies(|db.pharmacies|, user.id, name, role, details);
    RegisteredTablesValid(db.users, db.pharmacies, db.drugs, db.stocks, db.orders, user, added);
    RegisteredTablesValid(db.users, db.pharmacies, db.drugs, db.stocks, db.orders, user, []);
    FindsNewUser(db.users, user);
    db.users := db.users + [user];
    if role == PharmacyOwner && details.Some? {
      if !pharmacyInsertOk {
        return Err(HttpError(500, "Server error"));
      }
      db.pharmacies := db.pharmacies + added;
    }
    r := Ok(user.id);
  }

  /** Appending a user with a free phone and the next id, and at most one pharmacy
      that this user owns, keeps the tables valid. */
  lemma RegisteredTablesValid(users: seq<User>, pharmacies: seq<Pharmacy>, drugs: seq<Drug>,
                              stocks: seq<Stock>, orders: seq<Order>, user: User, added: seq<Pharmacy>)
    requires TablesValid(users, pharmacies, drugs, stocks, orders)
    requires user.id == |users| && UserByPhone(users, user.phone).None?
    requires |added| <= 1
    requires added != [] ==> added[0].id == |pharmacies| && added[0].userId == user.id
    ensures TablesValid(users + [user], pharmacies + added, drugs, stocks, orders)
  {
    var us := users + [user];
    assert PhonesUnique(us) by {
      forall i, j | 0 <= i < j < |us| ensures us[i].phone != us[j].phone {
        if j == |users| {
          assert us[i] == users[i];
        }
      }
    }
    var ps := pharmacies + added;
    assert OwnersUnique(ps) by {
      forall i, j | 0 <= i < j < |ps| ensures ps[i].userId != ps[j].userId {
        if j == |pharmacies| {
          assert ps[i] == pharmacies[i];
        }
      }
    }
  }

  /** After appending a user whose phone was free, looking that phone up finds the
      new user. */
  lemma FindsNewUser(users: seq<User>, user: User)
    requires PhonesUnique(users + [user])
    ensures UserByPhone(users + [user], user.phone) == Some(user)
  {
    var all := users + [user];
    var found := UserByPhone(all, user.phone);
    var k :| 0 <= k < |all| && all[k] == found.value;
    assert all[|users|] == user;
  }

  /** The user part of a successful login answer. */
  datatype UserSummary = UserSummary(id: nat, name: string, role: Role, pharmacy: Option<Pharmacy>)

  datatype LoginResponse = LoginResponse(token: string, user: UserSummary)

  /** POST /login : the fixed token and the user's summary, or 401. */
  function Login(users: seq<User>, pharmacies: seq<Pharmacy>, phone: string, password: string)
      : (r: Result<LoginResponse, HttpError>)
    ensures r.Ok? <==> UserByPhone(users, phone).Some? && UserByPhone(users, phone).value.password == password
    ensures r.Err? ==> r.error == HttpError(401, "Invalid credentials")
    ensures r.Ok? ==>
      var u := UserByPhone(users, phone).value;
      r.value == LoginResponse(MockToken, UserSummary(u.id, u.name, u.role, PharmacyOfUser(pharmacies, u.id)))
  {
    match UserByPhone(users, phone)
    case None => Err(HttpError(401, "Invalid credentials"))
    case Some(u) =>
      if u.password != password then Err(HttpError(401, "Invalid credentials"))
      else Ok(LoginResponse(MockToken, UserSummary(u.id, u.name, u.role, PharmacyOfUser(pharmacies, u.id))))
  }

  /** The row `i` holds these credentials. */
  predicate HasCredentials(users: seq<User>, i: int, phone: string, password: string)
  {
    0 <= i < |users| && users[i].phone == phone && users[i].password == password
  }

  /** With unique phones, login succeeds exactly when some user has that phone and
      that password, and it answers with that user. */
  lemma LoginIffCredentials(users: seq<User>, pharmacies: seq<Pharmacy>, phone: string, password: string)
    requires PhonesUnique(users)
    ensures Login(users, pharmacies, phone, password).Ok? <==> exists i :: HasCredentials(users, i, phone, password)
    ensures forall i :: HasCredentials(users, i, phone, password) ==>
      Login(users, pharmacies, phone, password).value.user.id == users[i].id
  {
    var found := UserByPhone(users, phone);
    if found.Some? {
      var k :| 0 <= k < |users| && users[k] == found.value;
      assert forall i :: 0 <= i < |users| && users[i].phone == phone ==> i == k;
      if found.value.password == password {
        assert HasCredentials(users, k, phone, password);
      }
    }
  }
}
