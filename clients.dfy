/** Sequences of requests a client makes against a fresh database, and
    what the handlers answer. */
module Clients {
  import opened Common
  import opened Schema
  import opened Ledger
  import opened Registry
  import opened Access
  import opened Session
  import opened Store
  import opened Api

  function NewFamily(name: string): FamilyInput
  {
    FamilyInput(Present(name), Absent, Absent, Absent, Absent, Absent, Absent, Absent, Absent, Absent)
  }

  function Donate(name: string, quantity: int): DonationInput
  {
    DonationInput(Present(name), Absent, Absent, Present(quantity), Absent)
  }

  function Hand(family: Family, pickup: string, quantity: int): DistributionInput
  {
    DistributionInput(Present(family.id), Present(family.name), Present(pickup), Present(quantity), Absent)
  }

  /** A fresh database holding one family. */
  method Register(name: string) returns (store: Store, family: Family)
    requires name != ""
    ensures fresh(store) && store.Valid()
    ensures store.Stock() == 0 && store.distributions == []
    ensures store.families == [family]
  {
    store := new Store();
    EmptyLedger();
    var created := store.CreateFamily(NewFamily(name));
    assert created.Ok? by {
      assert AllInsertable(Submitted(NewFamily(name).children));
    }
    family := created.value.family;
  }

  /** A fresh database holding one family and one donation of `stock`
      baskets. */
  method Open(name: string, stock: int) returns (store: Store, family: Family)
    requires name != "" && stock != 0 && FitsInteger(stock)
    ensures fresh(store) && store.Valid()
    ensures store.Stock() == stock && store.distributions == []
    ensures family.id in FamilyIds(store.families)
  {
    store, family := Register(name);
    assert store.families[0] == family;
    Give(store, stock);
  }

  /** A donation of `quantity` baskets. */
  method Give(store: Store, quantity: int)
    requires store.Valid() && quantity != 0 && FitsInteger(quantity)
    modifies store
    ensures store.Valid() && store.Stock() == old(store.Stock()) + quantity
    ensures store.families == old(store.families) && store.distributions == old(store.distributions)
  {
    var r := store.CreateDonation(Donate("Bia", quantity));
  }

  /** A request for `quantity` baskets for `family`. */
  method Take(store: Store, family: Family, quantity: int) returns (r: Result<Distribution>)
    requires store.Valid() && quantity != 0 && FitsInteger(quantity)
    requires family.id in FamilyIds(store.families)
    modifies store
    ensures store.Valid() && store.families == old(store.families)
    ensures old(store.Stock()) < quantity ==>
              r == Err(InsufficientBaskets(old(store.Stock()))) && store.Stock() == old(store.Stock())
    ensures !(old(store.Stock()) < quantity) ==>
              && r.Ok? && r.value.quantity == quantity && r.value.familyId == family.id
              && store.Stock() == old(store.Stock()) - quantity
              && store.distributions == old(store.distributions) + [r.value]
  {
    r := store.CreateDistribution(Hand(family, "Rui", quantity), 0);
  }

  /** Donations of 20 and 5 make 25 available; a distribution of exactly
      25 passes the strict check and empties the stock; one more basket is
      refused with the available amount, 0. */
  method RestockAndEmpty() returns (afterDonations: int, afterFull: int, refused: Result<Distribution>)
    ensures afterDonations == 25 && afterFull == 0
    ensures refused == Err(InsufficientBaskets(0))
  {
    var store, family := Open("Silva", 20);
    Give(store, 5);
    afterDonations := store.Stock();
    var full := Take(store, family, 25);
    afterFull := store.Stock();
    refused := Take(store, family, 1);
  }

  /** Two requests for 6 baskets against a stock of 10, one after the
      other: the first is served, the second refused with 4 available, and
      4 remain. */
  method TwoRequestsForSix() returns (first: Result<Distribution>, second: Result<Distribution>, left: int)
    ensures first.Ok? && first.value.quantity == 6
    ensures second == Err(InsufficientBaskets(4))
    ensures left == 4
  {
    var store, family := Open("Souza", 10);
    first := Take(store, family, 6);
    second := Take(store, family, 6);
    left := store.Stock();
  }

  /** Deleting a family that has taken baskets makes them available
      again: 10 donated, 4 handed to the family, and after the deletion
      the stock is back to 10 with no distribution left. */
  method DeleteReturnsBaskets() returns (before: int, after: int, remaining: nat)
    ensures before == 6 && after == 10 && remaining == 0
  {
    var store, family := Open("Lima", 10);
    var handed := Take(store, family, 4);
    before := store.Stock();
    assert DistributionsOf(store.distributions, family.id) == store.distributions by {
      assert store.distributions == [] + [handed.value];
    }
    var deleted := store.DeleteFamily(family.id);
    after := store.Stock();
    remaining := |store.distributions|;
  }

  /** `init_db` run twice on an empty database: the second run adds
      nothing, and the administrator is the only user. */
  method SeedTwice(crypto: Crypto, salt: Salt) returns (store: Store)
    ensures fresh(store) && store.Valid()
    ensures store.users == [User(0, AdminName, HashPassword(crypto, AdminPassword, salt))]
    ensures CountNamed(store.users, AdminName) == 1
  {
    store := new Store();
    store.InitDb(crypto, salt);
    store.InitDb(crypto, salt);
  }

  /** `POST /api/auth/login` sent to the application: no guard, the
      handler's answer, and no table changes. */
  method LogIn(store: Store, cfg: Config, credentials: LoginInput, now: int) returns (reply: Reply)
    requires store.Valid()
    modifies store
    ensures store.Valid() && store.users == old(store.users)
    ensures reply == match Login(cfg, old(store.users), credentials, now)
                     case Ok(v) => LoggedIn(v)
                     case Err(f) => Failed(f)
  {
    reply := Serve(store, cfg, None, LoginRequest(credentials), now);
  }

  /** `GET /api/auth/me` sent to the application with the given
      `Authorization` header: once the guard admits it, the answer is the
      admitted user's id and name. */
  method AskMe(store: Store, cfg: Config, header: Option<string>, now: int) returns (reply: Reply)
    requires store.Valid()
    modifies store
    ensures Guard(cfg, header, now).Admit? ==>
              reply == Identity(Guard(cfg, header, now).user.userId, Guard(cfg, header, now).user.username)
  {
    reply := Serve(store, cfg, header, MeRequest, now);
  }

  /** After seeding, the administrator logs in with the default password
      and asks who they are: the token admits the request as the
      administrator. */
  method AdminSession(cfg: Config, salt: Salt, now: int) returns (login: Reply, me: Reply)
    requires Sound(cfg.crypto)
    ensures login == LoggedIn(LoginReply(GenerateToken(cfg, 0, AdminName, now), 0, AdminName))
    ensures me == Identity(0, AdminName)
  {
    var store := SeedTwice(cfg.crypto, salt);
    var credentials := LoginInput(Present(AdminName), Present(AdminPassword));
    SeededAdminLogsIn(cfg, [], 0, salt, now);
    assert [] + [User(0, AdminName, HashPassword(cfg.crypto, AdminPassword, salt))] == store.users;
    login := LogIn(store, cfg, credentials, now);
    LoginTokenAdmits(cfg, store.users, credentials, now, now);
    var header := Some("Bearer " + login.login.token);
    assert Guard(cfg, header, now) == Admit(Claims(0, AdminName, now + TokenLifetime));
    me := AskMe(store, cfg, header, now);
  }
}
