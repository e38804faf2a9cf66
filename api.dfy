/** The routes of the application: every request except login passes the
    `token_required` guard first; then the blueprint's handler runs against
    the store. The reply stands for the JSON body and its status. */
module Api {
  import opened Common
  import opened Schema
  import opened Ledger
  import opened Registry
  import opened Dashboard
  import opened Access
  import opened Session
  import opened Store

  datatype Request =
    | LoginRequest(credentials: LoginInput)
    | MeRequest
    | LogoutRequest
    | ListFamiliesRequest
    | GetFamilyRequest(familyId: Uuid)
    | CreateFamilyRequest(family: FamilyInput)
    | UpdateFamilyRequest(familyId: Uuid, body: Option<FamilyInput>)
    | DeleteFamilyRequest(familyId: Uuid)
    | ListDonationsRequest
    | CreateDonationRequest(donation: DonationInput)
    | TotalDonationsRequest
    | ListDistributionsRequest
    | CreateDistributionRequest(distribution: DistributionInput)
    | TotalDistributionsRequest
    | StatsRequest

  /** The requests whose handlers only read. */
  predicate ReadOnly(req: Request)
  {
    !(req.CreateFamilyRequest? || req.UpdateFamilyRequest? || req.DeleteFamilyRequest?
      || req.CreateDonationRequest? || req.CreateDistributionRequest?)
  }

  datatype Reply =
    | LoggedIn(login: LoginReply)
    | Identity(userId: Uuid, username: string)
    | Note(text: string)
    | Families(records: seq<FamilyRecord>)
    | FamilyCreated(record: FamilyRecord)
    | FamilyFound(record: FamilyRecord)
    | Donations(donations: seq<Donation>)
    | DonationCreated(donation: Donation)
    | Distributions(distributions: seq<Distribution>)
    | DistributionCreated(distribution: Distribution)
    | Total(total: int)
    | StatsReply(stats: Stats)
    | Failed(failure: Failure)

  /** The HTTP status of a reply. */
  function StatusOf(reply: Reply): (code: int)
    ensures reply.Failed? ==> code == Status(reply.failure) && code >= 400
    ensures !reply.Failed? ==> code == 200 || code == 201
  {
    match reply
    case Failed(f) => Status(f)
    case FamilyCreated(_) => 201
    case DonationCreated(_) => 201
    case DistributionCreated(_) => 201
    case _ => 200
  }

  predicate FamilyRoute(req: Request)
  {
    req.ListFamiliesRequest? || req.GetFamilyRequest? || req.CreateFamilyRequest?
    || req.UpdateFamilyRequest? || req.DeleteFamilyRequest?
  }

  predicate LedgerRoute(req: Request)
  {
    req.ListDonationsRequest? || req.CreateDonationRequest? || req.TotalDonationsRequest?
    || req.ListDistributionsRequest? || req.CreateDistributionRequest?
    || req.TotalDistributionsRequest? || req.StatsRequest?
  }

  /** What a family route answers, from the tables it starts with. A
      handler's own refusals are 400, 404 or 500, never the guard's 401. */
  function FamilyAnswer(t: Tables, req: Request): (reply: Reply)
    requires FamilyRoute(req)
    ensures reply.Failed? ==> Status(reply.failure) != 401
  {
    match req
    case ListFamiliesRequest => Families(ListFamilies(t.families, t.children))
    case GetFamilyRequest(id) =>
      var r := GetFamily(t.families, t.children, id);
      if r.Ok? then FamilyFound(r.value) else Failed(r.failure)
    case CreateFamilyRequest(input) =>
      var kids := Submitted(input.children);
      if !Nonempty(input.name) then Failed(FamilyNameRequired)
      else if !AllInsertable(kids) then Failed(StoreError("Erro ao criar família"))
      else FamilyCreated(FamilyRecord(FamilyRow(input, t.nextId, t.clock, t.clock),
                                      ChildRows(kids, t.nextId, t.nextId + 1)))
    case UpdateFamilyRequest(id, body) =>
      if body.None? then Failed(StoreError("Erro ao atualizar família"))
      else
        var k := FamilyIndex(t.families, id);
        var kids := Submitted(body.value.children);
        if k.None? then Failed(FamilyNotFound)
        else if !body.value.name.Present? || !AllInsertable(kids) then Failed(StoreError("Erro ao atualizar família"))
        else FamilyFound(FamilyRecord(FamilyRow(body.value, id, t.families[k.value].createdAt, t.clock),
                                      ChildRows(kids, id, t.nextId)))
    case DeleteFamilyRequest(id) =>
      if id in FamilyIds(t.families) then Note(FamilyDeletedMessage) else Failed(FamilyNotFound)
  }

  /** What a ledger or dashboard route answers, from the tables it starts
      with; `now` is the local time a distribution without a date takes. */
  function LedgerAnswer(t: Tables, req: Request, now: int): (reply: Reply)
    requires LedgerRoute(req)
    ensures reply.Failed? ==> Status(reply.failure) != 401
  {
    match req
    case ListDonationsRequest => Donations(ListDonations(t.donations))
    case TotalDonationsRequest => Total(TotalDonated(t.donations))
    case ListDistributionsRequest => Distributions(ListDistributions(t.distributions))
    case TotalDistributionsRequest => Total(TotalDistributed(t.distributions))
    case StatsRequest => StatsReply(GetStats(t.families, t.donations, t.distributions))
    case CreateDonationRequest(input) =>
      if !DonationComplete(input) then Failed(IncompleteData)
      else
        var row := DonationRow(input, t.nextId, t.clock);
        if row.None? then Failed(StoreError("Erro ao criar doação")) else DonationCreated(row.value)
    case CreateDistributionRequest(input) =>
      var available := Available(t.donations, t.distributions);
      if !DistributionComplete(input) then Failed(IncompleteData)
      else if available < input.quantity.value then Failed(InsufficientBaskets(available))
      else
        var row := DistributionRow(input, t.families, t.nextId, now, t.clock);
        if row.None? then Failed(StoreError("Erro ao criar distribuição")) else DistributionCreated(row.value)
  }

  /** The tables a family route leaves, from the tables it starts with:
      a create appends the family row and its child rows and moves the id
      generator past them, an update rewrites the family's row in place
      and replaces its children, a delete cascades to the family's
      children and distributions, and a read or a refused write leaves
      the tables as they were. The clock ticks once per create or update. */
  function FamilyAfter(t: Tables, req: Request): Tables
    requires FamilyRoute(req)
  {
    match req
    case CreateFamilyRequest(input) =>
      var kids := Submitted(input.children);
      if !Nonempty(input.name) || !AllInsertable(kids) then t
      else t.(families := t.families + [FamilyRow(input, t.nextId, t.clock, t.clock)],
              children := t.children + ChildRows(kids, t.nextId, t.nextId + 1),
              nextId := t.nextId + 1 + |kids|,
              clock := t.clock + 1)
    case UpdateFamilyRequest(id, body) =>
      var k := FamilyIndex(t.families, id);
      if body.None? || k.None? || !body.value.name.Present? then t
      else
        var kids := Submitted(body.value.children);
        if !AllInsertable(kids) then t
        else t.(families := t.families[k.value := FamilyRow(body.value, id, t.families[k.value].createdAt, t.clock)],
                children := ChildrenNotOf(t.children, id) + ChildRows(kids, id, t.nextId),
                nextId := t.nextId + |kids|,
                clock := t.clock + 1)
    case DeleteFamilyRequest(id) =>
      if id !in FamilyIds(t.families) then t
      else t.(families := FamiliesNot(t.families, id),
              children := ChildrenNotOf(t.children, id),
              distributions := DistributionsNotOf(t.distributions, id))
    case _ => t
  }

  /** The tables a ledger or dashboard route leaves: a created donation or
      distribution is appended and takes the next id and clock value; a
      read or a refused write leaves the tables as they were. */
  function LedgerAfter(t: Tables, req: Request, now: int): Tables
    requires LedgerRoute(req)
  {
    match req
    case CreateDonationRequest(input) =>
      if !DonationComplete(input) then t
      else
        var row := DonationRow(input, t.nextId, t.clock);
        if row.None? then t
        else t.(donations := t.donations + [row.value], nextId := t.nextId + 1, clock := t.clock + 1)
    case CreateDistributionRequest(input) =>
      if !DistributionComplete(input) || Available(t.donations, t.distributions) < input.quantity.value then t
      else
        var row := DistributionRow(input, t.families, t.nextId, now, t.clock);
        if row.None? then t
        else t.(distributions := t.distributions + [row.value], nextId := t.nextId + 1, clock := t.clock + 1)
    case _ => t
  }

  /** The tables any request leaves once the guard has admitted it. */
  function After(t: Tables, req: Request, now: int): Tables
  {
    if FamilyRoute(req) then FamilyAfter(t, req)
    else if LedgerRoute(req) then LedgerAfter(t, req, now)
    else t
  }

  /** A request its handler refuses writes nothing: the tables it leaves
      are the tables it found. */
  lemma RefusalWritesNothing(t: Tables, user: Claims, req: Request, now: int)
    requires !req.LoginRequest?
    ensures Answer(t, user, req, now).Failed? ==> After(t, req, now) == t
  {
  }

  /** The reference answers and tables move the stock as `StockMoves`
      says: a created donation adds its quantity, a created distribution
      takes its quantity and was checked against the stock, a delete gives
      back what the family's distributions had taken. */
  lemma {:induction false} AfterMovesStock(t: Tables, user: Claims, req: Request, now: int)
    requires !req.LoginRequest?
    ensures StockMoves(req, Answer(t, user, req, now), t, After(t, req, now))
  {
    var reply := Answer(t, user, req, now);
    match req
    case CreateDonationRequest(input) =>
      if reply.DonationCreated? {
        DonationRaisesStock(t.donations, t.distributions, reply.donation);
      }
    case CreateDistributionRequest(input) =>
      if reply.DistributionCreated? {
        DistributionLowersStock(t.donations, t.distributions, reply.distribution);
      }
    case DeleteFamilyRequest(id) =>
      CascadeReturnsStock(t.donations, t.distributions, id);
    case _ =>
  }

  /** One request. The guard decides before any handler runs: a refused
      request is answered 401 and leaves the store untouched. Reads change
      nothing, a failed write changes nothing, an admitted request gets
      its route's `Answer` and leaves the tables `After` gives, and the
      stock moves as `StockMoves` says. */
  method Serve(store: Store, cfg: Config, header: Option<string>, req: Request, now: int)
    returns (reply: Reply)
    requires store.Valid()
    modifies store
    ensures store.Valid()
    ensures !req.LoginRequest? && Guard(cfg, header, now).Refuse? ==>
              reply == Failed(Guard(cfg, header, now).failure) && StatusOf(reply) == 401
    ensures !req.LoginRequest? && Guard(cfg, header, now).Refuse? ==> unchanged(store)
    ensures ReadOnly(req) ==> unchanged(store)
    ensures reply.Failed? ==> store.Snap() == old(store.Snap())
    ensures req.LoginRequest? ==>
              reply == match Login(cfg, old(store.users), req.credentials, now)
                       case Ok(v) => LoggedIn(v)
                       case Err(f) => Failed(f)
    ensures !req.LoginRequest? && Guard(cfg, header, now).Admit? ==>
              reply == Answer(old(store.Snap()), Guard(cfg, header, now).user, req, now)
    ensures !req.LoginRequest? && Guard(cfg, header, now).Admit? ==>
              store.Snap() == After(old(store.Snap()), req, now)
    ensures StockMoves(req, reply, old(store.Snap()), store.Snap())
  {
    if req.LoginRequest? {
      var r := Login(cfg, store.users, req.credentials, now);
      return if r.Ok? then LoggedIn(r.value) else Failed(r.failure);
    }
    var verdict := Guard(cfg, header, now);
    if verdict.Refuse? {
      return Failed(verdict.failure);
    }
    reply := ServeAdmitted(store, verdict.user, req, now);
  }

  /** The reply to a request the guard admitted with the claims `user`,
      given the tables the request starts from: `/me` echoes the claims,
      logout answers with its message, and every other route answers as
      its handler does on its own. A handler's refusals are never the
      guard's 401. */
  function Answer(t: Tables, user: Claims, req: Request, now: int): (reply: Reply)
    requires !req.LoginRequest?
    ensures reply.Failed? ==> StatusOf(reply) != 401
    ensures req.MeRequest? ==> reply == Identity(user.userId, user.username)
    ensures req.LogoutRequest? ==> reply == Note(LogoutMessage)
  {
    if req.MeRequest? then
      var me := Me(user);
      Identity(me.0, me.1)
    else if req.LogoutRequest? then Note(LogoutMessage)
    else if FamilyRoute(req) then FamilyAnswer(t, req)
    else LedgerAnswer(t, req, now)
  }

  /** A request past the guard, dispatched to its route. */
  method ServeAdmitted(store: Store, user: Claims, req: Request, now: int) returns (reply: Reply)
    requires store.Valid() && !req.LoginRequest?
    modifies store
    ensures store.Valid()
    ensures ReadOnly(req) ==> unchanged(store)
    ensures reply.Failed? ==> store.Snap() == old(store.Snap())
    ensures reply == Answer(old(store.Snap()), user, req, now)
    ensures store.Snap() == After(old(store.Snap()), req, now)
    ensures StockMoves(req, reply, old(store.Snap()), store.Snap())
  {
    if req.MeRequest? {
      var me := Me(user);
      reply := Identity(me.0, me.1);
    } else if req.LogoutRequest? {
      reply := Note(LogoutMessage);
    } else if FamilyRoute(req) {
      reply := ServeFamilies(store, req);
    } else {
      reply := ServeLedger(store, req, now);
    }
  }

  /** How a request moves the basket stock (donated minus distributed)
      from the tables `t` it starts with to the tables `u` it leaves: a
      donation adds its quantity, a distribution takes its quantity and
      leaves the stock non-negative, deleting a family gives back what
      was distributed to it, and no other route takes a non-negative
      stock below zero. */
  ghost predicate StockMoves(req: Request, reply: Reply, t: Tables, u: Tables)
  {
    var before := Available(t.donations, t.distributions);
    var after := Available(u.donations, u.distributions);
    && (req.CreateDonationRequest? && reply.DonationCreated? ==>
          after == before + reply.donation.quantity)
    && (req.CreateDistributionRequest? && reply.DistributionCreated? ==>
          after == before - reply.distribution.quantity && after >= 0)
    && (req.DeleteFamilyRequest? && reply.Note? ==>
          after == before + TotalDistributed(DistributionsOf(t.distributions, req.familyId)))
    && (before >= 0 && !req.CreateDonationRequest? && !req.DeleteFamilyRequest? ==> after >= 0)
  }

  /** The routes of `app/routes/families.py`, past the guard. */
  method ServeFamilies(store: Store, req: Request) returns (reply: Reply)
    requires store.Valid() && FamilyRoute(req)
    modifies store
    ensures store.Valid()
    ensures ReadOnly(req) ==> unchanged(store)
    ensures reply.Failed? ==> store.Snap() == old(store.Snap())
    ensures !req.DeleteFamilyRequest? ==> store.Stock() == old(store.Stock())
    ensures StockMoves(req, reply, old(store.Snap()), store.Snap())
    ensures reply == FamilyAnswer(old(store.Snap()), req)
    ensures store.Snap() == FamilyAfter(old(store.Snap()), req)
  {
    match req
    case ListFamiliesRequest =>
      reply := Families(ListFamilies(store.families, store.children));
    case GetFamilyRequest(id) =>
      var r := GetFamily(store.families, store.children, id);
      reply := if r.Ok? then FamilyFound(r.value) else Failed(r.failure);
    case CreateFamilyRequest(input) =>
      reply := ServeCreateFamily(store, input);
    case UpdateFamilyRequest(id, body) =>
      reply := ServeUpdateFamily(store, id, body);
    case DeleteFamilyRequest(id) =>
      reply := ServeDeleteFamily(store, id);
  }

  /** `POST /api/families`. */
  method ServeCreateFamily(store: Store, input: FamilyInput) returns (reply: Reply)
    requires store.Valid()
    modifies store
    ensures store.Valid()
    ensures reply.Failed? ==> store.Snap() == old(store.Snap())
    ensures store.Stock() == old(store.Stock())
    ensures reply == FamilyAnswer(old(store.Snap()), CreateFamilyRequest(input))
    ensures store.Snap() == FamilyAfter(old(store.Snap()), CreateFamilyRequest(input))
  {
    ghost var t := store.Snap();
    var r := store.CreateFamily(input);
    reply := if r.Ok? then FamilyCreated(r.value) else Failed(r.failure);
    CreateAnswered(t, store.Snap(), input, r);
  }

  /** Whatever `Store.CreateFamily` promises about its result and the
      tables `u` it leaves, stated on the tables `t` it started from, is
      the answer and the new tables of `POST /api/families`. */
  lemma CreateAnswered(t: Tables, u: Tables, input: FamilyInput, r: Result<FamilyRecord>)
    requires !Nonempty(input.name) ==> r == Err(FamilyNameRequired)
    requires Nonempty(input.name) ==>
               (r.Ok? <==> AllInsertable(Submitted(input.children)))
               && (r.Err? ==> r == Err(StoreError("Erro ao criar família")))
    requires r.Err? ==> u == t
    requires r.Ok? ==>
               var kids := Submitted(input.children);
               && r.value == FamilyRecord(FamilyRow(input, t.nextId, t.clock, t.clock),
                                          ChildRows(kids, t.nextId, t.nextId + 1))
               && u == t.(families := t.families + [r.value.family],
                          children := t.children + r.value.children,
                          nextId := t.nextId + 1 + |kids|,
                          clock := t.clock + 1)
    ensures FamilyAnswer(t, CreateFamilyRequest(input))
            == if r.Ok? then FamilyCreated(r.value) else Failed(r.failure)
    ensures u == FamilyAfter(t, CreateFamilyRequest(input))
  {
  }

  /** `PUT /api/families/<id>`. */
  method ServeUpdateFamily(store: Store, id: Uuid, body: Option<FamilyInput>) returns (reply: Reply)
    requires store.Valid()
    modifies store
    ensures store.Valid()
    ensures reply.Failed? ==> store.Snap() == old(store.Snap())
    ensures store.Stock() == old(store.Stock())
    ensures reply == FamilyAnswer(old(store.Snap()), UpdateFamilyRequest(id, body))
    ensures store.Snap() == FamilyAfter(old(store.Snap()), UpdateFamilyRequest(id, body))
  {
    ghost var t := store.Snap();
    var r := store.UpdateFamily(id, body);
    reply := if r.Ok? then FamilyFound(r.value) else Failed(r.failure);
    UpdateAnswered(t, store.Snap(), id, body, r);
  }

  /** Whatever `Store.UpdateFamily` promises, stated on the tables `t` it
      started from and the tables `u` it leaves, is the answer and the new
      tables of `PUT /api/families/<id>`. */
  lemma UpdateAnswered(t: Tables, u: Tables, id: Uuid, body: Option<FamilyInput>, r: Result<FamilyRecord>)
    requires body.None? ==> r == Err(StoreError("Erro ao atualizar família"))
    requires r == Err(FamilyNotFound) <==> body.Some? && id !in FamilyIds(t.families)
    requires r.Ok? <==> body.Some? && id in FamilyIds(t.families) && body.value.name.Present?
                        && AllInsertable(Submitted(body.value.children))
    requires r.Err? && r != Err(FamilyNotFound) ==> r == Err(StoreError("Erro ao atualizar família"))
    requires r.Err? ==> u == t
    requires r.Ok? ==>
               var k := FamilyIndex(t.families, id).value;
               var kids := Submitted(body.value.children);
               && r.value.family == FamilyRow(body.value, id, t.families[k].createdAt, t.clock)
               && r.value.children == ChildRows(kids, id, t.nextId)
               && u == t.(families := t.families[k := r.value.family],
                          children := ChildrenNotOf(t.children, id) + r.value.children,
                          nextId := t.nextId + |kids|,
                          clock := t.clock + 1)
    ensures FamilyAnswer(t, UpdateFamilyRequest(id, body))
            == if r.Ok? then FamilyFound(r.value) else Failed(r.failure)
    ensures u == FamilyAfter(t, UpdateFamilyRequest(id, body))
  {
  }

  /** `DELETE /api/families/<id>`. */
  method ServeDeleteFamily(store: Store, id: Uuid) returns (reply: Reply)
    requires store.Valid()
    modifies store
    ensures store.Valid()
    ensures reply.Failed? ==> store.Snap() == old(store.Snap())
    ensures reply.Note? ==>
              store.Stock() == old(store.Stock()) + TotalDistributed(DistributionsOf(old(store.distributions), id))
    ensures reply == FamilyAnswer(old(store.Snap()), DeleteFamilyRequest(id))
    ensures store.Snap() == FamilyAfter(old(store.Snap()), DeleteFamilyRequest(id))
  {
    var r := store.DeleteFamily(id);
    reply := if r.Ok? then Note(FamilyDeletedMessage) else Failed(r.failure);
  }

  /** The routes of `app/routes/donations.py`,
      `app/routes/distributions.py` and `app/routes/dashboard.py`, past
      the guard. */
  method ServeLedger(store: Store, req: Request, now: int) returns (reply: Reply)
    requires store.Valid() && LedgerRoute(req)
    modifies store
    ensures store.Valid()
    ensures ReadOnly(req) ==> unchanged(store)
    ensures reply.Failed? ==> store.Snap() == old(store.Snap())
    ensures req.StatsRequest? ==> reply.StatsReply? && reply.stats.availableBaskets == store.Stock()
    ensures StockMoves(req, reply, old(store.Snap()), store.Snap())
    ensures reply == LedgerAnswer(old(store.Snap()), req, now)
    ensures store.Snap() == LedgerAfter(old(store.Snap()), req, now)
  {
    match req
    case ListDonationsRequest =>
      reply := Donations(ListDonations(store.donations));
    case CreateDonationRequest(input) =>
      reply := ServeCreateDonation(store, input, now);
    case TotalDonationsRequest =>
      reply := Total(TotalDonated(store.donations));
    case ListDistributionsRequest =>
      reply := Distributions(ListDistributions(store.distributions));
    case CreateDistributionRequest(input) =>
      reply := ServeCreateDistribution(store, input, now);
    case TotalDistributionsRequest =>
      reply := Total(TotalDistributed(store.distributions));
    case StatsRequest =>
      reply := StatsReply(GetStats(store.families, store.donations, store.distributions));
  }

  /** `POST /api/donations`. */
  method ServeCreateDonation(store: Store, input: DonationInput, now: int) returns (reply: Reply)
    requires store.Valid()
    modifies store
    ensures store.Valid()
    ensures reply.Failed? ==> store.Snap() == old(store.Snap())
    ensures StockMoves(CreateDonationRequest(input), reply, old(store.Snap()), store.Snap())
    ensures reply == LedgerAnswer(old(store.Snap()), CreateDonationRequest(input), now)
    ensures store.Snap() == LedgerAfter(old(store.Snap()), CreateDonationRequest(input), now)
  {
    ghost var t := store.Snap();
    var r := store.CreateDonation(input);
    reply := if r.Ok? then DonationCreated(r.value) else Failed(r.failure);
    DonationAnswered(t, store.Snap(), input, now, r);
  }

  /** Whatever `Store.CreateDonation` promises, stated on the tables `t`
      it started from and the tables `u` it leaves, is the answer and the
      new tables of `POST /api/donations`. */
  lemma DonationAnswered(t: Tables, u: Tables, input: DonationInput, now: int, r: Result<Donation>)
    requires !DonationComplete(input) ==> r == Err(IncompleteData)
    requires DonationComplete(input) ==> (r.Ok? <==> DonationRow(input, t.nextId, t.clock).Some?)
    requires r.Ok? ==> DonationComplete(input) && Some(r.value) == DonationRow(input, t.nextId, t.clock)
    requires r.Err? && DonationComplete(input) ==> r == Err(StoreError("Erro ao criar doação"))
    requires r.Err? ==> u == t
    requires r.Ok? ==> u == t.(donations := t.donations + [r.value], nextId := t.nextId + 1, clock := t.clock + 1)
    ensures LedgerAnswer(t, CreateDonationRequest(input), now)
            == if r.Ok? then DonationCreated(r.value) else Failed(r.failure)
    ensures u == LedgerAfter(t, CreateDonationRequest(input), now)
  {
  }

  /** `POST /api/distributions`. */
  method ServeCreateDistribution(store: Store, input: DistributionInput, now: int) returns (reply: Reply)
    requires store.Valid()
    modifies store
    ensures store.Valid()
    ensures reply.Failed? ==> store.Snap() == old(store.Snap())
    ensures StockMoves(CreateDistributionRequest(input), reply, old(store.Snap()), store.Snap())
    ensures reply == LedgerAnswer(old(store.Snap()), CreateDistributionRequest(input), now)
    ensures store.Snap() == LedgerAfter(old(store.Snap()), CreateDistributionRequest(input), now)
  {
    ghost var t := store.Snap();
    var r := store.CreateDistribution(input, now);
    reply := if r.Ok? then DistributionCreated(r.value) else Failed(r.failure);
    DistributionAnswered(t, store.Snap(), input, now, r);
  }

  /** Whatever `Store.CreateDistribution` promises, stated on the tables
      `t` it started from and the tables `u` it leaves, is the answer and
      the new tables of `POST /api/distributions`. */
  lemma DistributionAnswered(t: Tables, u: Tables, input: DistributionInput, now: int, r: Result<Distribution>)
    requires !DistributionComplete(input) ==> r == Err(IncompleteData)
    requires DistributionComplete(input) && Available(t.donations, t.distributions) < input.quantity.value ==>
               r == Err(InsufficientBaskets(Available(t.donations, t.distributions)))
    requires DistributionComplete(input) && !(Available(t.donations, t.distributions) < input.quantity.value) ==>
               var row := DistributionRow(input, t.families, t.nextId, now, t.clock);
               && (r.Ok? <==> row.Some?)
               && (r.Ok? ==> r.value == row.value)
               && (r.Err? ==> r == Err(StoreError("Erro ao criar distribuição")))
    requires r.Err? ==> u == t
    requires r.Ok? ==>
               u == t.(distributions := t.distributions + [r.value], nextId := t.nextId + 1, clock := t.clock + 1)
    ensures LedgerAnswer(t, CreateDistributionRequest(input), now)
            == if r.Ok? then DistributionCreated(r.value) else Failed(r.failure)
    ensures u == LedgerAfter(t, CreateDistributionRequest(input), now)
  {
  }

  /** `delete_family`'s answer. */
  const FamilyDeletedMessage: string := "Família deletada com sucesso"
}
