/** The database as the handlers see it through `get_db_connection`
    (`app/utils/database.py`): one object whose tables the writing
    handlers change in place. Each handler runs as one transaction: it
    commits what it wrote when it returns, and when a statement raises it
    rolls every write of the request back, so a failed request leaves the
    tables as they were. */
module Store {
  import opened Common
  import opened Schema
  import opened Ledger
  import opened Registry
  import Access

  class Store {
    var users: seq<User>
    var families: seq<Family>
    var children: seq<Child>
    var donations: seq<Donation>
    var distributions: seq<Distribution>
    var nextId: nat
    var clock: nat

    /** The whole database as a value. */
    function Snap(): Tables
      reads this
    {
      Tables(users, families, children, donations, distributions, nextId, clock)
    }

    ghost predicate Valid()
      reads this
    {
      Consistent(Snap())
    }

    /** Baskets donated minus baskets distributed. */
    function Stock(): int
      reads this
    {
      Available(donations, distributions)
    }

    /** An empty database, before `init_db`. */
    constructor ()
      ensures Valid()
      ensures Snap() == Tables([], [], [], [], [], 0, 0)
      ensures Stock() == 0
    {
      users, families, children, donations, distributions := [], [], [], [], [];
      nextId, clock := 0, 0;
    }

    /** `conn.rollback()`: back to the state the transaction started from. */
    method Rollback(saved: Tables)
      modifies this
      ensures Snap() == saved
    {
      users, families, children := saved.users, saved.families, saved.children;
      donations, distributions := saved.donations, saved.distributions;
      nextId, clock := saved.nextId, saved.clock;
    }

    /** The seeding step of `init_db`: add the administrator with a hash of
        its default password unless a user of that name exists. Running it
        again changes nothing, and afterwards exactly one admin exists. */
    method InitDb(crypto: Access.Crypto, salt: Access.Salt)
      requires Valid()
      modifies this
      ensures Valid()
      ensures CountNamed(users, AdminName) == 1
      ensures old(CountNamed(users, AdminName)) > 0 ==> Snap() == old(Snap())
      ensures old(CountNamed(users, AdminName)) == 0 ==>
                Snap() == old(Snap()).(users := old(users) + [User(old(nextId), AdminName,
                                                                     Access.HashPassword(crypto, AdminPassword, salt))],
                                       nextId := old(nextId) + 1)
    {
      UniqueCountAtMostOne(users, AdminName);
      if CountNamed(users, AdminName) == 0 {
        var admin := User(nextId, AdminName, Access.HashPassword(crypto, AdminPassword, salt));
        forall i | 0 <= i < |users| ensures users[i].username != AdminName {
          if users[i].username == AdminName {
            NamedPresent(users, i);
          }
        }
        assert (users + [admin])[..|users|] == users;
        users := users + [admin];
        nextId := nextId + 1;
      }
    }

    /** The insert loop over `data['children']`: one row per child, with a
        fresh id each; `ok` is false at the first child whose insert raises,
        and then the caller rolls back. */
    method InsertChildren(familyId: Uuid, kids: seq<ChildInput>) returns (ok: bool, rows: seq<Child>)
      modifies this
      ensures users == old(users) && families == old(families)
      ensures donations == old(donations) && distributions == old(distributions)
      ensures clock == old(clock)
      ensures ok <==> AllInsertable(kids)
      ensures ok ==> rows == ChildRows(kids, familyId, old(nextId))
                     && children == old(children) + rows
                     && nextId == old(nextId) + |kids|
    {
      rows := [];
      var i := 0;
      while i < |kids|
        invariant 0 <= i <= |kids|
        invariant users == old(users) && families == old(families)
        invariant donations == old(donations) && distributions == old(distributions)
        invariant clock == old(clock)
        invariant AllInsertable(kids[..i])
        invariant rows == ChildRows(kids[..i], familyId, old(nextId))
        invariant children == old(children) + rows
        invariant nextId == old(nextId) + i
      {
        if !ChildInsertable(kids[i]) {
          return false, rows;
        }
        var row := Child(nextId, familyId, kids[i].name.value, kids[i].age.value);
        assert kids[..i + 1][..i] == kids[..i];
        rows := rows + [row];
        children := children + [row];
        nextId := nextId + 1;
        i := i + 1;
      }
      assert kids[..i] == kids;
      ok := true;
    }

    /** `create_donation`. */
    method CreateDonation(input: DonationInput) returns (r: Result<Donation>)
      requires Valid()
      modifies this
      ensures Valid()
      ensures !DonationComplete(input) ==> r == Err(IncompleteData)
      ensures DonationComplete(input) ==>
                (r.Ok? <==> DonationRow(input, old(nextId), old(clock)).Some?)
      ensures r.Ok? ==> Some(r.value) == DonationRow(input, old(nextId), old(clock))
      ensures r.Err? && DonationComplete(input) ==> r == Err(StoreError("Erro ao criar doação"))
      ensures r.Ok? ==> Snap() == old(Snap()).(donations := old(donations) + [r.value],
                                                nextId := old(nextId) + 1,
                                                clock := old(clock) + 1)
      ensures r.Ok? ==> Stock() == old(Stock()) + r.value.quantity
      ensures r.Err? ==> Snap() == old(Snap())
    {
      if !DonationComplete(input) {
        return Err(IncompleteData);
      }
      var row := DonationRow(input, nextId, clock);
      if row.None? {
        return Err(StoreError("Erro ao criar doação"));
      }
      DonationRaisesStock(donations, distributions, row.value);
      IncreasingAppend(donations, row.value, DonationCreated, clock);
      donations := donations + [row.value];
      nextId := nextId + 1;
      clock := clock + 1;
      r := Ok(row.value);
    }

    /** `create_distribution`: the completeness check, then the stock
        check against the totals read in the same transaction, then the
        insert. A distribution that is created never takes the stock below
        zero. */
    method CreateDistribution(input: DistributionInput, now: int) returns (r: Result<Distribution>)
      requires Valid()
      modifies this
      ensures Valid()
      ensures !DistributionComplete(input) ==> r == Err(IncompleteData)
      ensures DistributionComplete(input) && old(Stock()) < input.quantity.value ==>
                r == Err(InsufficientBaskets(old(Stock())))
      ensures DistributionComplete(input) && !(old(Stock()) < input.quantity.value) ==>
                var row := DistributionRow(input, old(families), old(nextId), now, old(clock));
                && (r.Ok? <==> row.Some?)
                && (r.Ok? ==> r.value == row.value)
                && (r.Err? ==> r == Err(StoreError("Erro ao criar distribuição")))
      ensures r.Ok? ==> Snap() == old(Snap()).(distributions := old(distributions) + [r.value],
                                                nextId := old(nextId) + 1,
                                                clock := old(clock) + 1)
      ensures r.Ok? ==> Stock() == old(Stock()) - r.value.quantity && Stock() >= 0
      ensures r.Err? ==> Snap() == old(Snap())
    {
      if !DistributionComplete(input) {
        return Err(IncompleteData);
      }
      var available := Stock();
      if available < input.quantity.value {
        return Err(InsufficientBaskets(available));
      }
      var row := DistributionRow(input, families, nextId, now, clock);
      if row.None? {
        return Err(StoreError("Erro ao criar distribuição"));
      }
      DistributionLowersStock(donations, distributions, row.value);
      IncreasingAppend(distributions, row.value, DistributionCreated, clock);
      distributions := distributions + [row.value];
      nextId := nextId + 1;
      clock := clock + 1;
      r := Ok(row.value);
    }

    /** `create_family`: the name check, then the family row and its
        children in one transaction. */
    method CreateFamily(input: FamilyInput) returns (r: Result<FamilyRecord>)
      requires Valid()
      modifies this
      ensures Valid()
      ensures !Nonempty(input.name) ==> r == Err(FamilyNameRequired)
      ensures Nonempty(input.name) ==>
                (r.Ok? <==> AllInsertable(Submitted(input.children)))
                && (r.Err? ==> r == Err(StoreError("Erro ao criar família")))
      ensures r.Err? ==> Snap() == old(Snap())
      ensures r.Ok? ==>
                var id := old(nextId);
                var kids := Submitted(input.children);
                && id !in old(FamilyIds(families))
                && r.value.family == FamilyRow(input, id, old(clock), old(clock))
                && r.value.children == ChildRows(kids, id, id + 1)
                && Snap() == old(Snap()).(families := old(families) + [r.value.family],
                                          children := old(children) + r.value.children,
                                          nextId := id + 1 + |kids|,
                                          clock := old(clock) + 1)
    {
      if !Nonempty(input.name) {
        return Err(FamilyNameRequired);
      }
      var saved := Snap();
      var id := nextId;
      var kids := Submitted(input.children);
      var row := FamilyRow(input, id, clock, clock);
      families := families + [row];
      nextId := nextId + 1;
      clock := clock + 1;
      var ok, rows := InsertChildren(id, kids);
      if !ok {
        Rollback(saved);
        return Err(StoreError("Erro ao criar família"));
      }
      var after := saved.(families := saved.families + [row], children := saved.children + rows,
                          nextId := id + 1 + |kids|, clock := saved.clock + 1);
      assert Snap() == after;
      NewFamilyConsistent(saved, row, rows, after.nextId);
      IdsBelow(saved.families, id);
      r := Ok(FamilyRecord(row, rows));
    }

    /** `update_family`: every column is rewritten from the body (missing
        members become `NULL` or the defaults), the old children are
        deleted and the submitted ones inserted. A missing body raises
        before anything is written; an unknown id is not found even when
        the body has no name, since no row is there to violate `NOT NULL`. */
    method UpdateFamily(id: Uuid, body: Option<FamilyInput>) returns (r: Result<FamilyRecord>)
      requires Valid()
      modifies this
      ensures Valid()
      ensures body.None? ==> r == Err(StoreError("Erro ao atualizar família"))
      ensures r == Err(FamilyNotFound) <==> body.Some? && id !in old(FamilyIds(families))
      ensures r.Ok? <==> body.Some? && id in old(FamilyIds(families)) && body.value.name.Present?
                         && AllInsertable(Submitted(body.value.children))
      ensures r.Err? && r != Err(FamilyNotFound) ==> r == Err(StoreError("Erro ao atualizar família"))
      ensures r.Err? ==> Snap() == old(Snap())
      ensures r.Ok? ==>
                var k := FamilyIndex(old(families), id).value;
                var kids := Submitted(body.value.children);
                && r.value.family == FamilyRow(body.value, id, old(families)[k].createdAt, old(clock))
                && r.value.children == ChildRows(kids, id, old(nextId))
                && Snap() == old(Snap()).(families := old(families)[k := r.value.family],
                                          children := ChildrenNotOf(old(children), id) + r.value.children,
                                          nextId := old(nextId) + |kids|,
                                          clock := old(clock) + 1)
      ensures r.Ok? ==> FamilyIds(families) == old(FamilyIds(families))
    {
      if body.None? {
        return Err(StoreError("Erro ao atualizar família"));
      }
      var input := body.value;
      var k := FamilyIndex(families, id);
      if k.None? {
        return Err(FamilyNotFound);
      }
      if !input.name.Present? {
        return Err(StoreError("Erro ao atualizar família"));
      }
      var saved := Snap();
      var kids := Submitted(input.children);
      var row := FamilyRow(input, id, families[k.value].createdAt, clock);
      families := families[k.value := row];
      clock := clock + 1;
      children := ChildrenNotOf(children, id);
      var ok, rows := InsertChildren(id, kids);
      if !ok {
        Rollback(saved);
        return Err(StoreError("Erro ao atualizar família"));
      }
      var after := saved.(families := saved.families[k.value := row],
                          children := ChildrenNotOf(saved.children, id) + rows,
                          nextId := saved.nextId + |kids|, clock := saved.clock + 1);
      assert Snap() == after;
      UpdatedFamilyConsistent(saved, k.value, row, rows, after.nextId);
      r := Ok(FamilyRecord(row, rows));
    }

    /** `delete_family`: the row goes, and with it, by `ON DELETE CASCADE`,
        its children and its distributions; the baskets those
        distributions had taken out count as available again. */
    method DeleteFamily(id: Uuid) returns (r: Result<Uuid>)
      requires Valid()
      modifies this
      ensures Valid()
      ensures r.Err? <==> id !in old(FamilyIds(families))
      ensures r.Err? ==> r == Err(FamilyNotFound) && Snap() == old(Snap())
      ensures r.Ok? ==> r.value == id
                        && Snap() == old(Snap()).(families := FamiliesNot(old(families), id),
                                                  children := ChildrenNotOf(old(children), id),
                                                  distributions := DistributionsNotOf(old(distributions), id))
      ensures r.Ok? ==> FamilyIds(families) == old(FamilyIds(families)) - {id}
      ensures r.Ok? ==> Stock() == old(Stock()) + TotalDistributed(DistributionsOf(old(distributions), id))
    {
      if FamilyIndex(families, id).None? {
        return Err(FamilyNotFound);
      }
      var before := Snap();
      var after := before.(families := FamiliesNot(before.families, id),
                           children := ChildrenNotOf(before.children, id),
                           distributions := DistributionsNotOf(before.distributions, id));
      CascadeConsistent(before, id);
      FamiliesNotIds(before.families, id);
      CascadeReturnsStock(before.donations, before.distributions, id);
      families, children, distributions := after.families, after.children, after.distributions;
      r := Ok(id);
    }
  }

  /** A name that occurs is counted. */
  lemma {:induction false} NamedPresent(us: seq<User>, i: nat)
    requires i < |us| && us[i].username == AdminName
    ensures CountNamed(us, AdminName) > 0
  {
    if i < |us| - 1 {
      NamedPresent(us[..|us| - 1], i);
    }
  }

  /** Committing a rewritten family row with its new children keeps the
      invariant. */
  lemma UpdatedFamilyConsistent(t: Tables, k: nat, row: Family, rows: seq<Child>, nextId: nat)
    requires Consistent(t) && k < |t.families|
    requires row.id == t.families[k].id && row.createdAt == t.families[k].createdAt
    requires forall i :: 0 <= i < |rows| ==> rows[i].familyId == row.id
    requires nextId >= t.nextId
    ensures FamilyIds(t.families[k := row]) == FamilyIds(t.families)
    ensures Consistent(t.(families := t.families[k := row],
                          children := ChildrenNotOf(t.children, row.id) + rows,
                          nextId := nextId, clock := t.clock + 1))
  {
    var u := t.(families := t.families[k := row],
                children := ChildrenNotOf(t.children, row.id) + rows,
                nextId := nextId, clock := t.clock + 1);
    ReplaceFamilyRow(t.families, k, row, t.nextId, t.clock);
    assert row.id in FamilyIds(t.families) by {
      assert t.families[k] in t.families;
    }
    forall c | c in u.children ensures c.familyId in FamilyIds(u.families) {
      if c in ChildrenNotOf(t.children, row.id) {
        FilterMembers(t.children, (c: Child) => c.familyId != row.id, c);
      } else {
        var i :| 0 <= i < |rows| && rows[i] == c;
      }
    }
  }

  lemma ChildrenAfterUpdate(cs: seq<Child>, id: Uuid, rows: seq<Child>)
    requires forall i :: 0 <= i < |rows| ==> rows[i].familyId == id
    ensures forall g :: ChildrenOf(ChildrenNotOf(cs, id) + rows, g) == if g == id then rows else ChildrenOf(cs, g)
  {
    forall g ensures ChildrenOf(ChildrenNotOf(cs, id) + rows, g) == if g == id then rows else ChildrenOf(cs, g) {
      ReplacedChildren(cs, id, rows, g);
    }
  }

  /** Committing a new family with its children keeps the invariant. */
  lemma NewFamilyConsistent(t: Tables, row: Family, rows: seq<Child>, nextId: nat)
    requires Consistent(t)
    requires row.id == t.nextId && row.createdAt == t.clock && nextId > t.nextId
    requires forall i :: 0 <= i < |rows| ==> rows[i].familyId == row.id
    ensures Consistent(t.(families := t.families + [row], children := t.children + rows,
                          nextId := nextId, clock := t.clock + 1))
  {
    var u := t.(families := t.families + [row], children := t.children + rows,
                 nextId := nextId, clock := t.clock + 1);
    AppendFamilyIds(t.families, row);
    IncreasingAppend(t.families, row, FamilyKey, t.nextId);
    IncreasingAppend(t.families, row, FamilyCreated, t.clock);
    forall c | c in u.children ensures c.familyId in FamilyIds(u.families) {
      if c !in t.children {
        var i :| 0 <= i < |rows| && rows[i] == c;
      }
    }
  }

  /** The new family has exactly the inserted children, and no other
      family's children change, because no existing child refers to an
      id the generator has not given out yet. */
  lemma ChildrenAfterCreate(t: Tables, id: Uuid, rows: seq<Child>)
    requires Consistent(t) && id == t.nextId
    requires forall i :: 0 <= i < |rows| ==> rows[i].familyId == id
    ensures forall g :: ChildrenOf(t.children + rows, g) == if g == id then rows else ChildrenOf(t.children, g)
  {
    IdsBelow(t.families, id);
    forall g ensures ChildrenOf(t.children + rows, g) == if g == id then rows else ChildrenOf(t.children, g) {
      AppendedChildren(t.children, id, rows, g);
    }
  }

  /** The cascade keeps the invariant. */
  lemma CascadeConsistent(t: Tables, id: Uuid)
    requires Consistent(t)
    ensures Consistent(t.(families := FamiliesNot(t.families, id),
                          children := ChildrenNotOf(t.children, id),
                          distributions := DistributionsNotOf(t.distributions, id)))
  {
    CascadeKeepsReferences(t, id);
    FilterIncreasing(t.families, (x: Family) => x.id != id, FamilyKey, t.nextId);
    FilterIncreasing(t.families, (x: Family) => x.id != id, FamilyCreated, t.clock);
    FilterIncreasing(t.distributions, (d: Distribution) => d.familyId != id, DistributionCreated, t.clock);
  }

  lemma ChildrenAfterDelete(cs: seq<Child>, id: Uuid)
    ensures forall g :: ChildrenOf(ChildrenNotOf(cs, id), g) == if g == id then [] else ChildrenOf(cs, g)
  {
    forall g ensures ChildrenOf(ChildrenNotOf(cs, id), g) == if g == id then [] else ChildrenOf(cs, g) {
      ReplacedChildren(cs, id, [], g);
      assert ChildrenNotOf(cs, id) + [] == ChildrenNotOf(cs, id);
    }
  }
}
