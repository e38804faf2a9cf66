/** The five tables that `init_db` declares, as rows in insertion order,
    with the constraints the handlers rely on: unique usernames, the
    foreign keys from children and distributions to families (both
    `ON DELETE CASCADE`), and creation timestamps drawn from a clock that
    only moves forward. */
module Schema {
  import opened Common

  /** A generated primary key (`gen_random_uuid()`); only its uniqueness matters. */
  type Uuid = nat

  datatype User = User(id: Uuid, username: string, passwordHash: string)

  datatype Family = Family(
    id: Uuid,
    name: string,
    fatherName: Option<string>,
    motherName: Option<string>,
    numberOfChildren: Option<int>,
    isEmployed: Option<bool>,
    receivesGovernmentAid: Option<bool>,
    governmentAidType: Option<string>,
    hasCriticalFactor: Option<bool>,
    criticalFactorNotes: Option<string>,
    createdAt: nat,
    updatedAt: nat)

  datatype Child = Child(id: Uuid, familyId: Uuid, name: string, age: int)

  /** `kind` is the `type` column: nullable, `'entry'` when the request omits it. */
  datatype Donation = Donation(
    id: Uuid,
    responsibleName: string,
    cpf: string,
    phone: string,
    quantity: int,
    kind: Option<string>,
    createdAt: nat)

  /** The `date` of a distribution: the request's ISO text after the `Z`
      rewrite, or the server's local time when the request gave none. */
  datatype When = Supplied(iso: string) | LocalNow(at: int)

  datatype Distribution = Distribution(
    id: Uuid,
    familyId: Uuid,
    familyName: string,
    pickupPersonName: string,
    quantity: int,
    date: When,
    createdAt: nat)

  /** The whole database at one moment. `nextId` stands for the UUID
      generator and `clock` for `CURRENT_TIMESTAMP`. */
  datatype Tables = Tables(
    users: seq<User>,
    families: seq<Family>,
    children: seq<Child>,
    donations: seq<Donation>,
    distributions: seq<Distribution>,
    nextId: nat,
    clock: nat)

  function FamilyKey(f: Family): int { f.id }
  function FamilyCreated(f: Family): int { f.createdAt }
  function DonationCreated(d: Donation): int { d.createdAt }
  function DistributionCreated(d: Distribution): int { d.createdAt }
  function DonationQuantity(d: Donation): int { d.quantity }
  function DistributionQuantity(d: Distribution): int { d.quantity }

  function FamilyIds(fs: seq<Family>): set<Uuid>
  {
    set f | f in fs :: f.id
  }

  /** `SELECT ... FROM children WHERE family_id = f`, in insertion order. */
  function ChildrenOf(cs: seq<Child>, f: Uuid): seq<Child>
  {
    Filter(cs, (c: Child) => c.familyId == f)
  }

  /** The children rows left after `DELETE FROM children WHERE family_id = f`. */
  function ChildrenNotOf(cs: seq<Child>, f: Uuid): seq<Child>
  {
    Filter(cs, (c: Child) => c.familyId != f)
  }

  function FamiliesNot(fs: seq<Family>, f: Uuid): seq<Family>
  {
    Filter(fs, (x: Family) => x.id != f)
  }

  function DistributionsOf(ds: seq<Distribution>, f: Uuid): seq<Distribution>
  {
    Filter(ds, (d: Distribution) => d.familyId == f)
  }

  function DistributionsNotOf(ds: seq<Distribution>, f: Uuid): seq<Distribution>
  {
    Filter(ds, (d: Distribution) => d.familyId != f)
  }

  /** `username VARCHAR(255) UNIQUE`. */
  ghost predicate UniqueUsernames(us: seq<User>)
  {
    forall i, j :: 0 <= i < j < |us| ==> us[i].username != us[j].username
  }

  /** Both `family_id` columns reference `families(id)`. */
  ghost predicate ReferencesHold(t: Tables)
  {
    && (forall c :: c in t.children ==> c.familyId in FamilyIds(t.families))
    && (forall d :: d in t.distributions ==> d.familyId in FamilyIds(t.families))
  }

  /** The invariant every committed state keeps. Family ids and all
      creation timestamps increase in insertion order and lie below the
      generators, so ids are unique and newest-first is reverse order. */
  ghost predicate Consistent(t: Tables)
  {
    && UniqueUsernames(t.users)
    && Increasing(t.families, FamilyKey) && AllBelow(t.families, FamilyKey, t.nextId)
    && Increasing(t.families, FamilyCreated) && AllBelow(t.families, FamilyCreated, t.clock)
    && Increasing(t.donations, DonationCreated) && AllBelow(t.donations, DonationCreated, t.clock)
    && Increasing(t.distributions, DistributionCreated)
    && AllBelow(t.distributions, DistributionCreated, t.clock)
    && ReferencesHold(t)
  }

  /** The administrator `init_db` seeds, and its password before hashing. */
  const AdminName: string := "admin"
  const AdminPassword: string := "admin123"

  /** Number of users with the given name (`SELECT COUNT(*) ... WHERE username = ...`). */
  function CountNamed(us: seq<User>, name: string): nat
  {
    if us == [] then 0
    else CountNamed(us[..|us| - 1], name) + (if us[|us| - 1].username == name then 1 else 0)
  }

  /** With unique usernames a name occurs at most once. */
  lemma {:induction false} UniqueCountAtMostOne(us: seq<User>, name: string)
    requires UniqueUsernames(us)
    ensures CountNamed(us, name) <= 1
  {
    if us != [] {
      var init := us[..|us| - 1];
      UniqueCountAtMostOne(init, name);
      if us[|us| - 1].username == name && CountNamed(init, name) == 1 {
        var k := NamedIndex(init, name);
      }
    }
  }

  lemma {:induction false} NamedIndex(us: seq<User>, name: string) returns (k: nat)
    requires CountNamed(us, name) > 0
    ensures k < |us| && us[k].username == name
  {
    var init := us[..|us| - 1];
    if us[|us| - 1].username == name {
      k := |us| - 1;
    } else {
      k := NamedIndex(init, name);
    }
  }

  /** Seen from the rows, a cascade leaves every foreign key pointing at a
      family that is still there. */
  lemma CascadeKeepsReferences(t: Tables, f: Uuid)
    requires ReferencesHold(t)
    ensures ReferencesHold(t.(families := FamiliesNot(t.families, f),
                              children := ChildrenNotOf(t.children, f),
                              distributions := DistributionsNotOf(t.distributions, f)))
  {
    var fs := FamiliesNot(t.families, f);
    forall c | c in ChildrenNotOf(t.children, f) ensures c.familyId in FamilyIds(fs) {
      FilterMembers(t.children, (c: Child) => c.familyId != f, c);
      FamiliesNotIds(t.families, f);
    }
    forall d | d in DistributionsNotOf(t.distributions, f) ensures d.familyId in FamilyIds(fs) {
      FilterMembers(t.distributions, (d: Distribution) => d.familyId != f, d);
      FamiliesNotIds(t.families, f);
    }
  }

  lemma IdsBelow(fs: seq<Family>, bound: int)
    requires AllBelow(fs, FamilyKey, bound)
    ensures forall x :: x in FamilyIds(fs) ==> x < bound
  {
    forall x | x in FamilyIds(fs) ensures x < bound {
      var f :| f in fs && f.id == x;
      var i :| 0 <= i < |fs| && fs[i] == f;
    }
  }

  /** Appending a family adds its id. */
  lemma AppendFamilyIds(fs: seq<Family>, f: Family)
    ensures FamilyIds(fs + [f]) == FamilyIds(fs) + {f.id}
  {
    assert forall x :: x in fs + [f] <==> x in fs || x == f;
  }

  /** Rewriting a family row in place, keeping its id and creation time,
      keeps the ids and the orderings. */
  lemma ReplaceFamilyRow(fs: seq<Family>, k: nat, row: Family, nextId: int, clock: int)
    requires k < |fs| && row.id == fs[k].id && row.createdAt == fs[k].createdAt
    requires Increasing(fs, FamilyKey) && AllBelow(fs, FamilyKey, nextId)
    requires Increasing(fs, FamilyCreated) && AllBelow(fs, FamilyCreated, clock)
    ensures FamilyIds(fs[k := row]) == FamilyIds(fs)
    ensures Increasing(fs[k := row], FamilyKey) && AllBelow(fs[k := row], FamilyKey, nextId)
    ensures Increasing(fs[k := row], FamilyCreated) && AllBelow(fs[k := row], FamilyCreated, clock)
  {
    ReplaceKeepsIds(fs, k, row);
    ReplaceKeepsOrder(fs, k, row, FamilyKey, nextId);
    ReplaceKeepsOrder(fs, k, row, FamilyCreated, clock);
  }

  lemma ReplaceKeepsIds(fs: seq<Family>, k: nat, row: Family)
    requires k < |fs| && row.id == fs[k].id
    ensures FamilyIds(fs[k := row]) == FamilyIds(fs)
  {
    var gs := fs[k := row];
    forall x | x in FamilyIds(fs) ensures x in FamilyIds(gs) {
      var f :| f in fs && f.id == x;
      var i :| 0 <= i < |fs| && fs[i] == f;
      assert gs[i].id == x;
    }
    forall x | x in FamilyIds(gs) ensures x in FamilyIds(fs) {
      var f :| f in gs && f.id == x;
      var i :| 0 <= i < |gs| && gs[i] == f;
      assert fs[i].id == x;
    }
  }

  lemma ReplaceKeepsOrder(fs: seq<Family>, k: nat, row: Family, key: Family -> int, bound: int)
    requires k < |fs| && key(row) == key(fs[k])
    requires Increasing(fs, key) && AllBelow(fs, key, bound)
    ensures Increasing(fs[k := row], key) && AllBelow(fs[k := row], key, bound)
  {
    var gs := fs[k := row];
    assert forall i :: 0 <= i < |gs| ==> key(gs[i]) == key(fs[i]);
  }

  lemma FamiliesNotIds(fs: seq<Family>, f: Uuid)
    ensures FamilyIds(FamiliesNot(fs, f)) == FamilyIds(fs) - {f}
  {
    var keep := (x: Family) => x.id != f;
    forall g | g in FamilyIds(fs) - {f} ensures g in FamilyIds(FamiliesNot(fs, f)) {
      var x :| x in fs && x.id == g;
      FilterMembers(fs, keep, x);
    }
    forall g | g in FamilyIds(FamiliesNot(fs, f)) ensures g in FamilyIds(fs) - {f} {
      var x :| x in FamiliesNot(fs, f) && x.id == g;
      FilterMembers(fs, keep, x);
    }
  }
}
