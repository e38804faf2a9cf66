/** The family registry of `app/routes/families.py`: what a request
    carries, the rows it becomes, lookups and listings, and how the
    children of a family change when it is created, updated or deleted.
    The handlers that write rows are methods of `Store.Store`. */
module Registry {
  import opened Common
  import opened Schema

  datatype ChildInput = ChildInput(name: Field<string>, age: Field<int>)

  /** The members of a `POST` or `PUT /api/families` body. */
  datatype FamilyInput = FamilyInput(
    name: Field<string>,
    fatherName: Field<string>,
    motherName: Field<string>,
    numberOfChildren: Field<int>,
    isEmployed: Field<bool>,
    receivesGovernmentAid: Field<bool>,
    governmentAidType: Field<string>,
    hasCriticalFactor: Field<bool>,
    criticalFactorNotes: Field<string>,
    children: Field<seq<ChildInput>>)

  /** A family with its children, as the handlers answer it. */
  datatype FamilyRecord = FamilyRecord(family: Family, children: seq<Child>)

  /** `if data.get('children'): for child in data['children']`: a missing,
      `null` or empty list inserts nothing. */
  function Submitted(f: Field<seq<ChildInput>>): seq<ChildInput>
  {
    if f.Present? then f.value else []
  }

  /** `child['name']` and `child['age']` raise `KeyError` when missing, and
      a `null` one violates `NOT NULL`. */
  predicate ChildInsertable(c: ChildInput)
  {
    c.name.Present? && c.age.Present?
  }

  predicate AllInsertable(kids: seq<ChildInput>)
  {
    forall i :: 0 <= i < |kids| ==> ChildInsertable(kids[i])
  }

  /** The children rows the insert loop adds: one per submitted child, in
      submission order, with consecutive fresh ids. */
  function ChildRows(kids: seq<ChildInput>, familyId: Uuid, firstId: Uuid): (r: seq<Child>)
    requires AllInsertable(kids)
    ensures |r| == |kids|
    ensures forall i :: 0 <= i < |r| ==>
              r[i] == Child(firstId + i, familyId, kids[i].name.value, kids[i].age.value)
  {
    if kids == [] then []
    else
      var n := |kids| - 1;
      ChildRows(kids[..n], familyId, firstId)
        + [Child(firstId + n, familyId, kids[n].name.value, kids[n].age.value)]
  }

  /** The family row written by both create and update. Every column comes
      from the request: a missing optional member becomes `NULL` or the
      handler's default, never the value the row had before. */
  function FamilyRow(input: FamilyInput, id: Uuid, createdAt: nat, updatedAt: nat): (f: Family)
    requires input.name.Present?
    ensures f.id == id && f.name == input.name.value
    ensures f.createdAt == createdAt && f.updatedAt == updatedAt
    // a member the request gives is written as given
    ensures input.fatherName.Present? ==> f.fatherName == Some(input.fatherName.value)
    ensures input.motherName.Present? ==> f.motherName == Some(input.motherName.value)
    ensures input.numberOfChildren.Present? ==> f.numberOfChildren == Some(input.numberOfChildren.value)
    ensures input.isEmployed.Present? ==> f.isEmployed == Some(input.isEmployed.value)
    ensures input.receivesGovernmentAid.Present? ==>
              f.receivesGovernmentAid == Some(input.receivesGovernmentAid.value)
    ensures input.governmentAidType.Present? ==> f.governmentAidType == Some(input.governmentAidType.value)
    ensures input.hasCriticalFactor.Present? ==> f.hasCriticalFactor == Some(input.hasCriticalFactor.value)
    ensures input.criticalFactorNotes.Present? ==>
              f.criticalFactorNotes == Some(input.criticalFactorNotes.value)
    // an explicit null is written as NULL, even where a default exists
    ensures input.fatherName.Null? ==> f.fatherName == None
    ensures input.motherName.Null? ==> f.motherName == None
    ensures input.numberOfChildren.Null? ==> f.numberOfChildren == None
    ensures input.isEmployed.Null? ==> f.isEmployed == None
    ensures input.receivesGovernmentAid.Null? ==> f.receivesGovernmentAid == None
    ensures input.governmentAidType.Null? ==> f.governmentAidType == None
    ensures input.hasCriticalFactor.Null? ==> f.hasCriticalFactor == None
    ensures input.criticalFactorNotes.Null? ==> f.criticalFactorNotes == None
    // a missing member becomes NULL or the handler's default, never the old value
    ensures input.fatherName.Absent? ==> f.fatherName == None
    ensures input.motherName.Absent? ==> f.motherName == None
    ensures input.numberOfChildren.Absent? ==> f.numberOfChildren == Some(0)
    ensures input.isEmployed.Absent? ==> f.isEmployed == Some(false)
    ensures input.receivesGovernmentAid.Absent? ==> f.receivesGovernmentAid == Some(false)
    ensures input.governmentAidType.Absent? ==> f.governmentAidType == None
    ensures input.hasCriticalFactor.Absent? ==> f.hasCriticalFactor == Some(false)
    ensures input.criticalFactorNotes.Absent? ==> f.criticalFactorNotes == None
  {
    Family(id, input.name.value, Get(input.fatherName), Get(input.motherName),
           GetOr(input.numberOfChildren, 0), GetOr(input.isEmployed, false),
           GetOr(input.receivesGovernmentAid, false), Get(input.governmentAidType),
           GetOr(input.hasCriticalFactor, false), Get(input.criticalFactorNotes),
           createdAt, updatedAt)
  }

  /** Position of the family with the given id. */
  function FamilyIndex(fs: seq<Family>, id: Uuid): (k: Option<nat>)
    ensures k.Some? <==> id in FamilyIds(fs)
    ensures k.Some? ==> k.value < |fs| && fs[k.value].id == id
  {
    if fs == [] then None
    else if fs[|fs| - 1].id == id then Some(|fs| - 1)
    else
      var k := FamilyIndex(fs[..|fs| - 1], id);
      assert FamilyIds(fs) == FamilyIds(fs[..|fs| - 1]) + {fs[|fs| - 1].id} by {
        assert fs == fs[..|fs| - 1] + [fs[|fs| - 1]];
      }
      k
  }

  /** `get_family`: the family and its children, or not-found. */
  function GetFamily(fs: seq<Family>, cs: seq<Child>, id: Uuid): (r: Result<FamilyRecord>)
    ensures r.Err? <==> id !in FamilyIds(fs)
    ensures r.Err? ==> r.failure == FamilyNotFound
    ensures r.Ok? ==> r.value.family in fs && r.value.family.id == id
                      && r.value.children == ChildrenOf(cs, id)
  {
    match FamilyIndex(fs, id)
    case None => Err(FamilyNotFound)
    case Some(k) => Ok(FamilyRecord(fs[k], ChildrenOf(cs, id)))
  }

  /** `get_families`: every family newest first, each with its children. */
  function ListFamilies(fs: seq<Family>, cs: seq<Child>): (r: seq<FamilyRecord>)
    ensures |r| == |fs|
    ensures forall i :: 0 <= i < |r| ==>
              r[i].family == fs[|fs| - 1 - i] && r[i].children == ChildrenOf(cs, r[i].family.id)
  {
    seq(|fs|, i requires 0 <= i < |fs| =>
      FamilyRecord(fs[|fs| - 1 - i], ChildrenOf(cs, fs[|fs| - 1 - i].id)))
  }

  /** The families of a listing, in listing order. */
  function ListedFamilies(records: seq<FamilyRecord>): (fs: seq<Family>)
    ensures |fs| == |records|
    ensures forall i :: 0 <= i < |fs| ==> fs[i] == records[i].family
  {
    seq(|records|, i requires 0 <= i < |records| => records[i].family)
  }

  /** Over rows whose timestamps grew with insertion, the listing is
      exactly `ORDER BY created_at DESC`: every family once, each strictly
      newer than the next. */
  lemma FamiliesNewestFirst(fs: seq<Family>, cs: seq<Child>)
    requires Increasing(fs, FamilyCreated)
    ensures multiset(ListedFamilies(ListFamilies(fs, cs))) == multiset(fs)
    ensures forall i, j :: 0 <= i < j < |fs| ==>
              ListFamilies(fs, cs)[i].family.createdAt > ListFamilies(fs, cs)[j].family.createdAt
  {
    var listed := ListedFamilies(ListFamilies(fs, cs));
    assert listed == Reverse(fs);
    ReverseDecreasing(fs, FamilyCreated);
  }

  /** Replacing a family's children (update: delete them, insert the new
      rows; delete: the cascade, with no new rows) leaves that family with
      exactly the new rows and every other family with its old ones. */
  lemma ReplacedChildren(cs: seq<Child>, f: Uuid, rows: seq<Child>, g: Uuid)
    requires forall i :: 0 <= i < |rows| ==> rows[i].familyId == f
    ensures ChildrenOf(ChildrenNotOf(cs, f) + rows, g) == if g == f then rows else ChildrenOf(cs, g)
  {
    var mine := (c: Child) => c.familyId == g;
    var others := (c: Child) => c.familyId != f;
    FilterConcat(ChildrenNotOf(cs, f), rows, mine);
    if g == f {
      FilterExclusive(cs, others, mine);
      FilterAll(rows, mine);
    } else {
      FilterFilter(cs, others, mine);
      FilterNone(rows, mine);
    }
  }

  /** Appending the children of a new family, whose id no existing child
      refers to, gives that family exactly those rows and leaves the others
      untouched. */
  lemma AppendedChildren(cs: seq<Child>, f: Uuid, rows: seq<Child>, g: Uuid)
    requires forall c :: c in cs ==> c.familyId != f
    requires forall i :: 0 <= i < |rows| ==> rows[i].familyId == f
    ensures ChildrenOf(cs + rows, g) == if g == f then rows else ChildrenOf(cs, g)
  {
    var mine := (c: Child) => c.familyId == g;
    FilterConcat(cs, rows, mine);
    if g == f {
      FilterAll(rows, mine);
      var none := Filter(cs, mine);
      if none != [] {
        FilterMembers(cs, mine, none[0]);
      }
    } else {
      FilterNone(rows, mine);
    }
  }
}
