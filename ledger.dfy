/** The inventory ledger of `app/routes/donations.py` and
    `app/routes/distributions.py`: what a request must carry, the rows it
    becomes, the totals and the available stock, and the listings. The
    handlers that write rows are methods of `Store.Store`. */
module Ledger {
  import opened Common
  import opened Schema

  /** The members of a `POST /api/donations` body. */
  datatype DonationInput = DonationInput(
    responsibleName: Field<string>,
    cpf: Field<string>,
    phone: Field<string>,
    quantity: Field<int>,
    kind: Field<string>)

  /** The members of a `POST /api/distributions` body. */
  datatype DistributionInput = DistributionInput(
    familyId: Field<Uuid>,
    familyName: Field<string>,
    pickupPersonName: Field<string>,
    quantity: Field<int>,
    date: Field<string>)

  /** `COALESCE(SUM(quantity), 0) FROM donations`. */
  function TotalDonated(ds: seq<Donation>): int
  {
    SumOf(ds, DonationQuantity)
  }

  /** `COALESCE(SUM(quantity), 0) FROM distributions`. */
  function TotalDistributed(ds: seq<Distribution>): int
  {
    SumOf(ds, DistributionQuantity)
  }

  /** The stock a distribution is checked against, and the dashboard's
      `availableBaskets`. */
  function Available(dons: seq<Donation>, dists: seq<Distribution>): int
  {
    TotalDonated(dons) - TotalDistributed(dists)
  }

  /** Both totals are 0 on empty tables (the `COALESCE`), so an empty
      ledger has nothing available. */
  lemma EmptyLedger()
    ensures TotalDonated([]) == 0 && TotalDistributed([]) == 0 && Available([], []) == 0
  {
  }

  /** Appending one donation raises the total donated, and so the stock,
      by exactly its quantity. */
  lemma DonationRaisesStock(dons: seq<Donation>, dists: seq<Distribution>, d: Donation)
    ensures TotalDonated(dons + [d]) == TotalDonated(dons) + d.quantity
    ensures Available(dons + [d], dists) == Available(dons, dists) + d.quantity
  {
    SumOfAppend(dons, d, DonationQuantity);
  }

  /** Appending one distribution lowers the stock by exactly its quantity. */
  lemma DistributionLowersStock(dons: seq<Donation>, dists: seq<Distribution>, d: Distribution)
    ensures TotalDistributed(dists + [d]) == TotalDistributed(dists) + d.quantity
    ensures Available(dons, dists + [d]) == Available(dons, dists) - d.quantity
  {
    SumOfAppend(dists, d, DistributionQuantity);
  }

  /** The stock invariant under sequential execution: a distribution that
      passes the check `available < quantity` leaves a non-negative stock,
      and a donation keeps a non-negative stock non-negative as long as its
      quantity is not negative (the request check alone does not ensure
      that). */
  lemma StockStaysNonNegative(dons: seq<Donation>, dists: seq<Distribution>, d: Distribution, g: Donation)
    ensures !(Available(dons, dists) < d.quantity) ==> Available(dons, dists + [d]) >= 0
    ensures Available(dons, dists) >= 0 && g.quantity >= 0 ==> Available(dons + [g], dists) >= 0
  {
    DistributionLowersStock(dons, dists, d);
    DonationRaisesStock(dons, dists, g);
  }

  /** Deleting a family removes its distributions by cascade; the stock
      rises by what those distributions had taken out. */
  lemma {:induction false} CascadeReturnsStock(dons: seq<Donation>, dists: seq<Distribution>, f: Uuid)
    ensures Available(dons, DistributionsNotOf(dists, f))
         == Available(dons, dists) + TotalDistributed(DistributionsOf(dists, f))
  {
    SumOfSplit(dists, DistributionQuantity,
               (d: Distribution) => d.familyId == f, (d: Distribution) => d.familyId != f);
  }

  /** With no negative distribution quantities, deleting a family never
      lowers the stock. */
  lemma CascadeNeverLowersStock(dons: seq<Donation>, dists: seq<Distribution>, f: Uuid)
    requires forall i :: 0 <= i < |dists| ==> dists[i].quantity >= 0
    ensures Available(dons, DistributionsNotOf(dists, f)) >= Available(dons, dists)
  {
    CascadeReturnsStock(dons, dists, f);
    var mine := DistributionsOf(dists, f);
    forall i | 0 <= i < |mine| ensures DistributionQuantity(mine[i]) >= 0 {
      assert mine[i] in mine;
      FilterMembers(dists, (d: Distribution) => d.familyId == f, mine[i]);
    }
    SumOfNonNegative(mine, DistributionQuantity);
  }

  /** `if not data or not data.get('responsibleName') or not data.get('quantity')`:
      truthiness only, so a negative quantity is accepted. */
  predicate DonationComplete(input: DonationInput)
  {
    Nonempty(input.responsibleName) && Nonzero(input.quantity)
  }

  /** `if not data or not data.get('familyId') or not data.get('quantity')`;
      the two names are not checked here. */
  predicate DistributionComplete(input: DistributionInput)
  {
    input.familyId.Present? && Nonzero(input.quantity)
  }

  /** The row `create_donation` inserts, or `None` when the insert raises:
      an explicit `null` for `cpf` or `phone` violates `NOT NULL`, and a
      quantity outside the `INTEGER` range does not fit its column. */
  function DonationRow(input: DonationInput, id: Uuid, at: nat): (r: Option<Donation>)
    requires DonationComplete(input)
    ensures r.Some? <==> !input.cpf.Null? && !input.phone.Null? && FitsInteger(input.quantity.value)
    ensures r.Some? ==>
              && r.value.responsibleName == input.responsibleName.value
              && r.value.quantity == input.quantity.value
              && r.value.id == id && r.value.createdAt == at
    ensures r.Some? && input.cpf.Absent? ==> r.value.cpf == ""
    ensures r.Some? && input.cpf.Present? ==> r.value.cpf == input.cpf.value
    ensures r.Some? && input.phone.Absent? ==> r.value.phone == ""
    ensures r.Some? && input.phone.Present? ==> r.value.phone == input.phone.value
    ensures r.Some? && input.kind.Absent? ==> r.value.kind == Some("entry")
    ensures r.Some? && input.kind.Present? ==> r.value.kind == Some(input.kind.value)
    ensures r.Some? && input.kind.Null? ==> r.value.kind == None
  {
    var cpf := GetOr(input.cpf, "");
    var phone := GetOr(input.phone, "");
    if cpf.None? || phone.None? || !FitsInteger(input.quantity.value) then None
    else Some(Donation(id, input.responsibleName.value, cpf.value, phone.value,
                       input.quantity.value, GetOr(input.kind, "entry"), at))
  }

  /** Python's `s.replace('Z', '+00:00')`: every `Z` becomes the numeric
      UTC offset, so `fromisoformat` accepts the RFC 3339 `Z` designator. */
  function ReplaceZ(s: string): string
  {
    if s == [] then []
    else (if s[0] == 'Z' then "+00:00" else [s[0]]) + ReplaceZ(s[1..])
  }

  /** No `Z` survives the rewrite, text without one is left as it is, and
      nothing is removed. */
  lemma {:induction false} ReplaceZRemovesZ(s: string)
    ensures 'Z' !in ReplaceZ(s)
    ensures 'Z' !in s ==> ReplaceZ(s) == s
    ensures |ReplaceZ(s)| >= |s|
  {
    if s != [] {
      ReplaceZRemovesZ(s[1..]);
      var head := if s[0] == 'Z' then "+00:00" else [s[0]];
      assert 'Z' !in head;
      assert ReplaceZ(s) == head + ReplaceZ(s[1..]);
      if 'Z' !in s {
        assert s == [s[0]] + s[1..];
        assert 'Z' !in s[1..];
      }
    }
  }

  /** The rewrite works character by character, so it distributes over
      concatenation; in particular a trailing `Z` becomes `+00:00`. */
  lemma {:induction false} ReplaceZConcat(a: string, b: string)
    ensures ReplaceZ(a + b) == ReplaceZ(a) + ReplaceZ(b)
  {
    if a == [] {
      assert a + b == b;
    } else {
      assert (a + b)[0] == a[0];
      assert (a + b)[1..] == a[1..] + b;
      ReplaceZConcat(a[1..], b);
    }
  }

  lemma UtcDesignator(s: string)
    requires 'Z' !in s
    ensures ReplaceZ(s + "Z") == s + "+00:00"
  {
    ReplaceZConcat(s, "Z");
    ReplaceZRemovesZ(s);
    assert ReplaceZ("Z") == "+00:00" + ReplaceZ([]);
  }

  /** The distribution's date: the request's `date` after the rewrite when
      it is truthy, the local time otherwise. */
  function EffectiveDate(date: Field<string>, now: int): (w: When)
    ensures w.LocalNow? <==> !Nonempty(date)
    ensures w.LocalNow? ==> w.at == now
    ensures w.Supplied? ==> 'Z' !in w.iso && w.iso == ReplaceZ(date.value)
  {
    if Nonempty(date) then
      ReplaceZRemovesZ(date.value);
      Supplied(ReplaceZ(date.value))
    else LocalNow(now)
  }

  /** The row `create_distribution` inserts, or `None` when building or
      inserting it raises: a missing `familyName` or `pickupPersonName`
      (`KeyError`), a `null` one (`NOT NULL`), a `familyId` no family has
      (the foreign key) or a quantity outside the `INTEGER` range. */
  function DistributionRow(input: DistributionInput, families: seq<Family>, id: Uuid, now: int, at: nat)
    : (r: Option<Distribution>)
    requires DistributionComplete(input)
    ensures r.Some? <==> input.familyName.Present? && input.pickupPersonName.Present?
                         && input.familyId.value in FamilyIds(families)
                         && FitsInteger(input.quantity.value)
    ensures r.Some? ==>
              && r.value.familyId == input.familyId.value
              && r.value.familyName == input.familyName.value
              && r.value.pickupPersonName == input.pickupPersonName.value
              && r.value.quantity == input.quantity.value
              && r.value.date == EffectiveDate(input.date, now)
              && r.value.id == id && r.value.createdAt == at
  {
    if input.familyName.Present? && input.pickupPersonName.Present?
       && input.familyId.value in FamilyIds(families) && FitsInteger(input.quantity.value)
    then Some(Distribution(id, input.familyId.value, input.familyName.value,
                           input.pickupPersonName.value, input.quantity.value,
                           EffectiveDate(input.date, now), at))
    else None
  }

  /** `get_donations`: every row, newest first. */
  function ListDonations(ds: seq<Donation>): (r: seq<Donation>)
    ensures |r| == |ds|
    ensures forall i :: 0 <= i < |r| ==> r[i] == ds[|ds| - 1 - i]
  {
    Reverse(ds)
  }

  /** `get_distributions`: every row, newest first. */
  function ListDistributions(ds: seq<Distribution>): (r: seq<Distribution>)
    ensures |r| == |ds|
    ensures forall i :: 0 <= i < |r| ==> r[i] == ds[|ds| - 1 - i]
  {
    Reverse(ds)
  }

  /** Over rows whose timestamps grew with insertion, the listings are
      exactly `ORDER BY created_at DESC`: the same rows, each strictly
      newer than the next. */
  lemma ListingsNewestFirst(dons: seq<Donation>, dists: seq<Distribution>)
    requires Increasing(dons, DonationCreated) && Increasing(dists, DistributionCreated)
    ensures multiset(ListDonations(dons)) == multiset(dons)
    ensures forall i, j :: 0 <= i < j < |dons| ==>
              ListDonations(dons)[i].createdAt > ListDonations(dons)[j].createdAt
    ensures multiset(ListDistributions(dists)) == multiset(dists)
    ensures forall i, j :: 0 <= i < j < |dists| ==>
              ListDistributions(dists)[i].createdAt > ListDistributions(dists)[j].createdAt
  {
    ReverseDecreasing(dons, DonationCreated);
    ReverseDecreasing(dists, DistributionCreated);
  }
}
