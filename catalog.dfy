/** The listing catalog of app.js: carbon-credit listings created by farmers,
    approved by an admin, filtered on the marketplace and summed on the
    dashboards. */
module Catalog {
  import opened Wrappers
  import opened Seqs
  import opened Strings
  import opened Accounts

  /** A listing. Quantities (tons of CO2) and prices (rupees per ton) are
      whole numbers here; `createdAt` is the creation time. */
  datatype Listing = Listing(
    id: string,
    title: string,
    quantity: int,
    price: int,
    description: string,
    farmerId: string,
    farmerName: string,
    state: string,
    district: string,
    location: string,
    createdAt: int,
    verified: bool,
    approved: bool)

  /** The form fields `handleAddListing` collects. */
  datatype ListingForm = ListingForm(
    title: string,
    quantity: int,
    price: int,
    state: string,
    district: string,
    description: string)

  /** The listing `addListing` builds at `now` for the logged-in farmer. */
  function NewListing(form: ListingForm, farmer: User, now: nat): (l: Listing)
    ensures !l.approved && !l.verified
    ensures l.location == form.state + " - " + form.district
    ensures l.farmerId == farmer.id && l.farmerName == farmer.name
    ensures l.title == form.title && l.quantity == form.quantity && l.price == form.price
    ensures l.state == form.state && l.district == form.district && l.description == form.description
  {
    Listing("listing-" + Decimal(now), form.title, form.quantity, form.price, form.description,
            farmer.id, farmer.name, form.state, form.district, form.state + " - " + form.district,
            now, false, false)
  }

  /** Only approved listings are verified: approval sets both flags and a new
      listing has neither. */
  ghost predicate VerifiedOnlyIfApproved(listings: seq<Listing>)
  {
    forall i :: 0 <= i < |listings| ==> listings[i].verified ==> listings[i].approved
  }

  function HasListingId(id: string): Listing -> bool
  {
    (l: Listing) => l.id == id
  }

  function LacksListingId(id: string): Listing -> bool
  {
    (l: Listing) => l.id != id
  }

  /** `listings.filter(l => l.id !== id)`, shared by `deleteListing` and
      `rejectListing`. */
  function WithoutListing(listings: seq<Listing>, id: string): (r: seq<Listing>)
    ensures forall i :: 0 <= i < |r| ==> r[i] in listings && r[i].id != id
    ensures forall i :: 0 <= i < |listings| && listings[i].id != id ==> listings[i] in r
  {
    Filter(listings, LacksListingId(id))
  }

  /** Removal keeps every other listing, in order and with its multiplicity,
      and removes nothing when no listing has the id. */
  lemma WithoutListingKeepsOthers(listings: seq<Listing>, id: string)
    ensures IsSubsequence(WithoutListing(listings, id), listings)
    ensures forall l: Listing :: l.id != id ==> multiset(WithoutListing(listings, id))[l] == multiset(listings)[l]
    ensures (forall i :: 0 <= i < |listings| ==> listings[i].id != id) ==> WithoutListing(listings, id) == listings
  {
    FilterIsSubsequence(listings, LacksListingId(id));
    FilterKeepsCounts(listings, LacksListingId(id));
    if forall i :: 0 <= i < |listings| ==> listings[i].id != id {
      FilterKeepsAll(listings, LacksListingId(id));
    }
  }

  lemma WithoutListingKeepsInvariant(listings: seq<Listing>, id: string)
    requires VerifiedOnlyIfApproved(listings)
    ensures VerifiedOnlyIfApproved(WithoutListing(listings, id))
  {
  }

  /** The list after `approveListing`: the first listing with the id becomes
      approved and verified; no listing with the id leaves the list as it was. */
  function ApproveListingIn(listings: seq<Listing>, id: string): (r: seq<Listing>)
    ensures |r| == |listings|
    ensures Find(listings, HasListingId(id)).None? ==> r == listings
    ensures Find(listings, HasListingId(id)).Some? ==>
              var i := Find(listings, HasListingId(id)).value;
              r[i] == listings[i].(approved := true, verified := true) &&
              forall j :: 0 <= j < |listings| && j != i ==> r[j] == listings[j]
  {
    match Find(listings, HasListingId(id))
    case None => listings
    case Some(i) => listings[i := listings[i].(approved := true, verified := true)]
  }

  /** `Find` by listing id depends on the ids only. */
  lemma {:induction false} FindSameIds(a: seq<Listing>, b: seq<Listing>, id: string)
    requires |a| == |b| && forall j :: 0 <= j < |a| ==> a[j].id == b[j].id
    ensures Find(a, HasListingId(id)) == Find(b, HasListingId(id))
  {
    if a != [] {
      var n := |a| - 1;
      FindSameIds(a[..n], b[..n], id);
    }
  }

  /** Approving a listing twice is approving it once. */
  lemma ApproveListingIdempotent(listings: seq<Listing>, id: string)
    ensures ApproveListingIn(ApproveListingIn(listings, id), id) == ApproveListingIn(listings, id)
  {
    var r := ApproveListingIn(listings, id);
    FindSameIds(listings, r, id);
  }

  lemma ApproveListingKeepsInvariant(listings: seq<Listing>, id: string)
    requires VerifiedOnlyIfApproved(listings)
    ensures VerifiedOnlyIfApproved(ApproveListingIn(listings, id))
  {
  }

  // ---- The marketplace filter ----

  /** The price ceiling of the filter form: `parseFloat(value) || Infinity`.
      `None` stands for a field that does not parse (NaN); a parsed 0 is
      falsy too, so both mean no ceiling. */
  function PriceCeiling(parsed: Option<int>): Option<int>
  {
    if parsed.None? || parsed.value == 0 then None else parsed
  }

  /** `!filter || field.toLowerCase().includes(filter)` with the filter
      already lower-cased. */
  predicate MatchesText(field: string, filter: string)
  {
    filter == [] || Contains(ToLower(field), filter)
  }

  /** The three tests of `filterMarketplaceListings` on one listing. */
  predicate MatchesFilters(l: Listing, stateFilter: string, districtFilter: string, ceiling: Option<int>)
    ensures stateFilter == [] && districtFilter == [] && ceiling.None? ==> MatchesFilters(l, stateFilter, districtFilter, ceiling)
    ensures ceiling.Some? && l.price > ceiling.value ==> !MatchesFilters(l, stateFilter, districtFilter, ceiling)
  {
    MatchesText(l.state, stateFilter) && MatchesText(l.district, districtFilter) &&
    (ceiling.None? || l.price <= ceiling.value)
  }

  function IsApprovedListing(): Listing -> bool
  {
    (l: Listing) => l.approved
  }

  function Matching(stateFilter: string, districtFilter: string, ceiling: Option<int>): Listing -> bool
  {
    (l: Listing) => MatchesFilters(l, stateFilter, districtFilter, ceiling)
  }

  function ShownOnMarketplace(stateFilter: string, districtFilter: string, ceiling: Option<int>): Listing -> bool
  {
    (l: Listing) => l.approved && MatchesFilters(l, stateFilter, districtFilter, ceiling)
  }

  /** `filterMarketplaceListings()`: the approved listings, then those that
      pass the state, district and price tests. The form's text is
      lower-cased here, as the source does on reading it. */
  function MarketplaceView(listings: seq<Listing>, stateInput: string, districtInput: string, priceInput: Option<int>): (r: seq<Listing>)
    ensures forall i :: 0 <= i < |r| ==>
              r[i] in listings && r[i].approved &&
              MatchesFilters(r[i], ToLower(stateInput), ToLower(districtInput), PriceCeiling(priceInput))
    ensures forall i :: 0 <= i < |listings| ==>
              listings[i].approved && MatchesFilters(listings[i], ToLower(stateInput), ToLower(districtInput), PriceCeiling(priceInput))
              ==> listings[i] in r
  {
    var approvedListings := Filter(listings, IsApprovedListing());
    Filter(approvedListings, Matching(ToLower(stateInput), ToLower(districtInput), PriceCeiling(priceInput)))
  }

  /** The view is one in-order pass over the catalog: exactly the subsequence
      of listings that are approved and pass the filters. */
  lemma MarketplaceViewIsSubsequence(listings: seq<Listing>, stateInput: string, districtInput: string, priceInput: Option<int>)
    ensures var c := PriceCeiling(priceInput);
            MarketplaceView(listings, stateInput, districtInput, priceInput) ==
              Filter(listings, ShownOnMarketplace(ToLower(stateInput), ToLower(districtInput), c))
    ensures IsSubsequence(MarketplaceView(listings, stateInput, districtInput, priceInput), listings)
  {
    var s, d, c := ToLower(stateInput), ToLower(districtInput), PriceCeiling(priceInput);
    FilterFilter(listings, IsApprovedListing(), Matching(s, d, c), ShownOnMarketplace(s, d, c));
    FilterIsSubsequence(listings, ShownOnMarketplace(s, d, c));
  }

  /** What the price field does to the view. A price that parses to a
      non-zero number is a ceiling: every listing shown is priced within it,
      and every approved listing within it that passes the text tests is
      shown. A blank, unparsable or zero price drops no listing on price. */
  lemma PriceFilterEffect(listings: seq<Listing>, stateInput: string, districtInput: string, priceInput: Option<int>)
    ensures var view := MarketplaceView(listings, stateInput, districtInput, priceInput);
            priceInput.Some? && priceInput.value != 0 ==>
              (forall i :: 0 <= i < |view| ==> view[i].price <= priceInput.value) &&
              forall i :: 0 <= i < |listings| && listings[i].approved && listings[i].price <= priceInput.value &&
                          MatchesText(listings[i].state, ToLower(stateInput)) &&
                          MatchesText(listings[i].district, ToLower(districtInput))
                          ==> listings[i] in view
    ensures var view := MarketplaceView(listings, stateInput, districtInput, priceInput);
            priceInput.None? || priceInput.value == 0 ==>
              forall i :: 0 <= i < |listings| && listings[i].approved &&
                          MatchesText(listings[i].state, ToLower(stateInput)) &&
                          MatchesText(listings[i].district, ToLower(districtInput))
                          ==> listings[i] in view
  {
  }

  /** With empty text filters and a blank or zero price, the marketplace shows
      every approved listing. */
  lemma NoFiltersShowsApproved(listings: seq<Listing>, priceInput: Option<int>)
    requires priceInput.None? || priceInput.value == 0
    ensures MarketplaceView(listings, "", "", priceInput) == Filter(listings, IsApprovedListing())
  {
    var a := Filter(listings, IsApprovedListing());
    FilterKeepsAll(a, Matching(ToLower(""), ToLower(""), PriceCeiling(priceInput)));
  }

  /** A listing whose state contains the filter text, ignoring ASCII case,
      passes the state test. */
  lemma StateFilterIgnoresCase(l: Listing, stateInput: string, at: nat)
    requires at <= |l.state| && IsPrefix(ToLower(stateInput), ToLower(l.state)[at..])
    ensures MatchesText(l.state, ToLower(stateInput))
  {
    ContainsAt(ToLower(l.state), ToLower(stateInput));
  }

  /** Approval is what puts a listing on the marketplace: after approving an
      existing id, the approved listing is shown when no filters are set. */
  lemma ApprovedListingShown(listings: seq<Listing>, id: string)
    requires Find(listings, HasListingId(id)).Some?
    ensures var r := ApproveListingIn(listings, id);
            r[Find(listings, HasListingId(id)).value] in MarketplaceView(r, "", "", None)
  {
    var r := ApproveListingIn(listings, id);
    var i := Find(listings, HasListingId(id)).value;
    NoFiltersShowsApproved(r, None);
    assert r[i].approved;
  }

  // ---- Dashboard figures ----

  function IsPendingListing(): Listing -> bool
  {
    (l: Listing) => !l.approved
  }

  /** The admin dashboard's pending-listing figure: `listings.filter(l => !l.approved).length`. */
  function PendingListingCount(listings: seq<Listing>): (n: nat)
    ensures n == |set i | 0 <= i < |listings| && !listings[i].approved|
  {
    FilterLengthIsCount(listings, IsPendingListing(), set i | 0 <= i < |listings| && !listings[i].approved);
    |Filter(listings, IsPendingListing())|
  }

  /** Every listing is either pending or approved. */
  lemma PendingAndApprovedPartition(listings: seq<Listing>)
    ensures PendingListingCount(listings) + |Filter(listings, IsApprovedListing())| == |listings|
  {
    FilterSplit(listings, IsPendingListing(), IsApprovedListing());
  }

  /** A new listing counts as pending. */
  lemma PendingCountAfterAdd(listings: seq<Listing>, l: Listing)
    requires !l.approved
    ensures PendingListingCount(listings + [l]) == PendingListingCount(listings) + 1
  {
    FilterConcat(listings, [l], IsPendingListing());
    FilterSingle(l, IsPendingListing());
  }

  /** Approving a pending listing removes it from the pending figure; any
      other approval leaves the figure as it was. */
  lemma PendingCountAfterApprove(listings: seq<Listing>, id: string)
    ensures var k := Find(listings, HasListingId(id));
            PendingListingCount(ApproveListingIn(listings, id)) ==
              PendingListingCount(listings) - (if k.Some? && !listings[k.value].approved then 1 else 0)
  {
    var k := Find(listings, HasListingId(id));
    if k.Some? {
      var i := k.value;
      FilterCountUpdate(listings, i, listings[i].(approved := true, verified := true), IsPendingListing());
    }
  }

  function OwnedBy(farmerId: string): Listing -> bool
  {
    (l: Listing) => l.farmerId == farmerId
  }

  /** `listings.filter(listing => listing.farmerId === currentUser.id)`. */
  function FarmerListings(listings: seq<Listing>, farmerId: string): (r: seq<Listing>)
    ensures forall i :: 0 <= i < |r| ==> r[i] in listings && r[i].farmerId == farmerId
    ensures forall i :: 0 <= i < |listings| && listings[i].farmerId == farmerId ==> listings[i] in r
    ensures IsSubsequence(r, listings)
    ensures forall l: Listing :: l.farmerId == farmerId ==> multiset(r)[l] == multiset(listings)[l]
    ensures forall l: Listing :: l.farmerId != farmerId ==> multiset(r)[l] == 0
  {
    var p := OwnedBy(farmerId);
    FilterIsSubsequence(listings, p);
    FilterKeepsCounts(listings, p);
    Filter(listings, p)
  }

  /** A farmer's listing count is the number of positions holding one of their listings. */
  lemma FarmerListingsCount(listings: seq<Listing>, farmerId: string)
    ensures |FarmerListings(listings, farmerId)| ==
              |set i | 0 <= i < |listings| && listings[i].farmerId == farmerId|
  {
    FilterLengthIsCount(listings, OwnedBy(farmerId), set i | 0 <= i < |listings| && listings[i].farmerId == farmerId);
  }

  function QuantityOf(): Listing -> int
  {
    (l: Listing) => l.quantity
  }

  /** The farmer dashboard's total: the sum of the quantities of the farmer's
      listings. */
  function FarmerCO2(listings: seq<Listing>, farmerId: string): (total: int)
    ensures (forall i :: 0 <= i < |listings| ==> listings[i].quantity >= 0) ==> total >= 0
    ensures (forall i :: 0 <= i < |listings| ==> listings[i].farmerId != farmerId) ==> total == 0
  {
    var mine := FarmerListings(listings, farmerId);
    if forall i :: 0 <= i < |listings| ==> listings[i].quantity >= 0 then
      assert forall i :: 0 <= i < |mine| ==> QuantityOf()(mine[i]) >= 0;
      SumOfNonnegative(mine, QuantityOf());
      SumOf(mine, QuantityOf())
    else
      SumOf(mine, QuantityOf())
  }

  /** Adding a listing adds one to its farmer's count and its quantity to the
      farmer's total, and leaves every other farmer's figures alone. */
  lemma FarmerTotalsAfterAdd(listings: seq<Listing>, l: Listing, farmerId: string)
    ensures |FarmerListings(listings + [l], farmerId)| ==
              |FarmerListings(listings, farmerId)| + (if l.farmerId == farmerId then 1 else 0)
    ensures FarmerCO2(listings + [l], farmerId) ==
              FarmerCO2(listings, farmerId) + (if l.farmerId == farmerId then l.quantity else 0)
  {
    var p := OwnedBy(farmerId);
    FilterConcat(listings, [l], p);
    FilterSingle(l, p);
    SumOfConcat(Filter(listings, p), Filter([l], p), QuantityOf());
    assert SumOf([l], QuantityOf()) == l.quantity by {
      assert [l][..0] == [];
    }
  }
}
