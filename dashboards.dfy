/** The figures the three dashboards display (`updateAdminDashboard`,
    `updateFarmerDashboard`, `updateCompanyDashboard`), each shown only to a
    session of the matching role. */
module Dashboards {
  import opened Wrappers
  import opened Seqs
  import opened Accounts
  import opened Catalog
  import opened Payments

  predicate HasRole(current: Option<Session>, role: string)
  {
    current.Some? && current.value.user.role == role
  }

  datatype AdminFigures = AdminFigures(pendingUsers: nat, pendingListings: nat, verifiedUsers: nat)

  /** The admin dashboard's counts: accounts awaiting approval, unapproved
      listings and approved accounts. */
  function AdminDashboard(current: Option<Session>, users: seq<User>, pending: seq<User>, listings: seq<Listing>): (r: Option<AdminFigures>)
    ensures r.Some? <==> HasRole(current, AdminRole)
    ensures r.Some? ==> r.value.pendingUsers == |pending|
    ensures r.Some? ==> r.value.pendingListings + |Filter(listings, IsApprovedListing())| == |listings|
    ensures r.Some? ==> (r.value.verifiedUsers == |users| <==> forall i :: 0 <= i < |users| ==> users[i].approved)
    ensures r.Some? ==> r.value.pendingListings == |set i | 0 <= i < |listings| && !listings[i].approved|
    ensures r.Some? ==> r.value.verifiedUsers == |set i | 0 <= i < |users| && users[i].approved|
  {
    if !HasRole(current, AdminRole) then None
    else
      PendingAndApprovedPartition(listings);
      Some(AdminFigures(|pending|, PendingListingCount(listings), VerifiedUserCount(users)))
  }

  datatype FarmerFigures = FarmerFigures(totalListings: nat, totalCO2: int)

  /** The farmer dashboard's figures for the session's own listings. */
  function FarmerDashboard(current: Option<Session>, listings: seq<Listing>): (r: Option<FarmerFigures>)
    ensures r.Some? <==> HasRole(current, FarmerRole)
    ensures r.Some? ==> r.value.totalListings <= |listings|
    ensures r.Some? ==> var id := current.value.user.id;
              r.value == FarmerFigures(|FarmerListings(listings, id)|, FarmerCO2(listings, id)) &&
              r.value.totalListings == |set i | 0 <= i < |listings| && listings[i].farmerId == id|
  {
    if !HasRole(current, FarmerRole) then None
    else
      var id := current.value.user.id;
      FarmerListingsCount(listings, id);
      Some(FarmerFigures(|FarmerListings(listings, id)|, FarmerCO2(listings, id)))
  }

  /** A listing added by the logged-in farmer shows up in their figures at
      once: one more listing and its quantity on top of the total. */
  lemma FarmerDashboardAfterAdd(current: Option<Session>, listings: seq<Listing>, form: ListingForm, now: nat)
    requires HasRole(current, FarmerRole)
    ensures var before := FarmerDashboard(current, listings).value;
            var after := FarmerDashboard(current, listings + [NewListing(form, current.value.user, now)]).value;
            after.totalListings == before.totalListings + 1 && after.totalCO2 == before.totalCO2 + form.quantity
  {
    FarmerTotalsAfterAdd(listings, NewListing(form, current.value.user, now), current.value.user.id);
  }

  /** The company dashboard's purchase count, spend and offset: the payment
      statistics of the session's own payments. */
  function CompanyDashboard(current: Option<Session>, ledger: seq<PaymentRecord>): (r: Option<PaymentStats>)
    ensures r.Some? <==> HasRole(current, CompanyRole)
    ensures r.Some? ==> r.value.totalPayments <= |ledger|
    ensures r.Some? ==> var id := current.value.user.id;
              r.value == Stats(UserPayments(ledger, id)) &&
              r.value.totalPayments == |set i | 0 <= i < |ledger| && ledger[i].userId == id|
  {
    if !HasRole(current, CompanyRole) then None
    else
      var id := current.value.user.id;
      UserPaymentsCount(ledger, id);
      Some(Stats(UserPayments(ledger, id)))
  }

  /** A payment saved for the logged-in company adds one purchase, its amount
      and its tons to the company's figures. */
  lemma CompanyDashboardAfterPayment(current: Option<Session>, ledger: seq<PaymentRecord>, data: PaymentData,
                                     date: CalendarDate, now: nat)
    requires HasRole(current, CompanyRole)
    ensures var before := CompanyDashboard(current, ledger).value;
            var after := CompanyDashboard(current, ledger + [NewPaymentRecord(data, current.value.user, date, now)]).value;
            after.totalPayments == before.totalPayments + 1 &&
            after.totalAmount == before.totalAmount + data.amount &&
            after.totalCO2Offset == before.totalCO2Offset + data.quantity
  {
    var id := current.value.user.id;
    var r := NewPaymentRecord(data, current.value.user, date, now);
    UserPaymentsAfterSave(ledger, r, id);
    StatsAfterSave(UserPayments(ledger, id), r);
  }

  /** One company's figures and everyone else's add up to the ledger's
      totals. */
  lemma CompanyShareOfLedger(current: Option<Session>, ledger: seq<PaymentRecord>)
    requires HasRole(current, CompanyRole)
    ensures var mine := CompanyDashboard(current, ledger).value;
            var others := Stats(Filter(ledger, PaidByOthers(current.value.user.id)));
            mine.totalAmount + others.totalAmount == Stats(ledger).totalAmount &&
            mine.totalPayments + others.totalPayments == Stats(ledger).totalPayments
  {
    UserStatsPartition(ledger, current.value.user.id);
  }
}
