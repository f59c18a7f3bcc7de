/** The mutable state of the application and its handlers: the globals and
    stored collections of app.js and js/payments.js, each handler taken as
    one atomic step at the time `now` it is given. */
module Application {
  import opened Wrappers
  import opened Seqs
  import opened Strings
  import opened Security
  import opened RateLimiting
  import opened Lockout
  import opened Accounts
  import opened Catalog
  import opened Payments

  datatype AddListingOutcome = NotAFarmer | NonPositiveAmount | Added(listing: Listing)

  /** What the Razorpay checkout reports back: the handler with a payment id,
      or the dismissal of the modal. */
  datatype CheckoutResult = CheckoutCompleted(paymentId: string) | CheckoutDismissed

  /** How `loadPaymentData` of Google Pay settles. */
  datatype GooglePayResult = GooglePayAuthorized | GooglePayCanceled | GooglePayFailed

  datatype PaymentOutcome = NotLoggedIn | ListingNotFound | NotCompleted | Paid(record: PaymentRecord)

  /** `initializeApp` goes on to load the stored data iff no session was
      saved or the saved one is still valid. */
  predicate LoadsStoredData(saved: Option<Session>, now: int)
  {
    saved.None? || IsSessionValid(saved, now)
  }

  class AppState {
    /** The `users` list in storage. */
    var users: seq<User>
    /** `pendingUsers`: copies of the accounts awaiting approval. */
    var pendingUsers: seq<User>
    /** `listings`. */
    var listings: seq<Listing>
    /** The `loginAttempts_<email>` records. */
    var loginAttempts: AttemptStore
    /** `currentUser`. */
    var currentUser: Option<Session>
    /** `paymentDatabase`. */
    var paymentDatabase: seq<PaymentRecord>
    /** `rateLimitStore`, shared by login and signup. */
    const rateLimiter: RateLimiter

    ghost predicate Valid()
      reads this, rateLimiter
    {
      rateLimiter.Valid() && PendingAwaitApproval(users, pendingUsers) && VerifiedOnlyIfApproved(listings)
    }

    /** A page load: the globals at their initial values, then
        `initializeApp()` at `now` with the saved session. A saved session
        that is no longer valid is logged out, and `initializeApp` returns
        before `loadListings()` and `loadPendingUsers()`, so `listings` and
        `pendingUsers` keep their initial `[]`. Otherwise the saved session
        (if any) is kept and both are loaded. The accounts, the login-attempt
        records and the ledger come from storage either way, and the rate
        limiter starts empty. */
    constructor (saved: Option<Session>, now: int, storedUsers: seq<User>, storedPending: seq<User>,
                 storedListings: seq<Listing>, storedAttempts: AttemptStore, storedPayments: seq<PaymentRecord>)
      requires LoadsStoredData(saved, now) ==>
                 PendingAwaitApproval(storedUsers, storedPending) && VerifiedOnlyIfApproved(storedListings)
      ensures Valid() && fresh(rateLimiter) && rateLimiter.store == map[]
      ensures users == storedUsers && loginAttempts == storedAttempts && paymentDatabase == storedPayments
      ensures LoadsStoredData(saved, now) ==>
                currentUser == saved && pendingUsers == storedPending && listings == storedListings
      ensures !LoadsStoredData(saved, now) ==> currentUser == None && pendingUsers == [] && listings == []
    {
      users := storedUsers;
      loginAttempts := storedAttempts;
      paymentDatabase := storedPayments;
      listings := [];
      pendingUsers := [];
      currentUser := saved;
      rateLimiter := new RateLimiter();
      if saved.Some? && !IsSessionValid(saved, now) {
        currentUser := None;
      } else {
        listings := storedListings;
        pendingUsers := storedPending;
      }
    }

    /** The page load as evidently intended: an expired session is logged
        out and the stored listings and pending accounts are still loaded. */
    constructor Reload(saved: Option<Session>, now: int, storedUsers: seq<User>, storedPending: seq<User>,
                       storedListings: seq<Listing>, storedAttempts: AttemptStore, storedPayments: seq<PaymentRecord>)
      requires PendingAwaitApproval(storedUsers, storedPending) && VerifiedOnlyIfApproved(storedListings)
      ensures Valid() && fresh(rateLimiter) && rateLimiter.store == map[]
      ensures users == storedUsers && loginAttempts == storedAttempts && paymentDatabase == storedPayments
      ensures pendingUsers == storedPending && listings == storedListings
      ensures currentUser == (if LoadsStoredData(saved, now) then saved else None)
    {
      users := storedUsers;
      loginAttempts := storedAttempts;
      paymentDatabase := storedPayments;
      listings := storedListings;
      pendingUsers := storedPending;
      currentUser := saved;
      rateLimiter := new RateLimiter();
      if saved.Some? && !IsSessionValid(saved, now) {
        currentUser := None;
      }
    }

    /** `logout()`. */
    method Logout()
      requires Valid()
      modifies this
      ensures Valid() && currentUser == None
      ensures users == old(users) && pendingUsers == old(pendingUsers) && listings == old(listings)
      ensures loginAttempts == old(loginAttempts) && paymentDatabase == old(paymentDatabase)
    {
      currentUser := None;
    }

    /** `recordLoginAttempt(email, success)` at `now`. */
    method RecordLoginAttempt(email: string, success: bool, now: int)
      requires Valid()
      modifies this
      ensures Valid()
      ensures loginAttempts == Lockout.RecordLoginAttempt(old(loginAttempts), email, success, now)
      ensures users == old(users) && pendingUsers == old(pendingUsers) && listings == old(listings)
      ensures currentUser == old(currentUser) && paymentDatabase == old(paymentDatabase)
    {
      var attempts := Stored(loginAttempts, email);
      if success {
        loginAttempts := loginAttempts - {email};
      } else {
        attempts := Attempts(attempts.count + 1, now);
        loginAttempts := loginAttempts[email := attempts];
      }
    }

    /** `handleLogin` with the form's email and password, at `now`: the rate
        limit and the lockout are checked before any credential lookup; a
        match with an approved account opens a session and clears the
        email's failures, any other lookup records one failure. */
    method HandleLogin(emailInput: string, password: string, now: nat) returns (outcome: LoginOutcome)
      requires Valid()
      modifies this, rateLimiter
      ensures Valid()
      ensures rateLimiter.store == RateLimitCheck(old(rateLimiter.store), "login_" + Sanitize(emailInput), now).store
      ensures outcome == LoginRateLimited <==>
                !RateLimitCheck(old(rateLimiter.store), "login_" + Sanitize(emailInput), now).accepted
      ensures outcome.LockedOut? <==>
                RateLimitCheck(old(rateLimiter.store), "login_" + Sanitize(emailInput), now).accepted &&
                CheckLoginAttempts(old(loginAttempts), Sanitize(emailInput), now).Locked?
      ensures outcome.LockedOut? ==>
                outcome.remainingTime == CheckLoginAttempts(old(loginAttempts), Sanitize(emailInput), now).remainingTime
      ensures outcome == LoginRateLimited || outcome.LockedOut? ==>
                loginAttempts == old(loginAttempts) && currentUser == old(currentUser)
      ensures !(outcome == LoginRateLimited || outcome.LockedOut?) ==>
                outcome == CredentialOutcome(users, Sanitize(emailInput), PasswordHash(password))
      ensures outcome.LoggedIn? ==>
                var i := FindCredentials(users, Sanitize(emailInput), PasswordHash(password)).value;
                currentUser == Some(Session(users[i], now, None)) &&
                loginAttempts == Lockout.RecordLoginAttempt(old(loginAttempts), Sanitize(emailInput), true, now)
      ensures outcome.PendingApproval? || outcome.InvalidCredentials? ==>
                currentUser == old(currentUser) &&
                loginAttempts == Lockout.RecordLoginAttempt(old(loginAttempts), Sanitize(emailInput), false, now)
      ensures users == old(users) && pendingUsers == old(pendingUsers) && listings == old(listings)
      ensures paymentDatabase == old(paymentDatabase)
    {
      var email := Sanitize(emailInput);
      var allowed := rateLimiter.CheckRateLimit("login_" + email, now);
      if !allowed {
        return LoginRateLimited;
      }
      var attemptCheck := CheckLoginAttempts(loginAttempts, email, now);
      if attemptCheck.Locked? {
        return LockedOut(attemptCheck.remainingTime);
      }
      var hashedPassword := HashPassword(password);
      var user := FindCredentials(users, email, hashedPassword);
      if user.Some? && users[user.value].approved {
        currentUser := Some(Session(users[user.value], now, None));
        RecordLoginAttempt(email, true, now);
        outcome := LoggedIn;
      } else if user.Some? {
        RecordLoginAttempt(email, false, now);
        outcome := PendingApproval;
      } else {
        RecordLoginAttempt(email, false, now);
        outcome := InvalidCredentials;
      }
    }

    /** `handleSignup` with the form's fields, at `now`: any of the four early
        rejections leaves the accounts alone; otherwise one unapproved account
        is appended to `users` and to `pendingUsers`. */
    method HandleSignup(nameInput: string, emailInput: string, password: string, confirmPassword: string,
                        role: string, now: nat) returns (error: Option<SignupError>)
      requires Valid()
      modifies this, rateLimiter
      ensures Valid()
      ensures rateLimiter.store == RateLimitCheck(old(rateLimiter.store), "signup_" + Sanitize(emailInput), now).store
      ensures error == SignupCheck(RateLimitCheck(old(rateLimiter.store), "signup_" + Sanitize(emailInput), now).accepted,
                                   old(users), Sanitize(emailInput), password, confirmPassword)
      ensures error.Some? ==> users == old(users) && pendingUsers == old(pendingUsers)
      ensures error.None? ==>
                var u := NewUser(Sanitize(nameInput), Sanitize(emailInput), password, role, now);
                users == old(users) + [u] && pendingUsers == old(pendingUsers) + [u]
      ensures listings == old(listings) && loginAttempts == old(loginAttempts)
      ensures currentUser == old(currentUser) && paymentDatabase == old(paymentDatabase)
    {
      var name := Sanitize(nameInput);
      var email := Sanitize(emailInput);
      var allowed := rateLimiter.CheckRateLimit("signup_" + email, now);
      if !allowed {
        return Some(SignupRateLimited);
      }
      if password != confirmPassword {
        return Some(PasswordMismatch);
      }
      var passwordError := ValidatePassword(password);
      if passwordError.Some? {
        return Some(WeakPassword(passwordError.value));
      }
      if EmailRegistered(users, email) {
        return Some(EmailTaken);
      }
      var hash := HashPassword(password);
      var newUser := User("user-" + Decimal(now), name, email, hash, role, now, false, false);
      AppendKeepsPending(users, pendingUsers, newUser, true);
      users := users + [newUser];
      pendingUsers := pendingUsers + [newUser];
      error := None;
    }

    /** `addListing(listingData)` at `now`; the source reads the session's id
        and name, so a session is required. */
    method AddListing(form: ListingForm, now: nat) returns (listing: Listing)
      requires Valid() && currentUser.Some?
      modifies this
      ensures Valid()
      ensures listing == NewListing(form, old(currentUser).value.user, now)
      ensures listings == old(listings) + [listing]
      ensures users == old(users) && pendingUsers == old(pendingUsers) && loginAttempts == old(loginAttempts)
      ensures currentUser == old(currentUser) && paymentDatabase == old(paymentDatabase)
    {
      var farmer := currentUser.value.user;
      listing := Listing("listing-" + Decimal(now), form.title, form.quantity, form.price, form.description,
                         farmer.id, farmer.name, form.state, form.district,
                         form.state + " - " + form.district, now, false, false);
      listings := listings + [listing];
    }

    /** `handleAddListing` with the form's fields, at `now`: only a farmer's
        session may add, and only with a positive quantity and price. */
    method HandleAddListing(title: string, quantity: int, price: int, state: string, district: string,
                            description: string, now: nat) returns (outcome: AddListingOutcome)
      requires Valid()
      modifies this
      ensures Valid()
      ensures outcome == NotAFarmer <==> old(currentUser).None? || old(currentUser).value.user.role != FarmerRole
      ensures outcome == NonPositiveAmount <==>
                outcome != NotAFarmer && (quantity <= 0 || price <= 0)
      ensures outcome.Added? ==>
                var form := ListingForm(Sanitize(title), quantity, price, state, Sanitize(district), Sanitize(description));
                outcome.listing == NewListing(form, old(currentUser).value.user, now) &&
                listings == old(listings) + [outcome.listing]
      ensures !outcome.Added? ==> listings == old(listings)
      ensures users == old(users) && pendingUsers == old(pendingUsers) && loginAttempts == old(loginAttempts)
      ensures currentUser == old(currentUser) && paymentDatabase == old(paymentDatabase)
    {
      if currentUser.None? || currentUser.value.user.role != FarmerRole {
        return NotAFarmer;
      }
      var form := ListingForm(Sanitize(title), quantity, price, state, Sanitize(district), Sanitize(description));
      if form.quantity <= 0 || form.price <= 0 {
        return NonPositiveAmount;
      }
      var listing := AddListing(form, now);
      outcome := Added(listing);
    }

    /** `deleteListing(listingId)`, with the answer of the confirmation
        dialog. */
    method DeleteListing(listingId: string, confirmed: bool)
      requires Valid()
      modifies this
      ensures Valid()
      ensures listings == if confirmed then WithoutListing(old(listings), listingId) else old(listings)
      ensures users == old(users) && pendingUsers == old(pendingUsers) && loginAttempts == old(loginAttempts)
      ensures currentUser == old(currentUser) && paymentDatabase == old(paymentDatabase)
    {
      if confirmed {
        WithoutListingKeepsInvariant(listings, listingId);
        listings := WithoutListing(listings, listingId);
      }
    }

    /** `rejectListing(listingId)`. */
    method RejectListing(listingId: string)
      requires Valid()
      modifies this
      ensures Valid()
      ensures listings == WithoutListing(old(listings), listingId)
      ensures users == old(users) && pendingUsers == old(pendingUsers) && loginAttempts == old(loginAttempts)
      ensures currentUser == old(currentUser) && paymentDatabase == old(paymentDatabase)
    {
      WithoutListingKeepsInvariant(listings, listingId);
      listings := WithoutListing(listings, listingId);
    }

    /** `approveListing(listingId)`: the first listing with the id is approved
        and verified in place. */
    method ApproveListing(listingId: string)
      requires Valid()
      modifies this
      ensures Valid()
      ensures listings == ApproveListingIn(old(listings), listingId)
      ensures users == old(users) && pendingUsers == old(pendingUsers) && loginAttempts == old(loginAttempts)
      ensures currentUser == old(currentUser) && paymentDatabase == old(paymentDatabase)
    {
      ApproveListingKeepsInvariant(listings, listingId);
      var found := Find(listings, HasListingId(listingId));
      if found.Some? {
        var i := found.value;
        listings := listings[i := listings[i].(approved := true, verified := true)];
      }
    }

    /** `approveUser(userId)`: only when an account has the id is it approved
        and the id dropped from `pendingUsers`. */
    method ApproveUser(userId: string)
      requires Valid()
      modifies this
      ensures Valid()
      ensures users == ApproveUserIn(old(users), userId)
      ensures pendingUsers == if Find(old(users), HasUserId(userId)).Some?
                              then WithoutUser(old(pendingUsers), userId) else old(pendingUsers)
      ensures listings == old(listings) && loginAttempts == old(loginAttempts)
      ensures currentUser == old(currentUser) && paymentDatabase == old(paymentDatabase)
    {
      var userIndex := Find(users, HasUserId(userId));
      if userIndex.Some? {
        ApproveKeepsPending(users, pendingUsers, userId);
        var i := userIndex.value;
        users := users[i := users[i].(approved := true)];
        pendingUsers := WithoutUser(pendingUsers, userId);
      }
    }

    /** `rejectUser(userId)`: the id leaves both lists, whether or not it was
        there. */
    method RejectUser(userId: string)
      requires Valid()
      modifies this
      ensures Valid()
      ensures users == WithoutUser(old(users), userId)
      ensures pendingUsers == WithoutUser(old(pendingUsers), userId)
      ensures listings == old(listings) && loginAttempts == old(loginAttempts)
      ensures currentUser == old(currentUser) && paymentDatabase == old(paymentDatabase)
    {
      RejectKeepsPending(users, pendingUsers, userId);
      users := WithoutUser(users, userId);
      pendingUsers := WithoutUser(pendingUsers, userId);
    }

    /** `createDefaultAdmin()` at `now`. */
    method CreateDefaultAdmin(now: int)
      requires Valid()
      modifies this
      ensures Valid()
      ensures users == SeedAdmin(old(users), now)
      ensures pendingUsers == old(pendingUsers) && listings == old(listings) && loginAttempts == old(loginAttempts)
      ensures currentUser == old(currentUser) && paymentDatabase == old(paymentDatabase)
    {
      var adminExists := HasAdmin(users);
      if !adminExists {
        var hash := HashPassword(DefaultAdminPassword);
        var adminUser := User("admin-default", "Priti Carbon Admin", DefaultAdminEmail, hash,
                              AdminRole, now, true, true);
        AppendKeepsPending(users, pendingUsers, adminUser, false);
        users := users + [adminUser];
      }
    }

    /** `savePaymentRecord(paymentData)` at `now` on the calendar date `date`:
        one record is appended, built from the data and the session's
        account. */
    method SavePaymentRecord(data: PaymentData, date: CalendarDate, now: nat) returns (payment: PaymentRecord)
      requires Valid() && currentUser.Some?
      modifies this
      ensures Valid()
      ensures payment == NewPaymentRecord(data, old(currentUser).value.user, date, now)
      ensures paymentDatabase == old(paymentDatabase) + [payment]
      ensures users == old(users) && pendingUsers == old(pendingUsers) && listings == old(listings)
      ensures loginAttempts == old(loginAttempts) && currentUser == old(currentUser)
    {
      var user := currentUser.value.user;
      payment := PaymentRecord("pay_" + Decimal(now), ReceiptNumber(date, now), user.id, user.email, user.name,
                               data.listingId, data.listingTitle, data.amount, data.quantity, data.pricePerUnit,
                               data.paymentMethod, data.paymentId, data.status, now, now);
      paymentDatabase := paymentDatabase + [payment];
    }

    /** `handlePaymentSuccess(paymentData)`: save the record and add its id to
        the session's purchases, creating the list when there is none. */
    method HandlePaymentSuccess(data: PaymentData, date: CalendarDate, now: nat) returns (payment: PaymentRecord)
      requires Valid() && currentUser.Some?
      modifies this
      ensures Valid()
      ensures payment == NewPaymentRecord(data, old(currentUser).value.user, date, now)
      ensures paymentDatabase == old(paymentDatabase) + [payment]
      ensures currentUser == Some(old(currentUser).value.(purchases :=
                Some(old(currentUser).value.purchases.GetOr([]) + [payment.id])))
      ensures users == old(users) && pendingUsers == old(pendingUsers) && listings == old(listings)
      ensures loginAttempts == old(loginAttempts)
    {
      payment := SavePaymentRecord(data, date, now);
      var session := currentUser.value;
      var purchases := if session.purchases.None? then [] else session.purchases.value;
      purchases := purchases + [payment.id];
      currentUser := Some(session.(purchases := Some(purchases)));
    }

    /** `payWithRazorpay(listingId)` and the checkout's answer: without a
        session or a listing with the id nothing happens; otherwise the
        checkout is asked for the total in paise, and a completed checkout
        records the payment. */
    method PayWithRazorpay(listingId: string, result: CheckoutResult, date: CalendarDate, now: nat)
      returns (outcome: PaymentOutcome, checkoutAmount: Option<int>)
      requires Valid()
      modifies this
      ensures Valid()
      ensures old(currentUser).None? ==> outcome == NotLoggedIn && checkoutAmount == None
      ensures old(currentUser).Some? && Find(listings, HasListingId(listingId)).None? ==>
                outcome == ListingNotFound && checkoutAmount == None
      ensures old(currentUser).Some? && Find(listings, HasListingId(listingId)).Some? ==>
                var l := listings[Find(listings, HasListingId(listingId)).value];
                checkoutAmount == Some(RazorpayCheckoutAmount(l)) &&
                (outcome.Paid? <==> result.CheckoutCompleted?) &&
                (outcome.Paid? ==>
                   outcome.record == NewPaymentRecord(ProviderPaymentData(listingId, l, RazorpayMethod, result.paymentId),
                                                      old(currentUser).value.user, date, now))
      ensures outcome.Paid? ==> paymentDatabase == old(paymentDatabase) + [outcome.record]
      ensures outcome.Paid? ==>
                old(currentUser).Some? &&
                currentUser == Some(old(currentUser).value.(purchases :=
                  Some(old(currentUser).value.purchases.GetOr([]) + [outcome.record.id])))
      ensures !outcome.Paid? ==> paymentDatabase == old(paymentDatabase) && currentUser == old(currentUser)
      ensures users == old(users) && pendingUsers == old(pendingUsers) && listings == old(listings)
      ensures loginAttempts == old(loginAttempts)
    {
      if currentUser.None? {
        return NotLoggedIn, None;
      }
      var found := Find(listings, HasListingId(listingId));
      if found.None? {
        return ListingNotFound, None;
      }
      var listing := listings[found.value];
      var amount := listing.price * listing.quantity * 100;
      checkoutAmount := Some(amount);
      match result
      case CheckoutCompleted(paymentId) =>
        var data := PaymentData(listingId, listing.title, listing.price * listing.quantity, listing.quantity,
                                listing.price, RazorpayMethod, paymentId, Completed);
        var payment := HandlePaymentSuccess(data, date, now);
        outcome := Paid(payment);
      case CheckoutDismissed =>
        outcome := NotCompleted;
    }

    /** `payWithGooglePay(listingId)` and how the payment sheet settles: the
        same guards, and an authorized payment records the total under an id
        made from the clock. */
    method PayWithGooglePay(listingId: string, result: GooglePayResult, date: CalendarDate, now: nat)
      returns (outcome: PaymentOutcome)
      requires Valid()
      modifies this
      ensures Valid()
      ensures old(currentUser).None? ==> outcome == NotLoggedIn
      ensures old(currentUser).Some? && Find(listings, HasListingId(listingId)).None? ==> outcome == ListingNotFound
      ensures old(currentUser).Some? && Find(listings, HasListingId(listingId)).Some? ==>
                var l := listings[Find(listings, HasListingId(listingId)).value];
                (outcome.Paid? <==> result == GooglePayAuthorized) &&
                (outcome.Paid? ==>
                   outcome.record == NewPaymentRecord(ProviderPaymentData(listingId, l, GooglePayMethod, GooglePayId(now)),
                                                      old(currentUser).value.user, date, now))
      ensures outcome.Paid? ==> paymentDatabase == old(paymentDatabase) + [outcome.record]
      ensures outcome.Paid? ==>
                old(currentUser).Some? &&
                currentUser == Some(old(currentUser).value.(purchases :=
                  Some(old(currentUser).value.purchases.GetOr([]) + [outcome.record.id])))
      ensures !outcome.Paid? ==> paymentDatabase == old(paymentDatabase) && currentUser == old(currentUser)
      ensures users == old(users) && pendingUsers == old(pendingUsers) && listings == old(listings)
      ensures loginAttempts == old(loginAttempts)
    {
      if currentUser.None? {
        return NotLoggedIn;
      }
      var found := Find(listings, HasListingId(listingId));
      if found.None? {
        return ListingNotFound;
      }
      var listing := listings[found.value];
      var amount := listing.price * listing.quantity;
      if result == GooglePayAuthorized {
        var data := PaymentData(listingId, listing.title, amount, listing.quantity, listing.price,
                                GooglePayMethod, "gpay_" + Decimal(now), Completed);
        var payment := HandlePaymentSuccess(data, date, now);
        outcome := Paid(payment);
      } else {
        outcome := NotCompleted;
      }
    }

    /** `payWithBharatPe(listingId)` with the answer of its confirmation
        dialog: the same guards, and a confirmed payment records the total. */
    method PayWithBharatPe(listingId: string, confirmed: bool, date: CalendarDate, now: nat)
      returns (outcome: PaymentOutcome)
      requires Valid()
      modifies this
      ensures Valid()
      ensures old(currentUser).None? ==> outcome == NotLoggedIn
      ensures old(currentUser).Some? && Find(listings, HasListingId(listingId)).None? ==> outcome == ListingNotFound
      ensures old(currentUser).Some? && Find(listings, HasListingId(listingId)).Some? ==>
                var l := listings[Find(listings, HasListingId(listingId)).value];
                (outcome.Paid? <==> confirmed) &&
                (outcome.Paid? ==>
                   outcome.record == NewPaymentRecord(ProviderPaymentData(listingId, l, BharatPeMethod, BharatPeId(now)),
                                                      old(currentUser).value.user, date, now))
      ensures outcome.Paid? ==> paymentDatabase == old(paymentDatabase) + [outcome.record]
      ensures outcome.Paid? ==>
                old(currentUser).Some? &&
                currentUser == Some(old(currentUser).value.(purchases :=
                  Some(old(currentUser).value.purchases.GetOr([]) + [outcome.record.id])))
      ensures !outcome.Paid? ==> paymentDatabase == old(paymentDatabase) && currentUser == old(currentUser)
      ensures users == old(users) && pendingUsers == old(pendingUsers) && listings == old(listings)
      ensures loginAttempts == old(loginAttempts)
    {
      if currentUser.None? {
        return NotLoggedIn;
      }
      var found := Find(listings, HasListingId(listingId));
      if found.None? {
        return ListingNotFound;
      }
      var listing := listings[found.value];
      var amount := listing.price * listing.quantity;
      if confirmed {
        var data := PaymentData(listingId, listing.title, amount, listing.quantity, listing.price,
                                BharatPeMethod, "bp_" + Decimal(now), Completed);
        var payment := HandlePaymentSuccess(data, date, now);
        outcome := Paid(payment);
      } else {
        outcome := NotCompleted;
      }
    }
  }

  /** A reload with an expired session followed by a signup, as app.js is
      written: the approval queue then holds the new account alone, and the
      accounts stored in it before are gone from it. */
  method ExpiredReloadThenSignup(saved: Option<Session>, now: nat, storedUsers: seq<User>, storedPending: seq<User>,
                                 storedListings: seq<Listing>, storedAttempts: AttemptStore,
                                 storedPayments: seq<PaymentRecord>, nameInput: string, emailInput: string,
                                 password: string, confirmPassword: string, role: string)
    returns (app: AppState, error: Option<SignupError>)
    requires saved.Some? && !IsSessionValid(saved, now)
    ensures error.None? ==>
              app.pendingUsers == [NewUser(Sanitize(nameInput), Sanitize(emailInput), password, role, now)]
    ensures error.Some? ==> app.pendingUsers == []
  {
    app := new AppState(saved, now, storedUsers, storedPending, storedListings, storedAttempts, storedPayments);
    error := app.HandleSignup(nameInput, emailInput, password, confirmPassword, role, now);
  }

  /** The same signup after the intended reload: the new account joins the
      stored queue. */
  method ReloadThenSignup(saved: Option<Session>, now: nat, storedUsers: seq<User>, storedPending: seq<User>,
                          storedListings: seq<Listing>, storedAttempts: AttemptStore,
                          storedPayments: seq<PaymentRecord>, nameInput: string, emailInput: string,
                          password: string, confirmPassword: string, role: string)
    returns (app: AppState, error: Option<SignupError>)
    requires PendingAwaitApproval(storedUsers, storedPending) && VerifiedOnlyIfApproved(storedListings)
    ensures error.None? ==>
              app.pendingUsers == storedPending + [NewUser(Sanitize(nameInput), Sanitize(emailInput), password, role, now)]
    ensures error.Some? ==> app.pendingUsers == storedPending
  {
    app := new AppState.Reload(saved, now, storedUsers, storedPending, storedListings, storedAttempts, storedPayments);
    error := app.HandleSignup(nameInput, emailInput, password, confirmPassword, role, now);
  }

  /** A reload with an expired session, a farmer's login and a new listing,
      as app.js is written: the catalog then holds that listing alone,
      whatever was stored before. */
  method ExpiredReloadThenAddListing(saved: Option<Session>, now: nat, storedUsers: seq<User>, storedPending: seq<User>,
                                     storedListings: seq<Listing>, storedAttempts: AttemptStore,
                                     storedPayments: seq<PaymentRecord>, emailInput: string, password: string,
                                     title: string, quantity: int, price: int, state: string, district: string,
                                     description: string)
    returns (app: AppState, outcome: AddListingOutcome)
    requires saved.Some? && !IsSessionValid(saved, now)
    ensures outcome.Added? ==> app.listings == [outcome.listing]
    ensures !outcome.Added? ==> app.listings == []
  {
    app := new AppState(saved, now, storedUsers, storedPending, storedListings, storedAttempts, storedPayments);
    var login := app.HandleLogin(emailInput, password, now);
    outcome := app.HandleAddListing(title, quantity, price, state, district, description, now);
  }
}
