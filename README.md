# Priti Carbon marketplace core in Dafny

This project models the browser-side logic of the Priti Carbon carbon-credit
marketplace: farmers list tons of CO2 offset for sale, an administrator approves
accounts and listings, and companies buy listings through one of three payment
providers. The model covers two source files.

app.js supplies:

- the security helpers: the demo password hash, the password policy and the
  markup-stripping sanitizer;
- the sliding-window rate limiter shared by login and signup;
- the per-email lockout after five failed logins;
- the session life-time check;
- the signup and login handlers;
- the listing catalog and its marketplace filter;
- account and listing approval;
- the seeding of a default administrator;
- the figures of the admin and farmer dashboards.

js/payments.js supplies:

- the append-only payment ledger and its receipt numbers;
- the per-user history and the statistics;
- the company dashboard's figures;
- the guards and records of the Razorpay, Google Pay and BharatPe paths.

The state the handlers change is held in one object,
`Application.AppState`. Its fields are:

- the stored `users`;
- the `pendingUsers` mirror;
- `listings`;
- the `loginAttempts_<email>` records;
- `currentUser`;
- `paymentDatabase`;
- the `rateLimitStore` map, kept in its own object `RateLimiting.RateLimiter`.

Every handler is one atomic step at a time `now` that the caller supplies.
Each handler states its whole new state, and it keeps the object's invariant:

- the limiter holds one to ten timestamps per identifier;
- every pending account still has an unapproved account with its id;
- only approved listings are verified.

The pure decisions live in modules of their own, each with the lemmas about it:

| module | holds |
|---|---|
| `Security` | `SECURITY_CONFIG`, 32-bit arithmetic, `hashPassword`, `validatePassword`, `sanitizeInput` |
| `RateLimiting` | `checkRateLimit`, `cleanupRateLimit` |
| `Lockout` | `checkLoginAttempts`, `recordLoginAttempt` |
| `Accounts` | users, sessions, signup, login and approval decisions, admin seeding |
| `Catalog` | listings, the marketplace filter, listing counts |
| `Payments` | the ledger, receipt numbers, statistics, provider payment data |
| `Dashboards` | the three dashboards' figures |

`Seqs`, `Strings` and `Wrappers` model the JavaScript built-ins the code relies on:

- `filter`, `find` and `reduce`;
- `toString(radix)`, `slice(-k)` and `padStart`;
- `toLowerCase` and `includes`.

A page load is the constructor of `Application.AppState`, and it follows
app.js:29-49. A saved session that has expired is logged out, and
`initializeApp` then returns before it loads the stored listings and pending
accounts. Those two lists stay empty, so the next save of either one replaces
what was stored (see "## Findings"). `Application.AppState.Reload` is the same
load without the early return.

The lockout check is modelled as the code behaves. In app.js:141-143 the
count is reset only on a local copy, which is never written back. So
`checkLoginAttempts` changes nothing. Once a lock has expired, one more failure
locks the email again at once (`Lockout.RelockAfterExpiry`).

## Model

| member | source | states |
|---|---|---|
| `Security.ToInt32` | app.js:76-77 | the result is the signed 32-bit integer congruent to the input modulo 2^32 |
| `Security.ShiftSubtractStep` | app.js:76-77 | `int32(int32(h << 5) - h + c)` equals `int32(31*h + c)`: the loop's two steps are one multiply-add step modulo 2^32 |
| `Security.HashCode` | app.js:73-78 | the rolling hash always lies in the signed 32-bit range |
| `Security.HashCodeIsPolynomialHash` | app.js:73-78 | the rolling hash equals the unreduced polynomial hash (sum of code × 31^k), minus a multiple of 2^32 |
| `Security.HashPassword` | app.js:71-80 | the loop, step for step, computes the hex string of the magnitude of the 32-bit fold |
| `Security.PasswordHash` | app.js:71-80 | `hashPassword` returns at least one hex digit |
| `Security.PasswordHashShape` | app.js:79 | a stored hash is 1 to 8 hex digits that read back as the magnitude of the 32-bit hash |
| `Strings.NumberToStringRoundTrip` | app.js:79 | the digits `toString(radix)` produces read back as the number |
| `Security.ValidatePassword` | app.js:82-90 | no error iff the password has at least 8 characters, an ASCII letter and a digit; too short iff under 8; the content error only for a long enough password |
| `Security.ExamplePasswordsAccepted` | app.js:1152 | the seeded administrator's password `admin123` meets the policy |
| `Security.Sanitize` | app.js:92-94 | the output has none of `< > " '`, keeps every other character's count, and is a subsequence of the input |
| `Security.SanitizeKeepsCleanInput` | app.js:92-94 | input without those four characters comes back unchanged |
| `Security.SanitizeIdempotent` | app.js:92-94 | sanitizing twice equals sanitizing once |
| `Security.SanitizeConcat` | app.js:92-94 | sanitizing a concatenation sanitizes each part |
| `Accounts.IsSessionValid` | app.js:64-69 | a session is valid iff it exists, its login time is not 0 (falsy), and less than one hour has passed |
| `Accounts.SessionLifetime` | app.js:64-69 | a session opened at a positive time is valid exactly until one hour after it |
| `RateLimiting.InWindow` | app.js:106 | keeps exactly the timestamps strictly after `now - 60000`, in order and with their multiplicities |
| `RateLimiting.InWindowCount` | app.js:106-110 | the number of timestamps kept is the number of positions inside the window, so equal timestamps all count towards the limit |
| `RateLimiting.RateLimitCheck` | app.js:96-115 | accepts iff fewer than 10 recent timestamps remain; on accept the list becomes those plus `now` (at most 10, all in the window); on reject the store is unchanged; other identifiers are untouched |
| `RateLimiting.RateLimiter.CheckRateLimit` | app.js:96-115 | the method's answer and new map are those of `RateLimitCheck`, and the per-identifier bound holds |
| `RateLimiting.CheckKeepsBounded` | app.js:108-113 | a check preserves "every known identifier has 1 to 10 timestamps" |
| `RateLimiting.Cleaned` | app.js:117-129 | after the sweep an identifier is kept iff it has a recent timestamp, holds exactly those, and is never mapped to an empty list |
| `RateLimiting.RateLimiter.CleanupRateLimit` | app.js:117-129 | the loop, deleting keys while it visits them, leaves exactly `Cleaned` of the old map |
| `RateLimiting.CleanupKeepsBounded` | app.js:117-129 | the sweep preserves the per-identifier bound |
| `RateLimiting.InWindowTwice` | app.js:106 | pruning at one time and again later equals pruning at the later time |
| `RateLimiting.CleanupKeepsDecisions` | app.js:96-129 | a sweep changes no later check's answer or recorded list |
| `RateLimiting.AcceptedAfterWindow` | app.js:96-115 | once a full window has passed since an identifier's last request, it is accepted again with the list `[now]` |
| `RateLimiting.BurstWithinWindow` | app.js:96-115 | calls of a new identifier within one window: the first ten are accepted and every later one rejected; the stored list is the first ten times |
| `RateLimiting.BurstStep` | app.js:104-113 | one more call in such a burst is accepted iff fewer than ten were, and is then appended |
| `Lockout.CeilMinutes` | app.js:138 | the integer `Math.ceil(ms / 60000)`: the least m with ms <= m*60000 |
| `Lockout.CheckLoginAttempts` | app.js:131-147 | locked iff count >= 5 and less than 900000 ms have passed since the last failure; the remaining minutes round the rest of the lockout up; the stored records are only read |
| `Lockout.RemainingTimeRange` | app.js:136-139 | a lock seen at a time no earlier than the last failure asks for 1 to 15 minutes |
| `Lockout.RecordLoginAttempt` | app.js:149-159 | a success deletes the email's record; a failure sets count to the old count + 1 (0 if absent) and lastAttempt to `now`; other emails are untouched |
| `Application.AppState.RecordLoginAttempt` | app.js:149-159 | the stored records become `Lockout.RecordLoginAttempt` of the old ones; nothing else changes |
| `Lockout.FailuresAccumulate` | app.js:149-159 | n consecutive failures add n to the count and stamp the last failure's time |
| `Lockout.FiveFailuresLock` | app.js:131-159 | five failures lock the email for the 15 minutes after the last of them |
| `Lockout.SuccessUnlocks` | app.js:131-159 | after a success the email is unlocked |
| `Lockout.RecordIsPerEmail` | app.js:131-159 | recording for one email never changes another email's lock status |
| `Lockout.RelockAfterExpiry` | app.js:135-143 | because the reset is never saved, an expired lock passes the check but one more failure locks again for 15 minutes |
| `Accounts.FindCredentials` | app.js:280 | finds the first account with that email and hash; none is found iff no account has both |
| `Accounts.SignupCheck` | app.js:326-349 | the four rejections in source order: rate limit, mismatch, policy (with the policy's own reason), duplicate email, each iff its predecessors pass |
| `Accounts.SignupAcceptsOnlyValid` | app.js:326-349 | an accepted signup has matching passwords, a policy-valid password and an email no account uses |
| `Accounts.NewUser` | app.js:357-366 | the new account is unapproved and unverified, and carries the name, email, role and password hash |
| `Accounts.NewUserNeedsApproval` | app.js:357-368 | with a fresh email, the credential lookup finds the new account, which is still unapproved |
| `Application.AppState.HandleSignup` | app.js:317-382 | the limiter advances as `RateLimitCheck`; the outcome is `SignupCheck`; a rejection changes no account; an acceptance appends the same unapproved account to `users` and `pendingUsers` |
| `Accounts.CredentialOutcome` | app.js:278-311 | logged in iff an email+hash match exists and the first match is approved; invalid credentials iff no account matches |
| `Accounts.LoginNeedsApprovedAccount` | app.js:283-290 | a successful lookup implies an approved account with that email and hash |
| `Application.AppState.HandleLogin` | app.js:254-315 | a rate-limit answer, then a lockout answer, both before any lookup, and neither changes the records or the session; otherwise the credential outcome; a login opens a session at `now` and clears the email's record; any other lookup records one failure |
| `Application.AppState.Logout` | app.js:384-391 | the session is cleared and nothing else changes |
| `Application.AppState.constructor` | app.js:29-49 | a page load: an expired saved session is logged out and `listings` and `pendingUsers` stay `[]`; otherwise the saved session is kept and both are loaded; accounts, login-attempt records and the ledger come from storage; the limiter is empty |
| `Application.AppState.Reload` | app.js:29-49 | the intended page load: an expired session is logged out and the stored listings and pending accounts are loaded all the same |
| `Application.ExpiredReloadThenSignup` | app.js:38-49 | after a reload with an expired session, a successful signup leaves the approval queue holding only the new account |
| `Application.ExpiredReloadThenAddListing` | app.js:38-49 | after a reload with an expired session, a login and an added listing leave the catalog holding only that listing |
| `Application.ReloadThenSignup` | app.js:29-49 | after the intended reload, a successful signup appends the new account to the stored queue |
| `Catalog.NewListing` | app.js:236-246 | the new listing is unapproved and unverified, with location `state - district`, the session's farmer and the form's fields |
| `Application.AppState.AddListing` | app.js:236-251 | exactly one new listing is appended, and earlier entries stay unchanged |
| `Application.AppState.HandleAddListing` | app.js:852-882 | nothing is added for a missing or non-farmer session, or for a quantity or price <= 0; otherwise the sanitized form is added |
| `Catalog.WithoutListing` | app.js:886 | the result holds exactly the listings without that id |
| `Catalog.WithoutListingKeepsOthers` | app.js:1029 | removal keeps the other listings in order with their multiplicities, and removes nothing for an unknown id |
| `Application.AppState.DeleteListing` | app.js:884-891 | on confirmation the listings with that id are removed; otherwise nothing changes |
| `Application.AppState.RejectListing` | app.js:1028-1033 | the listings with that id are removed |
| `Catalog.ApproveListingIn` | app.js:1017-1026 | the first listing with the id becomes approved and verified, the others are unchanged, and an unknown id is a no-op |
| `Catalog.ApproveListingIdempotent` | app.js:1017-1026 | approving twice equals approving once |
| `Catalog.ApproveListingKeepsInvariant` | app.js:1020-1021 | approval keeps "verified only if approved" |
| `Catalog.WithoutListingKeepsInvariant` | app.js:884-891 | removal keeps "verified only if approved" |
| `Application.AppState.ApproveListing` | app.js:1017-1026 | the listings become `ApproveListingIn` of the old ones |
| `Accounts.ApproveUserIn` | app.js:988-993 | the first account with the id becomes approved, and an unknown id changes nothing |
| `Accounts.ApproveUserIdempotent` | app.js:987-1002 | approving twice equals approving once |
| `Accounts.WithoutUser` | app.js:1006-1010 | the result holds exactly the accounts without that id |
| `Accounts.WithoutUserKeepsOthers` | app.js:1006-1010 | the other accounts keep their order and multiplicities |
| `Accounts.ApproveKeepsPending` | app.js:987-1002 | approval keeps every other pending account backed by an unapproved account |
| `Accounts.RejectKeepsPending` | app.js:1004-1015 | rejection keeps the pending mirror consistent |
| `Accounts.AppendKeepsPending` | app.js:368-373 | appending an account (mirrored when unapproved) keeps the pending mirror consistent |
| `Application.AppState.ApproveUser` | app.js:987-1002 | only when an account has the id is it approved and the id dropped from `pendingUsers`; otherwise nothing changes |
| `Application.AppState.RejectUser` | app.js:1004-1015 | the id is removed from both lists unconditionally |
| `Accounts.SeedAdmin` | app.js:1143-1162 | afterwards an admin exists (`HasAdmin`: some account has the `admin` role, as `users.some` tests); with an admin nothing changes, and without one the default admin is appended |
| `Accounts.SeedAdminTwice` | app.js:1143-1162 | seeding again changes nothing, so repeated seeding adds at most one account |
| `Accounts.DefaultAdmin` | app.js:1148-1157 | the seeded account is an approved, e-mail-verified admin with `admin@priticarbon.com` and the hash of `admin123` |
| `Accounts.DefaultAdminCanLogIn` | app.js:1148-1159 | unless its email is taken, the seeded admin is found by `admin@priticarbon.com` / `admin123` and is approved |
| `Application.AppState.CreateDefaultAdmin` | app.js:1143-1162 | the users become `SeedAdmin` of the old ones |
| `Catalog.MarketplaceView` | app.js:1036-1052 | the result holds exactly the approved listings whose state and district contain the lower-cased filters and whose price is within the ceiling |
| `Catalog.PriceFilterEffect` | app.js:1039-1047 | a price parsing to a non-zero number is a ceiling: every listing shown is within it, and every approved listing within it that passes the text tests is shown; a blank, unparsable or zero price, which falls back to Infinity, drops no listing on price |
| `Catalog.MatchesFilters` | app.js:1043-1048 | empty text filters and no ceiling let every listing through; a price above the ceiling never passes |
| `Catalog.MarketplaceViewIsSubsequence` | app.js:1041-1049 | the result is the in-order subsequence of the catalog that is approved and passes the filters |
| `Catalog.NoFiltersShowsApproved` | app.js:1039-1049 | empty text filters and a blank or zero price (both fall back to an unbounded ceiling) show every approved listing |
| `Catalog.StateFilterIgnoresCase` | app.js:1044 | a state containing the filter, ignoring ASCII case, passes the state test |
| `Strings.ContainsAt` | app.js:1044-1045 | `includes` holds iff the needle occurs at some position |
| `Catalog.ApprovedListingShown` | app.js:1017-1052 | after the admin approves an existing id, that listing appears in the unfiltered marketplace |
| `Accounts.VerifiedUserCount` | app.js:898 | the verified-user figure is the number of approved accounts: at most the number of users, and equal to it iff all are approved |
| `Accounts.ApproveCountsOneMore` | app.js:987-1002 | approving an unapproved account raises the verified figure by one |
| `Catalog.PendingAndApprovedPartition` | app.js:897 | pending plus approved listings are all listings |
| `Catalog.PendingListingCount` | app.js:897 | the pending figure is the number of unapproved listings |
| `Catalog.PendingCountAfterAdd` | app.js:897 | a newly added listing raises the pending figure by one |
| `Catalog.PendingCountAfterApprove` | app.js:1017-1026 | approving a pending listing lowers the pending figure by one; approving an approved or unknown one leaves it as it was |
| `Dashboards.AdminDashboard` | app.js:894-909 | figures exist only for an admin session: pending users = mirror size, pending listings = number of unapproved listings, verified = number of approved accounts |
| `Catalog.FarmerListings` | app.js:811 | holds exactly the listings of that farmer, in catalog order and with their multiplicities |
| `Catalog.FarmerListingsCount` | app.js:811-814 | the farmer's listing count is the number of catalog positions holding one of their listings |
| `Catalog.FarmerCO2` | app.js:816 | with non-negative quantities the farmer's total is non-negative; a farmer with no listing has total 0 |
| `Catalog.FarmerTotalsAfterAdd` | app.js:811-816 | an added listing raises its farmer's count by one and total by its quantity, and leaves other farmers unchanged |
| `Dashboards.FarmerDashboard` | app.js:808-816 | figures exist only for a farmer session; they are the count of the farmer's own listings and the sum of their quantities |
| `Dashboards.FarmerDashboardAfterAdd` | app.js:808-816 | a listing the farmer adds shows up at once in their count and CO2 total |
| `Payments.ReceiptNumberLayout` | js/payments.js:62-70 | for a year of two or more digits, a real date and a six-digit clock: 14 characters, `PC`, then year mod 100, month from 1, day and clock mod 10^6 |
| `Payments.ReceiptNumber` | js/payments.js:62-70 | every receipt number is `PC` followed by at least six decimal digits |
| `Payments.TwoDigitField` | js/payments.js:65-66 | a number under 100 padded to two digits reads back as itself |
| `Payments.LastDigitsField` | js/payments.js:64-67 | the last k digits of a number with at least k digits are k characters worth n mod 10^k |
| `Strings.SliceFromEnd` | js/payments.js:67 | `slice(-k)`: the whole string for k = 0 (`-0` is 0), otherwise the last k characters, or all of a shorter string |
| `Strings.LastDigits` | js/payments.js:67 | the last k characters of the digits read back as n mod radix^k, for every k |
| `Strings.PadStartValue` | js/payments.js:65-66 | zero padding does not change a number's value |
| `Payments.NewPaymentRecord` | js/payments.js:33-53 | a record copies the payment data unchanged, takes the payer's id, email and name, the id `pay_<now>`, the receipt number and the time |
| `Application.AppState.SavePaymentRecord` | js/payments.js:33-59 | exactly one record, built from the data and the session's account, is appended |
| `Application.AppState.HandlePaymentSuccess` | js/payments.js:323-331 | saves the record and grows the session's purchases by exactly its id, creating the list if absent |
| `Payments.UserPayments` | js/payments.js:440-442 | holds exactly the ledger records of that user, in ledger order and with their multiplicities |
| `Payments.UserPaymentsCount` | js/payments.js:440-442 | a user's payment count is the number of ledger positions holding one of their records |
| `Payments.UserPaymentsAfterSave` | js/payments.js:440-442 | a save extends only its payer's history, by that record, and a history is an in-order subsequence of the ledger |
| `Payments.Stats` | js/payments.js:445-455 | the payment count is the ledger length; with non-negative amounts and quantities the totals are non-negative; an empty ledger has all zeros |
| `Payments.StatsAfterSave` | js/payments.js:445-455 | a save adds one payment, its amount and its quantity to the statistics |
| `Payments.UserStatsPartition` | js/payments.js:440-455 | one user's statistics plus everyone else's are the ledger's |
| `Dashboards.CompanyDashboard` | app.js:1170-1176 | figures exist only for a company session; they are the statistics of the company's own payments, whose count is the number of its ledger records |
| `Dashboards.CompanyDashboardAfterPayment` | app.js:1170-1175 | a payment saved for the company adds one purchase, its amount and its tons |
| `Dashboards.CompanyShareOfLedger` | app.js:1170-1175 | one company's spend and count plus everyone else's are the ledger totals |
| `Payments.ProviderPaymentData` | js/payments.js:179-188 | amount = pricePerUnit × quantity, with the listing's price, quantity and title, the provider's method and id, and status `completed`; the Google Pay and BharatPe paths build the same data |
| `Payments.RazorpayCheckoutAmount` | js/payments.js:169 | the checkout receives 100 times the recorded amount (paise) |
| `Application.AppState.PayWithRazorpay` | js/payments.js:156-209 | no session or an unknown listing: no checkout and no change; otherwise the checkout gets the paise amount, and exactly a completed checkout records the Razorpay payment and adds its id to the session's purchases |
| `Application.AppState.PayWithGooglePay` | js/payments.js:212-282 | the same guards; exactly an authorized payment records the Google Pay payment with id `gpay_<now>` and adds it to the session's purchases |
| `Application.AppState.PayWithBharatPe` | js/payments.js:285-320 | the same guards; exactly a confirmed payment records the BharatPe payment with id `bp_<now>` and adds it to the session's purchases |

## Left out

- Rendering is not modelled: page routing, listing cards, admin lists, notifications, modals, banners, loading states and the dashboard's DOM writes. They only display the state.
- The price chart is not modelled (`initializeCarbonChart`, `generateChartData`, `updateChart`). It uses `Math.random`, floating point and Chart.js.
- The delays of `setTimeout` in login, signup and the BharatPe mock are not modelled. Each handler body is one atomic step, so nothing else can run in between.
- The one-minute `setInterval` is not modelled. `cleanupRateLimit` is an explicit call.
- `localStorage` and JSON are not modelled. Stored values are in-memory fields, and the round-trip is assumed lossless.
- The JSON parse error path of `initializeApp` is not modelled.
- The clock and the calendar are parameters: `now` for `Date.now()` and a `CalendarDate` for `new Date()`.
- The ISO strings stored as `timestamp` and `createdAt` are left out. They are represented by the time itself.
- Prices and quantities are integers, so `parseFloat`, NaN and floating point are not modelled.
- A NaN quantity or price, which the `<= 0` guard of app.js:870 lets through, is therefore outside the model.
- A price field that does not parse is given to the marketplace filter as `None`.
- Payment providers are parameters:
  - the Razorpay checkout's answer;
  - how the Google Pay sheet settles;
  - the BharatPe and delete `confirm` dialogs.
  The vendor SDKs and payment configuration are not modelled.
- The confirmation e-mail, the receipt HTML and the receipt download are not modelled. These are `fetch`, markup and Blob I/O.
- api/process-payment.js, api/send-email.js and js/main.js are not part of this model. They are server glue, a vendor SDK, HMAC via Node's crypto, SMTP, and page effects.
- The dummy listings that `loadListings` seeds when nothing is stored are not modelled. The constructor's stored listings stand for whatever `loadListings` yields.
- Application.AppState.constructor and Application.AppState.Reload require the stored `pendingUsers` to be consistent with the stored accounts, that is, every pending copy still has an unapproved account. They require this only when the data is loaded. app.js does not guarantee it once two tabs share storage, and such a state is outside the model.
- A reload whose session has expired also never starts the cleanup interval, because `initializeApp` returns before `setInterval`. Since the interval is not modelled, this has no counterpart here.
- `toLowerCase` is modelled on ASCII letters only.
- `charCodeAt` is the character's value, so characters beyond the Basic Multilingual Plane (two UTF-16 code units) are not modelled.
- Roles are the strings the source compares against.
- Application.AppState.AddListing: requires a session, since the source reads the session's fields and its only caller has checked that the session exists.
- Application.AppState.SavePaymentRecord: requires a session, for the same reason; every provider path checks it first.
- Application.AppState.HandlePaymentSuccess: requires a session, for the same reason.

## Findings

| source | as written | input that shows it | evidently intended | confidence | as-written member | corrected member |
|---|---|---|---|---|---|---|
| app.js:38-49 | an expired saved session is logged out, and `initializeApp` returns before `loadListings()` and `loadPendingUsers()`; `listings` and `pendingUsers` stay `[]`, and the next signup or new listing saves a one-element list over the stored queue or catalog | a saved session with `loginTime` more than 3600000 ms before `now`, then a valid signup | log the session out and still load the stored data | high; not executed | `Application.ExpiredReloadThenSignup` | `Application.ReloadThenSignup` |
