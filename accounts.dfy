/** User accounts of app.js: the stored `users` list, the `pendingUsers`
    mirror of accounts awaiting approval, the logged-in session, and the
    pure decisions behind signup, login, approval and admin seeding. */
module Accounts {
  import opened Wrappers
  import opened Seqs
  import opened Strings
  import opened Security

  const FarmerRole: string := "farmer"
  const CompanyRole: string := "company"
  const AdminRole: string := "admin"

  /** A stored account. `password` holds `hashPassword` of the password and
      `createdAt` the creation time (stored as its ISO string in the source). */
  datatype User = User(
    id: string,
    name: string,
    email: string,
    password: string,
    role: string,
    createdAt: int,
    approved: bool,
    emailVerified: bool)

  /** `currentUser`: the account's fields, the login time, and the ids of the
      payments made in this session once there is one. */
  datatype Session = Session(user: User, loginTime: int, purchases: Option<seq<string>>)

  /** `isSessionValid()`: a missing session or a falsy (zero) login time is
      invalid; otherwise the session lasts one hour. */
  predicate IsSessionValid(current: Option<Session>, now: int)
  {
    current.Some? && current.value.loginTime != 0 && now - current.value.loginTime < SessionTimeout
  }

  /** A session opened at a positive time is valid for exactly the hour that
      follows. */
  lemma SessionLifetime(user: User, loginTime: int, now: int)
    requires loginTime > 0
    ensures IsSessionValid(Some(Session(user, loginTime, None)), now) <==> now < loginTime + SessionTimeout
  {
  }

  function HasCredentials(email: string, hash: string): User -> bool
  {
    (u: User) => u.email == email && u.password == hash
  }

  function HasUserId(id: string): User -> bool
  {
    (u: User) => u.id == id
  }

  function LacksUserId(id: string): User -> bool
  {
    (u: User) => u.id != id
  }

  /** `storedUsers.find(u => u.email === email && u.password === hash)`, as an index. */
  function FindCredentials(users: seq<User>, email: string, hash: string): (r: Option<nat>)
    ensures r.Some? ==> r.value < |users| && users[r.value].email == email && users[r.value].password == hash
    ensures r.Some? ==> forall j :: 0 <= j < r.value ==> !(users[j].email == email && users[j].password == hash)
    ensures r.None? <==> forall i :: 0 <= i < |users| ==> !(users[i].email == email && users[i].password == hash)
  {
    Find(users, HasCredentials(email, hash))
  }

  /** `storedUsers.find(u => u.email === email)` is truthy. */
  predicate EmailRegistered(users: seq<User>, email: string)
  {
    exists i :: 0 <= i < |users| && users[i].email == email
  }

  /** `users.filter(u => u.id !== id)`, as `rejectUser` applies it to both lists. */
  function WithoutUser(users: seq<User>, id: string): (r: seq<User>)
    ensures forall i :: 0 <= i < |r| ==> r[i] in users && r[i].id != id
    ensures forall i :: 0 <= i < |users| && users[i].id != id ==> users[i] in r
  {
    Filter(users, LacksUserId(id))
  }

  /** Removal keeps the other accounts, in their order and with their
      multiplicities. */
  lemma WithoutUserKeepsOthers(users: seq<User>, id: string)
    ensures IsSubsequence(WithoutUser(users, id), users)
    ensures forall u: User :: u.id != id ==> multiset(WithoutUser(users, id))[u] == multiset(users)[u]
  {
    FilterIsSubsequence(users, LacksUserId(id));
    FilterKeepsCounts(users, LacksUserId(id));
  }

  /** The list `approveUser` stores: the first account with the id approved,
      or the list unchanged when no account has it. */
  function ApproveUserIn(users: seq<User>, id: string): (r: seq<User>)
    ensures |r| == |users|
    ensures Find(users, HasUserId(id)).None? ==> r == users
    ensures Find(users, HasUserId(id)).Some? ==>
              var i := Find(users, HasUserId(id)).value;
              r[i] == users[i].(approved := true) &&
              forall j :: 0 <= j < |users| && j != i ==> r[j] == users[j]
  {
    match Find(users, HasUserId(id))
    case None => users
    case Some(i) => users[i := users[i].(approved := true)]
  }

  /** Approving twice is approving once. */
  lemma ApproveUserIdempotent(users: seq<User>, id: string)
    ensures ApproveUserIn(ApproveUserIn(users, id), id) == ApproveUserIn(users, id)
  {
    var r := ApproveUserIn(users, id);
    match Find(users, HasUserId(id))
    case None =>
    case Some(i) =>
      assert forall j :: 0 <= j < |r| ==> r[j].id == users[j].id;
      FindSameKeys(users, r, HasUserId(id));
  }

  /** `Find` only looks at what the predicate sees: two lists that agree on
      it position by position have the same first match. */
  lemma {:induction false} FindSameKeys(a: seq<User>, b: seq<User>, p: User -> bool)
    requires |a| == |b| && forall j :: 0 <= j < |a| ==> p(a[j]) == p(b[j])
    ensures Find(a, p) == Find(b, p)
  {
    if a != [] {
      var n := |a| - 1;
      FindSameKeys(a[..n], b[..n], p);
    }
  }

  /** Some account with this id is still unapproved. */
  ghost predicate AwaitsApproval(users: seq<User>, id: string)
  {
    exists k :: 0 <= k < |users| && users[k].id == id && !users[k].approved
  }

  /** Every account in `pendingUsers` has an unapproved account with the same
      id in `users`. */
  ghost predicate PendingAwaitApproval(users: seq<User>, pending: seq<User>)
  {
    forall j :: 0 <= j < |pending| ==> AwaitsApproval(users, pending[j].id)
  }

  /** `approveUser` keeps the mirror consistent: the approved id leaves
      `pendingUsers`, and no other pending account loses its witness. */
  lemma ApproveKeepsPending(users: seq<User>, pending: seq<User>, id: string)
    requires PendingAwaitApproval(users, pending)
    requires Find(users, HasUserId(id)).Some?
    ensures PendingAwaitApproval(ApproveUserIn(users, id), WithoutUser(pending, id))
  {
    var r := ApproveUserIn(users, id);
    var i := Find(users, HasUserId(id)).value;
    var w := WithoutUser(pending, id);
    forall j | 0 <= j < |w|
      ensures AwaitsApproval(r, w[j].id)
    {
      var m :| 0 <= m < |pending| && pending[m] == w[j];
      assert AwaitsApproval(users, pending[m].id);
      var k :| 0 <= k < |users| && users[k].id == pending[m].id && !users[k].approved;
      assert k != i;
      assert r[k] == users[k];
    }
  }

  /** `rejectUser` keeps the mirror consistent. */
  lemma RejectKeepsPending(users: seq<User>, pending: seq<User>, id: string)
    requires PendingAwaitApproval(users, pending)
    ensures PendingAwaitApproval(WithoutUser(users, id), WithoutUser(pending, id))
  {
    var r := WithoutUser(users, id);
    var w := WithoutUser(pending, id);
    forall j | 0 <= j < |w|
      ensures AwaitsApproval(r, w[j].id)
    {
      var m :| 0 <= m < |pending| && pending[m] == w[j];
      assert AwaitsApproval(users, pending[m].id);
      var k :| 0 <= k < |users| && users[k].id == pending[m].id && !users[k].approved;
      var k' :| 0 <= k' < |r| && r[k'] == users[k];
    }
  }

  /** Appending an account never removes a pending account's witness, and an
      unapproved new account may be mirrored. */
  lemma AppendKeepsPending(users: seq<User>, pending: seq<User>, u: User, mirrored: bool)
    requires PendingAwaitApproval(users, pending)
    requires mirrored ==> !u.approved
    ensures PendingAwaitApproval(users + [u], if mirrored then pending + [u] else pending)
  {
    var r := users + [u];
    var p := if mirrored then pending + [u] else pending;
    forall j | 0 <= j < |p|
      ensures AwaitsApproval(r, p[j].id)
    {
      if j < |pending| {
        assert p[j] == pending[j];
        assert AwaitsApproval(users, pending[j].id);
        var k :| 0 <= k < |users| && users[k].id == pending[j].id && !users[k].approved;
        assert r[k] == users[k];
      } else {
        assert r[|users|] == u;
      }
    }
  }

  function IsApprovedUser(): User -> bool
  {
    (u: User) => u.approved
  }

  /** The admin dashboard's verified-user figure: `users.filter(u => u.approved).length`. */
  function VerifiedUserCount(users: seq<User>): (n: nat)
    ensures n <= |users|
    ensures n == |users| <==> forall i :: 0 <= i < |users| ==> users[i].approved
    ensures n == |set i | 0 <= i < |users| && users[i].approved|
  {
    var r := Filter(users, IsApprovedUser());
    FilterLengthIsCount(users, IsApprovedUser(), set i | 0 <= i < |users| && users[i].approved);
    if forall i :: 0 <= i < |users| ==> users[i].approved then
      FilterKeepsAll(users, IsApprovedUser());
      |r|
    else
      var i :| 0 <= i < |users| && !users[i].approved;
      FilterShorter(users, IsApprovedUser(), i);
      |r|
  }

  /** Approving an unapproved account adds one verified user. */
  lemma ApproveCountsOneMore(users: seq<User>, id: string)
    requires Find(users, HasUserId(id)).Some?
    requires !users[Find(users, HasUserId(id)).value].approved
    ensures VerifiedUserCount(ApproveUserIn(users, id)) == VerifiedUserCount(users) + 1
  {
    var i := Find(users, HasUserId(id)).value;
    FilterCountUpdate(users, i, users[i].(approved := true), IsApprovedUser());
  }

  // ---- Admin seeding ----

  /** `users.some(u => u.role === 'admin')`. */
  predicate HasAdmin(users: seq<User>)
  {
    exists i :: 0 <= i < |users| && users[i].role == AdminRole
  }

  const DefaultAdminEmail: string := "admin@priticarbon.com"
  const DefaultAdminPassword: string := "admin123"

  /** The account `createDefaultAdmin` adds, created at `now`. */
  function DefaultAdmin(now: int): (u: User)
    ensures u.role == AdminRole && u.approved && u.emailVerified
    ensures u.email == DefaultAdminEmail && u.password == PasswordHash(DefaultAdminPassword)
  {
    User("admin-default", "Priti Carbon Admin", DefaultAdminEmail, PasswordHash(DefaultAdminPassword),
         AdminRole, now, true, true)
  }

  /** `createDefaultAdmin()`'s effect on the stored users. */
  function SeedAdmin(users: seq<User>, now: int): (r: seq<User>)
    ensures HasAdmin(r)
    ensures HasAdmin(users) ==> r == users
    ensures !HasAdmin(users) ==> r == users + [DefaultAdmin(now)]
  {
    if HasAdmin(users) then users
    else
      var r := users + [DefaultAdmin(now)];
      assert r[|users|].role == AdminRole;
      r
  }

  /** Seeding again changes nothing, so running it at every page load adds
      at most one account in all. */
  lemma SeedAdminTwice(users: seq<User>, t1: int, t2: int)
    ensures SeedAdmin(SeedAdmin(users, t1), t2) == SeedAdmin(users, t1)
    ensures |SeedAdmin(users, t1)| <= |users| + 1
  {
  }

  /** The seeded account can log in with the documented password, unless an
      earlier account already uses its email. */
  lemma DefaultAdminCanLogIn(users: seq<User>, now: int)
    requires !HasAdmin(users)
    requires !EmailRegistered(users, DefaultAdminEmail)
    ensures var r := SeedAdmin(users, now);
            var i := FindCredentials(r, DefaultAdminEmail, PasswordHash(DefaultAdminPassword));
            i.Some? && r[i.value] == DefaultAdmin(now) && r[i.value].approved
  {
    var r := SeedAdmin(users, now);
    var i := FindCredentials(r, DefaultAdminEmail, PasswordHash(DefaultAdminPassword));
    assert r[|users|] == DefaultAdmin(now);
  }

  // ---- Signup ----

  datatype SignupError = SignupRateLimited | PasswordMismatch | WeakPassword(reason: PasswordError) | EmailTaken

  /** The four early rejections of `handleSignup`, in the source's order:
      the rate limit, the confirmation, the password policy, a duplicate email. */
  function SignupCheck(allowed: bool, users: seq<User>, email: string, password: string, confirm: string): (e: Option<SignupError>)
    ensures e == Some(SignupRateLimited) <==> !allowed
    ensures e == Some(PasswordMismatch) <==> allowed && password != confirm
    ensures (e.Some? && e.value.WeakPassword?) <==>
              allowed && password == confirm && ValidatePassword(password).Some?
    ensures e.Some? && e.value.WeakPassword? ==> ValidatePassword(password) == Some(e.value.reason)
    ensures e == Some(EmailTaken) <==>
              allowed && password == confirm && ValidatePassword(password).None? && EmailRegistered(users, email)
  {
    if !allowed then Some(SignupRateLimited)
    else if password != confirm then Some(PasswordMismatch)
    else if ValidatePassword(password).Some? then Some(WeakPassword(ValidatePassword(password).value))
    else if EmailRegistered(users, email) then Some(EmailTaken)
    else None
  }

  /** A successful signup only happens for a policy-valid password and a
      fresh email. */
  lemma SignupAcceptsOnlyValid(allowed: bool, users: seq<User>, email: string, password: string, confirm: string)
    requires SignupCheck(allowed, users, email, password, confirm).None?
    ensures allowed && password == confirm
    ensures |password| >= PasswordMinLength && HasAsciiLetter(password) && HasDigit(password)
    ensures forall i :: 0 <= i < |users| ==> users[i].email != email
  {
  }

  /** The account `handleSignup` creates at `now`. */
  function NewUser(name: string, email: string, password: string, role: string, now: nat): (u: User)
    ensures !u.approved && !u.emailVerified
    ensures u.email == email && u.name == name && u.role == role
    ensures u.password == PasswordHash(password)
  {
    User("user-" + Decimal(now), name, email, PasswordHash(password), role, now, false, false)
  }

  /** The new account cannot log in until it is approved; afterwards it can
      (unless an earlier account shares email and hash). */
  lemma NewUserNeedsApproval(users: seq<User>, name: string, email: string, password: string, role: string, now: nat)
    requires forall i :: 0 <= i < |users| ==> users[i].email != email
    ensures var r := users + [NewUser(name, email, password, role, now)];
            var i := FindCredentials(r, email, PasswordHash(password));
            i == Some(|users|) && !r[|users|].approved
  {
    var r := users + [NewUser(name, email, password, role, now)];
    assert r[|users|].email == email;
  }

  // ---- Login ----

  datatype LoginOutcome = LoginRateLimited | LockedOut(remainingTime: int) | LoggedIn | PendingApproval | InvalidCredentials

  /** What the credential lookup of `handleLogin` decides once the rate limit
      and the lockout have let the attempt through. */
  function CredentialOutcome(users: seq<User>, email: string, hash: string): (o: LoginOutcome)
    ensures o.LoggedIn? || o.PendingApproval? || o.InvalidCredentials?
    ensures o.LoggedIn? <==> FindCredentials(users, email, hash).Some? &&
                             users[FindCredentials(users, email, hash).value].approved
    ensures o.InvalidCredentials? <==>
              forall i :: 0 <= i < |users| ==> !(users[i].email == email && users[i].password == hash)
  {
    match FindCredentials(users, email, hash)
    case None => InvalidCredentials
    case Some(i) => if users[i].approved then LoggedIn else PendingApproval
  }

  /** A login succeeds only for an approved account with that email and
      password hash. */
  lemma LoginNeedsApprovedAccount(users: seq<User>, email: string, hash: string)
    requires CredentialOutcome(users, email, hash).LoggedIn?
    ensures exists i :: 0 <= i < |users| && users[i].email == email && users[i].password == hash && users[i].approved
  {
    var i := FindCredentials(users, email, hash).value;
    assert users[i].email == email && users[i].password == hash && users[i].approved;
  }
}
