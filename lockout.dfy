/** The per-email lockout tracker of app.js (`checkLoginAttempts`,
    `recordLoginAttempt`): a record of consecutive failed logins per email,
    kept in browser storage under `loginAttempts_<email>`. */
module Lockout {
  import opened Security

  datatype Attempts = Attempts(count: nat, lastAttempt: int)

  /** The stored records, keyed by email. */
  type AttemptStore = map<string, Attempts>

  /** The record for `email`; a missing one reads as `{count: 0, lastAttempt: 0}`. */
  function Stored(store: AttemptStore, email: string): Attempts
  {
    if email in store then store[email] else Attempts(0, 0)
  }

  datatype LockStatus = Unlocked | Locked(remainingTime: int)

  /** `Math.ceil(ms / 60000)` on integers. */
  function CeilMinutes(ms: int): (m: int)
    ensures (m - 1) * MillisPerMinute < ms <= m * MillisPerMinute
  {
    (ms + MillisPerMinute - 1) / MillisPerMinute
  }

  /** `checkLoginAttempts(email)` at time `now`. The reset of the count after
      the lockout has expired is made on a local copy that is never written
      back, so the check reads the store and changes nothing. */
  function CheckLoginAttempts(store: AttemptStore, email: string, now: int): (s: LockStatus)
    ensures s.Locked? <==>
              Stored(store, email).count >= MaxLoginAttempts &&
              now - Stored(store, email).lastAttempt < LockoutDuration
    ensures s.Locked? ==>
              var left := LockoutDuration - (now - Stored(store, email).lastAttempt);
              (s.remainingTime - 1) * MillisPerMinute < left <= s.remainingTime * MillisPerMinute
  {
    var attempts := Stored(store, email);
    if attempts.count >= MaxLoginAttempts then
      var timeSinceLastAttempt := now - attempts.lastAttempt;
      if timeSinceLastAttempt < LockoutDuration then
        Locked(CeilMinutes(LockoutDuration - timeSinceLastAttempt))
      else
        Unlocked
    else
      Unlocked
  }

  /** A lock announced after a non-negative wait asks for one to fifteen
      minutes. */
  lemma RemainingTimeRange(store: AttemptStore, email: string, now: int)
    requires now >= Stored(store, email).lastAttempt
    requires CheckLoginAttempts(store, email, now).Locked?
    ensures 1 <= CheckLoginAttempts(store, email, now).remainingTime <= 15
  {
    var m := CheckLoginAttempts(store, email, now).remainingTime;
    var left := LockoutDuration - (now - Stored(store, email).lastAttempt);
    assert 0 < left <= LockoutDuration;
  }

  /** `recordLoginAttempt(email, success)` at time `now`: a success deletes
      the record, a failure counts one more and stamps the time. */
  function RecordLoginAttempt(store: AttemptStore, email: string, success: bool, now: int): (r: AttemptStore)
    ensures success ==> email !in r
    ensures !success ==> email in r && r[email] == Attempts(Stored(store, email).count + 1, now)
    ensures forall e :: e != email ==> (e in r <==> e in store)
    ensures forall e :: e != email && e in store ==> r[e] == store[e]
  {
    if success then store - {email}
    else
      var attempts := Stored(store, email);
      store[email := Attempts(attempts.count + 1, now)]
  }

  /** Failed logins of one email at the given times, in order. */
  function Failures(store: AttemptStore, email: string, times: seq<int>): AttemptStore
  {
    if times == [] then store
    else RecordLoginAttempt(Failures(store, email, times[..|times| - 1]), email, false, times[|times| - 1])
  }

  /** Each failure adds one to the count and stamps the time of the latest. */
  lemma {:induction false} FailuresAccumulate(store: AttemptStore, email: string, times: seq<int>)
    requires times != []
    ensures Stored(Failures(store, email, times), email) ==
              Attempts(Stored(store, email).count + |times|, times[|times| - 1])
  {
    var init := times[..|times| - 1];
    if init != [] {
      FailuresAccumulate(store, email, init);
    }
  }

  /** Five failures in a row lock the email for the fifteen minutes after the
      last of them. */
  lemma FiveFailuresLock(store: AttemptStore, email: string, times: seq<int>, now: int)
    requires |times| >= MaxLoginAttempts
    requires now - times[|times| - 1] < LockoutDuration
    ensures CheckLoginAttempts(Failures(store, email, times), email, now).Locked?
  {
    FailuresAccumulate(store, email, times);
  }

  /** A success clears the lock at once. */
  lemma SuccessUnlocks(store: AttemptStore, email: string, t: int, now: int)
    ensures CheckLoginAttempts(RecordLoginAttempt(store, email, true, t), email, now) == Unlocked
  {
  }

  /** Failures recorded for one email never change another's lock status. */
  lemma RecordIsPerEmail(store: AttemptStore, email: string, other: string, success: bool, t: int, now: int)
    requires other != email
    ensures CheckLoginAttempts(RecordLoginAttempt(store, email, success, t), other, now) ==
              CheckLoginAttempts(store, other, now)
  {
  }

  /** Because the reset after an expired lockout is never saved, the count
      stays at five or more: once the lock has expired a check passes, but a
      single further failure locks the email again for fifteen minutes. */
  lemma RelockAfterExpiry(store: AttemptStore, email: string, now: int, later: int)
    requires Stored(store, email).count >= MaxLoginAttempts
    requires now - Stored(store, email).lastAttempt >= LockoutDuration
    requires now <= later < now + LockoutDuration
    ensures CheckLoginAttempts(store, email, now) == Unlocked
    ensures CheckLoginAttempts(RecordLoginAttempt(store, email, false, now), email, later).Locked?
  {
  }
}
