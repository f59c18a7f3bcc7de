/** The security helpers of app.js: the configuration constants, the demo
    password hash, the password policy and the markup-stripping sanitizer. */
module Security {
  import opened Wrappers
  import opened Seqs
  import opened Strings

  // SECURITY_CONFIG
  const MaxLoginAttempts: int := 5
  const LockoutDuration: int := 900000        // 15 minutes
  const PasswordMinLength: int := 8
  const SessionTimeout: int := 3600000        // 1 hour
  const RateLimitWindow: int := 60000         // 1 minute
  const MaxRequestsPerWindow: int := 10
  const MillisPerMinute: int := 60000

  const TwoTo31: int := 0x8000_0000
  const TwoTo32: int := 0x1_0000_0000

  /** How many times 2^32 `ToInt32` takes off `x`. */
  function Wraps32(x: int): int
  {
    if x % TwoTo32 >= TwoTo31 then x / TwoTo32 + 1 else x / TwoTo32
  }

  /** ECMAScript's ToInt32, applied by `x & x` and by `x << 5`: the signed
      32-bit integer congruent to `x` modulo 2^32. */
  function ToInt32(x: int): (r: int)
    ensures -TwoTo31 <= r < TwoTo31
    ensures x == r + TwoTo32 * Wraps32(x)
  {
    var m := x % TwoTo32;
    if m >= TwoTo31 then m - TwoTo32 else m
  }

  /** Inputs that differ by a multiple of 2^32 give the same 32-bit integer. */
  lemma ToInt32Congruent(x: int, y: int, k: int)
    requires x == y + TwoTo32 * k
    ensures ToInt32(x) == ToInt32(y)
  {
    var r, r' := ToInt32(x), ToInt32(y);
    var d := Wraps32(x) - Wraps32(y) - k;
    assert r' - r == TwoTo32 * d;
  }

  /** `int32(int32(h << 5) - h + c)` is `int32(31 * h + c)`. */
  lemma ShiftSubtractStep(h: int, c: int)
    ensures ToInt32(ToInt32(h * 32) - h + c) == ToInt32(31 * h + c)
  {
    ToInt32Congruent(ToInt32(h * 32) - h + c, 31 * h + c, -Wraps32(h * 32));
  }

  /** The rolling hash after reading all of `s`: h := int32(31 * h + code)
      from h = 0, one character code at a time. */
  function HashCode(s: string): (h: int)
    ensures -TwoTo31 <= h < TwoTo31
  {
    if s == [] then 0 else ToInt32(31 * HashCode(s[..|s| - 1]) + s[|s| - 1] as int)
  }

  /** The same hash without wrap-around: sum of code(s[i]) * 31^(|s|-1-i). */
  function PolynomialHash(s: string): int
  {
    if s == [] then 0 else 31 * PolynomialHash(s[..|s| - 1]) + s[|s| - 1] as int
  }

  /** The multiple of 2^32 by which the polynomial hash exceeds the rolling
      hash. */
  ghost function HashWraps(s: string): int
  {
    if s == [] then 0
    else 31 * HashWraps(s[..|s| - 1]) + Wraps32(31 * HashCode(s[..|s| - 1]) + s[|s| - 1] as int)
  }

  /** The rolling hash is the polynomial hash reduced to 32 bits. */
  lemma {:induction false} HashCodeIsPolynomialHash(s: string)
    ensures PolynomialHash(s) == HashCode(s) + TwoTo32 * HashWraps(s)
  {
    if s != [] {
      var init := s[..|s| - 1];
      HashCodeIsPolynomialHash(init);
    }
  }

  function Abs(x: int): nat { if x < 0 then -x else x }

  /** `hashPassword(password)`: `Math.abs(hash).toString(16)`. */
  function PasswordHash(password: string): (h: string)
    ensures |h| >= 1 && forall i :: 0 <= i < |h| ==> DigitValue(h[i]) < 16
  {
    NumberToString(Abs(HashCode(password)), 16)
  }

  /** A stored password hash is one to eight lower-case hex digits which
      read back as the magnitude of the 32-bit hash. */
  lemma PasswordHashShape(password: string)
    ensures 1 <= |PasswordHash(password)| <= 8
    ensures forall i :: 0 <= i < |PasswordHash(password)| ==> DigitValue(PasswordHash(password)[i]) < 16
    ensures ValueOf(PasswordHash(password), 16) == Abs(HashCode(password))
  {
    NumberToStringRoundTrip(Abs(HashCode(password)), 16);
    assert Pow(16, 8) == TwoTo32;
    NumberToStringLength(Abs(HashCode(password)), 16, 8);
  }

  /** `hashPassword`, loop for loop: `hash = ((hash << 5) - hash) + char`
      followed by `hash = hash & hash`. */
  method HashPassword(password: string) returns (hash: string)
    ensures hash == PasswordHash(password)
  {
    var h := 0;
    for i := 0 to |password|
      invariant h == HashCode(password[..i])
    {
      var c := password[i] as int;
      ghost var before := h;
      h := ToInt32(h * 32) - h + c;   // (hash << 5) - hash + char
      h := ToInt32(h);                // hash & hash
      ShiftSubtractStep(before, c);
      assert password[..i + 1][..i] == password[..i];
    }
    assert password[..|password|] == password;
    hash := NumberToString(Abs(h), 16);
  }

  /** The two messages `validatePassword` can return. */
  datatype PasswordError = TooShort | MissingLetterOrDigit

  predicate IsAsciiLetter(c: char) { 'A' <= c <= 'Z' || 'a' <= c <= 'z' }

  /** `/[A-Za-z]/.test(s)` */
  predicate HasAsciiLetter(s: string) { exists i :: 0 <= i < |s| && IsAsciiLetter(s[i]) }

  /** `/[0-9]/.test(s)` */
  predicate HasDigit(s: string) { exists i :: 0 <= i < |s| && IsDecimalDigit(s[i]) }

  /** `validatePassword`: `None` for an acceptable password, otherwise the
      first rule it breaks (length is checked before content). */
  function ValidatePassword(password: string): (r: Option<PasswordError>)
    ensures r.None? <==> |password| >= PasswordMinLength && HasAsciiLetter(password) && HasDigit(password)
    ensures r == Some(TooShort) <==> |password| < PasswordMinLength
    ensures r == Some(MissingLetterOrDigit) <==>
              |password| >= PasswordMinLength && !(HasAsciiLetter(password) && HasDigit(password))
  {
    if |password| < PasswordMinLength then Some(TooShort)
    else if !HasAsciiLetter(password) || !HasDigit(password) then Some(MissingLetterOrDigit)
    else None
  }

  /** The password of the signup scenario, and the seeded administrator's,
      meet the policy. */
  lemma ExamplePasswordsAccepted()
    ensures ValidatePassword("abc12345").None?
    ensures ValidatePassword("admin123").None?
  {
    assert IsAsciiLetter("abc12345"[0]) && IsDecimalDigit("abc12345"[3]);
    assert IsAsciiLetter("admin123"[0]) && IsDecimalDigit("admin123"[5]);
  }

  /** The characters `sanitizeInput` deletes: `/[<>"']/g`. */
  predicate IsMarkupChar(c: char) { c == '<' || c == '>' || c == '"' || c == '\'' }

  predicate IsKept(c: char) { !IsMarkupChar(c) }

  /** `sanitizeInput`: the input with every `<`, `>`, `"` and `'` deleted. */
  function Sanitize(input: string): (r: string)
    ensures forall i :: 0 <= i < |r| ==> !IsMarkupChar(r[i])
    ensures forall c :: !IsMarkupChar(c) ==> multiset(r)[c] == multiset(input)[c]
    ensures IsSubsequence(r, input)
  {
    FilterKeepsCounts(input, IsKept);
    FilterIsSubsequence(input, IsKept);
    Filter(input, IsKept)
  }

  /** Input without markup characters passes unchanged. */
  lemma SanitizeKeepsCleanInput(input: string)
    requires forall i :: 0 <= i < |input| ==> !IsMarkupChar(input[i])
    ensures Sanitize(input) == input
  {
    FilterKeepsAll(input, IsKept);
  }

  /** Sanitizing twice is sanitizing once. */
  lemma SanitizeIdempotent(input: string)
    ensures Sanitize(Sanitize(input)) == Sanitize(input)
  {
    SanitizeKeepsCleanInput(Sanitize(input));
  }

  /** Sanitizing works character by character. */
  lemma SanitizeConcat(a: string, b: string)
    ensures Sanitize(a + b) == Sanitize(a) + Sanitize(b)
  {
    FilterConcat(a, b, IsKept);
  }
}
