/**
 * The session helpers of the Lector AI front end (src/lib/auth.ts): the
 * signed-in state, token expiry and refresh, and the user's display name,
 * initials and onboarding state.
 *
 * Browser storage, the clock and token decoding are parameters: the stored
 * token and the stored user are passed in (`getUser` already parsed, null
 * when unparsable), the time in milliseconds is passed in, and decoding a
 * token's payload is a function given by the caller.
 */
module Auth {
  import opened Wrappers
  import opened JsText

  /** The stored user; a missing or empty text is falsy in JavaScript. */
  datatype AuthUser = AuthUser(name: Option<string>, email: Option<string>, organizationId: Option<string>)

  /** A present, non-empty text: JavaScript truthiness of a string that may be missing. */
  predicate Truthy(s: Option<string>)
  {
    s.Some? && s.value != ""
  }

  /**
   * The outcome of `JSON.parse(atob(token.split('.')[1]))`: it throws, or it
   * yields a payload whose `exp` is a number or is missing.
   */
  datatype Decoded = Undecodable | Payload(exp: Option<int>)

  /** `isAuthenticated`: a token and a user are both stored. */
  predicate IsAuthenticated(storedToken: Option<string>, storedUser: Option<AuthUser>)
  {
    Truthy(storedToken) && storedUser.Some?
  }

  /** `Math.floor(Date.now() / 1000)`. */
  function CurrentTime(nowMs: int): (t: int)
    ensures t * 1000 <= nowMs < (t + 1) * 1000
  {
    nowMs / 1000
  }

  /**
   * `isTokenExpired(token)`: the token given, else the stored one. No token
   * and an undecodable token count as expired. A payload without a numeric
   * `exp` compares false, so such a token never expires.
   */
  predicate IsTokenExpired(token: Option<string>, storedToken: Option<string>, decode: string -> Decoded, nowMs: int)
  {
    var t := if Truthy(token) then token else storedToken;
    if !Truthy(t) then true
    else
      match decode(t.value)
      case Undecodable => true
      case Payload(exp) => exp.Some? && exp.value < CurrentTime(nowMs)
  }

  /**
   * `shouldRefreshToken`: with a stored, decodable token, true exactly when
   * it expires in less than 300 seconds; false otherwise.
   */
  predicate ShouldRefreshToken(storedToken: Option<string>, decode: string -> Decoded, nowMs: int)
  {
    if !Truthy(storedToken) then false
    else
      match decode(storedToken.value)
      case Undecodable => false
      case Payload(exp) => exp.Some? && exp.value - CurrentTime(nowMs) < RefreshMargin
  }

  /** Five minutes, in seconds. */
  const RefreshMargin := 300

  /**
   * Expiry and refresh agree: an expired stored token with a numeric `exp`
   * is due for refresh, a token due for refresh expires within five minutes,
   * and without a token the session counts as expired but no refresh is
   * attempted.
   */
  lemma ExpiredIsDueForRefresh(storedToken: Option<string>, decode: string -> Decoded, nowMs: int)
    ensures !Truthy(storedToken) ==> IsTokenExpired(None, storedToken, decode, nowMs) && !ShouldRefreshToken(storedToken, decode, nowMs)
    ensures Truthy(storedToken) && decode(storedToken.value).Payload? && IsTokenExpired(None, storedToken, decode, nowMs) ==>
              ShouldRefreshToken(storedToken, decode, nowMs)
    ensures ShouldRefreshToken(storedToken, decode, nowMs) ==>
              && Truthy(storedToken) && decode(storedToken.value).Payload?
              && decode(storedToken.value).exp.Some?
              && decode(storedToken.value).exp.value < CurrentTime(nowMs) + RefreshMargin
  {
  }

  /** `getUserDisplayName`: 'Anonymous' without a user, else the name, the email or 'User'. */
  function GetUserDisplayName(user: Option<AuthUser>): (r: string)
    ensures r != ""
    ensures user.Some? && Truthy(user.value.name) ==> r == user.value.name.value
    ensures user.Some? && !Truthy(user.value.name) && Truthy(user.value.email) ==> r == user.value.email.value
  {
    if user.None? then "Anonymous"
    else if Truthy(user.value.name) then user.value.name.value
    else if Truthy(user.value.email) then user.value.email.value
    else "User"
  }

  /** `s.charAt(0)`: the first character, or the empty text. */
  function FirstChar(s: string): (r: string)
    ensures |r| <= 1 && (|s| > 0 ==> r == [s[0]])
  {
    if |s| == 0 then "" else [s[0]]
  }

  /**
   * `getUserInitials`: 'U' without a name; for a name of one word its first
   * character, otherwise the first characters of the first and the last
   * word, upper-cased. Words are what `split(' ')` gives, empty ones
   * included.
   */
  function GetUserInitials(user: Option<AuthUser>): (r: string)
    ensures |r| <= 2
    ensures user.None? || !Truthy(user.value.name) ==> r == "U"
  {
    if user.None? || !Truthy(user.value.name) then "U"
    else
      var names := SplitOn(user.value.name.value, ' ');
      if |names| == 1 then Upper(FirstChar(names[0]))
      else Upper(FirstChar(names[0]) + FirstChar(names[|names| - 1]))
  }

  /** A name without spaces gives its first letter, upper-cased. */
  lemma InitialsOfOneWord(name: string)
    requires name != "" && ' ' !in name
    ensures GetUserInitials(Some(AuthUser(Some(name), None, None))) == [UpperChar(name[0])]
  {
    SplitOnAbsent(name, ' ');
  }

  /** First and last name give the first letters of both, upper-cased. */
  lemma InitialsOfTwoWords(first: string, last: string)
    requires first != "" && last != "" && ' ' !in first && ' ' !in last
    ensures GetUserInitials(Some(AuthUser(Some(first + " " + last), None, None))) == [UpperChar(first[0]), UpperChar(last[0])]
  {
    SplitOnCons(first, last, ' ');
    SplitOnAbsent(last, ' ');
    assert first + " " + last == first + [' '] + last;
  }

  /** `hasCompletedOnboarding`: the user has an organization. */
  predicate HasCompletedOnboarding(user: Option<AuthUser>)
  {
    user.Some? && Truthy(user.value.organizationId)
  }

  /**
   * An empty stored token does not sign anyone in, and an empty
   * organization id does not complete onboarding: both are falsy.
   */
  lemma EmptyTextsAreFalsy(user: Option<AuthUser>, u: AuthUser)
    ensures !IsAuthenticated(Some(""), user) && !IsAuthenticated(None, user)
    ensures IsAuthenticated(Some("t"), user) <==> user.Some?
    ensures !HasCompletedOnboarding(None)
    ensures HasCompletedOnboarding(Some(u)) <==> u.organizationId.Some? && u.organizationId.value != ""
  {
  }
}
