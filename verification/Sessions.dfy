/** The authentication state held for one identity (internal/session/session.go). */
module Sessions {
  import opened Basics

  /** A cookie's `Name=Value` rendering is what a request carries. */
  datatype Cookie = Cookie(name: string, value: string)

  datatype Session = Session(
    identity: string,
    cookies: seq<Cookie>,
    bearer: string,
    refreshToken: string,
    csrf: string,
    headers: map<string, seq<string>>,
    expiresAt: Time)

  /** Known to be past its expiry; an unset expiry is never known to be past. */
  predicate Expired(s: Session, now: Time) {
    s.expiresAt != ZERO_TIME && now > s.expiresAt
  }

  /** What the holder of a session may rely on: it names no expiry, or that has not passed. */
  predicate InTime(s: Session, now: Time) {
    s.expiresAt == ZERO_TIME || now <= s.expiresAt
  }

  /** The code's test is the promise's negation. */
  lemma {:induction false} ExpiredMeans(s: Session, now: Time)
    ensures Expired(s, now) <==> !InTime(s, now)
  {
  }

  /** The copy that a failed refresh leaves behind: only the expiry differs. */
  function Stale(s: Session): Session {
    s.(expiresAt := LONG_AGO)
  }

  /** The copy has every field of the original but its expiry, and at no time after 1970 is it in time. */
  lemma {:induction false} StaleMeans(s: Session, now: Time)
    requires now > 1
    ensures var c := Stale(s);
      && !InTime(c, now) && c.identity == s.identity && c.cookies == s.cookies && c.bearer == s.bearer
      && c.refreshToken == s.refreshToken && c.csrf == s.csrf && c.headers == s.headers
  {
  }

  /** Something a request can authenticate with. */
  predicate HasMaterial(s: Session) {
    s.cookies != [] || s.bearer != ""
  }
}
