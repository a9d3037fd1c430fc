/**
 Clock-skew arithmetic of keycloak.js: the skew is set when a token arrives and used, possibly
 much later, to decide whether the token still has the required validity. Times are reals:
 `exp` and `iat` are JSON numbers, and the local time of arrival is an average of two clock readings.
 */
module TokenExpiry {
  import opened Common

  /** Milliseconds of the local clock. */
  type Millis = real

  datatype Claims = Claims(exp: Option<real>, iat: real)

  function Floor(x: real): real { x.Floor as real }

  function Ceil(x: real): real { -((-x).Floor as real) }

  /** Set by #setToken from the local time at which the token was acquired. */
  function Skew(acquired: Millis, iat: real): real { Floor(acquired / 1000.0) - iat }

  datatype Session = Session(
    token: Option<Claims>,
    refreshToken: bool,
    implicitFlow: bool,
    timeSkew: Option<real>)

  /** isTokenExpired: an error when not authenticated, otherwise the verdict. */
  function IsTokenExpired(s: Session, minValidity: real, now: Millis): Result<bool, string> {
    if s.token.None? || (!s.refreshToken && !s.implicitFlow) then Err("Not authenticated")
    else if s.timeSkew.None? then Ok(true)
    else if s.token.value.exp.None? then Ok(false)
    else
      var expiresIn := s.token.value.exp.value - Ceil(now / 1000.0) + s.timeSkew.value;
      Ok((if minValidity != 0.0 then expiresIn - minValidity else expiresIn) < 0.0)
  }

  /** `minValidity || 5`. */
  function EffectiveValidity(minValidity: Option<real>): real {
    if minValidity.None? || minValidity.value == 0.0 then 5.0 else minValidity.value
  }

  /** The decision of updateToken before it queues a refresh. */
  function NeedsRefresh(s: Session, minValidity: Option<real>, now: Millis): Result<bool, string> {
    if EffectiveValidity(minValidity) == -1.0 then Ok(true)
    else if s.token.None? then Ok(true)
    else IsTokenExpired(s, EffectiveValidity(minValidity), now)
  }

  lemma FloorBounds(x: real)
    ensures Floor(x) <= x < Floor(x) + 1.0
    ensures Ceil(x) - 1.0 < x <= Ceil(x)
  {
  }

  lemma FloorShift(x: real, k: int)
    ensures Floor(x + k as real) == Floor(x) + k as real
    ensures Ceil(x + k as real) == Ceil(x) + k as real
  {
    assert (x + k as real).Floor == x.Floor + k;
    assert -(x + k as real) == -x + (-k) as real;
    assert (-x + (-k) as real).Floor == (-x).Floor + (-k);
  }

  /** A session whose skew was set from the token it holds, acquired at local time `acquired`. */
  predicate Calibrated(s: Session, acquired: Millis) {
    && s.token.Some? && s.token.value.exp.Some? && (s.refreshToken || s.implicitFlow)
    && s.timeSkew == Some(Skew(acquired, s.token.value.iat))
  }

  /**
   "Not expired" means what it says: the local time since the token was acquired, plus the
   required validity, is within the token's lifetime. The verdict is never wrong in the other
   direction by more than two seconds.
   */
  lemma VerdictIsSafe(s: Session, acquired: Millis, now: Millis, minValidity: real)
    requires Calibrated(s, acquired)
    ensures IsTokenExpired(s, minValidity, now).Ok?
    ensures var elapsed, lifetime := (now - acquired) / 1000.0, s.token.value.exp.value - s.token.value.iat;
            && (!IsTokenExpired(s, minValidity, now).value ==> elapsed + minValidity <= lifetime)
            && (IsTokenExpired(s, minValidity, now).value ==> elapsed + minValidity > lifetime - 2.0)
  {
    FloorBounds(acquired / 1000.0);
    FloorBounds(now / 1000.0);
  }

  /**
   The verdict exactly: expired iff the required validity is not left at the full second `n` the clock
   is rounded up to, counted from the full second `a` the arrival is rounded down to.
   */
  lemma VerdictExactly(s: Session, acquired: Millis, now: Millis, minValidity: real, a: int, n: int)
    requires Calibrated(s, acquired)
    requires a as real <= acquired / 1000.0 < a as real + 1.0
    requires n as real - 1.0 < now / 1000.0 <= n as real
    ensures IsTokenExpired(s, minValidity, now) ==
      Ok((n - a) as real + minValidity > s.token.value.exp.value - s.token.value.iat)
  {
    assert (acquired / 1000.0).Floor == a;
    assert (-(now / 1000.0)).Floor == -n;
  }

  /** The verdict where it does not depend on the time. */
  lemma VerdictWithoutClock(s: Session, minValidity: real, now: Millis)
    ensures s.token.None? || (!s.refreshToken && !s.implicitFlow) <==>
      IsTokenExpired(s, minValidity, now) == Err("Not authenticated")
    ensures s.token.Some? && (s.refreshToken || s.implicitFlow) ==>
      && (s.timeSkew.None? ==> IsTokenExpired(s, minValidity, now) == Ok(true))
      && (s.timeSkew.Some? && s.token.value.exp.None? ==> IsTokenExpired(s, minValidity, now) == Ok(false))
  {
  }

  /** Setting the local clock forward or back by whole seconds, before and after alike, changes no verdict. */
  lemma VerdictIgnoresClockOffset(s: Session, acquired: Millis, now: Millis, minValidity: real, seconds: int)
    requires Calibrated(s, acquired)
    ensures var shift := 1000.0 * seconds as real;
            var s' := s.(timeSkew := Some(Skew(acquired + shift, s.token.value.iat)));
            IsTokenExpired(s', minValidity, now + shift) == IsTokenExpired(s, minValidity, now)
  {
    var shift := 1000.0 * seconds as real;
    assert (acquired + shift) / 1000.0 == acquired / 1000.0 + seconds as real;
    assert (now + shift) / 1000.0 == now / 1000.0 + seconds as real;
    FloorShift(acquired / 1000.0, seconds);
    FloorShift(now / 1000.0, seconds);
  }

  /**
   What updateToken decides. Without a token, and with a validity of -1, it refreshes; otherwise the
   verdict on the required validity decides, which is 5 seconds unless another one other than 0 is given.
   */
  lemma RefreshDecided(s: Session, minValidity: Option<real>, now: Millis)
    ensures s.token.None? || minValidity == Some(-1.0) ==> NeedsRefresh(s, minValidity, now) == Ok(true)
    ensures s.token.Some? && (minValidity == None || minValidity == Some(0.0)) ==>
      NeedsRefresh(s, minValidity, now) == IsTokenExpired(s, 5.0, now)
    ensures s.token.Some? && minValidity.Some? && minValidity.value != 0.0 && minValidity.value != -1.0 ==>
      NeedsRefresh(s, minValidity, now) == IsTokenExpired(s, minValidity.value, now)
  {
  }

  /** When updateToken decides against a refresh, the token outlives the required validity; when it decides for
      one, the token does not, up to two seconds. */
  lemma NoRefreshMeansValid(s: Session, acquired: Millis, now: Millis, minValidity: Option<real>)
    requires Calibrated(s, acquired)
    ensures var validity := if minValidity == None || minValidity == Some(0.0) then 5.0 else minValidity.value;
            var elapsed, lifetime := (now - acquired) / 1000.0, s.token.value.exp.value - s.token.value.iat;
            && NeedsRefresh(s, minValidity, now).Ok?
            && (NeedsRefresh(s, minValidity, now) == Ok(false) ==> elapsed + validity <= lifetime)
            && (NeedsRefresh(s, minValidity, now) == Ok(true) ==>
                  validity == -1.0 || elapsed + validity > lifetime - 2.0)
  {
    VerdictIsSafe(s, acquired, now, EffectiveValidity(minValidity));
  }
}
