/**
 * The token status panel of bridge-react/src/components/auth/TokenStatus.tsx
 * (time to expiry in seconds, refreshed every second, and a manual refresh
 * button) and the demo's token abbreviation of
 * demo/src/pages/TokenStatusPage.tsx.
 */
module TokenStatusView {
  import opened Base
  import opened Tokens

  // ---------------------------------------------------------------------
  // Time to expiry
  // ---------------------------------------------------------------------

  /** `Math.floor(timeUntilExpiry / 1000)`: whole seconds, rounded down. */
  function SecondsUntil(expiryMs: int, now: int): (s: int)
    ensures s * 1000 <= expiryMs - now < s * 1000 + 1000
  {
    (expiryMs - now) / 1000
  }

  /**
   * The seconds the panel shows for a token at `now`, or None when it keeps
   * what it showed before: no token, or a falsy expiry (null, NaN or 0).
   */
  function FreshSeconds(token: Option<string>, now: int, decode: Decoder): (r: Option<int>)
    ensures r.Some? <==> Truthy(token) && !Falsy(ExpiryTime(token.value, decode))
    ensures r.Some? ==> r.value == SecondsUntil(ExpiryTime(token.value, decode).ms, now)
  {
    if !Truthy(token) then None
    else
      var expiryTime := ExpiryTime(token.value, decode);
      if Falsy(expiryTime) then None else Some(SecondsUntil(expiryTime.ms, now))
  }

  /** A new reading replaces the shown value; no reading keeps it. */
  function Latest(reading: Option<int>, shown: Option<int>): Option<int> {
    if reading.Some? then reading else shown
  }

  /** The panel shows a negative count exactly when the token's expiry has passed. */
  lemma ShownNegativeIffExpired(token: Option<string>, now: int, decode: Decoder)
    requires FreshSeconds(token, now, decode).Some?
    ensures FreshSeconds(token, now, decode).value < 0 <==> AccessTokenExpired(token, now, decode) && now != ExpiryTime(token.value, decode).ms
  {
  }

  // ---------------------------------------------------------------------
  // Display strings
  // ---------------------------------------------------------------------

  /**
   * formatExpiryTime: no reading shows "No token", a negative one "Expired";
   * under a minute only seconds are shown; from a minute on, whole minutes
   * and the seconds left over, which stay below 60.
   */
  function FormatExpiryTime(seconds: Option<int>): (r: string)
    ensures seconds.None? ==> r == "No token"
    ensures seconds.Some? && seconds.value < 0 ==> r == "Expired"
    ensures seconds.Some? && 0 <= seconds.value < 60 ==> r == NatToString(seconds.value) + "s"
    ensures seconds.Some? && seconds.value >= 60 ==>
      && 1 <= seconds.value / 60 && 0 <= seconds.value % 60 < 60
      && r == NatToString(seconds.value / 60) + "m " + NatToString(seconds.value % 60) + "s"
  {
    if seconds.None? then "No token"
    else if seconds.value < 0 then "Expired"
    else
      var minutes, remainingSeconds := seconds.value / 60, seconds.value % 60;
      assert seconds.value == minutes * 60 + remainingSeconds && 0 <= remainingSeconds < 60;
      assert seconds.value < 60 ==> minutes == 0;
      assert seconds.value >= 60 ==> minutes >= 1;
      if minutes > 0 then IntToString(minutes) + "m " + IntToString(remainingSeconds) + "s"
      else IntToString(remainingSeconds) + "s"
  }

  /** What a formatted expiry says. */
  datatype ExpiryDisplay = NoToken | ExpiredDisplay | Remaining(seconds: nat)

  function Classify(seconds: Option<int>): ExpiryDisplay {
    if seconds.None? then NoToken
    else if seconds.value < 0 then ExpiredDisplay
    else Remaining(seconds.value)
  }

  /** The number of decimal digits `s` starts with: all of them are digits, and the next character is not. */
  function LeadingDigits(s: string): (n: nat)
    ensures n <= |s|
    ensures n < |s| ==> !IsDigit(s[n])
  {
    if s == [] || !IsDigit(s[0]) then 0 else LeadingDigits(s[1..]) + 1
  }

  lemma {:induction false} LeadingDigitsOf(d: string, t: string)
    requires AllDigits(d) && (t == [] || !IsDigit(t[0]))
    ensures LeadingDigits(d + t) == |d|
  {
    if d != [] {
      assert (d + t)[1..] == d[1..] + t;
      LeadingDigitsOf(d[1..], t);
    } else {
      assert d + t == t;
    }
  }

  /** A reader for the panel's text: the partner of FormatExpiryTime. */
  function ParseExpiryDisplay(text: string): Option<ExpiryDisplay> {
    var n := LeadingDigits(text);
    if n > 0 then ParseUnits(DigitsValue(text[..n]), text[n..])
    else if text == "No token" then Some(NoToken)
    else if text == "Expired" then Some(ExpiredDisplay)
    else None
  }

  /** What follows a leading count `a`: "s", or "m " and a count of seconds. */
  function ParseUnits(a: nat, rest: string): Option<ExpiryDisplay> {
    if rest == "s" then Some(Remaining(a))
    else if |rest| >= 2 && rest[..2] == "m " then
      match ParseSecondsField(rest[2..])
      case None => None
      case Some(b) => Some(Remaining(a * 60 + b))
    else None
  }

  /** A count of seconds: digits followed by exactly "s". */
  function ParseSecondsField(t: string): Option<nat> {
    var k := LeadingDigits(t);
    if k == 0 || t[k..] != "s" then None else Some(DigitsValue(t[..k]))
  }

  lemma DigitsThenSuffix(d: string, suffix: string)
    requires |d| >= 1 && AllDigits(d) && suffix != [] && !IsDigit(suffix[0])
    ensures LeadingDigits(d + suffix) == |d|
    ensures (d + suffix)[..|d|] == d && (d + suffix)[|d|..] == suffix
  {
    LeadingDigitsOf(d, suffix);
  }

  /** A count followed by a non-digit suffix reads as that count, then the suffix. */
  lemma ParseLeadingCount(ms: string, rest: string)
    requires |ms| >= 1 && AllDigits(ms) && rest != [] && !IsDigit(rest[0])
    ensures ParseExpiryDisplay(ms + rest) == ParseUnits(DigitsValue(ms), rest)
  {
    DigitsThenSuffix(ms, rest);
  }

  /** Digits followed by "s" read as their value. */
  lemma ParseSecondsFieldOf(rs: string)
    requires |rs| >= 1 && AllDigits(rs)
    ensures ParseSecondsField(rs + "s") == Some(DigitsValue(rs))
  {
    DigitsThenSuffix(rs, "s");
  }

  /** "m " and a count of seconds `b` after a count `a` read as `a` minutes and `b` seconds. */
  lemma ParseSecondsUnit(a: nat, t: string, b: nat)
    requires ParseSecondsField(t) == Some(b)
    ensures ParseUnits(a, "m " + t) == Some(Remaining(a * 60 + b))
  {
    var rest := "m " + t;
    assert rest[..2] == "m " && rest[2..] == t;
    assert rest != "s" by {
      assert |t| >= 1;
    }
  }

  lemma Regroup(a: string, b: string, c: string, d: string)
    ensures a + b + c + d == a + (b + (c + d))
  {
  }

  /** "<digits>m <digits>s" reads back as minutes and seconds. */
  lemma ParseMinutesSecondsText(ms: string, rs: string, a: nat, b: nat)
    requires |ms| >= 1 && AllDigits(ms) && |rs| >= 1 && AllDigits(rs)
    requires DigitsValue(ms) == a && DigitsValue(rs) == b
    ensures ParseExpiryDisplay(ms + "m " + rs + "s") == Some(Remaining(a * 60 + b))
  {
    var rest := "m " + (rs + "s");
    Regroup(ms, "m ", rs, "s");
    assert rest[0] == 'm';
    ParseLeadingCount(ms, rest);
    ParseSecondsFieldOf(rs);
    ParseSecondsUnit(a, rs + "s", b);
  }

  /** "<m>m <r>s" reads back as m minutes and r seconds. */
  lemma ParseMinutesSeconds(m: nat, r: nat)
    ensures ParseExpiryDisplay(NatToString(m) + "m " + NatToString(r) + "s") == Some(Remaining(m * 60 + r))
  {
    DigitsValueOfNatToString(m);
    DigitsValueOfNatToString(r);
    ParseMinutesSecondsText(NatToString(m), NatToString(r), m, r);
  }

  /** "<x>s" reads back as x seconds. */
  lemma ParseSeconds(x: nat)
    ensures ParseExpiryDisplay(NatToString(x) + "s") == Some(Remaining(x))
  {
    var rs := NatToString(x);
    var text := rs + "s";
    DigitsValueOfNatToString(x);
    DigitsThenSuffix(rs, "s");
    assert text[0] == rs[0];
  }

  /** A count from a minute on reads back from its "<m>m <s>s" text. */
  lemma ParseFormatMinutes(x: int)
    requires x >= 60
    ensures ParseExpiryDisplay(FormatExpiryTime(Some(x))) == Some(Remaining(x))
  {
    var m, r := x / 60, x % 60;
    var text := NatToString(m) + "m " + NatToString(r) + "s";
    assert FormatExpiryTime(Some(x)) == text;
    assert ParseExpiryDisplay(text) == Some(Remaining(x)) by {
      ParseMinutesSeconds(m, r);
      assert m * 60 + r == x;
    }
  }

  /** The panel's text always reads back as what it was formatted from. */
  lemma ParseFormatExpiryTime(seconds: Option<int>)
    ensures ParseExpiryDisplay(FormatExpiryTime(seconds)) == Some(Classify(seconds))
  {
    match seconds
    case None =>
    case Some(x) =>
      if x < 0 {
        assert "Expired" != "No token" by {
          assert |"Expired"| != |"No token"|;
        }
      } else if x >= 60 {
        ParseFormatMinutes(x);
      } else {
        ParseSeconds(x);
      }
  }

  /** formatLastRenewal; the locale's time format is a parameter. */
  function FormatLastRenewal(lastRenewal: Option<int>, localeTime: int -> string): (r: string)
    ensures lastRenewal.None? || lastRenewal.value == 0 ==> r == "No renewals yet"
    ensures lastRenewal.Some? && lastRenewal.value != 0 ==> r == localeTime(lastRenewal.value)
  {
    if lastRenewal.None? || lastRenewal.value == 0 then "No renewals yet" else localeTime(lastRenewal.value)
  }

  /**
   * truncate of the demo page: absent or empty shows a dash, up to 16
   * characters show as they are, longer ones as the first 8, an ellipsis
   * and the last 6.
   */
  function Truncate(value: Option<string>): (r: string)
    ensures !Truthy(value) ==> r == "—"
    ensures Truthy(value) && |value.value| <= 16 ==> r == value.value
    ensures Truthy(value) && |value.value| > 16 ==>
      && |r| == 15 && r[..8] == value.value[..8] && r[8] == '…'
      && r[9..] == value.value[|value.value| - 6..]
    ensures |r| <= 16
  {
    if !Truthy(value) then "—"
    else if |value.value| <= 16 then value.value
    else value.value[..8] + "…" + value.value[|value.value| - 6..]
  }

  /** Truncating what truncate printed changes nothing. */
  lemma TruncateIsIdempotent(value: Option<string>)
    ensures Truncate(Some(Truncate(value))) == Truncate(value)
  {
  }

  // ---------------------------------------------------------------------
  // The component's state
  // ---------------------------------------------------------------------

  class TokenStatusPanel {
    var hasToken: bool
    var tokenExpiresIn: Option<int>
    var lastRenewal: Option<int>
    var isRenewing: bool

    constructor ()
      ensures !hasToken && tokenExpiresIn == None && lastRenewal == None && !isRenewing
    {
      hasToken := false;
      tokenExpiresIn := None;
      lastRenewal := None;
      isRenewing := false;
    }

    /** The mount effect's first reading. */
    method Mount(token: Option<string>, now: int, decode: Decoder)
      modifies this
      ensures hasToken == Truthy(token)
      ensures !Truthy(token) ==> tokenExpiresIn == None
      ensures Truthy(token) ==> tokenExpiresIn == Latest(FreshSeconds(token, now, decode), old(tokenExpiresIn))
      ensures lastRenewal == old(lastRenewal) && isRenewing == old(isRenewing)
    {
      if Truthy(token) {
        hasToken := true;
        var expiryTime := ExpiryTime(token.value, decode);
        if !Falsy(expiryTime) {
          tokenExpiresIn := Some(SecondsUntil(expiryTime.ms, now));
        }
      } else {
        hasToken := false;
        tokenExpiresIn := None;
      }
    }

    /** One run of the one-second interval: update when there is a fresh reading, else keep the last. */
    method Tick(token: Option<string>, now: int, decode: Decoder)
      modifies this
      ensures tokenExpiresIn == Latest(FreshSeconds(token, now, decode), old(tokenExpiresIn))
      ensures hasToken == old(hasToken) && lastRenewal == old(lastRenewal) && isRenewing == old(isRenewing)
    {
      var reading := FreshSeconds(token, now, decode);
      if reading.Some? {
        tokenExpiresIn := reading;
      }
    }

    /**
     * The refresh button: ignored while a renewal is under way; otherwise
     * ask the token service to refresh and stamp the renewal time when it
     * succeeds. It does not touch the service's expiry timer.
     */
    method OnRefreshClick(service: TokenService, response: Response<TokenSet>, now: int) returns (success: bool)
      requires service.Valid()
      modifies this, service, service.store
      ensures service.Valid() && isRenewing == old(isRenewing)
      ensures old(isRenewing) ==> !success && lastRenewal == old(lastRenewal)
      ensures !old(isRenewing) ==>
        (success <==> !old(service.isRefreshing) && Truthy(old(service.store.refreshToken))
                      && service.config.Some? && response.Ok?)
      ensures success ==> lastRenewal == Some(now) && service.store.accessToken == Some(response.body.accessToken)
      ensures !success ==> lastRenewal == old(lastRenewal) && service.store.storage == old(service.store.storage)
      ensures old(isRenewing) ==>
        && service.requests == old(service.requests)
        && service.lastRenewalTime == old(service.lastRenewalTime)
        && service.store.storage == old(service.store.storage)
      ensures !old(isRenewing) ==>
        service.requests == old(service.requests) + (
          if !old(service.isRefreshing) && Truthy(old(service.store.refreshToken)) && service.config.Some?
          then [RefreshRequestFor(service.config.value, old(service.store.refreshToken).value)] else [])
      ensures service.isRefreshing == old(service.isRefreshing)
      ensures success ==> service.lastRenewalTime == Some(now)
      ensures !success ==> service.lastRenewalTime == old(service.lastRenewalTime)
      ensures service.config == old(service.config) && service.nextHandle == old(service.nextHandle)
      ensures service.timers == old(service.timers) && service.refreshCheckInterval == old(service.refreshCheckInterval)
      ensures hasToken == old(hasToken) && tokenExpiresIn == old(tokenExpiresIn)
    {
      if isRenewing {
        return false;
      }
      isRenewing := true;
      success := service.RefreshToken(response, now);
      if success {
        lastRenewal := Some(now);
      }
      isRenewing := false;
    }
  }
}
