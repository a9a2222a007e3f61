/**
  The duration arithmetic and validation of the `/log` slash command.

  The command takes two optional integer options, `hours` (declared minimum 0)
  and `minutes` (declared range 0..59), treats a missing one as 0, converts
  the pair to milliseconds, and either refuses the request or hands the total
  to the praise generator together with the caller's display name.
 */
module LogCommand {
  import opened Wrappers

  const MillisPerSecond: int := 1000
  const SecondsPerMinute: int := 60
  const MinutesPerHour: int := 60
  const MillisPerMinute: int := SecondsPerMinute * MillisPerSecond
  const MillisPerHour: int := MinutesPerHour * MillisPerMinute

  /** What the command does with a request. */
  datatype Reply =
    | Rejected                                   // an ephemeral "enter a valid study time" reply
    | Praise(durationMs: int, userName: string)  // the praise generator is asked about this duration

  /** The option values the command declares: hours at least 0, minutes in 0..59. */
  predicate WithinDeclaredBounds(hours: int, minutes: int)
  {
    hours >= 0 && 0 <= minutes < MinutesPerHour
  }

  /** The requested study time in milliseconds: whole minutes, `hours * 60 + minutes` of them. */
  function TotalMilliseconds(hours: int, minutes: int): (ms: int)
    ensures ms % MillisPerMinute == 0
    ensures ms / MillisPerMinute == hours * MinutesPerHour + minutes
  {
    var ms := (hours * 60 * 60 + minutes * 60) * 1000;
    assert ms == (hours * MinutesPerHour + minutes) * MillisPerMinute;
    DivModUnique(ms, MillisPerMinute, hours * MinutesPerHour + minutes, 0);
    ms
  }

  /** Handles `/log hours minutes` for the user `userName`. */
  function Execute(hours: Option<int>, minutes: Option<int>, userName: string): (r: Reply)
    // Only a positive total is accepted; a refused request never reaches the praise generator.
    ensures r.Rejected? <==> TotalMilliseconds(hours.GetOr(0), minutes.GetOr(0)) <= 0
    ensures r.Praise? ==> r.durationMs > 0 && r.userName == userName
    // The praise generator receives exactly the total, with missing options counted as 0.
    ensures r.Praise? ==> r.durationMs == TotalMilliseconds(hours.GetOr(0), minutes.GetOr(0))
  {
    var h := hours.GetOr(0);
    var m := minutes.GetOr(0);
    var total := TotalMilliseconds(h, m);
    if total <= 0 then Rejected else Praise(total, userName)
  }

  /** Within the declared bounds the conversion loses nothing: the hours and
      minutes can be read back from the total. */
  lemma TotalRoundTrip(hours: int, minutes: int)
    requires WithinDeclaredBounds(hours, minutes)
    ensures TotalMilliseconds(hours, minutes) / MillisPerHour == hours
    ensures TotalMilliseconds(hours, minutes) % MillisPerHour / MillisPerMinute == minutes
  {
    var ms := TotalMilliseconds(hours, minutes);
    assert ms == hours * MillisPerHour + minutes * MillisPerMinute;
    assert 0 <= minutes * MillisPerMinute < MillisPerHour;
    DivModUnique(ms, MillisPerHour, hours, minutes * MillisPerMinute);
    DivModUnique(minutes * MillisPerMinute, MillisPerMinute, minutes, 0);
  }

  /** Distinct in-bounds requests ask about distinct durations. */
  lemma TotalInjective(h1: int, m1: int, h2: int, m2: int)
    requires WithinDeclaredBounds(h1, m1) && WithinDeclaredBounds(h2, m2)
    requires TotalMilliseconds(h1, m1) == TotalMilliseconds(h2, m2)
    ensures h1 == h2 && m1 == m2
  {
    TotalRoundTrip(h1, m1);
    TotalRoundTrip(h2, m2);
  }

  /** A missing option behaves exactly like an explicit 0. */
  lemma MissingOptionIsZero(hours: Option<int>, minutes: Option<int>, userName: string)
    ensures Execute(None, minutes, userName) == Execute(Some(0), minutes, userName)
    ensures Execute(hours, None, userName) == Execute(hours, Some(0), userName)
  {
  }

  /** Within the declared bounds the total is never negative, and a request is
      accepted exactly when at least one hour or one minute is given. */
  lemma AcceptedIffSomeTime(hours: int, minutes: int, userName: string)
    requires WithinDeclaredBounds(hours, minutes)
    ensures TotalMilliseconds(hours, minutes) >= 0
    ensures Execute(Some(hours), Some(minutes), userName).Praise? <==> hours >= 1 || minutes >= 1
  {
    var ms := TotalMilliseconds(hours, minutes);
    assert ms / MillisPerMinute == hours * 60 + minutes;
  }

  // ---------------------------------------------------------------------------
  // Integer division
  // ---------------------------------------------------------------------------

  /** A non-zero multiple of a positive `d` is at least `d` away from zero. */
  lemma MultipleAwayFromZero(x: int, d: int)
    requires d > 0
    ensures x >= 1 ==> x * d >= d
    ensures x <= -1 ==> x * d <= -d
  {
  }

  /** Quotient and remainder are the only pair that rebuilds `n`. */
  lemma DivModUnique(n: int, d: int, q: int, r: int)
    requires d > 0 && 0 <= r < d && n == q * d + r
    ensures n / d == q && n % d == r
  {
    var q' := n / d;
    assert (q - q') * d == q * d - q' * d;
    MultipleAwayFromZero(q - q', d);
  }
}
