/**
 * Instants, counted in .NET ticks (100 ns) relative to the Unix epoch.
 * The calendar is not modelled: a year is a fixed offset of 365 days.
 */
module Clock {
  import opened Wrappers

  type Time = int

  const TicksPerSecond: int := 10_000_000
  const TicksPerMinute: int := 60 * TicksPerSecond
  const TicksPerDay: int := 86_400 * TicksPerSecond

  /** DateTime.MinValue and DateTime.MaxValue, relative to the Unix epoch. */
  const MinTime: Time := -621_355_968_000_000_000
  const MaxTime: Time := 2_534_023_007_999_999_999

  /** Lifetime of an access token: `AddMinutes(5)`. */
  const AccessLifetime: int := 5 * TicksPerMinute
  /** Lifetime of a refresh-token record: `AddYears(1)`. */
  const RefreshLifetime: int := 365 * TicksPerDay

  predicate IsDateTime(t: Time) {
    MinTime <= t <= MaxTime
  }

  /**
   * Unix seconds to a DateTime: the epoch plus `seconds`. `AddSeconds`
   * throws (None) when the sum leaves the DateTime range.
   */
  function UnixTimeStampToDateTime(seconds: int): (r: Option<Time>)
    ensures r.Some? <==> IsDateTime(seconds * TicksPerSecond)
    ensures r.Some? ==> IsDateTime(r.value) && r.value % TicksPerSecond == 0
    ensures r.Some? ==> r.value / TicksPerSecond == seconds
  {
    var t := seconds * TicksPerSecond;
    if IsDateTime(t) then Some(t) else None
  }

  /**
   * The JSON numeric date a token handler writes for instant `t`: 0 for an
   * instant at or before the epoch, otherwise the whole seconds since the
   * epoch, rounded down.
   */
  function NumericDate(t: Time): (s: int)
    ensures t <= 0 ==> s == 0
    ensures t > 0 ==> 0 <= s && s * TicksPerSecond <= t < s * TicksPerSecond + TicksPerSecond
  {
    if t <= 0 then 0 else t / TicksPerSecond
  }

  /**
   * A whole-second instant after the epoch survives the trip through its
   * numeric date; one at or before the epoch comes back as 0.
   */
  lemma NumericDateRoundTrip(seconds: int)
    requires IsDateTime(seconds * TicksPerSecond)
    ensures UnixTimeStampToDateTime(seconds).Some?
    ensures NumericDate(UnixTimeStampToDateTime(seconds).value) == if seconds > 0 then seconds else 0
  {
  }

  /**
   * Reading back the numeric date of an instant after the epoch gives the
   * instant rounded down to the whole second.
   */
  lemma DecodedNumericDate(t: Time)
    requires 0 <= t <= MaxTime
    ensures UnixTimeStampToDateTime(NumericDate(t)).Some?
    ensures var back := UnixTimeStampToDateTime(NumericDate(t)).value;
      back <= t < back + TicksPerSecond
  {
  }
}
