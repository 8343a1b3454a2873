/**
 * Turning a scan report's `evaluationDate` and the operator's cutoff date into
 * comparable UTC instants. Python's `datetime` parsers are not modelled: each
 * is an uninterpreted partial function, and only the order in which the
 * script tries them is.
 */
module ScanDate {
  import opened Wrappers
  import PyStr

  /** A UTC instant, in whole seconds since the Unix epoch. */
  type Instant = int

  const SecondsPerDay: int := 86400

  /** The library parsers the script calls, each failing with `None` where Python raises `ValueError`. */
  datatype Parsers = Parsers(
    /** `datetime.fromisoformat(s).astimezone(timezone.utc)` */
    isoFormat: string -> Option<Instant>,
    /** `datetime.strptime(s, "%Y-%m-%dT%H:%M:%S.%fZ")`, read as UTC */
    zFraction: string -> Option<Instant>,
    /** `datetime.strptime(s, "%Y-%m-%dT%H:%M:%S%Z")`, read as UTC */
    zPlain: string -> Option<Instant>,
    /** `datetime.strptime(s, "%Y-%m-%d")`: the calendar day, counted in days since the epoch */
    calendarDate: string -> Option<int>)

  /** One way of reading a timestamp. */
  datatype Strategy = IsoFormat | ZFraction | ZPlain

  function Attempt(p: Parsers, st: Strategy, s: string): Option<Instant>
  {
    match st
    case IsoFormat => p.isoFormat(s)
    case ZFraction => p.zFraction(s)
    case ZPlain => p.zPlain(s)
  }

  /**
   * The strategies the script tries on `s`, in order: the ISO parse always;
   * a fallback only when that fails and `s` ends in 'Z', and then the
   * fractional-seconds pattern exactly when `s` contains '.'.
   */
  function StrategiesTried(p: Parsers, s: string): (tried: seq<Strategy>)
    ensures 1 <= |tried| <= 2 && tried[0] == IsoFormat
    ensures |tried| == 2 <==> p.isoFormat(s).None? && PyStr.EndsWith(s, 'Z')
    ensures ZFraction in tried <==> p.isoFormat(s).None? && PyStr.EndsWith(s, 'Z') && '.' in s
    ensures ZPlain in tried <==> p.isoFormat(s).None? && PyStr.EndsWith(s, 'Z') && '.' !in s
  {
    if p.isoFormat(s).Some? || !PyStr.EndsWith(s, 'Z') then [IsoFormat]
    else if '.' in s then [IsoFormat, ZFraction]
    else [IsoFormat, ZPlain]
  }

  /** Every strategy before position `k` fails on `s`. */
  predicate AllFailBefore(p: Parsers, tried: seq<Strategy>, s: string, k: nat)
    requires k <= |tried|
  {
    forall j :: 0 <= j < k ==> Attempt(p, tried[j], s).None?
  }

  /** Reference reading of an ordered strategy list: the first one that succeeds wins. */
  function FirstSuccess(p: Parsers, tried: seq<Strategy>, s: string): (r: Option<Instant>)
    ensures r.None? <==> forall k :: 0 <= k < |tried| ==> Attempt(p, tried[k], s).None?
    ensures r.Some? ==> exists k :: 0 <= k < |tried| && Attempt(p, tried[k], s) == r && AllFailBefore(p, tried, s, k)
  {
    if tried == [] then None
    else match Attempt(p, tried[0], s)
      case Some(t) => Some(t)
      case None =>
        var r := FirstSuccess(p, tried[1..], s);
        assert forall k :: 1 <= k < |tried| ==> tried[k] == tried[1..][k - 1];
        r
  }

  /**
   * The instant of a scan timestamp as the script reads it: the `try` /
   * `except ValueError` cascade of the selection loop.
   */
  function ParseScanDate(p: Parsers, s: string): (r: Option<Instant>)
    ensures r == FirstSuccess(p, StrategiesTried(p, s), s)
  {
    match p.isoFormat(s)
    case Some(t) => Some(t)
    case None =>
      if !PyStr.EndsWith(s, 'Z') then None
      else if '.' in s then p.zFraction(s)
      else p.zPlain(s)
  }

  /** The calendar day of an instant, as `strftime('%Y-%m-%d')` names it. */
  function DayOf(t: Instant): int
  {
    t / SecondsPerDay
  }

  /** Midnight UTC at the start of a calendar day. */
  function Midnight(day: int): Instant
  {
    day * SecondsPerDay
  }

  /**
   * The cutoff instant: the operator's `YYYY-MM-DD` at midnight UTC, or
   * `None` when the date does not parse.
   */
  function CutoffInstant(p: Parsers, date: string): (r: Option<Instant>)
    ensures r.None? <==> p.calendarDate(date).None?
    ensures r.Some? ==> r.value % SecondsPerDay == 0 && DayOf(r.value) == p.calendarDate(date).value
  {
    match p.calendarDate(date)
    case None => None
    case Some(day) => Some(Midnight(day))
  }

  /** A scan lies before midnight of the cutoff day exactly when it falls on an earlier calendar day. */
  lemma BeforeMidnightIffEarlierDay(t: Instant, day: int)
    ensures t < Midnight(day) <==> DayOf(t) < day
  {
  }
}
