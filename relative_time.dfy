/**
 * datetime2best of chiki/utils.py: the signed distance from an instant to
 * "now", bucketed into one of twelve phrases ("3分钟前", "2天后", ...).
 * Instants are whole microseconds on one clock; `now` is a parameter.
 */
module RelativeTime {
  import opened Text

  datatype Unit = Second | Minute | Hour | Day | Month | Year

  /** 前 (the instant is in the past) or 后 (it is still to come). */
  datatype Direction = Ago | Later

  /** The number, unit and direction a phrase template is filled with. */
  datatype Phrase = Phrase(count: nat, unit: Unit, direction: Direction)

  const MicrosPerSecond: int := 1000000
  const SecondsPerDay: int := 86400

  /**
   * Whole seconds of `now - input`, rounded down, as the `days` and
   * `seconds` fields of a Python timedelta give them (days * 86400 + seconds).
   */
  function DeltaSeconds(input: int, now: int): (d: int)
    ensures d * MicrosPerSecond <= now - input < (d + 1) * MicrosPerSecond
  {
    (now - input) / MicrosPerSecond
  }

  /**
   * The bucket of a signed distance `d` in seconds. `days` and `rest` are
   * the timedelta's `days` (floor division) and `seconds` (0 to 86399).
   */
  function Bucket(d: int): (p: Phrase)
    ensures p.direction == Later <==> d < 0
  {
    var days := d / SecondsPerDay;
    var rest := d % SecondsPerDay;
    if days == 0 || days == -1 then
      var seconds := days * SecondsPerDay + rest;
      if seconds < -3600 then Phrase(-seconds / 3600, Hour, Later)
      else if seconds < -60 then Phrase(-seconds / 60, Minute, Later)
      else if seconds < 0 then Phrase(-seconds, Second, Later)
      else if seconds < 60 then Phrase(seconds, Second, Ago)
      else if seconds < 3600 then Phrase(seconds / 60, Minute, Ago)
      else Phrase(seconds / 3600, Hour, Ago)
    else if days < -365 then Phrase(-days / 365, Year, Later)
    else if days < -30 then Phrase(-days / 30, Month, Later)
    else if days < -1 then Phrase(-(days + 1), Day, Later)
    else if days < 30 then Phrase(days, Day, Ago)
    else if days < 365 then Phrase(days / 30, Month, Ago)
    else Phrase(days / 365, Year, Ago)
  }

  // ------------------------------------------------------------ rendering

  function UnitName(u: Unit): string {
    match u
    case Second => "秒"
    case Minute => "分钟"
    case Hour => "小时"
    case Day => "天"
    case Month => "个月"
    case Year => "年"
  }

  function DirectionName(dir: Direction): string {
    match dir
    case Ago => "前"
    case Later => "后"
  }

  /** The template `'%d<unit><direction>'` filled in. */
  function Render(p: Phrase): (r: string)
    ensures StartsWith(r, NatToString(p.count)) && IsDigit(r[0])
    ensures r[|r| - 1] == (if p.direction == Ago then '前' else '后')
  {
    NatToString(p.count) + (UnitName(p.unit) + DirectionName(p.direction))
  }

  /** datetime2best(input), evaluated at the instant `now`. */
  function DateTime2Best(input: int, now: int): (r: string)
    ensures r != [] && IsDigit(r[0])
    ensures r[|r| - 1] == '后' <==> now < input
  {
    Render(Bucket(DeltaSeconds(input, now)))
  }

  // ----------------------------------------------------------- properties

  /** The length of one unit in seconds; a month is 30 days and a year 365. */
  function Span(u: Unit): nat {
    match u
    case Second => 1
    case Minute => 60
    case Hour => 3600
    case Day => 86400
    case Month => 30 * 86400
    case Year => 365 * 86400
  }

  function Next(u: Unit): Unit
    requires u != Year
  {
    match u
    case Second => Minute
    case Minute => Hour
    case Hour => Day
    case Day => Month
    case Month => Year
  }

  /** The whole days a distance covers, rounded up. */
  function CeilDays(m: nat): nat {
    (m + SecondsPerDay - 1) / SecondsPerDay
  }

  /**
   * A past (or present) instant: the phrase says 前, its unit is the largest
   * whose length fits into the distance, and the count is the number of
   * whole units in it.
   */
  lemma BucketPast(d: int)
    requires d >= 0
    ensures Bucket(d).direction == Ago
    ensures Bucket(d).unit == Second || Span(Bucket(d).unit) <= d
    ensures Bucket(d).unit == Year || d < Span(Next(Bucket(d).unit))
    ensures Bucket(d).count == d / Span(Bucket(d).unit)
  {
  }

  /**
   * A future instant, at distance m = -d: the phrase says 后 and the unit is
   * chosen with the bounds on the other side (a distance of exactly one
   * unit still reads in the smaller unit). Below a day the count is the
   * number of whole units; from a day on it is derived from the distance
   * in days rounded up: one less for days, a 30th for months, a 365th for
   * years.
   */
  lemma BucketFuture(d: int)
    requires d < 0
    ensures Bucket(d).direction == Later
    ensures Bucket(d).unit == Second || Span(Bucket(d).unit) < -d
    ensures Bucket(d).unit == Year || -d <= Span(Next(Bucket(d).unit))
    ensures Bucket(d).unit in {Second, Minute, Hour} ==> Bucket(d).count == -d / Span(Bucket(d).unit)
    ensures Bucket(d).unit == Day ==> Bucket(d).count == CeilDays(-d) - 1
    ensures Bucket(d).unit == Month ==> Bucket(d).count == CeilDays(-d) / 30
    ensures Bucket(d).unit == Year ==> Bucket(d).count == CeilDays(-d) / 365
  {
  }

  /** The least count a (unit, direction) pair can show; only "n秒前" can show 0. */
  function MinCount(u: Unit, dir: Direction): nat {
    if u == Second && dir == Ago then 0 else 1
  }

  /** The largest count a (unit, direction) pair can show; years are unbounded. */
  function MaxCount(u: Unit, dir: Direction): nat
    requires u != Year
  {
    match u
    case Second => if dir == Ago then 59 else 60
    case Minute => if dir == Ago then 59 else 60
    case Hour => if dir == Ago then 23 else 24
    case Day => 29
    case Month => 12
  }

  /** Every count lies in the range its template allows. */
  lemma BucketCountRange(d: int)
    ensures MinCount(Bucket(d).unit, Bucket(d).direction) <= Bucket(d).count
    ensures Bucket(d).unit != Year ==> Bucket(d).count <= MaxCount(Bucket(d).unit, Bucket(d).direction)
  {
  }

  lemma FirstNonDigitUnique(s: string, n: nat, n': nat)
    requires n < |s| && !IsDigit(s[n]) && forall k | 0 <= k < n :: IsDigit(s[k])
    requires n' < |s| && !IsDigit(s[n']) && forall k | 0 <= k < n' :: IsDigit(s[k])
    ensures n == n'
  {
  }

  /** A digit run followed by a text that starts with a non-digit splits only one way. */
  lemma DigitsPrefixUnique(a: string, b: string, a': string, b': string)
    requires IsDigits(a) && IsDigits(a')
    requires b != [] && !IsDigit(b[0]) && b' != [] && !IsDigit(b'[0])
    requires a + b == a' + b'
    ensures a == a' && b == b'
  {
    var s := a + b;
    assert s[|a|] == b[0] && s[|a'|] == b'[0];
    assert forall k | 0 <= k < |a| :: s[k] == a[k];
    assert forall k | 0 <= k < |a'| :: s[k] == a'[k];
    FirstNonDigitUnique(s, |a|, |a'|);
    assert a == s[..|a|] == a';
    assert b == s[|a|..] == b';
  }

  lemma UnitNameInjective(u: Unit, v: Unit)
    requires UnitName(u) == UnitName(v)
    ensures u == v
  {
  }

  /** The phrase suffix names its unit and direction unambiguously. */
  lemma SuffixInjective(p: Phrase, q: Phrase)
    requires UnitName(p.unit) + DirectionName(p.direction) == UnitName(q.unit) + DirectionName(q.direction)
    ensures p.unit == q.unit && p.direction == q.direction
  {
    var b, b' := UnitName(p.unit) + DirectionName(p.direction), UnitName(q.unit) + DirectionName(q.direction);
    assert b[|b| - 1] == DirectionName(p.direction)[0];
    assert b'[|b'| - 1] == DirectionName(q.direction)[0];
    assert p.direction == q.direction;
    assert UnitName(p.unit) == b[..|b| - 1] == b'[..|b'| - 1] == UnitName(q.unit);
    UnitNameInjective(p.unit, q.unit);
  }

  /** The rendered text determines the phrase: different buckets never read alike. */
  lemma RenderInjective(p: Phrase, q: Phrase)
    requires Render(p) == Render(q)
    ensures p == q
  {
    PartsInjective(p, q);
  }

  lemma PartsInjective(p: Phrase, q: Phrase)
    requires NatToString(p.count) + (UnitName(p.unit) + DirectionName(p.direction))
      == NatToString(q.count) + (UnitName(q.unit) + DirectionName(q.direction))
    ensures p == q
  {
    var a, b := NatToString(p.count), UnitName(p.unit) + DirectionName(p.direction);
    var a', b' := NatToString(q.count), UnitName(q.unit) + DirectionName(q.direction);
    assert !IsDigit(b[0]) && !IsDigit(b'[0]) by {
      assert b[0] == UnitName(p.unit)[0] && b'[0] == UnitName(q.unit)[0];
    }
    DigitsPrefixUnique(a, b, a', b');
    DecimalRoundTrip(p.count);
    DecimalRoundTrip(q.count);
    SuffixInjective(p, q);
  }

  /** Buckets at the day boundaries and around exact units. */
  lemma BucketBoundaries()
    ensures Bucket(-86400) == Phrase(24, Hour, Later)
    ensures Bucket(-86401) == Phrase(1, Day, Later)
    ensures Bucket(-172800) == Phrase(1, Day, Later)
    ensures Bucket(172800) == Phrase(2, Day, Ago)
    ensures Bucket(86399) == Phrase(23, Hour, Ago)
    ensures Bucket(86400) == Phrase(1, Day, Ago)
    ensures Bucket(60) == Phrase(1, Minute, Ago)
    ensures Bucket(-60) == Phrase(60, Second, Later)
    ensures Bucket(-30 * 86400) == Phrase(29, Day, Later)
    ensures Bucket(30 * 86400) == Phrase(1, Month, Ago)
  {
  }

  /** Rendered phrases for instants 30 s before or after `now`, and one microsecond after it. */
  lemma DateTime2BestExamples(now: int)
    ensures DateTime2Best(now - 30 * MicrosPerSecond, now) == "30秒前"
    ensures DateTime2Best(now + 30 * MicrosPerSecond, now) == "30秒后"
    ensures DateTime2Best(now + 1, now) == "1秒后"
  {
    assert DeltaSeconds(now - 30 * MicrosPerSecond, now) == 30;
    assert DeltaSeconds(now + 30 * MicrosPerSecond, now) == -30;
    assert DeltaSeconds(now + 1, now) == -1;
    assert NatToString(30) == "30";
  }

  /** Rendered phrases for instants 90 minutes and 2 days before `now`. */
  lemma DateTime2BestHoursDaysExamples(now: int)
    ensures DateTime2Best(now - 90 * 60 * MicrosPerSecond, now) == "1小时前"
    ensures DateTime2Best(now - 2 * 86400 * MicrosPerSecond, now) == "2天前"
  {
    assert DeltaSeconds(now - 90 * 60 * MicrosPerSecond, now) == 5400;
    assert Bucket(5400) == Phrase(1, Hour, Ago);
    assert DeltaSeconds(now - 2 * 86400 * MicrosPerSecond, now) == 2 * 86400;
    assert Bucket(2 * 86400) == Phrase(2, Day, Ago);
  }

  /** Rendered phrases for instants 40 and 400 days before `now`. */
  lemma DateTime2BestMonthsYearsExamples(now: int)
    ensures DateTime2Best(now - 40 * 86400 * MicrosPerSecond, now) == "1个月前"
    ensures DateTime2Best(now - 400 * 86400 * MicrosPerSecond, now) == "1年前"
  {
    assert DeltaSeconds(now - 40 * 86400 * MicrosPerSecond, now) == 40 * 86400;
    assert Bucket(40 * 86400) == Phrase(1, Month, Ago);
    assert DeltaSeconds(now - 400 * 86400 * MicrosPerSecond, now) == 400 * 86400;
    assert Bucket(400 * 86400) == Phrase(1, Year, Ago);
  }
}
