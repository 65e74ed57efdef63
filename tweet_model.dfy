/**
 * `Tweet.hours_to_now` of tweets/models.py: the whole hours in the
 * seconds-within-a-day part of the time elapsed since the tweet was created.
 * Times are integers in microseconds; `now` is the clock reading passed in.
 */
module TweetModel {
  import opened Arith

  const MicrosPerSecond: int := 1_000_000
  const SecondsPerDay: int := 86_400
  const MicrosPerHour: int := 3_600_000_000
  const MicrosPerDay: int := 86_400_000_000

  /** `timedelta.seconds`: a `timedelta` keeps days, seconds in [0, 86399] and microseconds in
      [0, 999999], flooring towards minus infinity, so the seconds of a negative delta are still in
      range. Dafny's `/` and `%` by a positive divisor floor the same way. */
  function TimedeltaSeconds(micros: int): (s: int)
    ensures 0 <= s < SecondsPerDay
  {
    (micros / MicrosPerSecond) % SecondsPerDay
  }

  /** `(utc_now() - self.created_at).seconds // 3600`. */
  function HoursToNow(createdAt: int, now: int): (h: int)
    ensures 0 <= h <= 23
  {
    TimedeltaSeconds(now - createdAt) / 3600
  }

  /** Any elapsed time written as whole days, then `h` hours below 24, then a remainder below an
      hour, reports `h`: whole days are dropped, whatever their sign. */
  lemma HoursToNowCharacterised(createdAt: int, now: int, days: int, h: int, rest: int)
    requires 0 <= h < 24 && 0 <= rest < MicrosPerHour
    requires now - createdAt == days * MicrosPerDay + h * MicrosPerHour + rest
    ensures HoursToNow(createdAt, now) == h
  {
    var secs := days * SecondsPerDay + h * 3600 + rest / MicrosPerSecond;
    var sub := rest % MicrosPerSecond;
    assert now - createdAt == secs * MicrosPerSecond + sub;
    DivUnique(now - createdAt, MicrosPerSecond, secs, sub);
    assert (now - createdAt) / MicrosPerSecond == secs;
    var inDay := h * 3600 + rest / MicrosPerSecond;
    assert 0 <= inDay < SecondsPerDay;
    DivUnique(secs, SecondsPerDay, days, inDay);
    assert TimedeltaSeconds(now - createdAt) == inDay;
    DivUnique(inDay, 3600, h, rest / MicrosPerSecond);
  }

  /** A tweet created 10 hours ago reports 10; 27 hours ago reports 3; one microsecond in the
      future reports 23. */
  lemma HoursToNowExamples(createdAt: int)
    ensures HoursToNow(createdAt, createdAt + 10 * MicrosPerHour) == 10
    ensures HoursToNow(createdAt, createdAt + 27 * MicrosPerHour) == 3
    ensures HoursToNow(createdAt, createdAt - 1) == 23
  {
    HoursToNowCharacterised(createdAt, createdAt + 10 * MicrosPerHour, 0, 10, 0);
    HoursToNowCharacterised(createdAt, createdAt + 27 * MicrosPerHour, 1, 3, 0);
    HoursToNowCharacterised(createdAt, createdAt - 1, -1, 23, MicrosPerHour - 1);
  }

  /** Shifting the clock by whole days does not change the report. */
  lemma WholeDaysDropped(createdAt: int, now: int, days: int)
    ensures HoursToNow(createdAt, now + days * MicrosPerDay) == HoursToNow(createdAt, now)
  {
    var d := now - createdAt;
    var q := d / MicrosPerDay;
    var r := d % MicrosPerDay;
    var h := r / MicrosPerHour;
    var rest := r % MicrosPerHour;
    assert d == q * MicrosPerDay + h * MicrosPerHour + rest;
    assert 0 <= h < 24;
    HoursToNowCharacterised(createdAt, now, q, h, rest);
    HoursToNowCharacterised(createdAt, now + days * MicrosPerDay, q + days, h, rest);
  }
}
