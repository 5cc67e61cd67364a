/** Counter keys and the ICT calendar by which quotas are cut.  Instants and durations are
    nanoseconds; a calendar date is the number of ICT days since the epoch. */
module QuotaKeys {

  const SECOND := 1_000_000_000
  const HOUR := 3600 * SECOND
  const DAY := 24 * HOUR
  const ICT := 7 * HOUR

  const GLOBAL_KEY := "global"

  datatype Subject = Subject(userId: string, ip: string)
  {
    predicate IsGuest() {
      userId == ""
    }

    function DayKey(): string {
      if IsGuest() then "ip:" + ip else "user:" + userId
    }

    function HourKey(now: int): string {
      "userhour:" + userId + ":" + TwoDigits(HourOf(now))
    }
  }

  function TwoDigits(n: nat): string
    requires n < 100
  {
    [DIGITS[n / 10], DIGITS[n % 10]]
  }

  lemma TwoDigitsAre(n: nat)
    requires n < 100
    ensures TwoDigits(n) == ['0' + (n / 10) as char, '0' + (n % 10) as char]
  {
    DigitIs(n / 10);
    DigitIs(n % 10);
  }

  lemma DigitIs(d: nat)
    requires d < 10
    ensures DIGITS[d] == '0' + d as char
  {}

  const DIGITS := "0123456789"

  /** The calendar date in ICT. */
  function DateOf(now: int): int {
    (now + ICT) / DAY
  }

  /** The hour of the day in ICT. */
  function HourOf(now: int): (h: nat)
    ensures h < 24
  {
    (now + ICT) % DAY / HOUR
  }

  function UntilNextDay(now: int): int {
    (DateOf(now) + 1) * DAY - ICT - now
  }

  function UntilNextHour(now: int): int {
    DateOf(now) * DAY + (HourOf(now) + 1) * HOUR - ICT - now
  }

  /** `now + UntilNextDay(now)` is the first instant of the next date. */
  lemma NextDayIsFirst(now: int, t: int)
    ensures 0 < UntilNextDay(now) <= DAY
    ensures DateOf(now + UntilNextDay(now)) == DateOf(now) + 1
    ensures now <= t < now + UntilNextDay(now) ==> DateOf(t) == DateOf(now)
  {
  }

  /** The calendar is that of UTC+7, in nanoseconds: a date begins at 17:00 UTC, and the hour of the day
      counts from there. */
  lemma CalendarIsIct(days: int, hours: nat, rest: nat)
    requires hours < 24 && rest < 3_600_000_000_000
    ensures var now := days * 86_400_000_000_000 - 25_200_000_000_000 + hours * 3_600_000_000_000 + rest;
            DateOf(now) == days && HourOf(now) == hours
  {
    ClockParts(days, hours, rest);
  }

  /** Date, hour and the rest of the hour determine the instant, and back. */
  lemma ClockParts(d: int, h: nat, m: nat)
    requires h < 24 && m < HOUR
    ensures DateOf(d * DAY + h * HOUR + m - ICT) == d
    ensures HourOf(d * DAY + h * HOUR + m - ICT) == h
  {
    var r := h * HOUR + m;
    assert 0 <= r < DAY;
    assert (d * DAY + r) / DAY == d;
    assert (d * DAY + r) % DAY == r;
    assert r / HOUR == h;
  }

  /** `now + UntilNextHour(now)` is the first instant of the next ICT hour. */
  lemma NextHourIsFirst(now: int, t: int)
    ensures 0 < UntilNextHour(now) <= HOUR
    ensures HourOf(now + UntilNextHour(now)) == (HourOf(now) + 1) % 24
    ensures now <= t < now + UntilNextHour(now) ==> DateOf(t) == DateOf(now) && HourOf(t) == HourOf(now)
  {
    var d, h, m := DateOf(now), HourOf(now), (now + ICT) % DAY % HOUR;
    assert now == d * DAY + h * HOUR + m - ICT;
    if now <= t < now + UntilNextHour(now) {
      ClockParts(d, h, m + (t - now));
    }
    if h < 23 {
      ClockParts(d, h + 1, 0);
    } else {
      ClockParts(d + 1, 0, 0);
    }
  }

  /** Two subjects share a day counter exactly when they are the same account or the same guest IP. */
  lemma DayKeysIdentify(s: Subject, t: Subject)
    ensures s.DayKey() == t.DayKey() <==>
              s.IsGuest() == t.IsGuest() && (if s.IsGuest() then s.ip == t.ip else s.userId == t.userId)
  {
    assert s.DayKey()[0] == if s.IsGuest() then 'i' else 'u';
    assert s.IsGuest() ==> s.DayKey()[3..] == s.ip;
    assert !s.IsGuest() ==> s.DayKey()[5..] == s.userId;
    assert t.DayKey()[0] == if t.IsGuest() then 'i' else 'u';
    assert t.IsGuest() ==> t.DayKey()[3..] == t.ip;
    assert !t.IsGuest() ==> t.DayKey()[5..] == t.userId;
  }

  /** Hour counters belong to one account and one hour of the day. */
  lemma HourKeysIdentify(s: Subject, now: int, t: Subject, later: int)
    ensures s.HourKey(now) == t.HourKey(later) <==> s.userId == t.userId && HourOf(now) == HourOf(later)
  {
    HourKeyParts(s, now);
    HourKeyParts(t, later);
  }

  lemma HourKeyParts(s: Subject, now: int)
    ensures var k := s.HourKey(now);
            && |k| == |s.userId| + 12
            && k[9..|k| - 3] == s.userId
            && k[|k| - 2] == DIGITS[HourOf(now) / 10] && k[|k| - 1] == DIGITS[HourOf(now) % 10]
    ensures s.HourKey(now)[4] == 'h'
  {
  }

  /** The three kinds of counter never share a row. */
  lemma KeyKindsDisjoint(s: Subject, t: Subject, now: int)
    ensures s.DayKey() != t.HourKey(now)
    ensures s.DayKey() != GLOBAL_KEY && t.HourKey(now) != GLOBAL_KEY
  {
    assert t.HourKey(now)[0] == 'u' && t.HourKey(now)[4] == 'h';
    assert s.DayKey()[0] == if s.IsGuest() then 'i' else 'u';
    assert !s.IsGuest() ==> s.DayKey()[4] == ':';
    assert GLOBAL_KEY[0] == 'g';
  }
}
