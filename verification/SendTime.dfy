/**
When the next mail of a sequence goes out: so many business days later, inside the prospect's
business hours. Instants are whole microseconds; a prospect's zone is a fixed offset, and local days
are counted from a Monday.
*/
module SendTime {
  import opened Instants

  function DayNumber(local: int): int { local / DAY }

  function HourOf(local: int): int { local % DAY / HOUR }

  predicate IsWeekday(day: int) { day % 7 < 5 }

  function At(day: int, hour: int, minute: int): int { day * DAY + hour * HOUR + minute * MINUTE }

  lemma {:induction false} AtExact(day: int, hour: int, minute: int)
    requires 0 <= hour < 24 && 0 <= minute < 60
    ensures DayNumber(At(day, hour, minute)) == day && HourOf(At(day, hour, minute)) == hour
  {
    var rest := hour * HOUR + minute * MINUTE;
    assert 0 <= rest < DAY;
    assert rest / HOUR == hour;
  }

  // datetime(...) refuses such an hour or minute.
  datatype Result = Ok(at: int) | ValueError

  function OnDay(day: int, hour: int, minute: int): Result {
    if 0 <= hour < 24 && 0 <= minute < 60 then Ok(At(day, hour, minute)) else ValueError
  }

  datatype Plan = Plan(delayDays: int, delayHours: int, startHour: int, endHour: int, jitter: int) {
    predicate Sensible() { 0 <= startHour < endHour <= 24 && 0 <= jitter < 60 }
  }

  // ----- Weekdays in closed form -----

  // How many weekdays come before a day, counted from the Monday that is day 0.
  function WeekdaysBefore(day: int): int { 5 * (day / 7) + if day % 7 < 5 then day % 7 else 5 }

  function NthWeekday(n: int): int { 7 * (n / 5) + n % 5 }

  // The first weekday on or after a day.
  function FirstWeekday(day: int): int { if IsWeekday(day) then day else day + 7 - day % 7 }

  function BusinessDay(from: int, n: int): int {
    if n >= 1 then NthWeekday(WeekdaysBefore(from + 1) + n - 1) else FirstWeekday(from)
  }

  lemma {:induction false} NthWeekdayExact(n: int, day: int)
    ensures day == NthWeekday(n) <==> IsWeekday(day) && WeekdaysBefore(day) == n
  {
  }

  lemma {:induction false} OneMoreDay(day: int)
    ensures WeekdaysBefore(day + 1) == WeekdaysBefore(day) + if IsWeekday(day) then 1 else 0
  {
  }

  lemma {:induction false} WeekdaysBeforeMonotone(a: int, b: int)
    requires a <= b
    ensures WeekdaysBefore(a) <= WeekdaysBefore(b)
    decreases b - a
  {
    if a < b {
      WeekdaysBeforeMonotone(a, b - 1);
      OneMoreDay(b - 1);
    }
  }

  lemma {:induction false} FirstWeekdayExact(day: int, d: int)
    ensures d == FirstWeekday(day) <==> day <= d && IsWeekday(d) && forall e | day <= e < d :: !IsWeekday(e)
  {
    var first := FirstWeekday(day);
    assert day <= first && IsWeekday(first) && forall e | day <= e < first :: !IsWeekday(e);
    if d > first {
      assert IsWeekday(first) && day <= first < d;
    }
  }

  // The weekdays after day a, up to and including day b.
  function WeekdaysIn(a: int, b: int): nat
    decreases b - a
  {
    if b <= a then 0 else WeekdaysIn(a, b - 1) + if IsWeekday(b) then 1 else 0
  }

  lemma {:induction false} WeekdaysInClosedForm(a: int, b: int)
    requires a <= b
    ensures WeekdaysIn(a, b) == WeekdaysBefore(b + 1) - WeekdaysBefore(a + 1)
    decreases b - a
  {
    if a < b {
      WeekdaysInClosedForm(a, b - 1);
      OneMoreDay(b);
    }
  }

  // n business days after a day is the weekday with exactly n weekdays between.
  lemma {:induction false} BusinessDayExact(from: int, n: int, day: int)
    requires n >= 1
    ensures day == BusinessDay(from, n) <==> from < day && IsWeekday(day) && WeekdaysIn(from, day) == n
  {
    NthWeekdayExact(WeekdaysBefore(from + 1) + n - 1, day);
    OneMoreDay(day);
    if from <= day {
      WeekdaysInClosedForm(from, day);
    } else {
      WeekdaysBeforeMonotone(day, from + 1);
    }
  }

  // ----- The calculation -----

  // The day and hour aimed at before looking at the clock.
  function Target(p: Plan, today: int): (int, int) {
    var day := BusinessDay(today, p.delayDays);
    if p.startHour + p.delayHours >= p.endHour then (FirstWeekday(day + 1), p.startHour)
    else (day, p.startHour + p.delayHours)
  }

  // A target in the past is put off to the opening of the next business day.
  function Aimed(p: Plan, day: int, hour: int, local: int): Result {
    var aim := OnDay(day, hour, p.jitter);
    if aim.Ok? && aim.at <= local then OnDay(FirstWeekday(day + 1), p.startHour, p.jitter) else aim
  }

  function NextLocal(p: Plan, local: int): Result {
    var (day, hour) := Target(p, DayNumber(local));
    Aimed(p, day, hour, local)
  }

  // From local time to UTC.
  function ToUtc(r: Result, offset: int): Result {
    match r case Ok(at) => Ok(at - offset) case ValueError => ValueError
  }

  function NextSendTime(p: Plan, offset: int, base: int): Result { ToUtc(NextLocal(p, base + offset), offset) }

  method SkipWeekend(day: int) returns (r: int)
    ensures r == FirstWeekday(day)
  {
    r := day;
    while r % 7 >= 5
      invariant day <= r && forall e | day <= e < r :: !IsWeekday(e)
      decreases if r % 7 == 5 then 2 else if r % 7 == 6 then 1 else 0
    {
      r := r + 1;
    }
    FirstWeekdayExact(day, r);
  }

  // The weekend days still ahead before the next weekday.
  function WeekendAhead(day: int): nat { if day % 7 == 4 then 2 else if day % 7 == 5 then 1 else 0 }

  lemma {:induction false} WeekendPasses(day: int)
    ensures IsWeekday(day + 1) || WeekendAhead(day + 1) < WeekendAhead(day)
  {
  }

  lemma {:induction false} WeekdayIsFirst(day: int)
    requires IsWeekday(day)
    ensures FirstWeekday(day) == day
  {
    FirstWeekdayExact(day, day);
  }

  method CountBusinessDays(from: int, n: int) returns (day: int)
    requires n >= 1
    ensures from < day && IsWeekday(day) && WeekdaysIn(from, day) == n
  {
    var added := 0;
    day := from;
    while added < n
      invariant from <= day && added == WeekdaysIn(from, day) && added <= n
      invariant added == n ==> IsWeekday(day)
      decreases n - added, WeekendAhead(day)
    {
      WeekendPasses(day);
      day := day + 1;
      if IsWeekday(day) {
        added := added + 1;
      }
    }
  }

  method AddBusinessDays(from: int, n: int) returns (day: int)
    ensures day == BusinessDay(from, n)
  {
    day := from;
    if n >= 1 {
      day := CountBusinessDays(from, n);
      BusinessDayExact(from, n, day);
      WeekdayIsFirst(day);
    }
    day := SkipWeekend(day);
  }

  method Schedule(p: Plan, day: int, hour: int, local: int) returns (r: Result)
    ensures r == Aimed(p, day, hour, local)
  {
    r := OnDay(day, hour, p.jitter);
    if r.ValueError? {
      return;
    }
    if r.at <= local {
      var next := SkipWeekend(day + 1);
      r := OnDay(next, p.startHour, p.jitter);
    }
  }

  // jitter is the random 5 to 45 minutes, or the caller's.
  method CalculateNextSendTime(p: Plan, offset: int, base: int) returns (r: Result)
    ensures r == NextSendTime(p, offset, base)
  {
    var local := base + offset;
    var day := AddBusinessDays(DayNumber(local), p.delayDays);
    var hour := p.startHour + p.delayHours;
    if hour >= p.endHour {
      day := SkipWeekend(day + 1);
      hour := p.startHour;
    }
    r := Schedule(p, day, hour, local);
    if r.Ok? {
      r := Ok(r.at - offset);  // astimezone(utc)
    }
  }

  // ----- What the result is -----

  predicate InBusinessHours(p: Plan, offset: int, base: int) {
    var r := NextSendTime(p, offset, base);
    r.Ok? && IsWeekday(DayNumber(r.at + offset)) && p.startHour <= HourOf(r.at + offset) < p.endHour
  }

  lemma {:induction false} BusinessDayIsLater(from: int, n: int)
    ensures IsWeekday(BusinessDay(from, n)) && from <= BusinessDay(from, n) && (n >= 1 ==> from < BusinessDay(from, n))
  {
    if n >= 1 {
      BusinessDayExact(from, n, BusinessDay(from, n));
    } else {
      FirstWeekdayExact(from, FirstWeekday(from));
    }
  }

  lemma {:induction false} TargetExact(p: Plan, today: int)
    requires p.Sensible() && p.delayHours >= 0
    ensures var (day, hour) := Target(p, today);
            && today <= day && IsWeekday(day) && p.startHour <= hour < p.endHour
            && (p.delayDays >= 1 ==> today < day)
  {
    BusinessDayIsLater(today, p.delayDays);
    var day := BusinessDay(today, p.delayDays);
    FirstWeekdayExact(day + 1, FirstWeekday(day + 1));
  }

  lemma {:induction false} LaterDayIsLater(day: int, hour: int, minute: int, local: int)
    requires 0 <= hour < 24 && 0 <= minute < 60 && DayNumber(local) < day
    ensures local < At(day, hour, minute)
  {
    assert local < (DayNumber(local) + 1) * DAY;
    assert (DayNumber(local) + 1) * DAY <= day * DAY;
  }

  lemma {:induction false} OnTheMinute(day: int, hour: int, minute: int)
    requires 0 <= minute < 60
    ensures At(day, hour, minute) % HOUR == minute * MINUTE
  {
    assert At(day, hour, minute) == (24 * day + hour) * HOUR + minute * MINUTE;
  }

  predicate GoodMoment(p: Plan, local: int, at: int) {
    && local < at && at % HOUR == p.jitter * MINUTE
    && IsWeekday(DayNumber(at)) && p.startHour <= HourOf(at) < p.endHour
  }

  lemma {:induction false} LaterWeekdayIsGood(p: Plan, local: int, day: int, hour: int)
    requires p.Sensible() && p.startHour <= hour < p.endHour
    requires IsWeekday(day) && local < At(day, hour, p.jitter)
    ensures GoodMoment(p, local, At(day, hour, p.jitter))
  {
    AtExact(day, hour, p.jitter);
    OnTheMinute(day, hour, p.jitter);
  }

  lemma {:induction false} NextLocalIsGood(p: Plan, local: int)
    requires p.Sensible() && p.delayHours >= 0
    ensures NextLocal(p, local).Ok? && GoodMoment(p, local, NextLocal(p, local).at)
  {
    var today := DayNumber(local);
    TargetExact(p, today);
    var (day, hour) := Target(p, today);
    if At(day, hour, p.jitter) > local {
      LaterWeekdayIsGood(p, local, day, hour);
    } else {
      NextDayIsGood(p, local, day);
    }
  }

  lemma {:induction false} NextDayIsGood(p: Plan, local: int, day: int)
    requires p.Sensible() && DayNumber(local) <= day
    ensures GoodMoment(p, local, At(FirstWeekday(day + 1), p.startHour, p.jitter))
  {
    var next := FirstWeekday(day + 1);
    FirstWeekdayExact(day + 1, next);
    LaterDayIsLater(next, p.startHour, p.jitter, local);
    LaterWeekdayIsGood(p, local, next, p.startHour);
  }

  // The mail goes out on a weekday within business hours, later than now, and on the minute asked for.
  lemma {:induction false} SentInBusinessHours(p: Plan, offset: int, base: int)
    requires p.Sensible() && p.delayHours >= 0
    ensures InBusinessHours(p, offset, base)
    ensures var r := NextSendTime(p, offset, base);
            base < r.at && (r.at + offset) % HOUR == p.jitter * MINUTE
  {
    NextLocalIsGood(p, base + offset);
    assert NextSendTime(p, offset, base).at + offset == NextLocal(p, base + offset).at;
  }

  // Asked just before a Monday, negative extra hours aim before opening time or at no hour at all.
  lemma {:induction false} NegativeHoursMiss(p: Plan)
    requires p.Sensible() && p.delayHours < 0
    ensures var r := NextLocal(p, -1);
            r == ValueError || HourOf(r.at) < p.startHour
  {
    var day, hour := BusinessDay(-1, p.delayDays), p.startHour + p.delayHours;
    BusinessDayIsLater(-1, p.delayDays);
    assert DayNumber(-1) == -1 && Target(p, -1) == (day, hour);
    if hour >= 0 {
      AtExact(day, hour, p.jitter);
      assert At(day, hour, p.jitter) > -1;
    }
  }

  // That holds for every moment of asking exactly when the extra hours are not negative.
  lemma {:induction false} BusinessHoursKeptExactly(p: Plan, offset: int)
    requires p.Sensible()
    ensures (forall base :: InBusinessHours(p, offset, base)) <==> p.delayHours >= 0
  {
    if p.delayHours >= 0 {
      forall base
        ensures InBusinessHours(p, offset, base)
      {
        SentInBusinessHours(p, offset, base);
      }
    } else {
      NegativeHoursMiss(p);
      MissIsMiss(p, offset, -1 - offset);
    }
  }

  lemma {:induction false} MissIsMiss(p: Plan, offset: int, base: int)
    requires NextLocal(p, base + offset) == ValueError || HourOf(NextLocal(p, base + offset).at) < p.startHour
    ensures !InBusinessHours(p, offset, base)
  {
    var r := NextLocal(p, base + offset);
    assert r.Ok? ==> NextSendTime(p, offset, base).at + offset == r.at;
  }

  // The calculation fails exactly on a minute or an hour no clock shows.
  lemma {:induction false} FailsExactly(p: Plan, offset: int, base: int)
    requires 0 <= p.startHour < p.endHour <= 24
    ensures NextSendTime(p, offset, base) == ValueError <==>
              !(0 <= p.jitter < 60) || p.startHour + p.delayHours < 0
  {
  }

  // ----- The whole result -----

  // The extra hours leave the target within the day.
  predicate Fits(p: Plan) { p.startHour + p.delayHours < p.endHour }

  // The weekdays the delay asks for; asked on a weekend, the first business day is one away.
  function Asked(p: Plan, today: int): int {
    if p.delayDays >= 1 then p.delayDays else if IsWeekday(today) then 0 else 1
  }

  // Today is the day asked for, and its moment has passed.
  predicate Missed(p: Plan, local: int) {
    && Asked(p, DayNumber(local)) == 0 && Fits(p)
    && DayNumber(local) * DAY + (p.startHour + p.delayHours) * HOUR + p.jitter * MINUTE <= local
  }

  lemma {:induction false} NextWeekdayCounts(day: int)
    ensures var next := FirstWeekday(day + 1);
            day < next && IsWeekday(next) && WeekdaysIn(day, next) == 1
  {
    var next := FirstWeekday(day + 1);
    FirstWeekdayExact(day + 1, next);
    WeekdaysInClosedForm(day, next);
  }

  lemma {:induction false} WeekdaysAdd(a: int, b: int, c: int)
    requires a <= b <= c
    ensures WeekdaysIn(a, c) == WeekdaysIn(a, b) + WeekdaysIn(b, c)
  {
    WeekdaysInClosedForm(a, b);
    WeekdaysInClosedForm(b, c);
    WeekdaysInClosedForm(a, c);
  }

  lemma {:induction false} BusinessDayCounts(p: Plan, today: int)
    ensures var day := BusinessDay(today, p.delayDays);
            today <= day && IsWeekday(day) && WeekdaysIn(today, day) == Asked(p, today)
  {
    BusinessDayIsLater(today, p.delayDays);
    if p.delayDays >= 1 {
      BusinessDayExact(today, p.delayDays, BusinessDay(today, p.delayDays));
    } else {
      WeekdaysInClosedForm(today, FirstWeekday(today));
    }
  }

  lemma {:induction false} TargetCounts(p: Plan, today: int)
    ensures var (day, hour) := Target(p, today);
            && today <= day && WeekdaysIn(today, day) == Asked(p, today) + (if Fits(p) then 0 else 1)
            && hour == p.startHour + (if Fits(p) then p.delayHours else 0)
  {
    var day := BusinessDay(today, p.delayDays);
    BusinessDayCounts(p, today);
    NextWeekdayCounts(day);
    WeekdaysAdd(today, day, FirstWeekday(day + 1));
  }

  // A target is missed only on the day of asking.
  lemma {:induction false} MissedExactly(p: Plan, local: int)
    requires p.Sensible() && p.delayHours >= 0
    ensures var (day, hour) := Target(p, DayNumber(local));
            At(day, hour, p.jitter) <= local <==> Missed(p, local)
  {
    var today := DayNumber(local);
    TargetCounts(p, today);
    TargetExact(p, today);
    var (day, hour) := Target(p, today);
    if day > today {
      LaterDayIsLater(day, hour, p.jitter, local);
      WeekdaysAdd(today, day - 1, day);
    }
  }

  // The local moment of the mail, completely: the weekday with so many weekdays since the day of asking,
  // the hour and the minute.
  lemma {:induction false} SentExactly(p: Plan, offset: int, base: int)
    requires p.Sensible() && p.delayHours >= 0
    ensures var local, r := base + offset, NextSendTime(p, offset, base);
            var onTime := Fits(p) && !Missed(p, local);
            && r.Ok? && IsWeekday(DayNumber(r.at + offset))
            && WeekdaysIn(DayNumber(local), DayNumber(r.at + offset))
               == Asked(p, DayNumber(local)) + (if onTime then 0 else 1)
            && HourOf(r.at + offset) == p.startHour + (if onTime then p.delayHours else 0)
            && (r.at + offset) % HOUR == p.jitter * MINUTE
  {
    var local := base + offset;
    var today := DayNumber(local);
    var (day, hour) := Target(p, today);
    SettlesTarget(p, local);
    MissedExactly(p, local);
    TargetCounts(p, today);
    TargetExact(p, today);
    NextWeekdayCounts(day);
    WeekdaysAdd(today, day, FirstWeekday(day + 1));
    SentInBusinessHours(p, offset, base);
    AtExact(day, hour, p.jitter);
    AtExact(FirstWeekday(day + 1), p.startHour, p.jitter);
    assert NextSendTime(p, offset, base).at + offset == NextLocal(p, local).at;
  }

  // From one business day on, the delay is exact: as many weekdays pass as asked, and one more when the
  // extra hours run past the end of the day; the time of day of asking does not matter.
  lemma {:induction false} DelayHonoured(p: Plan, offset: int, base: int)
    requires p.Sensible() && p.delayHours >= 0 && p.delayDays >= 1
    ensures NextSendTime(p, offset, base).Ok?
    ensures WeekdaysIn(DayNumber(base + offset), DayNumber(NextSendTime(p, offset, base).at + offset))
         == p.delayDays + if p.startHour + p.delayHours >= p.endHour then 1 else 0
  {
    SentExactly(p, offset, base);
  }

  lemma {:induction false} NthWeekdayMonotone(m: int, n: int)
    requires m <= n
    ensures NthWeekday(m) <= NthWeekday(n)
  {
  }

  lemma {:induction false} FirstWeekdayMonotone(a: int, b: int)
    requires a <= b
    ensures FirstWeekday(a) <= FirstWeekday(b)
  {
  }

  predicate NotLater(a: Result, b: Result) { a.Ok? && b.Ok? && a.at <= b.at }

  // The same plan but for a delay that is no shorter.
  predicate DelaysMore(p: Plan, q: Plan) { q == p.(delayDays := q.delayDays) && p.delayDays <= q.delayDays }

  lemma {:induction false} BusinessDayMonotone(from: int, m: int, n: int)
    requires m <= n
    ensures BusinessDay(from, m) <= BusinessDay(from, n)
  {
    WeekdaysBeforeMonotone(from, from + 1);
    if n >= 1 {
      NthWeekdayMonotone(if m >= 1 then WeekdaysBefore(from + 1) + m - 1 else WeekdaysBefore(from),
                         WeekdaysBefore(from + 1) + n - 1);
    }
  }

  lemma {:induction false} TargetMonotone(p: Plan, q: Plan, today: int)
    requires DelaysMore(p, q)
    ensures Target(p, today).0 <= Target(q, today).0 && Target(p, today).1 == Target(q, today).1
  {
    BusinessDayMonotone(today, p.delayDays, q.delayDays);
    FirstWeekdayMonotone(BusinessDay(today, p.delayDays) + 1, BusinessDay(today, q.delayDays) + 1);
  }

  lemma {:induction false} AtMonotone(day: int, hour: int, later: int, laterHour: int, minute: int)
    requires day < later || (day == later && hour <= laterHour)
    requires 0 <= hour < 24 && 0 <= laterHour < 24 && 0 <= minute < 60
    ensures At(day, hour, minute) <= At(later, laterHour, minute)
  {
  }

  // The moment a target in range comes to, when the clock has been looked at.
  function Settled(day: int, hour: int, startHour: int, minute: int, local: int): int {
    if At(day, hour, minute) <= local then At(FirstWeekday(day + 1), startHour, minute) else At(day, hour, minute)
  }

  lemma {:induction false} SettledMonotone(day: int, later: int, hour: int, startHour: int, minute: int, local: int)
    requires day <= later && IsWeekday(later)
    requires 0 <= startHour <= hour < 24 && 0 <= minute < 60
    ensures Settled(day, hour, startHour, minute, local) <= Settled(later, hour, startHour, minute, local)
  {
    var next := FirstWeekday(day + 1);
    if At(day, hour, minute) <= local < At(later, hour, minute) {
      FirstWeekdayExact(day + 1, next);
      assert day < later && next <= later;
      AtMonotone(next, startHour, later, hour, minute);
    } else {
      AtMonotone(day, hour, later, hour, minute);
      FirstWeekdayMonotone(day + 1, later + 1);
      AtMonotone(next, startHour, FirstWeekday(later + 1), startHour, minute);
    }
  }

  lemma {:induction false} SettlesTarget(p: Plan, local: int)
    requires p.Sensible() && p.delayHours >= 0
    ensures var (day, hour) := Target(p, DayNumber(local));
            NextLocal(p, local) == Ok(Settled(day, hour, p.startHour, p.jitter, local))
  {
    TargetExact(p, DayNumber(local));
  }

  lemma {:induction false} LocalMonotone(p: Plan, q: Plan, local: int)
    requires p.Sensible() && p.delayHours >= 0 && DelaysMore(p, q)
    ensures NotLater(NextLocal(p, local), NextLocal(q, local))
  {
    var today := DayNumber(local);
    SettlesTarget(p, local);
    SettlesTarget(q, local);
    TargetExact(p, today);
    TargetExact(q, today);
    TargetMonotone(p, q, today);
    var (day, hour) := Target(p, today);
    SettledMonotone(day, Target(q, today).0, hour, p.startHour, p.jitter, local);
  }

  lemma {:induction false} ShiftKeepsOrder(a: Result, b: Result, offset: int)
    requires NotLater(a, b)
    ensures NotLater(ToUtc(a, offset), ToUtc(b, offset))
  {
  }

  // A longer delay never sends earlier.
  lemma {:induction false} MonotoneInDelay(p: Plan, q: Plan, offset: int, base: int)
    requires p.Sensible() && p.delayHours >= 0 && DelaysMore(p, q)
    ensures NotLater(NextSendTime(p, offset, base), NextSendTime(q, offset, base))
  {
    LocalMonotone(p, q, base + offset);
    ShiftKeepsOrder(NextLocal(p, base + offset), NextLocal(q, base + offset), offset);
  }
}
