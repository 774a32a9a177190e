/** The notification gate: quiet hours as an interval on the circle of the day, and the conditions around it. */
module QuietHours {
  import opened Prelude

  /** Times of day in microseconds. */
  const MINUTE := 60_000_000
  const MINUTES_A_DAY := 1440
  const DAY := MINUTES_A_DAY * MINUTE

  type TimeOfDay = t: int | 0 <= t < DAY

  predicate InQuietHours(start: TimeOfDay, end: TimeOfDay, check: TimeOfDay) {
    if start <= end then start <= check < end else check >= start || check < end
  }

  /** How far `t` lies behind `start` going round the clock. */
  function Ahead(start: TimeOfDay, t: TimeOfDay): int { (t - start) % DAY }

  lemma AheadIs(start: TimeOfDay, t: TimeOfDay)
    ensures Ahead(start, t) == if start <= t then t - start else t - start + DAY
  {
    if start > t {
      assert (t - start) % DAY == (t - start + DAY) % DAY;
    }
  }

  /** A moment is quiet exactly if it is reached from the start before the end is. */
  lemma QuietHoursAreCircular(start: TimeOfDay, end: TimeOfDay, t: TimeOfDay)
    ensures InQuietHours(start, end, t) <==> Ahead(start, t) < Ahead(start, end)
  {
    AheadIs(start, t);
    AheadIs(start, end);
  }

  /** Swapping two different bounds gives the rest of the day; equal bounds mean no quiet hours at all. */
  lemma SwappedBoundsPartitionTheDay(start: TimeOfDay, end: TimeOfDay, t: TimeOfDay)
    ensures start != end ==> (InQuietHours(start, end, t) <==> !InQuietHours(end, start, t))
    ensures start == end ==> !InQuietHours(start, end, t)
  {
    QuietHoursAreCircular(start, end, t);
    QuietHoursAreCircular(end, start, t);
    AheadIs(start, t);
    AheadIs(end, t);
    AheadIs(start, end);
    AheadIs(end, start);
  }

  function Shift(t: TimeOfDay, d: int): TimeOfDay { (t + d) % DAY }

  /** Only the position on the circle counts: moving the clock moves the quiet hours with it. */
  lemma ShiftingTheClockKeepsQuietHours(start: TimeOfDay, end: TimeOfDay, t: TimeOfDay, d: int)
    ensures InQuietHours(Shift(start, d), Shift(end, d), Shift(t, d)) <==> InQuietHours(start, end, t)
  {
    ShiftKeepsAhead(start, t, d);
    ShiftKeepsAhead(start, end, d);
    QuietHoursAreCircular(start, end, t);
    QuietHoursAreCircular(Shift(start, d), Shift(end, d), Shift(t, d));
  }

  lemma ShiftKeepsAhead(start: TimeOfDay, t: TimeOfDay, d: int)
    ensures Ahead(Shift(start, d), Shift(t, d)) == Ahead(start, t)
  {
    var e := d % DAY;
    ShiftIs(start, d);
    ShiftIs(t, d);
    AheadIs(start, t);
    AheadIs(Shift(start, d), Shift(t, d));
  }

  lemma ShiftIs(t: TimeOfDay, d: int)
    ensures Shift(t, d) == if t + d % DAY < DAY then t + d % DAY else t + d % DAY - DAY
  {
    var e := d % DAY;
    var q := d / DAY;
    assert t + d == t + e + q * DAY;
    ModOfMultiple(t + e, q);
    if t + e >= DAY {
      ModOfMultiple(t + e - DAY, 1);
    }
  }

  lemma ModOfMultiple(a: int, q: int)
    requires 0 <= a < 2 * DAY
    ensures (a + q * DAY) % DAY == a % DAY
    ensures a < DAY ==> a % DAY == a
  {
    var r, p := a % DAY, a / DAY;
    assert a + q * DAY == r + (p + q) * DAY;
    UniqueRemainder(a + q * DAY, p + q, r);
  }

  lemma UniqueRemainder(x: int, k: int, r: int)
    requires x == r + k * DAY && 0 <= r < DAY
    ensures x % DAY == r
  {
    var k2, r2 := x / DAY, x % DAY;
    assert (k - k2) * DAY == r2 - r;
  }

  // ---------------------------------------------------------------- counting the check minutes

  /** The check is made for a whole minute. */
  function CheckTime(minute: nat): TimeOfDay
    requires minute < MINUTES_A_DAY
  {
    minute * MINUTE
  }

  /** How many of the first `n` check minutes of a day are quiet. */
  function QuietMinutes(start: TimeOfDay, end: TimeOfDay, n: nat): nat
    requires n <= MINUTES_A_DAY
  {
    if n == 0 then 0
    else QuietMinutes(start, end, n - 1) + if InQuietHours(start, end, CheckTime(n - 1)) then 1 else 0
  }

  /** The first whole minute not before `t`. */
  function FirstMinute(t: TimeOfDay): (m: nat)
    ensures m <= MINUTES_A_DAY
    ensures forall k: int :: k >= m <==> k * MINUTE >= t
  {
    (t + MINUTE - 1) / MINUTE
  }

  function Min(a: int, b: int): int { if a < b then a else b }

  lemma {:induction false} QuietMinutesUpTo(start: TimeOfDay, end: TimeOfDay, n: nat)
    requires n <= MINUTES_A_DAY
    ensures var a, b := Min(n, FirstMinute(start)), Min(n, FirstMinute(end));
            QuietMinutes(start, end, n) == if start <= end then b - a else n - a + b
  {
    if n > 0 {
      QuietMinutesUpTo(start, end, n - 1);
      var t := CheckTime(n - 1);
      assert n - 1 >= FirstMinute(start) <==> t >= start;
      assert n - 1 >= FirstMinute(end) <==> t >= end;
    }
  }

  /** Over a day, the quiet check minutes are those between the bounds rounded up to whole minutes. */
  lemma QuietMinutesOfADay(start: TimeOfDay, end: TimeOfDay)
    ensures QuietMinutes(start, end, MINUTES_A_DAY) ==
            FirstMinute(end) - FirstMinute(start) + if start <= end then 0 else MINUTES_A_DAY
  {
    QuietMinutesUpTo(start, end, MINUTES_A_DAY);
  }

  /** For bounds on whole minutes this is the length of the interval round the clock. */
  lemma QuietMinutesOfAlignedBounds(a: nat, b: nat)
    requires a < MINUTES_A_DAY && b < MINUTES_A_DAY
    ensures QuietMinutes(CheckTime(a), CheckTime(b), MINUTES_A_DAY) == (b - a) % MINUTES_A_DAY
  {
    QuietMinutesOfADay(CheckTime(a), CheckTime(b));
    FirstMinuteOfAligned(a);
    FirstMinuteOfAligned(b);
  }

  lemma FirstMinuteOfAligned(a: nat)
    requires a < MINUTES_A_DAY
    ensures FirstMinute(CheckTime(a)) == a
  {
    assert a * MINUTE >= CheckTime(a);
    assert !((a - 1) * MINUTE >= CheckTime(a));
  }

  // ---------------------------------------------------------------- the whole gate

  /** The optional conditions of a rule; a list may contain null. */
  datatype Conditions = Conditions(
    onlyIfRsvp: Option<seq<Option<string>>>, onlyIfRole: Option<seq<Option<string>>>, minRsvpCount: Option<int>)

  datatype Context = Context(rsvp: Option<string>, role: Option<string>, positiveRsvps: Option<int>)

  predicate ConditionsHold(conditions: Option<Conditions>, context: Context) {
    conditions.None? ||
    (var c := conditions.value;
     && (c.onlyIfRsvp.Some? ==> context.rsvp in c.onlyIfRsvp.value)
     && (c.onlyIfRole.Some? ==> context.role in c.onlyIfRole.value)
     && (c.minRsvpCount.Some? ==>
           (if context.positiveRsvps.Some? then context.positiveRsvps.value else 0) >= c.minRsvpCount.value))
  }

  datatype Recipient = Recipient(
    user: Uuid, enabled: bool, muted: bool, conditions: Option<Conditions>, quiet: Option<(TimeOfDay, TimeOfDay)>)

  predicate ShouldNotify(r: Recipient, actor: Uuid, context: Context, now: TimeOfDay) {
    if r.user == actor then false
    else if r.muted then false
    else if !r.enabled then false
    else if !ConditionsHold(r.conditions, context) then false
    else r.quiet.Some? ==> !InQuietHours(r.quiet.value.0, r.quiet.value.1, now)
  }

  /** The list of a condition names the value, which may be null. */
  predicate Names(list: seq<Option<string>>, value: Option<string>) { exists i :: 0 <= i < |list| && list[i] == value }

  /**
    A notification goes out exactly if it is about somebody else's action, the group is not muted, the
    preference is on, every given condition is met, and going round the clock from the start of the quiet
    hours their end comes no later than the time.
  */
  lemma NotifiedIff(r: Recipient, actor: Uuid, context: Context, now: TimeOfDay)
    ensures ShouldNotify(r, actor, context, now) <==>
            && r.user != actor && !r.muted && r.enabled
            && (r.conditions.Some? && r.conditions.value.onlyIfRsvp.Some? ==>
                  Names(r.conditions.value.onlyIfRsvp.value, context.rsvp))
            && (r.conditions.Some? && r.conditions.value.onlyIfRole.Some? ==>
                  Names(r.conditions.value.onlyIfRole.value, context.role))
            && (r.conditions.Some? && r.conditions.value.minRsvpCount.Some? ==>
                  var least := r.conditions.value.minRsvpCount.value;
                  if context.positiveRsvps.Some? then context.positiveRsvps.value >= least else 0 >= least)
            && (r.quiet.Some? ==> Ahead(r.quiet.value.0, r.quiet.value.1) <= Ahead(r.quiet.value.0, now))
  {
    if r.quiet.Some? {
      QuietHoursAreCircular(r.quiet.value.0, r.quiet.value.1, now);
    }
    assert forall list, value :: value in list <==> Names(list, value);
  }

  /** How many of the first `n` minutes of a day a notification about this event would go out. */
  function NotifiedMinutes(r: Recipient, actor: Uuid, context: Context, n: nat): nat
    requires n <= MINUTES_A_DAY
  {
    if n == 0 then 0
    else NotifiedMinutes(r, actor, context, n - 1) + if ShouldNotify(r, actor, context, CheckTime(n - 1)) then 1 else 0
  }

  lemma {:induction false} NotifiedAndQuiet(r: Recipient, actor: Uuid, context: Context, n: nat)
    requires n <= MINUTES_A_DAY && r.quiet.Some?
    ensures NotifiedMinutes(r, actor, context, n) ==
            if ShouldNotify(r.(quiet := None), actor, context, 0)
            then n - QuietMinutes(r.quiet.value.0, r.quiet.value.1, n) else 0
  {
    if n > 0 {
      NotifiedAndQuiet(r, actor, context, n - 1);
    }
  }

  /**
    Swapping different quiet bounds swaps the notified and the silent minutes of the day: together
    the two settings let exactly one day's worth of minutes through, or none if another gate is shut.
  */
  lemma SwappedBoundsShareTheDay(r: Recipient, actor: Uuid, context: Context, start: TimeOfDay, end: TimeOfDay)
    requires start != end
    ensures NotifiedMinutes(r.(quiet := Some((start, end))), actor, context, MINUTES_A_DAY)
            + NotifiedMinutes(r.(quiet := Some((end, start))), actor, context, MINUTES_A_DAY)
            == if ShouldNotify(r.(quiet := None), actor, context, 0) then MINUTES_A_DAY else 0
  {
    NotifiedAndQuiet(r.(quiet := Some((start, end))), actor, context, MINUTES_A_DAY);
    NotifiedAndQuiet(r.(quiet := Some((end, start))), actor, context, MINUTES_A_DAY);
    QuietMinutesOfADay(start, end);
    QuietMinutesOfADay(end, start);
  }
}
