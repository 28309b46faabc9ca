/** When an operation is next due (core/cadence.py). Instants are microseconds since the epoch. */
module Cadence {
  import opened Wrappers

  const SECOND: int := 1_000_000
  const DAY: int := 86_400_000_000

  // ----- The calendar -----------------------------------------------------------------

  predicate IsLeap(year: nat) {
    year % 4 == 0 && (year % 100 != 0 || year % 400 == 0)
  }

  function MonthLength(year: nat, month: nat): (length: nat)
    ensures 28 <= length <= 31
  {
    if month == 2 then (if IsLeap(year) then 29 else 28)
    else if month == 4 || month == 6 || month == 9 || month == 11 then 30
    else 31
  }

  /** A date and a time of day, in UTC. */
  datatype Moment = Moment(year: nat, month: nat, day: nat, micros: nat)

  predicate IsMoment(m: Moment) {
    1 <= m.month <= 12 && 1 <= m.day <= MonthLength(m.year, m.month) && m.micros < DAY
  }

  /** Months counted from the start of the calendar, and the days before one of them. */
  function MonthIndex(year: nat, month: nat): nat
    requires 1 <= month
  {
    year * 12 + month - 1
  }

  function LengthOf(index: nat): nat {
    MonthLength(index / 12, index % 12 + 1)
  }

  function DaysBefore(index: nat): nat {
    if index == 0 then 0 else DaysBefore(index - 1) + LengthOf(index - 1)
  }

  const EPOCH_MONTH: nat := 1970 * 12

  function Instant(m: Moment): int
    requires IsMoment(m)
  {
    (DaysBefore(MonthIndex(m.year, m.month)) + m.day - 1 - DaysBefore(EPOCH_MONTH)) * DAY + m.micros
  }

  function AddMonths(m: Moment, months: nat): (r: Moment)
    requires IsMoment(m)
    ensures IsMoment(r)
  {
    var index := m.month - 1 + months;
    var year, month := m.year + index / 12, index % 12 + 1;
    var length := MonthLength(year, month);
    Moment(year, month, if m.day < length then m.day else length, m.micros)
  }

  /** The clamped date lies `months` months on, in its month, at the anchor's time. */
  lemma AddMonthsLands(m: Moment, months: nat)
    requires IsMoment(m)
    ensures
      var r := AddMonths(m, months);
      && MonthIndex(r.year, r.month) == MonthIndex(m.year, m.month) + months
      && LengthOf(MonthIndex(r.year, r.month)) == MonthLength(r.year, r.month)
      && r.day == (if m.day < MonthLength(r.year, r.month) then m.day else MonthLength(r.year, r.month))
      && r.micros == m.micros
  {
  }

  lemma {:induction false} DaysBeforeGrows(i: nat, j: nat)
    requires i < j
    ensures DaysBefore(i) + LengthOf(i) <= DaysBefore(j)
    decreases j
  {
    if i < j - 1 { DaysBeforeGrows(i, j - 1); }
  }

  /** The leap days up to the end of a year. */
  function LeapDays(year: int): int {
    year / 4 - year / 100 + year / 400
  }

  /** The days from 1 March of year 0 to a date, with years taken to begin in March so that a leap day ends one. */
  function CivilDays(year: int, month: int, day: int): int {
    var y, m := if month <= 2 then year - 1 else year, if month <= 2 then month + 9 else month - 3;
    365 * y + LeapDays(y) + (153 * m + 2) / 5 + day - 1
  }

  /** The civil calendar's own arithmetic for one month. */
  lemma CivilMonth(year: nat, month: nat)
    requires 1 <= month <= 12
    ensures CivilDays(year, month, 1) + MonthLength(year, month)
      == if month == 12 then CivilDays(year + 1, 1, 1) else CivilDays(year, month + 1, 1)
  {
    hide LeapDays, IsLeap;
    if month == 2 { LeapStep(year); }
  }

  /** A year that is leap adds one to the count of leap days, and no other does. */
  lemma LeapStep(year: nat)
    ensures LeapDays(year) == LeapDays(year - 1) + if IsLeap(year) then 1 else 0
  {
    assert year / 4 == (year - 1) / 4 + if year % 4 == 0 then 1 else 0 by { Fourth(year); }
    assert year / 100 == (year - 1) / 100 + if year % 100 == 0 then 1 else 0 by { Hundredth(year); }
    assert year / 400 == (year - 1) / 400 + if year % 400 == 0 then 1 else 0 by { FourHundredth(year); }
    Divides(year);
  }

  lemma Fourth(n: nat)
    ensures n / 4 == (n - 1) / 4 + if n % 4 == 0 then 1 else 0
  {
  }

  lemma Hundredth(n: nat)
    ensures n / 100 == (n - 1) / 100 + if n % 100 == 0 then 1 else 0
  {
  }

  lemma FourHundredth(n: nat)
    ensures n / 400 == (n - 1) / 400 + if n % 400 == 0 then 1 else 0
  {
  }

  lemma Divides(n: nat)
    ensures n % 100 == 0 ==> n % 4 == 0
    ensures n % 400 == 0 ==> n % 100 == 0
  {
    if n % 100 == 0 {
      assert n == n / 100 * 25 * 4;
      Remainder(n / 100 * 25, 4);
    }
    if n % 400 == 0 {
      assert n == n / 400 * 4 * 100;
      Remainder(n / 400 * 4, 100);
    }
  }

  lemma {:induction false} DaysBeforeIsCivil(index: nat)
    ensures DaysBefore(index) == CivilDays(index / 12, index % 12 + 1, 1) + 60
  {
    hide CivilDays, MonthLength;
    if index == 0 {
      assert CivilDays(0, 1, 1) == -60 by { FirstDay(); }
    } else {
      var year, month := (index - 1) / 12, (index - 1) % 12 + 1;
      assert index == year * 12 + month;
      assert month == 12 ==> index / 12 == year + 1 && index % 12 == 0;
      assert month < 12 ==> index / 12 == year && index % 12 == month;
      DaysBeforeIsCivil(index - 1);
      CivilMonth(year, month);
    }
  }

  lemma FirstDay()
    ensures CivilDays(0, 1, 1) == -60 && CivilDays(1970, 1, 1) == 719_468
  {
  }

  /** The instant of any moment, in closed form. */
  lemma InstantIsCivil(m: Moment)
    requires IsMoment(m)
    ensures Instant(m) == (CivilDays(m.year, m.month, m.day) - 719_468) * 86_400_000_000 + m.micros
  {
    hide DaysBefore, MonthLength;
    var index := MonthIndex(m.year, m.month);
    assert index / 12 == m.year && index % 12 + 1 == m.month;
    assert EPOCH_MONTH / 12 == 1970 && EPOCH_MONTH % 12 + 1 == 1;
    DaysBeforeIsCivil(index);
    DaysBeforeIsCivil(EPOCH_MONTH);
    FirstDay();
    assert CivilDays(m.year, m.month, m.day) == CivilDays(m.year, m.month, 1) + m.day - 1;
  }

  /** Moments of a later month are later, whatever their days. */
  lemma LaterMonthIsLater(m: Moment, n: Moment)
    requires IsMoment(m) && IsMoment(n) && MonthIndex(m.year, m.month) < MonthIndex(n.year, n.month)
    ensures Instant(m) < Instant(n)
  {
    hide DaysBefore, MonthLength;
    var i, j := MonthIndex(m.year, m.month), MonthIndex(n.year, n.month);
    assert i / 12 == m.year && i % 12 + 1 == m.month;
    DaysBeforeGrows(i, j);
  }

  // ----- Slots below a day --------------------------------------------------------------

  /** Whole seconds, toward zero. */
  function Seconds(t: int): int {
    if t >= 0 then t / SECOND else -(-t / SECOND)
  }

  /** `epoch + k × interval + offset`: the slot after `now`. */
  function Every(step: nat, offset: nat, now: int): int
    requires step > 0
  {
    (((Seconds(now) - offset) / step + 1) * step + offset) * SECOND
  }

  /** Where a slot lies. */
  ghost predicate IsEverySlot(step: nat, offset: nat, t: int) {
    exists k: int :: t == (k * step + offset) * SECOND
  }

  lemma EveryBracket(step: nat, offset: nat, now: int)
    requires step > 0
    ensures
      var s := Seconds(now);
      s * SECOND < Every(step, offset, now) <= s * SECOND + step * SECOND
    ensures Every(step, offset, now) == Seconds(now) * SECOND + step * SECOND <==> (Seconds(now) - offset) % step == 0
    ensures IsEverySlot(step, offset, Every(step, offset, now))
  {
    var e := Seconds(now) - offset;
    var q := e / step;
    assert e == q * step + e % step;
    assert (q + 1) * step == q * step + step;
  }

  /** The clock is not before the epoch, or shows a whole second, or a second that is no slot. Before the
      epoch truncation rounds up, past a slot at the next whole second. */
  predicate SeesTheNext(step: nat, offset: nat, now: int)
    requires step > 0
  {
    now >= 0 || now % SECOND == 0 || (Seconds(now) - offset) % step != 0
  }

  /** The slot is after `now`, and at most an interval away exactly then. */
  lemma EveryIsNextExactlyWhen(step: nat, offset: nat, now: int)
    requires step > 0
    ensures now < Every(step, offset, now)
    ensures Every(step, offset, now) <= now + step * SECOND <==> SeesTheNext(step, offset, now)
  {
    EveryBracket(step, offset, now);
    hide Every;
    var s, slot := Seconds(now), Every(step, offset, now);
    if now < 0 && now % SECOND != 0 {
      assert now < s * SECOND < now + SECOND;
      SlotIsWhole(step, offset, slot);
    }
  }

  lemma SlotIsWhole(step: nat, offset: nat, t: int)
    requires IsEverySlot(step, offset, t)
    ensures t % SECOND == 0
  {
    var k: int :| t == (k * step + offset) * SECOND;
  }

  /** No slot lies between the clock's truncated second and it. */
  lemma EveryIsFirst(step: nat, offset: nat, now: int, other: int)
    requires step > 0 && IsEverySlot(step, offset, other) && Seconds(now) * SECOND < other
    ensures Every(step, offset, now) <= other
  {
    var s := Seconds(now);
    var e := s - offset;
    var q := e / step;
    var k: int :| other == (k * step + offset) * SECOND;
    assert k * step > e;
    assert e == q * step + e % step;
    if k <= q { Multiples(k, q, step); }
    Multiples(q + 1, k, step);
  }

  lemma SlotOfSecond(step: nat, offset: nat, s: int)
    requires step > 0
    ensures IsEverySlot(step, offset, s * SECOND) <==> (s - offset) % step == 0
  {
    if (s - offset) % step == 0 {
      var k := (s - offset) / step;
      assert s * SECOND == (k * step + offset) * SECOND;
    }
    if IsEverySlot(step, offset, s * SECOND) {
      var k: int :| s * SECOND == (k * step + offset) * SECOND;
      assert s - offset == k * step;
      Remainder(k, step);
    }
  }

  lemma Remainder(k: int, step: nat)
    requires step > 0
    ensures (k * step) % step == 0
  {
    var q, r := (k * step) / step, (k * step) % step;
    assert k * step == q * step + r;
    assert (k - q) * step == r;
    if k > q { Multiples(1, k - q, step); }
    if k < q { Multiples(k - q, -1, step); }
  }

  /** And none between `now` and it, exactly then. */
  lemma EveryIsFirstExactlyWhen(step: nat, offset: nat, now: int)
    requires step > 0
    ensures (forall other :: IsEverySlot(step, offset, other) && now < other ==> Every(step, offset, now) <= other)
      <==> SeesTheNext(step, offset, now)
  {
    hide Every, IsEverySlot;
    var s := Seconds(now);
    EveryBracket(step, offset, now);
    SlotOfSecond(step, offset, s);
    if SeesTheNext(step, offset, now) {
      forall other | IsEverySlot(step, offset, other) && now < other ensures Every(step, offset, now) <= other {
        SlotIsWhole(step, offset, other);
        if s * SECOND < other { EveryIsFirst(step, offset, now, other); }
      }
    } else {
      assert now < s * SECOND < Every(step, offset, now);
    }
  }

  lemma Multiples(a: int, b: int, step: nat)
    ensures a <= b ==> a * step <= b * step
  {
    if a <= b { assert (b - a) * step >= 0; }
  }

  // ----- Slots of a day or more -----------------------------------------------------------

  function Times(k: nat, n: nat): nat {
    k * n
  }

  /** The k-th step, counted from the anchor each time. */
  function Occurrence(anchor: Moment, k: nat, months: nat, days: nat): int
    requires IsMoment(anchor)
  {
    Instant(AddMonths(anchor, Times(k, months))) + Times(k, days) * DAY
  }

  /** Later steps are later, month ends notwithstanding. */
  lemma OccurrenceStep(anchor: Moment, k: nat, months: nat, days: nat)
    requires IsMoment(anchor) && months + days > 0
    ensures Occurrence(anchor, k, months, days) < Occurrence(anchor, k + 1, months, days)
  {
    hide Instant, AddMonths;
    assert Times(k + 1, months) == Times(k, months) + months && Times(k + 1, days) == Times(k, days) + days;
    if months > 0 {
      AddMonthsLands(anchor, Times(k, months));
      AddMonthsLands(anchor, Times(k + 1, months));
      LaterMonthIsLater(AddMonths(anchor, Times(k, months)), AddMonths(anchor, Times(k + 1, months)));
    }
  }

  lemma {:induction false} OccurrencesIncrease(anchor: Moment, j: nat, k: nat, months: nat, days: nat)
    requires IsMoment(anchor) && months + days > 0 && j < k
    ensures Occurrence(anchor, j, months, days) < Occurrence(anchor, k, months, days)
    decreases k
  {
    hide Occurrence;
    OccurrenceStep(anchor, k - 1, months, days);
    if j < k - 1 { OccurrencesIncrease(anchor, j, k - 1, months, days); }
  }

  /** The k-th occurrence is `k * days` days past the moment `k * months` months after the anchor. That is on the
      anchor's day, or on its month's last, at the anchor's time. */
  lemma MonthlyOnTheAnchorsDay(anchor: Moment, k: nat, months: nat, days: nat)
    requires IsMoment(anchor)
    ensures
      var r := AddMonths(anchor, k * months);
      && Occurrence(anchor, k, months, days) == Instant(r) + k * days * DAY
      && MonthIndex(r.year, r.month) == MonthIndex(anchor.year, anchor.month) + k * months
      && r.day == (if anchor.day < MonthLength(r.year, r.month) then anchor.day else MonthLength(r.year, r.month))
      && r.micros == anchor.micros
  {
    hide Instant, AddMonths;
    AddMonthsLands(anchor, Times(k, months));
  }

  /** Without months the occurrences are exactly `days` days apart, from the anchor on. */
  lemma DailyFromTheAnchor(anchor: Moment, k: nat, days: nat)
    requires IsMoment(anchor)
    ensures Occurrence(anchor, k, 0, days) == Instant(anchor) + k * days * DAY
  {
    hide Instant;
    assert Times(k, 0) == 0;
    assert AddMonths(anchor, 0) == anchor;
  }

  /** The first step from the k-th on whose slot is after `now`. */
  function FirstAfter(anchor: Moment, months: nat, days: nat, offset: nat, now: int, k: nat): int
    requires IsMoment(anchor) && months + days > 0
    decreases now - Occurrence(anchor, k, months, days) - offset
  {
    if Occurrence(anchor, k, months, days) + offset > now then Occurrence(anchor, k, months, days) + offset
    else
      OccurrenceStep(anchor, k, months, days);
      FirstAfter(anchor, months, days, offset, now, k + 1)
  }

  ghost predicate IsSlot(anchor: Moment, months: nat, days: nat, offset: nat, t: int)
    requires IsMoment(anchor)
  {
    exists k: nat :: t == Occurrence(anchor, k, months, days) + offset
  }

  /** The least slot strictly after `now`. */
  lemma {:induction false} FirstAfterIsLeast(
      anchor: Moment, months: nat, days: nat, offset: nat, now: int, k: nat, j: nat)
    requires IsMoment(anchor) && months + days > 0
    requires forall i :: 0 <= i < k ==> Occurrence(anchor, i, months, days) + offset <= now
    ensures FirstAfter(anchor, months, days, offset, now, k) > now
    ensures IsSlot(anchor, months, days, offset, FirstAfter(anchor, months, days, offset, now, k))
    ensures Occurrence(anchor, j, months, days) + offset > now ==>
      FirstAfter(anchor, months, days, offset, now, k) <= Occurrence(anchor, j, months, days) + offset
    decreases now - Occurrence(anchor, k, months, days) - offset
  {
    hide Occurrence;
    if Occurrence(anchor, k, months, days) + offset > now {
      if j > k { OccurrencesIncrease(anchor, k, j, months, days); }
    } else {
      OccurrenceStep(anchor, k, months, days);
      FirstAfterIsLeast(anchor, months, days, offset, now, k + 1, j);
    }
  }

  lemma LeastOfSlots(anchor: Moment, months: nat, days: nat, offset: nat, now: int)
    requires IsMoment(anchor) && months + days > 0
    ensures
      var slot := FirstAfter(anchor, months, days, offset, now, 0);
      && slot > now && IsSlot(anchor, months, days, offset, slot)
      && forall t :: IsSlot(anchor, months, days, offset, t) && t > now ==> slot <= t
  {
    hide Occurrence, FirstAfter;
    FirstAfterIsLeast(anchor, months, days, offset, now, 0, 0);
    forall t | IsSlot(anchor, months, days, offset, t) && t > now
      ensures FirstAfter(anchor, months, days, offset, now, 0) <= t
    {
      var k: nat :| t == Occurrence(anchor, k, months, days) + offset;
      FirstAfterIsLeast(anchor, months, days, offset, now, 0, k);
    }
  }

  datatype Mode = MIN | INTERVAL
  datatype Cadence = Cadence(mode: Mode, intervalDays: Option<int>, intervalMonths: Option<int>, anchor: Option<Moment>)

  function OrZero(x: Option<int>): int {
    if x.Some? then x.value else 0
  }

  /** An INTERVAL cadence with a length and an anchor; the source raises ValueError for any other. */
  predicate HasSlots(c: Cadence) {
    && c.anchor.Some? && IsMoment(c.anchor.value)
    && OrZero(c.intervalDays) >= 0 && OrZero(c.intervalMonths) >= 0
    && OrZero(c.intervalDays) + OrZero(c.intervalMonths) > 0
  }

  /** `_anchored`: a guess, then a walk to the exact step. `guess` stands for the first guess from the
      average month; any number will do. `None` is the ValueError. */
  method Anchored(c: Cadence, offset: nat, now: int, guess: nat) returns (slot: Option<int>)
    requires c.anchor.Some? ==> IsMoment(c.anchor.value)
    ensures slot == if HasSlots(c)
      then Some(FirstAfter(c.anchor.value, OrZero(c.intervalMonths), OrZero(c.intervalDays), offset, now, 0))
      else None
    ensures slot.None? <==>
      || c.anchor.None? || OrZero(c.intervalDays) < 0 || OrZero(c.intervalMonths) < 0
      || OrZero(c.intervalDays) == OrZero(c.intervalMonths) == 0
    ensures slot.Some? ==>
      var anchor, months, days := c.anchor.value, OrZero(c.intervalMonths), OrZero(c.intervalDays);
      && slot.value > now && IsSlot(anchor, months, days, offset, slot.value)
      && forall t :: IsSlot(anchor, months, days, offset, t) && t > now ==> slot.value <= t
  {
    hide Occurrence, FirstAfter, IsSlot;
    var days, months := OrZero(c.intervalDays), OrZero(c.intervalMonths);
    if c.anchor.None? || days + months == 0 {
      return None;
    }
    if days < 0 || months < 0 {
      return None;
    }
    var anchor := c.anchor.value;
    var k := guess;
    while k > 0 && Occurrence(anchor, k, months, days) + offset > now
    {
      k := k - 1;
    }
    SkipsTo(anchor, months, days, offset, now, k);
    while Occurrence(anchor, k, months, days) + offset <= now
      invariant k >= 0
      invariant FirstAfter(anchor, months, days, offset, now, 0) == FirstAfter(anchor, months, days, offset, now, k)
      decreases now - Occurrence(anchor, k, months, days) - offset
    {
      OccurrenceStep(anchor, k, months, days);
      FirstAfterStep(anchor, months, days, offset, now, k);
      k := k + 1;
    }
    FirstAfterStep(anchor, months, days, offset, now, k);
    LeastOfSlots(anchor, months, days, offset, now);
    return Some(Occurrence(anchor, k, months, days) + offset);
  }

  lemma FirstAfterStep(anchor: Moment, months: nat, days: nat, offset: nat, now: int, k: nat)
    requires IsMoment(anchor) && months + days > 0
    ensures FirstAfter(anchor, months, days, offset, now, k) ==
      if Occurrence(anchor, k, months, days) + offset > now then Occurrence(anchor, k, months, days) + offset
      else FirstAfter(anchor, months, days, offset, now, k + 1)
  {
    hide Occurrence;
  }

  /** Starting at a step not after `now`, or at the first one, misses nothing. */
  lemma {:induction false} SkipsTo(anchor: Moment, months: nat, days: nat, offset: nat, now: int, k: nat)
    requires IsMoment(anchor) && months + days > 0
    requires k == 0 || Occurrence(anchor, k, months, days) + offset <= now
    ensures FirstAfter(anchor, months, days, offset, now, 0) == FirstAfter(anchor, months, days, offset, now, k)
    decreases k
  {
    hide Occurrence, FirstAfter;
    if k > 0 {
      OccurrenceStep(anchor, k - 1, months, days);
      SkipsTo(anchor, months, days, offset, now, k - 1);
      FirstAfterStep(anchor, months, days, offset, now, k - 1);
    }
  }
}
