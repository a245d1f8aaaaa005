/** The utilization report: booked against available hours of every resource over a period. */
module Utilization {
  import opened Prelude
  import opened Rounding
  import opened Bookings

  const HOUR := 3_600_000

  // ---------------------------------------------------------------- the report

  /** Hours and percents are in tenths, as the report rounds them. */
  datatype Item = Item(resource: nat, count: nat, bookedHours: int, availableHours: int, percent: int)

  predicate Counts(b: Booking, resource: nat, from: nat, to: nat) {
    b.confirmed && b.resource == resource && from <= b.start <= to
  }

  function Length(b: Booking): nat {
    if b.start <= b.end then b.end - b.start else 0
  }

  /** Milliseconds booked among the first `n` bookings. */
  function Booked(bookings: seq<Booking>, n: nat, resource: nat, from: nat, to: nat): nat
    requires n <= |bookings|
  {
    if n == 0 then 0
    else
      Booked(bookings, n - 1, resource, from, to) +
      if Counts(bookings[n - 1], resource, from, to) then Length(bookings[n - 1]) else 0
  }

  function Number(bookings: seq<Booking>, n: nat, resource: nat, from: nat, to: nat): nat
    requires n <= |bookings|
  {
    if n == 0 then 0
    else Number(bookings, n - 1, resource, from, to) + if Counts(bookings[n - 1], resource, from, to) then 1 else 0
  }

  function DaysInRange(from: int, to: int): nat {
    if CeilDiv(to - from, DAY) < 1 then 1 else CeilDiv(to - from, DAY)
  }

  /** The daily window in minutes; 24 hours unless both hours are set and in order. */
  function DailyMinutes(r: Resource): nat {
    if r.opensAt.Some? && r.closesAt.Some? && r.opensAt.value < r.closesAt.value
    then r.closesAt.value - r.opensAt.value else 1440
  }

  function AvailableHours(r: Resource, from: int, to: int): int {
    RoundDiv(DailyMinutes(r) * DaysInRange(from, to) * 10, 60)
  }

  function BookedHours(ms: nat): int {
    RoundDiv(ms * 10, HOUR)
  }

  function Percent(booked: int, available: int): int {
    if available > 0 then RoundDiv(booked * 100 * 10, available) else 0
  }

  function ReportItem(resources: seq<Resource>, bookings: seq<Booking>, id: nat, from: nat, to: nat): Item
    requires id < |resources|
  {
    var booked := BookedHours(Booked(bookings, |bookings|, id, from, to));
    var available := AvailableHours(resources[id], from, to);
    Item(id, Number(bookings, |bookings|, id, from, to), booked, available, Percent(booked, available))
  }

  datatype Sum = Sum(count: nat, ms: nat)

  /** One pass over the bookings fills a map by resource; then one item per active resource. */
  method GetBookingUtilization(resources: seq<Resource>, active: seq<nat>, bookings: seq<Booking>, from: nat, to: nat)
    returns (items: seq<Item>)
    requires forall k :: 0 <= k < |active| ==> active[k] < |resources|
    ensures |items| == |active|
    ensures forall k :: 0 <= k < |active| ==> items[k] == ReportItem(resources, bookings, active[k], from, to)
  {
    var byResource: map<nat, Sum> := map[];
    for n := 0 to |bookings|
      invariant forall r :: (if r in byResource then byResource[r] else Sum(0, 0))
                         == Sum(Number(bookings, n, r, from, to), Booked(bookings, n, r, from, to))
    {
      var b := bookings[n];
      if b.confirmed && from <= b.start <= to {
        var current := if b.resource in byResource then byResource[b.resource] else Sum(0, 0);
        byResource := byResource[b.resource := Sum(current.count + 1, current.ms + Length(b))];
      }
    }
    items := [];
    for k := 0 to |active|
      invariant |items| == k
      invariant forall i :: 0 <= i < k ==> items[i] == ReportItem(resources, bookings, active[i], from, to)
    {
      var r := active[k];
      var sum := if r in byResource then byResource[r] else Sum(0, 0);
      assert sum == Sum(Number(bookings, |bookings|, r, from, to), Booked(bookings, |bookings|, r, from, to));
      var available := AvailableHours(resources[r], from, to);
      var booked := BookedHours(sum.ms);
      items := items + [Item(r, sum.count, booked, available, Percent(booked, available))];
    }
  }

  // ---------------------------------------------------------------- what the report says

  /** Does a booking stand for the resource and begin within the period? */
  predicate IsIn(b: Booking, resource: nat, from: nat, to: nat) {
    b.resource == resource && b.confirmed && !(b.start < from || b.start > to)
  }

  /** The time booked by those that do, added up from the first booking on. */
  function TimeIn(bookings: seq<Booking>, resource: nat, from: nat, to: nat): int {
    if bookings == [] then 0
    else
      var (b, rest) := (bookings[0], TimeIn(bookings[1..], resource, from, to));
      if IsIn(b, resource, from, to) && b.end > b.start then b.end - b.start + rest else rest
  }

  function RowsIn(bookings: seq<Booking>, resource: nat, from: nat, to: nat): set<nat> {
    set i: nat | i < |bookings| && IsIn(bookings[i], resource, from, to)
  }

  lemma {:induction false} TimeSplits(a: seq<Booking>, b: seq<Booking>, resource: nat, from: nat, to: nat)
    ensures TimeIn(a + b, resource, from, to) == TimeIn(a, resource, from, to) + TimeIn(b, resource, from, to)
  {
    if a == [] {
      assert a + b == b;
    } else {
      assert (a + b)[1..] == a[1..] + b;
      TimeSplits(a[1..], b, resource, from, to);
    }
  }

  lemma {:induction false} BookedIsTime(bookings: seq<Booking>, n: nat, resource: nat, from: nat, to: nat)
    requires n <= |bookings|
    ensures Booked(bookings, n, resource, from, to) == TimeIn(bookings[..n], resource, from, to)
    ensures Number(bookings, n, resource, from, to) == |RowsIn(bookings[..n], resource, from, to)|
  {
    if n == 0 {
      assert RowsIn(bookings[..0], resource, from, to) == {};
    } else {
      BookedIsTime(bookings, n - 1, resource, from, to);
      var (init, last) := (bookings[..n - 1], bookings[n - 1]);
      assert bookings[..n] == init + [last];
      TimeSplits(init, [last], resource, from, to);
      var rows := RowsIn(init, resource, from, to);
      assert RowsIn(bookings[..n], resource, from, to)
        == if IsIn(last, resource, from, to) then rows + {n - 1} else rows;
    }
  }

  /** So many days of 24 hours cover the period, and no fewer; at least one. */
  predicate IsDays(days: nat, from: nat, to: nat) {
    days >= 1 && from + days * 86_400_000 >= to && (days > 1 ==> from + (days - 1) * 86_400_000 < to)
  }

  /** Minutes a day for which the resource can be booked. */
  predicate IsDaily(r: Resource, minutes: nat) {
    if r.opensAt.Some? && r.closesAt.Some? && r.closesAt.value > r.opensAt.value
    then r.opensAt.value + minutes == r.closesAt.value else minutes == 24 * 60
  }

  /** Minutes in tenths of an hour, to the nearest. */
  predicate IsTenths(tenths: int, minutes: nat) {
    20 * minutes - 60 < 120 * tenths <= 20 * minutes + 60
  }

  /** Milliseconds in tenths of an hour, to the nearest. */
  predicate IsTime(tenths: int, ms: int) {
    2 * ms - 360_000 < 720_000 * tenths <= 2 * ms + 360_000
  }

  /** Tenths of a percent, to the nearest. */
  predicate IsRatio(percent: int, part: int, whole: int) {
    2000 * part - whole < 2 * whole * percent <= 2000 * part + whole
  }

  /** The minutes available in the period. */
  ghost predicate IsAvailable(r: Resource, from: nat, to: nat, tenths: int) {
    exists days: nat, minutes: nat ::
      IsDays(days, from, to) && IsDaily(r, minutes) && IsTenths(tenths, days * minutes)
  }

  lemma AvailableSays(r: Resource, from: nat, to: nat)
    ensures IsAvailable(r, from, to, AvailableHours(r, from, to))
  {
    var (days, minutes) := (DaysInRange(from, to), DailyMinutes(r));
    assert IsDays(days, from, to) && IsDaily(r, minutes);
    assert minutes * days * 10 == 10 * (days * minutes);
    assert IsTenths(AvailableHours(r, from, to), days * minutes);
  }

  /** What one line of the report says: how many bookings count; their time and the time available, in tenths of an
      hour, rounded; and their ratio in tenths of a percent, rounded again. */
  lemma ReportSays(resources: seq<Resource>, bookings: seq<Booking>, id: nat, from: nat, to: nat)
    requires id < |resources|
    ensures var item := ReportItem(resources, bookings, id, from, to);
      && item.resource == id && item.count == |RowsIn(bookings, id, from, to)|
      && IsTime(item.bookedHours, TimeIn(bookings, id, from, to))
      && IsAvailable(resources[id], from, to, item.availableHours)
      && if item.availableHours > 0 then IsRatio(item.percent, item.bookedHours, item.availableHours)
         else item.percent == 0
  {
    BookedIsTime(bookings, |bookings|, id, from, to);
    assert bookings[..|bookings|] == bookings;
    AvailableSays(resources[id], from, to);
    var item := ReportItem(resources, bookings, id, from, to);
    if item.availableHours > 0 {
      PercentSays(item.bookedHours, item.availableHours);
    }
  }

  lemma PercentSays(booked: int, available: int)
    requires available > 0
    ensures IsRatio(Percent(booked, available), booked, available)
  {
  }

  // ---------------------------------------------------------------- packing disjoint bookings

  /** The milliseconds in [a, b). */
  ghost function Span(a: int, b: int): (s: set<int>)
    ensures forall t :: t in s <==> a <= t < b
    ensures a <= b ==> |s| == b - a
    decreases b - a
  {
    if a >= b then {} else Span(a, b - 1) + {b - 1}
  }

  /** Everything the counted bookings cover. */
  ghost function Cover(bookings: seq<Booking>, n: nat, resource: nat, from: nat, to: nat): set<int>
    requires n <= |bookings|
  {
    if n == 0 then {}
    else if Counts(bookings[n - 1], resource, from, to) then
      Cover(bookings, n - 1, resource, from, to) + Span(bookings[n - 1].start, bookings[n - 1].end)
    else Cover(bookings, n - 1, resource, from, to)
  }

  lemma {:induction false} CoverIsFromSome(
      bookings: seq<Booking>, n: nat, resource: nat, from: nat, to: nat, t: int) returns (i: nat)
    requires n <= |bookings| && t in Cover(bookings, n, resource, from, to)
    ensures i < n && Counts(bookings[i], resource, from, to) && bookings[i].start <= t < bookings[i].end
  {
    if Counts(bookings[n - 1], resource, from, to) && t in Span(bookings[n - 1].start, bookings[n - 1].end) {
      i := n - 1;
    } else {
      i := CoverIsFromSome(bookings, n - 1, resource, from, to, t);
    }
  }

  /** Disjoint bookings cover as many milliseconds as they are long together. */
  lemma {:induction false} CoverSize(bookings: seq<Booking>, n: nat, resource: nat, from: nat, to: nat)
    requires n <= |bookings| && Disjoint(bookings)
    ensures |Cover(bookings, n, resource, from, to)| == Booked(bookings, n, resource, from, to)
  {
    if n > 0 {
      CoverSize(bookings, n - 1, resource, from, to);
      var b := bookings[n - 1];
      if Counts(b, resource, from, to) {
        var rest, span := Cover(bookings, n - 1, resource, from, to), Span(b.start, b.end);
        forall t | t in rest ensures t !in span {
          var i := CoverIsFromSome(bookings, n - 1, resource, from, to, t);
        }
        assert rest !! span;
      }
    }
  }

  ghost function Union(days: seq<set<int>>): set<int> {
    if days == [] then {} else Union(days[..|days| - 1]) + days[|days| - 1]
  }

  lemma {:induction false} InUnion(days: seq<set<int>>, day: nat, t: int)
    requires day < |days| && t in days[day]
    ensures t in Union(days)
  {
    if day < |days| - 1 {
      InUnion(days[..|days| - 1], day, t);
    }
  }

  lemma {:induction false} UnionSize(days: seq<set<int>>, size: nat)
    requires forall d :: 0 <= d < |days| ==> |days[d]| <= size
    ensures |Union(days)| <= |days| * size
  {
    if days != [] {
      UnionSize(days[..|days| - 1], size);
      assert |days| * size == (|days| - 1) * size + size;
    }
  }

  /** The window [lo, hi) of the day, on each of `n` days from day `first`. */
  ghost function Windows(first: nat, n: nat, lo: nat, hi: nat): (days: seq<set<int>>)
    requires lo <= hi
    ensures |days| == n
    ensures forall d :: 0 <= d < n ==>
      days[d] == Span((first + d) * DAY + lo, (first + d) * DAY + hi) && |days[d]| == hi - lo
  {
    seq(n, d requires 0 <= d < n => Span((first + d) * DAY + lo, (first + d) * DAY + hi))
  }

  lemma SubsetSize(a: set<int>, b: set<int>)
    requires a <= b
    ensures |a| <= |b|
  {
    assert b == a + (b - a);
  }

  /** UTC days on which a booking that starts in [from, to] can start. */
  function DaysTouched(from: nat, to: nat): nat
    requires from <= to
  {
    to / DAY - from / DAY + 1
  }

  /** Does every counted booking stay inside [lo, hi) of the day it starts on? */
  ghost predicate StayInside(bookings: seq<Booking>, resource: nat, from: nat, to: nat, lo: nat, hi: nat) {
    forall i :: 0 <= i < |bookings| && Counts(bookings[i], resource, from, to) ==>
      bookings[i].start / DAY * DAY + lo <= bookings[i].start && bookings[i].end <= bookings[i].start / DAY * DAY + hi
  }

  lemma PackingBound(bookings: seq<Booking>, resource: nat, from: nat, to: nat, lo: nat, hi: nat)
    requires Disjoint(bookings) && from <= to && lo <= hi && StayInside(bookings, resource, from, to, lo, hi)
    ensures Booked(bookings, |bookings|, resource, from, to) <= DaysTouched(from, to) * (hi - lo)
  {
    var cover := Cover(bookings, |bookings|, resource, from, to);
    var windows := Windows(from / DAY, DaysTouched(from, to), lo, hi);
    forall t | t in cover ensures t in Union(windows) {
      var i := CoverIsFromSome(bookings, |bookings|, resource, from, to, t);
      var day := bookings[i].start / DAY;
      assert day == from / DAY + (day - from / DAY);
      InUnion(windows, day - from / DAY, t);
    }
    CoverSize(bookings, |bookings|, resource, from, to);
    SubsetSize(cover, Union(windows));
    UnionSize(windows, hi - lo);
  }

  predicate HasHours(r: Resource) {
    r.opensAt.Some? && r.closesAt.Some? && r.opensAt.value < r.closesAt.value < 1440
  }

  predicate WholeMinutes(bookings: seq<Booking>) {
    forall i :: 0 <= i < |bookings| ==> bookings[i].start % MINUTE == 0 && bookings[i].end % MINUTE == 0
  }

  /** What the allocator lets through, on whole minutes, fits into the hours the report counts with. */
  lemma BookedWithinHours(resources: seq<Resource>, db: Db, id: nat, from: nat, to: nat)
    requires Inv(resources, db) && id < |resources| && HasHours(resources[id]) && WholeMinutes(db.bookings) &&
      from <= to
    ensures Booked(db.bookings, |db.bookings|, id, from, to) <=
      DaysTouched(from, to) * (DailyMinutes(resources[id]) * MINUTE)
  {
    var (lo, hi) := (resources[id].opensAt.value * MINUTE, resources[id].closesAt.value * MINUTE);
    forall i | 0 <= i < |db.bookings| && Counts(db.bookings[i], id, from, to)
      ensures db.bookings[i].start / DAY * DAY + lo <= db.bookings[i].start
      ensures db.bookings[i].end <= db.bookings[i].start / DAY * DAY + hi
    {
      var b := db.bookings[i];
      HoursInMilliseconds(b.start, b.end, resources[id].opensAt.value, resources[id].closesAt.value);
      WholeMinuteBefore(b.end, b.start / DAY, resources[id].closesAt.value);
    }
    PackingBound(db.bookings, id, from, to, lo, hi);
  }

  lemma WholeMinuteBefore(t: nat, day: nat, closesAt: nat)
    requires t % MINUTE == 0 && t < day * DAY + (closesAt + 1) * MINUTE
    ensures t <= day * DAY + closesAt * MINUTE
  {
    var m := t / MINUTE;
    assert t == m * MINUTE;
    assert day * DAY == day * 1440 * MINUTE;
    assert m < day * 1440 + closesAt + 1;
  }

  // ---------------------------------------------------------------- the report stays below 100 percent

  lemma PercentAtMost100(ms: nat, minutes: nat, days: nat)
    requires ms <= days * (minutes * MINUTE)
    ensures Percent(BookedHours(ms), RoundDiv(minutes * days * 10, 60)) <= 1000
  {
    var available := RoundDiv(minutes * days * 10, 60);
    var all := days * (minutes * MINUTE);
    assert all == minutes * days * MINUTE;
    SameTenths(minutes * days);
    RoundDivMonotone(ms * 10, all * 10, HOUR);
    var booked := BookedHours(ms);
    assert booked <= available;
    if available > 0 {
      var p := RoundDiv(booked * 1000, available);
      RoundDivMonotone(booked * 1000, available * 1000, available);
      assert RoundDiv(available * 1000, available) == 1000 by { RoundDivExact(1000, available); }
    }
  }

  /** Rounding hours to tenths does not depend on whether they come in minutes or milliseconds. */
  lemma SameTenths(m: nat)
    ensures RoundDiv(m * MINUTE * 10, HOUR) == RoundDiv(m * 10, 60)
  {
    var p, q := RoundDiv(m * MINUTE * 10, HOUR), RoundDiv(m * 10, 60);
    assert 20 * m - 60 < 120 * q <= 20 * m + 60;
    assert 20 * m - 60 < 120 * p <= 20 * m + 60;
  }

  lemma RoundDivExact(q: int, d: int)
    requires d > 0
    ensures RoundDiv(d * q, d) == q
  {
    var p := RoundDiv(d * q, d);
    assert 2 * (d * q) - d < 2 * d * p <= 2 * (d * q) + d;
    assert 2 * d * p == 2 * (d * p);
    assert d * (2 * (q - p)) < d * 2 && d * (2 * (p - q)) <= d;
  }

  /** In every reachable state, for a resource with opening hours and bookings on whole minutes: if
      the period touches no more days than it counts, its utilization is at most 100.0 percent after
      all three roundings. */
  lemma UtilizationAtMost100(resources: seq<Resource>, ops: Ops, id: nat, from: nat, to: nat)
    requires id < |resources| && HasHours(resources[id]) && from <= to && DaysTouched(from, to) <= DaysInRange(from, to)
    requires WholeMinutes(Run(resources, ops).bookings)
    ensures ReportItem(resources, Run(resources, ops).bookings, id, from, to).percent <= 1000
  {
    var db := Run(resources, ops);
    EveryRunIsDisjoint(resources, ops);
    BookedWithinHours(resources, db, id, from, to);
    var (minutes, ms) := (DailyMinutes(resources[id]), Booked(db.bookings, |db.bookings|, id, from, to));
    MulLe(DaysTouched(from, to), DaysInRange(from, to), minutes * MINUTE);
    PercentAtMost100(ms, minutes, DaysInRange(from, to));
  }

  /** Which periods touch no more days than they count: a single instant, or a period that is not a
      whole number of days and whose last part does not run past midnight. */
  lemma PeriodIsAlignedIff(from: nat, to: nat)
    requires from <= to
    ensures DaysTouched(from, to) <= DaysInRange(from, to) <==>
      from == to || ((to - from) % DAY != 0 && from % DAY + (to - from) % DAY < DAY)
    ensures DaysTouched(from, to) <= DaysInRange(from, to) + 1
  {
    var (q, r) := ((to - from) / DAY, (to - from) % DAY);
    var (d, f) := (from / DAY, from % DAY);
    assert to == (d + q) * DAY + (f + r);
    if f + r < DAY {
      DivUnique(to, d + q, f + r);
    } else {
      DivUnique(to, d + q + 1, f + r - DAY);
    }
    if r == 0 { CeilUnique(q * DAY, q, 0); } else { CeilUnique(q * DAY + r, q + 1, DAY - r); }
  }

  lemma DivUnique(t: nat, q: nat, r: nat)
    requires t == q * DAY + r && r < DAY
    ensures t / DAY == q
  {
  }

  lemma CeilUnique(n: nat, q: nat, slack: nat)
    requires n == q * DAY - slack && slack < DAY
    ensures CeilDiv(n, DAY) == q
  {
  }

  // ---------------------------------------------------------------- outside these conditions

  /** Without whole minutes every day holds up to 59.999 seconds more than the report counts with,
      because the closing time is compared by whole minutes. */
  lemma BookedWithinClosingMinute(resources: seq<Resource>, ops: Ops, id: nat, from: nat, to: nat)
    requires id < |resources| && HasHours(resources[id]) && from <= to
    ensures var bookings := Run(resources, ops).bookings;
      Booked(bookings, |bookings|, id, from, to) <=
        DaysTouched(from, to) * (DailyMinutes(resources[id]) * MINUTE + 59_999)
  {
    EveryRunIsDisjoint(resources, ops);
    var bookings := Run(resources, ops).bookings;
    var (lo, hi) := (resources[id].opensAt.value * MINUTE, resources[id].closesAt.value * MINUTE + 59_999);
    forall i | 0 <= i < |bookings| && Counts(bookings[i], id, from, to)
      ensures bookings[i].start / DAY * DAY + lo <= bookings[i].start &&
        bookings[i].end <= bookings[i].start / DAY * DAY + hi
    {
      HoursInMilliseconds(bookings[i].start, bookings[i].end, resources[id].opensAt.value,
        resources[id].closesAt.value);
    }
    PackingBound(bookings, id, from, to, lo, hi);
  }

  function Book(ops: Ops, start: nat, end: nat): Ops {
    Then(ops, Create(0, Some(0), 0, Some(start), Some(end)), 0)
  }

  function Standing(start: nat, end: nat): Booking {
    Booking(0, 0, 0, start, end, true, None, None)
  }

  /** One more booking of resource 0 goes through if it is allowed and free. */
  lemma BookingGoesThrough(r: Resource, ops: Ops, start: nat, end: nat)
    requires r.isActive && 0 < start && Allowed([r], Standing(start, end))
    requires !Taken(Run([r], ops).bookings, 0, start, end)
    ensures Run([r], Book(ops, start, end)).bookings == Run([r], ops).bookings + [Standing(start, end)]
  {
  }

  /** The default period of the report ends "now": from noon to noon it counts one day but touches
      two. Twelve hours a day, booked from noon on, come out at 166.7 percent. */
  lemma UnalignedPeriodExceeds100()
    ensures exists r: Resource, ops: Ops, from: nat, to: nat ::
      && from <= to && HasHours(r) && WholeMinutes(Run([r], ops).bookings)
      && ReportItem([r], Run([r], ops).bookings, 0, from, to).percent == 1667
  {
    var r := Resource(1, true, Some(480), Some(1200), None);
    var (a0, b0) := (12 * HOUR, 20 * HOUR);
    var (a1, b1) := (32 * HOUR, 36 * HOUR);
    var (a2, b2) := (36 * HOUR, 44 * HOUR);
    BookingGoesThrough(r, Start, a0, b0);
    var ops0 := Book(Start, a0, b0);
    BookingGoesThrough(r, ops0, a1, b1);
    var ops1 := Book(ops0, a1, b1);
    BookingGoesThrough(r, ops1, a2, b2);
    var ops2 := Book(ops1, a2, b2);
    var bs := Run([r], ops2).bookings;
    assert bs == [Standing(a0, b0), Standing(a1, b1), Standing(a2, b2)];
    var (from, to) := (12 * HOUR, 36 * HOUR);
    assert Booked(bs, 1, 0, from, to) == 8 * HOUR;
    assert Booked(bs, 2, 0, from, to) == 12 * HOUR;
    assert Booked(bs, 3, 0, from, to) == 20 * HOUR;
    assert BookedHours(20 * HOUR) == 200 && AvailableHours(r, from, to) == 120;
    assert Percent(200, 120) == 1667;
    assert ReportItem([r], bs, 0, from, to).percent == 1667;
  }

  /** Seconds count too: a space open 4 minutes a day, booked up to the end of the closing minute on
      each of two whole days, comes out at 200 percent. */
  lemma SecondsExceed100()
    ensures exists r: Resource, ops: Ops, from: nat, to: nat ::
      && from <= to && HasHours(r) && DaysTouched(from, to) <= DaysInRange(from, to)
      && ReportItem([r], Run([r], ops).bookings, 0, from, to).percent == 2000
  {
    var r := Resource(1, true, Some(480), Some(484), None);
    var length := 4 * MINUTE + 59_999;
    var (a1, a2) := (32 * HOUR, 56 * HOUR);
    BookingGoesThrough(r, Start, a1, a1 + length);
    var ops1 := Book(Start, a1, a1 + length);
    BookingGoesThrough(r, ops1, a2, a2 + length);
    var ops2 := Book(ops1, a2, a2 + length);
    var bs := Run([r], ops2).bookings;
    var (from, to) := (DAY, 3 * DAY - 1);
    assert bs == [Standing(a1, a1 + length), Standing(a2, a2 + length)];
    assert Booked(bs, 1, 0, from, to) == length;
    assert Booked(bs, 2, 0, from, to) == 2 * length;
    assert BookedHours(2 * length) == 2 && AvailableHours(r, from, to) == 1;
    assert ReportItem([r], bs, 0, from, to).percent == 2000;
  }
}
