/** The greatest utilization the report can ever show for a period, and with it exactly which periods
    can show more than 100 percent: for bookings at any instant, and for bookings on whole minutes. */
module PeakUtilization {
  import opened Prelude
  import opened Rounding
  import opened Bookings
  import opened Utilization

  // ---------------------------------------------------------------- the peak

  function Min(a: nat, b: nat): nat { if a < b then a else b }

  function Max(a: nat, b: nat): nat { if a < b then b else a }

  /** Where only whole minutes are booked, an instant counts from the next one, or up to the last one. */
  function Ceil(t: nat, whole: bool): nat {
    if whole then (t + MINUTE - 1) / MINUTE * MINUTE else t
  }

  function Floor(t: nat, whole: bool): nat {
    if whole then t / MINUTE * MINUTE else t
  }

  predicate Aligned(t: nat, whole: bool) {
    whole ==> t % MINUTE == 0
  }

  /** The first start that counts; nothing starts at the epoch itself, since it must be in the future. */
  function FirstStart(from: nat, whole: bool): nat {
    Ceil(Max(from, 1), whole)
  }

  function LastStart(to: nat, whole: bool): nat {
    Floor(to, whole)
  }

  /** The longest booking under the limit; a day stands for no limit. */
  function Longest(r: Resource, whole: bool): (ms: nat)
    ensures ms > 0
  {
    if r.maxMinutes.Some? && r.maxMinutes.value != 0 then
      r.maxMinutes.value * MINUTE + if whole then 0 else 29_999
    else DAY
  }

  function Opens(r: Resource, day: nat): nat
    requires HasHours(r)
  {
    day * DAY + r.opensAt.value * MINUTE
  }

  /** The last instant at which a booking of the day can end: at the end of the closing minute. */
  function Closes(r: Resource, day: nat, whole: bool): nat
    requires HasHours(r)
  {
    day * DAY + r.closesAt.value * MINUTE + if whole then 0 else 59_999
  }

  /** What bookings counted in the period can cover of a day: from the opening or the first start, to
      closing or as far as a booking that begins at the last start can last. */
  function Begin(r: Resource, from: nat, day: nat, whole: bool): nat
    requires HasHours(r)
  {
    Max(Opens(r, day), FirstStart(from, whole))
  }

  function End(r: Resource, to: nat, day: nat, whole: bool): nat
    requires HasHours(r)
  {
    Min(Closes(r, day, whole), LastStart(to, whole) + Longest(r, whole))
  }

  predicate Reaches(r: Resource, from: nat, to: nat, day: nat, whole: bool)
    requires HasHours(r)
  {
    Begin(r, from, day, whole) <= LastStart(to, whole) && Begin(r, from, day, whole) < Closes(r, day, whole)
  }

  function DayPeak(r: Resource, from: nat, to: nat, day: nat, whole: bool): nat
    requires HasHours(r)
  {
    if Reaches(r, from, to, day, whole) then End(r, to, day, whole) - Begin(r, from, day, whole) else 0
  }

  /** Over the first `n` days since 1970. */
  function PeakOver(r: Resource, from: nat, to: nat, n: nat, whole: bool): nat
    requires HasHours(r)
  {
    if n == 0 then 0 else PeakOver(r, from, to, n - 1, whole) + DayPeak(r, from, to, n - 1, whole)
  }

  function Days(to: nat): nat { to / DAY + 1 }

  function Peak(r: Resource, from: nat, to: nat, whole: bool): nat
    requires HasHours(r)
  {
    PeakOver(r, from, to, Days(to), whole)
  }

  function PeakPercent(r: Resource, from: nat, to: nat, whole: bool): int
    requires HasHours(r)
  {
    Percent(BookedHours(Peak(r, from, to, whole)), AvailableHours(r, from, to))
  }

  // ---------------------------------------------------------------- no run passes the peak

  ghost function DayCover(r: Resource, from: nat, to: nat, day: nat, whole: bool): set<int>
    requires HasHours(r)
  {
    if Reaches(r, from, to, day, whole) then Span(Begin(r, from, day, whole), End(r, to, day, whole)) else {}
  }

  ghost function PeakCover(r: Resource, from: nat, to: nat, n: nat, whole: bool): (days: seq<set<int>>)
    requires HasHours(r)
    ensures |days| == n && forall d :: 0 <= d < n ==> days[d] == DayCover(r, from, to, d, whole)
  {
    seq(n, d requires 0 <= d < n => DayCover(r, from, to, d, whole))
  }

  lemma DayCoverSize(r: Resource, from: nat, to: nat, day: nat, whole: bool)
    requires HasHours(r)
    ensures |DayCover(r, from, to, day, whole)| == DayPeak(r, from, to, day, whole)
  {
  }

  predicate FitPeaks(days: seq<set<int>>, r: Resource, from: nat, to: nat, whole: bool)
    requires HasHours(r)
  {
    forall d :: 0 <= d < |days| ==> |days[d]| <= DayPeak(r, from, to, d, whole)
  }

  lemma {:induction false} PeakUnionSize(days: seq<set<int>>, r: Resource, from: nat, to: nat, whole: bool)
    requires HasHours(r) && FitPeaks(days, r, from, to, whole)
    ensures |Union(days)| <= PeakOver(r, from, to, |days|, whole)
  {
    if days != [] {
      PeakUnionSize(days[..|days| - 1], r, from, to, whole);
    }
  }

  lemma PeakCoverSize(r: Resource, from: nat, to: nat, n: nat, whole: bool)
    requires HasHours(r)
    ensures |Union(PeakCover(r, from, to, n, whole))| <= PeakOver(r, from, to, n, whole)
  {
    var days := PeakCover(r, from, to, n, whole);
    forall d | 0 <= d < |days| ensures |days[d]| <= DayPeak(r, from, to, d, whole) {
      DayCoverSize(r, from, to, d, whole);
    }
    PeakUnionSize(days, r, from, to, whole);
  }

  lemma AlignedBounds(t: nat, low: nat, high: nat, whole: bool)
    requires Aligned(t, whole) && low <= t <= high
    ensures Ceil(low, whole) <= t <= Floor(high, whole)
  {
    if whole {
      var k := t / MINUTE;
      assert t == k * MINUTE;
      assert (low + MINUTE - 1) / MINUTE <= k <= high / MINUTE;
    }
  }

  /** The hours and the length limit in milliseconds. */
  lemma AllowedSpan(r: Resource, b: Booking, whole: bool)
    requires HasHours(r) && b.start < b.end && HoursAllow(r, b.start, b.end) && !TooLong(r, b.start, b.end)
    requires Aligned(b.start, whole) && Aligned(b.end, whole)
    ensures Opens(r, b.start / DAY) <= b.start && b.end <= Closes(r, b.start / DAY, whole) &&
      b.end <= b.start + Longest(r, whole)
  {
    var day := b.start / DAY;
    HoursInMilliseconds(b.start, b.end, r.opensAt.value, r.closesAt.value);
    if whole {
      WholeMinuteBefore(b.end, day, r.closesAt.value);
    }
    if r.maxMinutes.Some? && r.maxMinutes.value != 0 {
      LengthLimit(r, b.start, b.end);
      if whole {
        WholeLength(b.start, b.end, r.maxMinutes.value);
      }
    }
  }

  lemma WholeLength(s: nat, e: nat, minutes: nat)
    requires s % MINUTE == 0 && e % MINUTE == 0 && s < e && e - s < minutes * MINUTE + 30_000
    ensures e <= s + minutes * MINUTE
  {
    var (i, k) := (s / MINUTE, e / MINUTE);
    assert s == i * MINUTE && e == k * MINUTE;
  }

  /** A counted booking stays inside what its day can cover. */
  lemma CountedIsCovered(r: Resource, b: Booking, from: nat, to: nat, whole: bool, t: int)
    requires HasHours(r) && b.start < b.end && HoursAllow(r, b.start, b.end) && !TooLong(r, b.start, b.end)
    requires Aligned(b.start, whole) && Aligned(b.end, whole) && 0 < b.start && from <= b.start <= to &&
      b.start <= t < b.end
    ensures b.start / DAY < Days(to) && t in DayCover(r, from, to, b.start / DAY, whole)
  {
    AllowedSpan(r, b, whole);
    AlignedBounds(b.start, Max(from, 1), to, whole);
  }

  lemma {:induction false} StartsAreLater(resources: seq<Resource>, ops: Ops)
    ensures forall i :: 0 <= i < |Run(resources, ops).bookings| ==> Run(resources, ops).bookings[i].start > 0
  {
    if ops.Then? {
      StartsAreLater(resources, ops.before);
    }
  }

  predicate OnGrain(bookings: seq<Booking>, whole: bool) {
    whole ==> WholeMinutes(bookings)
  }

  /** No reachable state has more milliseconds counted in a period than its peak. */
  lemma BookedAtMostPeak(resources: seq<Resource>, ops: Ops, id: nat, from: nat, to: nat, whole: bool)
    requires id < |resources| && HasHours(resources[id]) && OnGrain(Run(resources, ops).bookings, whole)
    ensures var bookings := Run(resources, ops).bookings;
      Booked(bookings, |bookings|, id, from, to) <= Peak(resources[id], from, to, whole)
  {
    EveryRunIsDisjoint(resources, ops);
    StartsAreLater(resources, ops);
    var bookings := Run(resources, ops).bookings;
    var days := PeakCover(resources[id], from, to, Days(to), whole);
    var (cover, peak) := (Cover(bookings, |bookings|, id, from, to), Union(days));
    forall t | t in cover ensures t in peak {
      var i := CoverIsFromSome(bookings, |bookings|, id, from, to, t);
      assert Allowed(resources, bookings[i]);
      CountedIsCovered(resources[id], bookings[i], from, to, whole, t);
      InUnion(days, bookings[i].start / DAY, t);
    }
    CoverSize(bookings, |bookings|, id, from, to);
    SubsetSize(cover, peak);
    PeakCoverSize(resources[id], from, to, Days(to), whole);
  }

  lemma MoreBookedMorePercent(ms: nat, more: nat, available: int)
    requires ms <= more
    ensures Percent(BookedHours(ms), available) <= Percent(BookedHours(more), available)
  {
    RoundDivMonotone(ms * 10, more * 10, HOUR);
    if available > 0 {
      RoundDivMonotone(BookedHours(ms) * 1000, BookedHours(more) * 1000, available);
    }
  }

  /** No run makes the report show more than the peak. */
  lemma NoRunPassesPeak(resources: seq<Resource>, ops: Ops, id: nat, from: nat, to: nat, whole: bool)
    requires id < |resources| && HasHours(resources[id]) && OnGrain(Run(resources, ops).bookings, whole)
    ensures ReportItem(resources, Run(resources, ops).bookings, id, from, to).percent <=
      PeakPercent(resources[id], from, to, whole)
  {
    BookedAtMostPeak(resources, ops, id, from, to, whole);
    var bookings := Run(resources, ops).bookings;
    MoreBookedMorePercent(Booked(bookings, |bookings|, id, from, to), Peak(resources[id], from, to, whole),
                          AvailableHours(resources[id], from, to));
  }

  // ---------------------------------------------------------------- a run that reaches it

  /** One booking after the other from `s` to `e`, each as long as allowed. */
  function Chain(r: Resource, ops: Ops, s: nat, e: nat, whole: bool): Ops
    decreases e - s
  {
    if s >= e then ops
    else Chain(r, Book(ops, s, Min(e, s + Longest(r, whole))), Min(e, s + Longest(r, whole)), e, whole)
  }

  /** A chain up to the last start, then one more booking from there. */
  function FillDay(r: Resource, ops: Ops, from: nat, to: nat, day: nat, whole: bool): Ops
    requires HasHours(r)
  {
    if !Reaches(r, from, to, day, whole) then ops
    else
      var (last, close) := (LastStart(to, whole), Closes(r, day, whole));
      var chained := Chain(r, ops, Begin(r, from, day, whole), Min(last, close), whole);
      if last < close then Book(chained, last, End(r, to, day, whole)) else chained
  }

  function FillDays(r: Resource, from: nat, to: nat, n: nat, whole: bool): Ops
    requires HasHours(r)
  {
    if n == 0 then Start else FillDay(r, FillDays(r, from, to, n - 1, whole), from, to, n - 1, whole)
  }

  function BookingsOf(r: Resource, ops: Ops): seq<Booking> {
    Run([r], ops).bookings
  }

  predicate EndBy(bookings: seq<Booking>, until: nat) {
    forall i :: 0 <= i < |bookings| ==> bookings[i].end <= until
  }

  /** All bookings end by `until`, and so many milliseconds of them count. */
  predicate Filled(bookings: seq<Booking>, from: nat, to: nat, whole: bool, until: nat, ms: nat) {
    OnGrain(bookings, whole) && EndBy(bookings, until) && Booked(bookings, |bookings|, 0, from, to) == ms
  }

  lemma {:induction false} BookedPrefix(bookings: seq<Booking>, more: Booking, n: nat, from: nat, to: nat)
    requires n <= |bookings|
    ensures Booked(bookings + [more], n, 0, from, to) == Booked(bookings, n, 0, from, to)
  {
    if n > 0 {
      BookedPrefix(bookings, more, n - 1, from, to);
    }
  }

  /** Within the hours of a day, within the limit, on the grain, and counted. */
  predicate Fits(r: Resource, from: nat, to: nat, day: nat, s: nat, e: nat, whole: bool)
    requires HasHours(r)
  {
    && Opens(r, day) <= s < e <= Closes(r, day, whole) && e <= s + Longest(r, whole)
    && Aligned(s, whole) && Aligned(e, whole) && 0 < s && from <= s <= to
  }

  lemma FittingIsAllowed(r: Resource, from: nat, to: nat, day: nat, s: nat, e: nat, whole: bool)
    requires HasHours(r) && Fits(r, from, to, day, s, e, whole)
    ensures Allowed([r], Standing(s, e))
  {
    DivUnique(s, day, s - day * DAY);
    HoursInMilliseconds(s, e, r.opensAt.value, r.closesAt.value);
    if r.maxMinutes.Some? && r.maxMinutes.value != 0 {
      LengthLimit(r, s, e);
    }
  }

  lemma OneMoreFills(bookings: seq<Booking>, from: nat, to: nat, whole: bool, until: nat, ms: nat, s: nat, e: nat)
    requires Filled(bookings, from, to, whole, until, ms) && until <= s < e && from <= s <= to
    requires Aligned(s, whole) && Aligned(e, whole)
    ensures Filled(bookings + [Standing(s, e)], from, to, whole, e, ms + (e - s))
  {
    BookedPrefix(bookings, Standing(s, e), |bookings|, from, to);
  }

  lemma FittingGoesThrough(r: Resource, ops: Ops, until: nat, from: nat, to: nat, day: nat, s: nat, e: nat, whole: bool)
    requires HasHours(r) && r.isActive && Fits(r, from, to, day, s, e, whole) && until <= s &&
      EndBy(BookingsOf(r, ops), until)
    ensures BookingsOf(r, Book(ops, s, e)) == BookingsOf(r, ops) + [Standing(s, e)]
  {
    FittingIsAllowed(r, from, to, day, s, e, whole);
    BookingGoesThrough(r, ops, s, e);
  }

  lemma BookingFills(
      r: Resource, ops: Ops, from: nat, to: nat, whole: bool, until: nat, ms: nat, day: nat, s: nat, e: nat)
    requires HasHours(r) && r.isActive && Filled(BookingsOf(r, ops), from, to, whole, until, ms)
    requires Fits(r, from, to, day, s, e, whole) && until <= s
    ensures Filled(BookingsOf(r, Book(ops, s, e)), from, to, whole, e, ms + (e - s))
  {
    FittingGoesThrough(r, ops, until, from, to, day, s, e, whole);
    OneMoreFills(BookingsOf(r, ops), from, to, whole, until, ms, s, e);
  }

  lemma AlignedSum(s: nat, r: Resource, whole: bool)
    requires Aligned(s, whole)
    ensures Aligned(s + Longest(r, whole), whole)
  {
    if whole && r.maxMinutes.Some? {
      assert (s + r.maxMinutes.value * MINUTE) % MINUTE == 0;
    }
  }

  lemma {:induction false} ChainFills(
    r: Resource, ops: Ops, from: nat, to: nat, whole: bool, until: nat, ms: nat, day: nat, s: nat, e: nat)
    requires HasHours(r) && r.isActive && Filled(BookingsOf(r, ops), from, to, whole, until, ms)
    requires until <= s <= e && Opens(r, day) <= s && e <= Closes(r, day, whole) && 0 < s && from <= s && e <= to
    requires Aligned(s, whole) && Aligned(e, whole)
    ensures Filled(BookingsOf(r, Chain(r, ops, s, e, whole)), from, to, whole, e, ms + (e - s))
    decreases e - s
  {
    if s < e {
      var next := Min(e, s + Longest(r, whole));
      AlignedSum(s, r, whole);
      BookingFills(r, ops, from, to, whole, until, ms, day, s, next);
      ChainFills(r, Book(ops, s, next), from, to, whole, next, ms + (next - s), day, next, e);
    }
  }

  lemma GrainOfDay(r: Resource, from: nat, to: nat, day: nat, whole: bool)
    requires HasHours(r)
    ensures Aligned(Begin(r, from, day, whole), whole) && Aligned(LastStart(to, whole), whole)
    ensures Aligned(Closes(r, day, whole), whole) && Aligned(End(r, to, day, whole), whole)
    ensures 0 < Begin(r, from, day, whole) && from <= Begin(r, from, day, whole) && LastStart(to, whole) <= to
  {
    AlignedSum(LastStart(to, whole), r, whole);
    if whole {
      assert day * DAY == day * 1440 * MINUTE;
      assert Opens(r, day) == (day * 1440 + r.opensAt.value) * MINUTE;
      assert Closes(r, day, whole) == (day * 1440 + r.closesAt.value) * MINUTE;
    }
  }

  lemma DayFills(r: Resource, ops: Ops, from: nat, to: nat, whole: bool, until: nat, ms: nat, day: nat)
    requires HasHours(r) && r.isActive && Filled(BookingsOf(r, ops), from, to, whole, until, ms) &&
      until <= Opens(r, day)
    ensures Filled(BookingsOf(r, FillDay(r, ops, from, to, day, whole)), from, to, whole, Closes(r, day, whole),
                   ms + DayPeak(r, from, to, day, whole))
  {
    if Reaches(r, from, to, day, whole) {
      GrainOfDay(r, from, to, day, whole);
      var (s, last, close) := (Begin(r, from, day, whole), LastStart(to, whole), Closes(r, day, whole));
      var mid := Min(last, close);
      ChainFills(r, ops, from, to, whole, until, ms, day, s, mid);
      if last < close {
        var chain := Chain(r, ops, s, mid, whole);
        BookingFills(r, chain, from, to, whole, mid, ms + (mid - s), day, mid, End(r, to, day, whole));
      }
    }
  }

  lemma Later(bookings: seq<Booking>, from: nat, to: nat, whole: bool, until: nat, later: nat, ms: nat)
    requires Filled(bookings, from, to, whole, until, ms) && until <= later
    ensures Filled(bookings, from, to, whole, later, ms)
  {
  }

  lemma {:induction false} DaysFill(r: Resource, from: nat, to: nat, n: nat, whole: bool)
    requires HasHours(r) && r.isActive
    ensures Filled(
      BookingsOf(r, FillDays(r, from, to, n, whole)), from, to, whole, n * DAY, PeakOver(r, from, to, n, whole))
  {
    if n > 0 {
      var ops := FillDays(r, from, to, n - 1, whole);
      DaysFill(r, from, to, n - 1, whole);
      DayFills(r, ops, from, to, whole, (n - 1) * DAY, PeakOver(r, from, to, n - 1, whole), n - 1);
      Later(BookingsOf(r, FillDay(r, ops, from, to, n - 1, whole)), from, to, whole, Closes(r, n - 1, whole), n * DAY,
            PeakOver(r, from, to, n, whole));
    }
  }

  /** The peak is reached: bookings that fill every counted day to the end make the report show it. */
  lemma PeakIsReached(r: Resource, from: nat, to: nat, whole: bool)
    requires HasHours(r) && r.isActive
    ensures var bookings := BookingsOf(r, FillDays(r, from, to, Days(to), whole));
      OnGrain(bookings, whole) && ReportItem([r], bookings, 0, from, to).percent == PeakPercent(r, from, to, whole)
  {
    DaysFill(r, from, to, Days(to), whole);
  }

  /** Does every run, or every run of bookings on whole minutes, keep the period's report within 100 percent? */
  ghost predicate NeverOver100(r: Resource, from: nat, to: nat, whole: bool) {
    forall ops: Ops :: OnGrain(Run([r], ops).bookings, whole) ==>
      ReportItem([r], Run([r], ops).bookings, 0, from, to).percent <= 1000
  }

  /** Exactly when a period's report can never show more than 100 percent. */
  lemma {:induction false} NeverOver100Iff(r: Resource, from: nat, to: nat, whole: bool)
    requires HasHours(r) && r.isActive
    ensures NeverOver100(r, from, to, whole) <==> PeakPercent(r, from, to, whole) <= 1000
  {
    if PeakPercent(r, from, to, whole) <= 1000 {
      forall ops: Ops | OnGrain(Run([r], ops).bookings, whole)
        ensures ReportItem([r], Run([r], ops).bookings, 0, from, to).percent <= 1000
      {
        NoRunPassesPeak([r], ops, 0, from, to, whole);
      }
    } else {
      PeakIsReached(r, from, to, whole);
    }
  }
}
