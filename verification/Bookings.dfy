/** Booking shared spaces: a slot allocator with opening hours, a length limit and a waitlist. */
module Bookings {
  import opened Prelude
  import opened Rounding

  const MINUTE := 60_000
  const DAY := 86_400_000

  /** Opening hours are UTC minutes of the day. */
  datatype Resource = Resource(
    tenant: nat, isActive: bool, opensAt: Option<nat>, closesAt: Option<nat>, maxMinutes: Option<nat>)

  /** Times are UTC milliseconds since 1970. */
  datatype Booking = Booking(
    resource: nat, unit: nat, bookedBy: nat, start: nat, end: nat,
    confirmed: bool, cancelledBy: Option<nat>, cancelledAt: Option<nat>)

  datatype Wait = Wait(resource: nat, unit: nat, user: nat, start: nat, end: nat)

  /** A booking's id is its row number: bookings are cancelled, never deleted. */
  datatype Db = Db(bookings: seq<Booking>, waitlist: map<nat, Wait>, nextWait: nat)

  datatype Error =
    | ResourceNotFound | ResourceInactive | OwnershipRequired | InvalidTimeFormat | StartMustBeFuture
    | EndBeforeStart | DurationExceedsLimit | OutsideOperatingHours | SlotConflict
    | SlotNotFull | AlreadyOnWaitlist | WaitNotFound | LeaveForbidden
    | BookingNotFound | AlreadyCancelled | CancelForbidden

  // ---------------------------------------------------------------- the checks

  /** The query for a conflicting booking: existing.start < end and existing.end > start. */
  predicate Conflicts(b: Booking, resource: nat, start: nat, end: nat) {
    b.resource == resource && b.confirmed && b.start < end && b.end > start
  }

  predicate Taken(bookings: seq<Booking>, resource: nat, start: nat, end: nat) {
    exists i :: 0 <= i < |bookings| && Conflicts(bookings[i], resource, start, end)
  }

  predicate TooLong(r: Resource, start: nat, end: nat) {
    r.maxMinutes.Some? && r.maxMinutes.value != 0 && RoundDiv(end - start, MINUTE) > r.maxMinutes.value
  }

  function MinuteOfDay(t: nat): nat {
    t % DAY / MINUTE
  }

  /** `validateOperatingHours`: same UTC date, compared by whole minutes. */
  predicate InHours(start: nat, end: nat, opensAt: nat, closesAt: nat) {
    start / DAY == end / DAY && MinuteOfDay(start) >= opensAt && MinuteOfDay(end) <= closesAt
  }

  predicate HoursAllow(r: Resource, start: nat, end: nat) {
    r.opensAt.Some? && r.closesAt.Some? ==> InHours(start, end, r.opensAt.value, r.closesAt.value)
  }

  predicate IsStaff(user: User, tenant: nat) {
    user.role == Superadmin || (user.role in {HoaAdmin, HoaChairman, Dispatcher} && user.tenant == Some(tenant))
  }

  /** What booking and joining the waitlist check alike. `unit` is the unit of a verified ownership
      of the user in the resource's tenant, if there is one; a time is None when it does not parse. */
  function Precheck(
      resources: seq<Resource>, id: nat, unit: Option<nat>, start: Option<nat>, end: Option<nat>, now: nat)
      : Option<Error>
  {
    if id >= |resources| then Some(ResourceNotFound)
    else if !resources[id].isActive then Some(ResourceInactive)
    else if unit == None then Some(OwnershipRequired)
    else if start == None || end == None then Some(InvalidTimeFormat)
    else if start.value <= now then Some(StartMustBeFuture)
    else if start.value >= end.value then Some(EndBeforeStart)
    else None
  }

  // ---------------------------------------------------------------- the operations

  datatype Op =
    | Create(resource: nat, unit: Option<nat>, user: nat, start: Option<nat>, end: Option<nat>)
    | Join(resource: nat, unit: Option<nat>, user: nat, start: Option<nat>, end: Option<nat>)
    | Leave(waitId: nat, user: nat)
    | Cancel(booking: nat, actor: User)

  function Created(resources: seq<Resource>, db: Db, op: Op, now: nat): Result<Db, Error>
    requires op.Create?
  {
    var error := Precheck(resources, op.resource, op.unit, op.start, op.end, now);
    if error.Some? then Err(error.value)
    else
      var (r, start, end) := (resources[op.resource], op.start.value, op.end.value);
      if TooLong(r, start, end) then Err(DurationExceedsLimit)
      else if !HoursAllow(r, start, end) then Err(OutsideOperatingHours)
      else if Taken(db.bookings, op.resource, start, end) then Err(SlotConflict)
      else Ok(db.(
        bookings := db.bookings + [Booking(op.resource, op.unit.value, op.user, start, end, true, None, None)]))
  }

  function Joined(resources: seq<Resource>, db: Db, op: Op, now: nat): Result<Db, Error>
    requires op.Join?
  {
    var error := Precheck(resources, op.resource, op.unit, op.start, op.end, now);
    if error.Some? then Err(error.value)
    else if !Taken(db.bookings, op.resource, op.start.value, op.end.value) then Err(SlotNotFull)
    else if exists id ::
      id in db.waitlist && SameRequest(db.waitlist[id], op.resource, op.unit.value, op.start.value, op.end.value)
      then Err(AlreadyOnWaitlist)
    else Ok(db.(
      waitlist := db.waitlist[db.nextWait := Wait(op.resource, op.unit.value, op.user, op.start.value, op.end.value)],
      nextWait := db.nextWait + 1))
  }

  /** The unique key of the waitlist table. */
  predicate SameRequest(w: Wait, resource: nat, unit: nat, start: nat, end: nat) {
    w.resource == resource && w.unit == unit && w.start == start && w.end == end
  }

  predicate SameSlot(w: Wait, b: Booking) {
    w.resource == b.resource && w.start == b.start && w.end == b.end
  }

  /** The waitlist after the slot of `b` was freed: exactly the entries for that slot are gone. */
  function Cleared(waitlist: map<nat, Wait>, b: Booking): (rest: map<nat, Wait>)
    ensures forall id :: id in rest <==> id in waitlist && !SameSlot(waitlist[id], b)
    ensures forall id :: id in rest ==> rest[id] == waitlist[id]
  {
    map id | id in waitlist && !SameSlot(waitlist[id], b) :: waitlist[id]
  }

  function Left(db: Db, op: Op): Result<Db, Error>
    requires op.Leave?
  {
    if op.waitId !in db.waitlist then Err(WaitNotFound)
    else if db.waitlist[op.waitId].user != op.user then Err(LeaveForbidden)
    else Ok(db.(waitlist := db.waitlist - {op.waitId}))
  }

  function Cancelled(resources: seq<Resource>, db: Db, op: Op, now: nat): Result<Db, Error>
    requires op.Cancel?
  {
    if op.booking >= |db.bookings| then Err(BookingNotFound)
    else
      var b := db.bookings[op.booking];
      if !b.confirmed then Err(AlreadyCancelled)
      else if b.bookedBy != op.actor.id &&
        !(b.resource < |resources| && IsStaff(op.actor, resources[b.resource].tenant))
        then Err(CancelForbidden)
      else Ok(db.(
        bookings :=
          db.bookings[op.booking := b.(confirmed := false, cancelledBy := Some(op.actor.id), cancelledAt := Some(now))],
        waitlist := Cleared(db.waitlist, b)))
  }

  function Apply(resources: seq<Resource>, db: Db, op: Op, now: nat): Result<Db, Error> {
    match op
    case Create(_, _, _, _, _) => Created(resources, db, op, now)
    case Join(_, _, _, _, _) => Joined(resources, db, op, now)
    case Leave(_, _) => Left(db, op)
    case Cancel(_, _) => Cancelled(resources, db, op, now)
  }

  /** The service object; the resources' settings stay fixed. */
  class BookingsService {
    const resources: seq<Resource>
    var bookings: seq<Booking>
    var waitlist: map<nat, Wait>
    var nextWait: nat

    function Tables(): Db
      reads this
    {
      Db(bookings, waitlist, nextWait)
    }

    constructor (resources: seq<Resource>)
      ensures this.resources == resources && Tables() == Db([], map[], 0)
    {
      this.resources := resources;
      bookings, waitlist, nextWait := [], map[], 0;
    }

    method FindConflict(resource: nat, start: nat, end: nat) returns (found: bool)
      ensures found <==> Taken(bookings, resource, start, end)
    {
      for i := 0 to |bookings|
        invariant !Taken(bookings[..i], resource, start, end)
      {
        if Conflicts(bookings[i], resource, start, end) { return true; }
      }
      assert bookings[..|bookings|] == bookings;
      return false;
    }

    method CreateBooking(op: Op, now: nat) returns (error: Option<Error>)
      requires op.Create?
      modifies this
      ensures error == None ==> Created(resources, old(Tables()), op, now) == Ok(Tables())
      ensures error.Some? ==>
        Created(resources, old(Tables()), op, now) == Err(error.value) && Tables() == old(Tables())
    {
      error := Precheck(resources, op.resource, op.unit, op.start, op.end, now);
      if error.Some? { return; }
      var start, end := op.start.value, op.end.value;
      if TooLong(resources[op.resource], start, end) { return Some(DurationExceedsLimit); }
      if !HoursAllow(resources[op.resource], start, end) { return Some(OutsideOperatingHours); }
      var conflict := FindConflict(op.resource, start, end);
      if conflict { return Some(SlotConflict); }
      bookings := bookings + [Booking(op.resource, op.unit.value, op.user, start, end, true, None, None)];
    }

    method JoinWaitlist(op: Op, now: nat) returns (error: Option<Error>)
      requires op.Join?
      modifies this
      ensures error == None ==> Joined(resources, old(Tables()), op, now) == Ok(Tables())
      ensures error.Some? ==> Joined(resources, old(Tables()), op, now) == Err(error.value) && Tables() == old(Tables())
    {
      error := Precheck(resources, op.resource, op.unit, op.start, op.end, now);
      if error.Some? { return; }
      var conflict := FindConflict(op.resource, op.start.value, op.end.value);
      if !conflict { return Some(SlotNotFull); }
      var wait := Wait(op.resource, op.unit.value, op.user, op.start.value, op.end.value);
      if exists id :: id in waitlist && SameRequest(waitlist[id], wait.resource, wait.unit, wait.start, wait.end) {
        return Some(AlreadyOnWaitlist);
      }
      waitlist, nextWait := waitlist[nextWait := wait], nextWait + 1;
    }

    method LeaveWaitlist(op: Op) returns (error: Option<Error>)
      requires op.Leave?
      modifies this
      ensures error == None ==> Left(old(Tables()), op) == Ok(Tables())
      ensures error.Some? ==> Left(old(Tables()), op) == Err(error.value) && Tables() == old(Tables())
    {
      if op.waitId !in waitlist { return Some(WaitNotFound); }
      if waitlist[op.waitId].user != op.user { return Some(LeaveForbidden); }
      waitlist := waitlist - {op.waitId};
      return None;
    }

    method CancelBooking(op: Op, now: nat) returns (error: Option<Error>)
      requires op.Cancel?
      modifies this
      ensures error == None ==> Cancelled(resources, old(Tables()), op, now) == Ok(Tables())
      ensures error.Some? ==>
        Cancelled(resources, old(Tables()), op, now) == Err(error.value) && Tables() == old(Tables())
    {
      if op.booking >= |bookings| { return Some(BookingNotFound); }
      var b := bookings[op.booking];
      if !b.confirmed { return Some(AlreadyCancelled); }
      var isStaff := b.resource < |resources| && IsStaff(op.actor, resources[b.resource].tenant);
      if b.bookedBy != op.actor.id && !isStaff { return Some(CancelForbidden); }
      bookings :=
        bookings[op.booking := b.(confirmed := false, cancelledBy := Some(op.actor.id), cancelledAt := Some(now))];
      NotifyAndClearWaitlist(b);
      return None;
    }

    /** Finds the entries waiting for exactly this slot, notifies each, then deletes what it found. */
    method NotifyAndClearWaitlist(b: Booking)
      modifies this`waitlist
      ensures waitlist == Cleared(old(waitlist), b)
    {
      var found := set id | id in waitlist && SameSlot(waitlist[id], b);
      waitlist := waitlist - found;
    }
  }

  // ---------------------------------------------------------------- runs

  datatype Ops = Start | Then(before: Ops, op: Op, now: nat)

  function Run(resources: seq<Resource>, ops: Ops): Db {
    if ops == Start then Db([], map[], 0)
    else
      var db := Run(resources, ops.before);
      match Apply(resources, db, ops.op, ops.now)
      case Ok(next) => next
      case Err(_) => db
  }

  /** Two bookings of one resource that both stand never share a millisecond. */
  predicate Disjoint(bookings: seq<Booking>) {
    forall i, j :: 0 <= i < j < |bookings| && bookings[i].confirmed && bookings[j].confirmed
      && bookings[i].resource == bookings[j].resource
      ==> bookings[i].end <= bookings[j].start || bookings[j].end <= bookings[i].start
  }

  predicate Allowed(resources: seq<Resource>, b: Booking) {
    && b.resource < |resources| && b.start < b.end
    && HoursAllow(resources[b.resource], b.start, b.end) && !TooLong(resources[b.resource], b.start, b.end)
  }

  predicate WaitsOnce(waitlist: map<nat, Wait>) {
    forall i, j :: i in waitlist && j in waitlist && i != j ==>
      !SameRequest(waitlist[i], waitlist[j].resource, waitlist[j].unit, waitlist[j].start, waitlist[j].end)
  }

  predicate Inv(resources: seq<Resource>, db: Db) {
    && Disjoint(db.bookings)
    && (forall i :: 0 <= i < |db.bookings| ==> Allowed(resources, db.bookings[i]))
    && (forall id :: id in db.waitlist ==> id < db.nextWait)
    && WaitsOnce(db.waitlist)
  }

  lemma ApplyKeepsInv(resources: seq<Resource>, db: Db, op: Op, now: nat)
    requires Inv(resources, db) && Apply(resources, db, op, now).Ok?
    ensures Inv(resources, Apply(resources, db, op, now).value)
  {
    var next := Apply(resources, db, op, now).value;
    if op.Create? {
      var added := next.bookings[|db.bookings|];
      forall i | 0 <= i < |db.bookings| && db.bookings[i].confirmed && db.bookings[i].resource == added.resource
        ensures db.bookings[i].end <= added.start || added.end <= db.bookings[i].start
      {
        assert !Conflicts(db.bookings[i], added.resource, added.start, added.end);
      }
    }
  }

  /** In every reachable state the standing bookings of a resource are disjoint, each was within the
      opening hours and the length limit, and no unit waits twice for one slot. */
  lemma {:induction false} EveryRunIsDisjoint(resources: seq<Resource>, ops: Ops)
    ensures Inv(resources, Run(resources, ops))
  {
    if ops.Then? {
      EveryRunIsDisjoint(resources, ops.before);
      if Apply(resources, Run(resources, ops.before), ops.op, ops.now).Ok? {
        ApplyKeepsInv(resources, Run(resources, ops.before), ops.op, ops.now);
      }
    }
  }

  /** A slot that was just booked is taken. */
  lemma BookedSlotIsTaken(resources: seq<Resource>, db: Db, op: Op, now: nat)
    requires op.Create? && Created(resources, db, op, now).Ok?
    ensures !Taken(db.bookings, op.resource, op.start.value, op.end.value)
    ensures Taken(Created(resources, db, op, now).value.bookings, op.resource, op.start.value, op.end.value)
  {
    var next := Created(resources, db, op, now).value;
    assert Conflicts(next.bookings[|db.bookings|], op.resource, op.start.value, op.end.value);
  }

  /** Cancelling undoes booking: the slot is free again, for whoever comes first. */
  lemma CancelFreesSlot(resources: seq<Resource>, db: Db, op: Op, now: nat)
    requires Inv(resources, db) && op.Cancel? && Cancelled(resources, db, op, now).Ok?
    ensures var b := db.bookings[op.booking];
      && Taken(db.bookings, b.resource, b.start, b.end)
      && !Taken(Cancelled(resources, db, op, now).value.bookings, b.resource, b.start, b.end)
  {
    var (b, next) := (db.bookings[op.booking], Cancelled(resources, db, op, now).value);
    assert Conflicts(db.bookings[op.booking], b.resource, b.start, b.end);
    forall i | 0 <= i < |next.bookings| ensures !Conflicts(next.bookings[i], b.resource, b.start, b.end) {
      if i < op.booking {
        assert Allowed(resources, db.bookings[i]);
      }
    }
  }

  predicate During(t: nat, start: nat, end: nat) {
    start <= t < end
  }

  /** The conflict query is exactly "some standing booking shares a millisecond with the slot". */
  lemma ConflictIsSharedTime(b: Booking, resource: nat, start: nat, end: nat)
    requires start < end && b.start < b.end
    ensures Conflicts(b, resource, start, end) <==>
      b.resource == resource && b.confirmed && exists t :: During(t, b.start, b.end) && During(t, start, end)
  {
    if Conflicts(b, resource, start, end) {
      var t := if b.start < start then start else b.start;
      assert During(t, b.start, b.end) && During(t, start, end);
    }
  }

  /** Rounding the length to minutes lets bookings run over the limit by less than 30 seconds. */
  lemma LengthLimit(r: Resource, start: nat, end: nat)
    requires r.maxMinutes.Some? && r.maxMinutes.value != 0 && start < end
    ensures !TooLong(r, start, end) <==> end - start < r.maxMinutes.value * MINUTE + 30_000
  {
    var q, m := RoundDiv(end - start, MINUTE), r.maxMinutes.value;
    assert 2 * (end - start) - MINUTE < 2 * MINUTE * q <= 2 * (end - start) + MINUTE;
  }

  /** Within hours means: one UTC day, not before opening, and out before the closing minute is over. */
  lemma HoursInMilliseconds(start: nat, end: nat, opensAt: nat, closesAt: nat)
    requires start < end
    ensures InHours(start, end, opensAt, closesAt) <==>
      var midnight := start / DAY * DAY;
      && midnight + opensAt * MINUTE <= start
      && end < midnight + (closesAt + 1) * MINUTE
      && end < midnight + DAY
  {
    var midnight := start / DAY * DAY;
    assert start == midnight + start % DAY;
    assert MinuteOfDay(start) >= opensAt <==> start % DAY >= opensAt * MINUTE;
    assert MinuteOfDay(end) <= closesAt <==> end % DAY < (closesAt + 1) * MINUTE;
    if start / DAY == end / DAY {
      assert end == midnight + end % DAY;
    } else {
      assert end / DAY >= start / DAY + 1;
      assert end >= midnight + DAY;
    }
  }

  // ---------------------------------------------------------------- which requests succeed, and what they do

  /** A slot in the future that a verified resident may ask for. */
  predicate IsAskable(
      resources: seq<Resource>, id: nat, unit: Option<nat>, start: Option<nat>, end: Option<nat>, now: nat)
  {
    && id < |resources| && resources[id].isActive && unit.Some? && start.Some? && end.Some?
    && now < start.value < end.value
  }

  /** One UTC day, not before opening, and out before the closing minute is over. */
  predicate SuitsHours(r: Resource, start: nat, end: nat) {
    r.opensAt.Some? && r.closesAt.Some? ==>
      var midnight := start / 86_400_000 * 86_400_000;
      && midnight + r.opensAt.value * 60_000 <= start
      && end < midnight + (r.closesAt.value + 1) * 60_000 && end < midnight + 86_400_000
  }

  /** Less than half a minute longer than the limit. */
  predicate SuitsLimit(r: Resource, start: nat, end: nat) {
    r.maxMinutes.Some? && r.maxMinutes.value != 0 ==> end - start < r.maxMinutes.value * 60_000 + 30_000
  }

  predicate Suits(r: Resource, start: nat, end: nat) {
    SuitsHours(r, start, end) && SuitsLimit(r, start, end)
  }

  /** No standing booking of the resource shares time with the slot. */
  predicate IsFree(bookings: seq<Booking>, resource: nat, start: nat, end: nat) {
    forall i :: 0 <= i < |bookings| && bookings[i].resource == resource && bookings[i].confirmed ==>
      bookings[i].end <= start || end <= bookings[i].start
  }

  lemma FreeIsNotTaken(bookings: seq<Booking>, resource: nat, start: nat, end: nat)
    ensures IsFree(bookings, resource, start, end) <==> !Taken(bookings, resource, start, end)
  {
    if !IsFree(bookings, resource, start, end) {
      var i :| 0 <= i < |bookings| && bookings[i].resource == resource && bookings[i].confirmed
        && !(bookings[i].end <= start || end <= bookings[i].start);
      assert Conflicts(bookings[i], resource, start, end);
    }
  }

  lemma SuitsIsAllowed(r: Resource, start: nat, end: nat)
    requires start < end
    ensures SuitsHours(r, start, end) <==> HoursAllow(r, start, end)
    ensures SuitsLimit(r, start, end) <==> !TooLong(r, start, end)
  {
    if r.opensAt.Some? && r.closesAt.Some? {
      HoursInMilliseconds(start, end, r.opensAt.value, r.closesAt.value);
    }
    if r.maxMinutes.Some? && r.maxMinutes.value != 0 {
      LengthLimit(r, start, end);
    }
  }

  /** A booking is made exactly if the slot may be asked for, suits the resource and is free; and then it is
      all that changes. */
  lemma BooksIff(resources: seq<Resource>, db: Db, op: Op, now: nat)
    requires op.Create?
    ensures var r := Apply(resources, db, op, now);
      && (r.Ok? <==>
            && IsAskable(resources, op.resource, op.unit, op.start, op.end, now)
            && Suits(resources[op.resource], op.start.value, op.end.value)
            && IsFree(db.bookings, op.resource, op.start.value, op.end.value))
      && (r.Ok? ==>
            && r.value.waitlist == db.waitlist && r.value.nextWait == db.nextWait
            && r.value.bookings == db.bookings
                 + [Booking(op.resource, op.unit.value, op.user, op.start.value, op.end.value, true, None, None)])
  {
    if op.start.Some? && op.end.Some? {
      FreeIsNotTaken(db.bookings, op.resource, op.start.value, op.end.value);
      if op.resource < |resources| && op.start.value < op.end.value {
        SuitsIsAllowed(resources[op.resource], op.start.value, op.end.value);
      }
    }
  }

  /** Nobody of this unit waits for this slot yet. */
  predicate IsNew(waitlist: map<nat, Wait>, resource: nat, unit: nat, start: nat, end: nat) {
    forall id :: id in waitlist ==> waitlist[id] != Wait(resource, unit, waitlist[id].user, start, end)
  }

  /** A unit joins the waitlist exactly if the slot may be asked for, is not free, and the unit does not wait
      for it already; then there is one entry more, and nothing else changes. */
  lemma JoinsIff(resources: seq<Resource>, db: Db, op: Op, now: nat)
    requires op.Join?
    ensures var r := Apply(resources, db, op, now);
      && (r.Ok? <==>
            && IsAskable(resources, op.resource, op.unit, op.start, op.end, now)
            && !IsFree(db.bookings, op.resource, op.start.value, op.end.value)
            && IsNew(db.waitlist, op.resource, op.unit.value, op.start.value, op.end.value))
      && (r.Ok? ==>
            && r.value.bookings == db.bookings && r.value.nextWait == db.nextWait + 1
            && r.value.waitlist == db.waitlist[
                 db.nextWait := Wait(op.resource, op.unit.value, op.user, op.start.value, op.end.value)])
  {
    if op.start.Some? && op.end.Some? {
      FreeIsNotTaken(db.bookings, op.resource, op.start.value, op.end.value);
    }
    if IsAskable(resources, op.resource, op.unit, op.start, op.end, now) {
      forall id | id in db.waitlist
        ensures SameRequest(db.waitlist[id], op.resource, op.unit.value, op.start.value, op.end.value)
          <==> db.waitlist[id] == Wait(op.resource, op.unit.value, db.waitlist[id].user, op.start.value, op.end.value)
      {
      }
    }
  }

  /** An entry is left exactly by the user who joined, and only that entry goes. */
  lemma LeavesIff(resources: seq<Resource>, db: Db, op: Op, now: nat)
    requires op.Leave?
    ensures var r := Apply(resources, db, op, now);
      && (r.Ok? <==> op.waitId in db.waitlist && db.waitlist[op.waitId].user == op.user)
      && (r.Ok? ==>
            && r.value.bookings == db.bookings && r.value.nextWait == db.nextWait
            && op.waitId !in r.value.waitlist
            && forall id :: id != op.waitId ==>
                 && (id in r.value.waitlist <==> id in db.waitlist)
                 && (id in db.waitlist ==> r.value.waitlist[id] == db.waitlist[id]))
  {
  }

  /** Who may cancel: whoever booked, a superadmin, and the resource's administrators, chairmen and dispatchers. */
  predicate CanCancel(resources: seq<Resource>, b: Booking, actor: User) {
    || b.bookedBy == actor.id
    || (b.resource < |resources|
        && (actor.role == Superadmin
            || (actor.role !in {Security, ResidentOwner, ResidentTenant}
                && actor.tenant == Some(resources[b.resource].tenant))))
  }

  /** A booking is cancelled exactly if it stands and the actor may cancel it; it then says who did so and
      when, other bookings stay, and exactly those who waited for this slot no longer wait. */
  lemma CancelsIff(resources: seq<Resource>, db: Db, op: Op, now: nat)
    requires op.Cancel?
    ensures var r := Apply(resources, db, op, now);
      && (r.Ok? <==>
            && op.booking < |db.bookings| && db.bookings[op.booking].confirmed
            && CanCancel(resources, db.bookings[op.booking], op.actor))
      && (r.Ok? ==>
            var b := db.bookings[op.booking];
            && r.value.nextWait == db.nextWait
            && r.value.bookings == db.bookings[op.booking := Booking(
                 b.resource, b.unit, b.bookedBy, b.start, b.end, false, Some(op.actor.id), Some(now))]
            && forall id :: id in r.value.waitlist <==>
                 && id in db.waitlist
                 && db.waitlist[id] != Wait(b.resource, db.waitlist[id].unit, db.waitlist[id].user, b.start, b.end))
  {
  }

  /** Why a request is refused. */
  lemma RefusalsAreTrue(resources: seq<Resource>, db: Db, op: Op, now: nat)
    requires Apply(resources, db, op, now).Err?
    ensures match Apply(resources, db, op, now).error
      case ResourceNotFound => (op.Create? || op.Join?) && op.resource >= |resources|
      case ResourceInactive => (op.Create? || op.Join?) && op.resource < |resources| && !resources[op.resource].isActive
      case OwnershipRequired => (op.Create? || op.Join?) && op.unit == None
      case InvalidTimeFormat => (op.Create? || op.Join?) && (op.start == None || op.end == None)
      case StartMustBeFuture => (op.Create? || op.Join?) && op.start.Some? && op.start.value <= now
      case EndBeforeStart =>
        (op.Create? || op.Join?) && op.start.Some? && op.end.Some? && op.end.value <= op.start.value
      case DurationExceedsLimit =>
        op.Create? && op.resource < |resources| && op.start.Some? && op.end.Some?
        && !SuitsLimit(resources[op.resource], op.start.value, op.end.value)
      case OutsideOperatingHours =>
        op.Create? && op.resource < |resources| && op.start.Some? && op.end.Some?
        && !SuitsHours(resources[op.resource], op.start.value, op.end.value)
      case SlotConflict =>
        op.Create? && op.start.Some? && op.end.Some? && !IsFree(db.bookings, op.resource, op.start.value, op.end.value)
      case SlotNotFull =>
        op.Join? && op.start.Some? && op.end.Some? && IsFree(db.bookings, op.resource, op.start.value, op.end.value)
      case AlreadyOnWaitlist =>
        op.Join? && op.unit.Some? && op.start.Some? && op.end.Some?
        && !IsNew(db.waitlist, op.resource, op.unit.value, op.start.value, op.end.value)
      case WaitNotFound => op.Leave? && op.waitId !in db.waitlist
      case LeaveForbidden => op.Leave? && op.waitId in db.waitlist && db.waitlist[op.waitId].user != op.user
      case BookingNotFound => op.Cancel? && op.booking >= |db.bookings|
      case AlreadyCancelled => op.Cancel? && op.booking < |db.bookings| && !db.bookings[op.booking].confirmed
      case CancelForbidden =>
        op.Cancel? && op.booking < |db.bookings| && !CanCancel(resources, db.bookings[op.booking], op.actor)
  {
    if op.Create? || op.Join? {
      if op.start.Some? && op.end.Some? {
        FreeIsNotTaken(db.bookings, op.resource, op.start.value, op.end.value);
        if op.resource < |resources| && op.start.value < op.end.value {
          SuitsIsAllowed(resources[op.resource], op.start.value, op.end.value);
        }
      }
      if op.Join? && Apply(resources, db, op, now).error == AlreadyOnWaitlist {
        JoinsIff(resources, db, op, now);
      }
    }
  }

  /** In every reachable state: once a booking is cancelled, whoever may ask for its slot next gets it. */
  lemma CancelledSlotCanBeBooked(resources: seq<Resource>, ops: Ops, cancel: Op, now: nat, op: Op, later: nat)
    requires cancel.Cancel? && Apply(resources, Run(resources, ops), cancel, now).Ok? && op.Create?
    requires IsAskable(resources, op.resource, op.unit, op.start, op.end, later)
    requires var b := Run(resources, ops).bookings[cancel.booking];
      b.resource == op.resource && b.start == op.start.value && b.end == op.end.value
    ensures Apply(resources, Run(resources, Then(ops, cancel, now)), op, later).Ok?
  {
    var db := Run(resources, ops);
    EveryRunIsDisjoint(resources, ops);
    var b := db.bookings[cancel.booking];
    assert Allowed(resources, b);
    CancelFreesSlot(resources, db, cancel, now);
    SuitsIsAllowed(resources[op.resource], b.start, b.end);
    FreeIsNotTaken(Run(resources, Then(ops, cancel, now)).bookings, b.resource, b.start, b.end);
    BooksIff(resources, Run(resources, Then(ops, cancel, now)), op, later);
  }
}
