/** Meter readings: submitted by residents, reviewed by staff, and what is consumed between them. */
module Meters {
  import opened Prelude

  datatype Kind = ColdWater | HotWater | Electricity | Other

  datatype Status = Pending | Verified | Rejected

  datatype Meter = Meter(unit: nat, tenant: nat, kind: Kind, isActive: bool, initial: real)

  /** A period is a month, counted from the start of year 0; see PeriodsAreMonths. */
  datatype Reading = Reading(
    meter: nat, period: nat, value: real, status: Status, submittedBy: nat, reviewedBy: Option<nat>)

  /** Row numbers are ids: neither meters nor readings are deleted. */
  datatype Db = Db(meters: seq<Meter>, readings: seq<Reading>)

  datatype Error =
    | MeterNotFound | MeterDeactivated | ConfirmedResidentsOnly | ValueBelowBaseline
    | PeriodAlreadySubmitted | ReadingNotFound | WrongTenant

  function Period(year: nat, month: nat): nat
    requires 1 <= month <= 12
  {
    12 * year + month - 1
  }

  /** The queries' "an earlier year, or the same year and an earlier month" is the order of periods. */
  lemma PeriodsAreMonths(y: nat, m: nat, year: nat, month: nat)
    requires 1 <= m <= 12 && 1 <= month <= 12
    ensures Period(y, m) < Period(year, month) <==> y < year || (y == year && m < month)
    ensures Period(y, m) == Period(year, month) <==> y == year && m == month
  {
  }

  // ---------------------------------------------------------------- the queries

  predicate At(r: Reading, meter: nat, period: nat, only: Option<Status>) {
    r.meter == meter && r.period == period && (only.Some? ==> r.status == only.value)
  }

  /** The first row of a meter in a period, of one status or of any. */
  function FindAt(readings: seq<Reading>, meter: nat, period: nat, only: Option<Status>): (row: Option<nat>)
    ensures row.Some? ==> row.value < |readings| && At(readings[row.value], meter, period, only)
    ensures row == None ==> forall i :: 0 <= i < |readings| ==> !At(readings[i], meter, period, only)
  {
    if readings == [] then None
    else
      var n := |readings| - 1;
      var row := FindAt(readings[..n], meter, period, only);
      if row.Some? then row else if At(readings[n], meter, period, only) then Some(n) else None
  }

  predicate Eligible(r: Reading, meter: nat, before: Option<nat>) {
    r.meter == meter && r.status == Verified && (before.Some? ==> r.period < before.value)
  }

  /** The verified row with the greatest period, of all or of those before a period. */
  function LatestVerified(readings: seq<Reading>, meter: nat, before: Option<nat>): (row: Option<nat>)
    ensures row.Some? ==> row.value < |readings| && Eligible(readings[row.value], meter, before)
    ensures row.Some? ==>
      forall i :: 0 <= i < |readings| && Eligible(readings[i], meter, before) ==>
        readings[i].period <= readings[row.value].period
    ensures row == None ==> forall i :: 0 <= i < |readings| ==> !Eligible(readings[i], meter, before)
  {
    if readings == [] then None
    else
      var n := |readings| - 1;
      var row := LatestVerified(readings[..n], meter, before);
      if Eligible(readings[n], meter, before) && (row == None || readings[row.value].period < readings[n].period)
      then Some(n) else row
  }

  /** The value a new reading is compared with, or the one consumption is counted from. */
  function PreviousValue(db: Db, meter: nat, before: Option<nat>): real
    requires meter < |db.meters|
  {
    match LatestVerified(db.readings, meter, before)
    case Some(i) => db.readings[i].value
    case None => db.meters[meter].initial
  }

  // ---------------------------------------------------------------- the operations

  /** `confirmed`: whether the user has a verified ownership of the meter's unit. */
  datatype Op =
    | Submit(meter: nat, period: nat, value: real, user: nat, confirmed: bool)
    | Review(reading: nat, status: Status, actor: User)
    | SetActive(meter: nat, isActive: bool, actor: User)

  function Submitted(db: Db, op: Op): Result<Db, Error>
    requires op.Submit?
  {
    if op.meter >= |db.meters| then Err(MeterNotFound)
    else if !db.meters[op.meter].isActive then Err(MeterDeactivated)
    else if !op.confirmed then Err(ConfirmedResidentsOnly)
    else if op.value < PreviousValue(db, op.meter, None) then Err(ValueBelowBaseline)
    else
      match FindAt(db.readings, op.meter, op.period, None)
      case None => Ok(db.(readings := db.readings + [Reading(op.meter, op.period, op.value, Pending, op.user, None)]))
      case Some(i) =>
        if db.readings[i].status != Rejected then Err(PeriodAlreadySubmitted)
        else Ok(db.(readings := db.readings[i := db.readings[i].(
          value := op.value, status := Pending, submittedBy := op.user, reviewedBy := None)]))
  }

  function Reviewed(db: Db, op: Op): Result<Db, Error>
    requires op.Review?
  {
    if op.reading >= |db.readings| then Err(ReadingNotFound)
    else
      var r := db.readings[op.reading];
      if r.meter < |db.meters| && !BelongsToTenant(op.actor, db.meters[r.meter].tenant) then Err(WrongTenant)
      else Ok(db.(readings := db.readings[op.reading := r.(status := op.status, reviewedBy := Some(op.actor.id))]))
  }

  function Updated(db: Db, op: Op): Result<Db, Error>
    requires op.SetActive?
  {
    if op.meter >= |db.meters| then Err(MeterNotFound)
    else if !BelongsToTenant(op.actor, db.meters[op.meter].tenant) then Err(WrongTenant)
    else Ok(db.(meters := db.meters[op.meter := db.meters[op.meter].(isActive := op.isActive)]))
  }

  function Apply(db: Db, op: Op): Result<Db, Error> {
    match op
    case Submit(_, _, _, _, _) => Submitted(db, op)
    case Review(_, _, _) => Reviewed(db, op)
    case SetActive(_, _, _) => Updated(db, op)
  }

  method FindReading(readings: seq<Reading>, meter: nat, period: nat, only: Option<Status>) returns (row: Option<nat>)
    ensures row == FindAt(readings, meter, period, only)
  {
    row := None;
    for i := 0 to |readings|
      invariant row == FindAt(readings[..i], meter, period, only)
    {
      assert readings[..i + 1][..i] == readings[..i];
      if row == None && At(readings[i], meter, period, only) { row := Some(i); }
    }
    assert readings[..|readings|] == readings;
  }

  method FindLatest(readings: seq<Reading>, meter: nat, before: Option<nat>) returns (row: Option<nat>)
    ensures row == LatestVerified(readings, meter, before)
  {
    row := None;
    for i := 0 to |readings|
      invariant row == LatestVerified(readings[..i], meter, before)
    {
      assert readings[..i + 1][..i] == readings[..i];
      if Eligible(readings[i], meter, before) && (row == None || readings[row.value].period < readings[i].period) {
        row := Some(i);
      }
    }
    assert readings[..|readings|] == readings;
  }

  class MetersService {
    var meters: seq<Meter>
    var readings: seq<Reading>

    function Tables(): Db
      reads this
    {
      Db(meters, readings)
    }

    constructor (meters: seq<Meter>)
      ensures Tables() == Db(meters, [])
    {
      this.meters, readings := meters, [];
    }

    method SubmitReading(op: Op) returns (error: Option<Error>)
      requires op.Submit?
      modifies this`readings
      ensures error == None ==> Submitted(old(Tables()), op) == Ok(Tables())
      ensures error.Some? ==> Submitted(old(Tables()), op) == Err(error.value) && Tables() == old(Tables())
    {
      if op.meter >= |meters| { return Some(MeterNotFound); }
      if !meters[op.meter].isActive { return Some(MeterDeactivated); }
      if !op.confirmed { return Some(ConfirmedResidentsOnly); }
      var last := FindLatest(readings, op.meter, None);
      var baseline := if last.Some? then readings[last.value].value else meters[op.meter].initial;
      if op.value < baseline { return Some(ValueBelowBaseline); }
      var existing := FindReading(readings, op.meter, op.period, None);
      if existing.Some? {
        var row := readings[existing.value];
        if row.status != Rejected { return Some(PeriodAlreadySubmitted); }
        readings := readings[existing.value := row.(
          value := op.value, status := Pending, submittedBy := op.user, reviewedBy := None)];
        return None;
      }
      readings := readings + [Reading(op.meter, op.period, op.value, Pending, op.user, None)];
      return None;
    }

    method ReviewReading(op: Op) returns (error: Option<Error>)
      requires op.Review?
      modifies this`readings
      ensures error == None ==> Reviewed(old(Tables()), op) == Ok(Tables())
      ensures error.Some? ==> Reviewed(old(Tables()), op) == Err(error.value) && Tables() == old(Tables())
    {
      if op.reading >= |readings| { return Some(ReadingNotFound); }
      var row := readings[op.reading];
      if row.meter < |meters| && !BelongsToTenant(op.actor, meters[row.meter].tenant) { return Some(WrongTenant); }
      readings := readings[op.reading := row.(status := op.status, reviewedBy := Some(op.actor.id))];
      return None;
    }
  }

  // ---------------------------------------------------------------- every run

  datatype Ops = Start | Then(before: Ops, op: Op)

  function After(db: Db, op: Op): Db {
    match Apply(db, op)
    case Ok(next) => next
    case Err(_) => db
  }

  function Run(meters: seq<Meter>, ops: Ops): Db {
    if ops == Start then Db(meters, []) else After(Run(meters, ops.before), ops.op)
  }

  /** At most one reading per meter and period, and each belongs to a meter. */
  predicate Unique(db: Db) {
    && (forall i :: 0 <= i < |db.readings| ==> db.readings[i].meter < |db.meters|)
    && (forall i, j :: 0 <= i < j < |db.readings| && db.readings[i].meter == db.readings[j].meter
          ==> db.readings[i].period != db.readings[j].period)
  }

  lemma StepKeepsUnique(db: Db, op: Op)
    requires Unique(db)
    ensures Unique(After(db, op)) && |After(db, op).meters| == |db.meters|
  {
    if op.Submit? && Submitted(db, op).Ok? && FindAt(db.readings, op.meter, op.period, None) == None {
      forall i | 0 <= i < |db.readings| && db.readings[i].meter == op.meter
        ensures db.readings[i].period != op.period
      {
        assert !At(db.readings[i], op.meter, op.period, None);
      }
    }
  }

  lemma {:induction false} EveryRunIsUnique(meters: seq<Meter>, ops: Ops)
    ensures Unique(Run(meters, ops)) && |Run(meters, ops).meters| == |meters|
  {
    if ops.Then? {
      EveryRunIsUnique(meters, ops.before);
      StepKeepsUnique(Run(meters, ops.before), ops.op);
    }
  }

  /** A submitted reading is pending in its period. */
  lemma SubmittedIsPending(db: Db, op: Op)
    requires op.Submit? && Submitted(db, op).Ok?
    ensures var next := Submitted(db, op).value;
      exists k :: 0 <= k < |next.readings| && At(next.readings[k], op.meter, op.period, Some(Pending)) &&
        next.readings[k].value == op.value
  {
    var next := Submitted(db, op).value;
    var row := FindAt(db.readings, op.meter, op.period, None);
    var k := if row.Some? then row.value else |db.readings|;
    assert At(next.readings[k], op.meter, op.period, Some(Pending)) && next.readings[k].value == op.value;
  }

  /** The row of a meter and period is the one every query finds. */
  lemma OnlyRow(db: Db, k: nat, only: Option<Status>)
    requires Unique(db) && k < |db.readings| && At(db.readings[k], db.readings[k].meter, db.readings[k].period, only)
    ensures FindAt(db.readings, db.readings[k].meter, db.readings[k].period, only) == Some(k)
  {
  }

  /** A reading submitted and then verified is what every later query of its period finds. */
  lemma VerifiedIsFound(db: Db, op: Op, actor: User)
    requires Unique(db) && op.Submit? && Submitted(db, op).Ok?
    ensures var next := Submitted(db, op).value;
      var row := FindAt(next.readings, op.meter, op.period, Some(Pending));
      && row.Some? && next.readings[row.value].value == op.value
      && var done := Reviewed(next, Review(row.value, Verified, actor));
      done.Ok? ==>
        FindAt(done.value.readings, op.meter, op.period, Some(Verified)) == row &&
          done.value.readings[row.value].value == op.value
  {
    StepKeepsUnique(db, op);
    var next := After(db, op);
    SubmittedIsPending(db, op);
    var k :| 0 <= k < |next.readings| && At(next.readings[k], op.meter, op.period, Some(Pending)) &&
      next.readings[k].value == op.value;
    OnlyRow(next, k, Some(Pending));
    var review := Review(k, Verified, actor);
    if Reviewed(next, review).Ok? {
      StepKeepsUnique(next, review);
      OnlyRow(After(next, review), k, Some(Verified));
    }
  }

  // ---------------------------------------------------------------- which requests succeed, and what they do

  /** At least every latest verified value: the meter's initial one while nothing is verified. */
  predicate IsNoLess(db: Db, meter: nat, value: real)
    requires meter < |db.meters|
  {
    if forall i :: 0 <= i < |db.readings| && db.readings[i].meter == meter ==> db.readings[i].status != Verified
    then value >= db.meters[meter].initial
    else forall i :: 0 <= i < |db.readings| && IsLast(db, i) && db.readings[i].meter == meter ==>
      value >= db.readings[i].value
  }

  /** A verified reading of its meter with no verified one in a later period. */
  predicate IsLast(db: Db, i: nat)
    requires i < |db.readings|
  {
    && db.readings[i].status == Verified
    && forall j ::
         0 <= j < |db.readings| && db.readings[j].meter == db.readings[i].meter && db.readings[j].status == Verified ==>
           db.readings[j].period <= db.readings[i].period
  }

  lemma BaselineIsLast(db: Db, meter: nat, value: real)
    requires Unique(db) && meter < |db.meters|
    ensures value >= PreviousValue(db, meter, None) <==> IsNoLess(db, meter, value)
  {
    var last := LatestVerified(db.readings, meter, None);
    if last.Some? {
      assert Eligible(db.readings[last.value], meter, None);
      forall j | 0 <= j < |db.readings| && db.readings[j].meter == meter && db.readings[j].status == Verified
        ensures db.readings[j].period <= db.readings[last.value].period
      {
        assert Eligible(db.readings[j], meter, None);
      }
      assert IsLast(db, last.value);
    } else {
      forall i | 0 <= i < |db.readings| && db.readings[i].meter == meter ensures db.readings[i].status != Verified {
        assert !Eligible(db.readings[i], meter, None);
      }
    }
  }

  /** The meter has a reading in the period that was not rejected. */
  predicate IsTaken(readings: seq<Reading>, meter: nat, period: nat) {
    exists i :: 0 <= i < |readings|
      && readings[i].meter == meter && readings[i].period == period && readings[i].status != Rejected
  }

  /** In every state with one reading per meter and period: a reading is accepted exactly from a confirmed resident,
      on an active meter, if it is no less than the last verified one and its period has none but a rejected one. */
  lemma SubmitsIff(db: Db, op: Op)
    requires Unique(db) && op.Submit?
    ensures Apply(db, op).Ok? <==>
      && op.meter < |db.meters| && db.meters[op.meter].isActive && op.confirmed
      && IsNoLess(db, op.meter, op.value) && !IsTaken(db.readings, op.meter, op.period)
  {
    if op.meter < |db.meters| {
      BaselineIsLast(db, op.meter, op.value);
      PeriodIsTaken(db, op.meter, op.period);
    }
  }

  lemma PeriodIsTaken(db: Db, meter: nat, period: nat)
    requires Unique(db)
    ensures var row := FindAt(db.readings, meter, period, None);
      IsTaken(db.readings, meter, period) <==> row.Some? && db.readings[row.value].status != Rejected
  {
    var row := FindAt(db.readings, meter, period, None);
    if IsTaken(db.readings, meter, period) {
      var i :| 0 <= i < |db.readings|
        && db.readings[i].meter == meter && db.readings[i].period == period && db.readings[i].status != Rejected;
      assert At(db.readings[i], meter, period, None);
      assert row == Some(i);
    }
  }

  /** An accepted reading waits for review in its period, either in place of the rejected one or as one more; no
      other reading and no meter changes. */
  lemma AcceptedReadingIs(db: Db, op: Op)
    requires Unique(db) && op.Submit? && Apply(db, op).Ok?
    ensures var next := Apply(db, op).value;
      && next.meters == db.meters
      && exists k :: 0 <= k < |next.readings|
           && next.readings[k] == Reading(op.meter, op.period, op.value, Pending, op.user, None)
           && if k < |db.readings|
              then
                && next.readings == db.readings[k := next.readings[k]] && db.readings[k].status == Rejected
                && db.readings[k].meter == op.meter && db.readings[k].period == op.period
              else next.readings == db.readings + [next.readings[k]]
  {
    var next, row := Apply(db, op).value, FindAt(db.readings, op.meter, op.period, None);
    var k := if row.Some? then row.value else |db.readings|;
    assert next.readings[k] == Reading(op.meter, op.period, op.value, Pending, op.user, None);
  }

  /** A review is accepted exactly from a superadmin or staff of the meter's tenant; it changes the status and says
      who gave it, whatever the status was. */
  lemma ReviewsIff(db: Db, op: Op)
    requires Unique(db) && op.Review?
    ensures var r := Apply(db, op);
      && (r.Ok? <==>
            && op.reading < |db.readings|
            && (op.actor.role == Superadmin
                || op.actor.tenant == Some(db.meters[db.readings[op.reading].meter].tenant)))
      && (r.Ok? ==>
            var old' := db.readings[op.reading];
            r.value == Db(db.meters, db.readings[op.reading := Reading(
              old'.meter, old'.period, old'.value, op.status, old'.submittedBy, Some(op.actor.id))]))
      && (r.Err? ==> r.error == if op.reading < |db.readings| then WrongTenant else ReadingNotFound)
  {
  }

  /** A meter is switched on or off exactly by a superadmin or staff of its tenant. */
  lemma SwitchesIff(db: Db, op: Op)
    requires op.SetActive?
    ensures var r := Apply(db, op);
      && (r.Ok? <==>
            && op.meter < |db.meters|
            && (op.actor.role == Superadmin || op.actor.tenant == Some(db.meters[op.meter].tenant)))
      && (r.Ok? ==>
            var m := db.meters[op.meter];
            r.value == Db(db.meters[op.meter := Meter(m.unit, m.tenant, m.kind, op.isActive, m.initial)], db.readings))
      && (r.Err? ==> r.error == if op.meter < |db.meters| then WrongTenant else MeterNotFound)
  {
  }

  /** Why a reading is refused. */
  lemma SubmitIsRefused(db: Db, op: Op)
    requires Unique(db) && op.Submit? && Apply(db, op).Err?
    ensures match Apply(db, op).error
      case MeterNotFound => op.meter >= |db.meters|
      case MeterDeactivated => op.meter < |db.meters| && !db.meters[op.meter].isActive
      case ConfirmedResidentsOnly => !op.confirmed
      case ValueBelowBaseline => op.meter < |db.meters| && !IsNoLess(db, op.meter, op.value)
      case PeriodAlreadySubmitted => IsTaken(db.readings, op.meter, op.period)
      case _ => false
  {
    if op.meter < |db.meters| {
      BaselineIsLast(db, op.meter, op.value);
      PeriodIsTaken(db, op.meter, op.period);
    }
  }

  // ---------------------------------------------------------------- readings in order never fall

  predicate EarlierVerified(r: Reading, later: Reading, meter: nat) {
    Eligible(r, meter, None) && Eligible(later, meter, None) && r.period < later.period
  }

  /** Verified readings of a meter never fall from one period to a later one, nor below the start. */
  predicate Rising(db: Db, meter: nat)
    requires meter < |db.meters|
  {
    && (forall i :: 0 <= i < |db.readings| && Eligible(db.readings[i], meter, None)
          ==> db.meters[meter].initial <= db.readings[i].value)
    && (forall i, j ::
      0 <= i < |db.readings| && 0 <= j < |db.readings| && EarlierVerified(db.readings[i], db.readings[j], meter) ==>
        db.readings[i].value <= db.readings[j].value)
  }

  /** In order: nothing of the meter is under review and the period is later than every verified one. */
  predicate Fresh(readings: seq<Reading>, meter: nat, period: nat) {
    forall i :: 0 <= i < |readings| && readings[i].meter == meter ==>
      readings[i].status != Pending && (readings[i].status == Verified ==> readings[i].period < period)
  }

  /** Readings are submitted in order, and each is reviewed once before the next. */
  predicate Orderly(db: Db, op: Op) {
    match op
    case Submit(meter, period, _, _, _) => Fresh(db.readings, meter, period)
    case Review(id, _, _) => id < |db.readings| ==> db.readings[id].status == Pending
    case SetActive(_, _, _) => true
  }

  predicate OrderlyRun(meters: seq<Meter>, ops: Ops) {
    ops.Then? ==> OrderlyRun(meters, ops.before) && Orderly(Run(meters, ops.before), ops.op)
  }

  /** A reading under review is in front of every verified one, and alone. */
  predicate Ahead(r: Reading, other: Reading) {
    r.status == Pending && other.meter == r.meter && other.status != Rejected ==>
      other.status == Verified && other.period < r.period
  }

  predicate Below(r: Reading, other: Reading) {
    other.status == Verified && r.status != Rejected && other.meter == r.meter && other.period < r.period ==>
      other.value <= r.value
  }

  predicate InOrder(db: Db) {
    && Unique(db)
    && (forall i :: 0 <= i < |db.readings| && db.readings[i].status != Rejected
          ==> db.meters[db.readings[i].meter].initial <= db.readings[i].value)
    && (forall i, j :: 0 <= i < |db.readings| && 0 <= j < |db.readings| && i != j ==>
      Ahead(db.readings[i], db.readings[j]))
    && (forall i, j :: 0 <= i < |db.readings| && 0 <= j < |db.readings| && i != j ==>
      Below(db.readings[i], db.readings[j]))
  }

  /** In order, a value at the baseline or above is at or above every verified one. */
  lemma BaselineIsHighest(db: Db, meter: nat, i: nat)
    requires InOrder(db) && i < |db.readings| && Eligible(db.readings[i], meter, None)
    ensures db.readings[i].value <= PreviousValue(db, meter, None)
    ensures db.meters[meter].initial <= PreviousValue(db, meter, None)
  {
    var j := LatestVerified(db.readings, meter, None).value;
    if i != j {
      assert Below(db.readings[j], db.readings[i]);
    }
  }

  /** What a submission puts in front of the other readings of the meter. */
  lemma SubmittedIsAhead(db: Db, op: Op, i: nat)
    requires InOrder(db) && op.Submit? && Orderly(db, op) && Submitted(db, op).Ok? && i < |db.readings|
    ensures var r := Reading(op.meter, op.period, op.value, Pending, op.user, None);
      && Ahead(r, db.readings[i]) && Below(r, db.readings[i]) && Ahead(db.readings[i], r) && Below(db.readings[i], r)
    ensures db.meters[op.meter].initial <= op.value
  {
    var latest := LatestVerified(db.readings, op.meter, None);
    if latest.Some? {
      BaselineIsHighest(db, op.meter, latest.value);
    }
    if Eligible(db.readings[i], op.meter, None) {
      BaselineIsHighest(db, op.meter, i);
    }
  }

  lemma SubmitKeepsOrder(db: Db, op: Op)
    requires InOrder(db) && op.Submit? && Orderly(db, op)
    ensures InOrder(After(db, op))
  {
    StepKeepsUnique(db, op);
    if Submitted(db, op).Ok? {
      var next := After(db, op);
      var row := FindAt(db.readings, op.meter, op.period, None);
      var k := if row.Some? then row.value else |db.readings|;
      var r := Reading(op.meter, op.period, op.value, Pending, op.user, None);
      assert next.readings[k] == r && forall i :: 0 <= i < |db.readings| && i != k ==>
        next.readings[i] == db.readings[i];
      if LatestVerified(db.readings, op.meter, None).Some? {
        BaselineIsHighest(db, op.meter, LatestVerified(db.readings, op.meter, None).value);
      }
      forall i, j | 0 <= i < |next.readings| && 0 <= j < |next.readings| && i != j
        ensures Ahead(next.readings[i], next.readings[j]) && Below(next.readings[i], next.readings[j])
      {
        if i == k {
          SubmittedIsAhead(db, op, j);
        } else if j == k {
          SubmittedIsAhead(db, op, i);
        } else {
          assert Ahead(db.readings[i], db.readings[j]) && Below(db.readings[i], db.readings[j]);
        }
      }
    }
  }

  lemma ReviewKeepsOrder(db: Db, op: Op)
    requires InOrder(db) && op.Review? && Orderly(db, op)
    ensures InOrder(After(db, op))
  {
    StepKeepsUnique(db, op);
    if Reviewed(db, op).Ok? {
      var next, k := After(db, op), op.reading;
      forall i, j | 0 <= i < |db.readings| && 0 <= j < |db.readings| && i != j
        ensures Ahead(next.readings[i], next.readings[j]) && Below(next.readings[i], next.readings[j])
      {
        assert Ahead(db.readings[i], db.readings[j]) && Below(db.readings[i], db.readings[j]);
        assert Ahead(db.readings[j], db.readings[i]);
      }
    }
  }

  lemma {:induction false} OrderlyRunStaysInOrder(meters: seq<Meter>, ops: Ops)
    requires OrderlyRun(meters, ops)
    ensures InOrder(Run(meters, ops)) && |Run(meters, ops).meters| == |meters|
  {
    EveryRunIsUnique(meters, ops);
    if ops.Then? {
      OrderlyRunStaysInOrder(meters, ops.before);
      var db := Run(meters, ops.before);
      match ops.op
      case Submit(_, _, _, _, _) => SubmitKeepsOrder(db, ops.op);
      case Review(_, _, _) => ReviewKeepsOrder(db, ops.op);
      case SetActive(_, _, _) =>
    }
  }

  lemma InOrderRises(db: Db, meter: nat)
    requires InOrder(db) && meter < |db.meters|
    ensures Rising(db, meter)
  {
    forall i, j | 0 <= i < |db.readings| && 0 <= j < |db.readings| &&
      EarlierVerified(db.readings[i], db.readings[j], meter)
      ensures db.readings[i].value <= db.readings[j].value
    {
      assert Below(db.readings[j], db.readings[i]);
    }
  }

  /** Submitting and reviewing in order keeps every meter's verified readings rising. */
  lemma EveryOrderlyRunRises(meters: seq<Meter>, ops: Ops, meter: nat)
    requires OrderlyRun(meters, ops) && meter < |meters|
    ensures |Run(meters, ops).meters| == |meters| && Rising(Run(meters, ops), meter)
  {
    OrderlyRunStaysInOrder(meters, ops);
    InOrderRises(Run(meters, ops), meter);
  }

  /** At least the last verified value of an earlier period, and at most that of every later one. */
  predicate FitsBetween(db: Db, id: nat)
    requires id < |db.readings| && db.readings[id].meter < |db.meters|
  {
    var r := db.readings[id];
    && r.value >= PreviousValue(db, r.meter, Some(r.period))
    && (forall i :: 0 <= i < |db.readings| && EarlierVerified(r.(status := Verified), db.readings[i], r.meter)
          ==> r.value <= db.readings[i].value)
  }

  /** The value is compared with the baseline when it is submitted, not when it is verified, and only with
      the latest verified one: verifying a reading keeps the readings rising exactly when its value still
      fits between the verified readings of the periods before and after it. */
  lemma {:induction false} VerifyingKeepsRisingIff(db: Db, id: nat, actor: User)
    requires Unique(db) && id < |db.readings| && Reviewed(db, Review(id, Verified, actor)).Ok?
    requires Rising(db, db.readings[id].meter)
    ensures Rising(After(db, Review(id, Verified, actor)), db.readings[id].meter) <==> FitsBetween(db, id)
  {
    if Rising(After(db, Review(id, Verified, actor)), db.readings[id].meter) {
      RisingFits(db, id, actor);
    }
    if FitsBetween(db, id) {
      FittingRises(db, id, actor);
    }
  }

  lemma {:induction false} RisingFits(db: Db, id: nat, actor: User)
    requires Unique(db) && id < |db.readings| && Reviewed(db, Review(id, Verified, actor)).Ok?
    requires Rising(After(db, Review(id, Verified, actor)), db.readings[id].meter)
    ensures FitsBetween(db, id)
  {
    var (r, next) := (db.readings[id], After(db, Review(id, Verified, actor)));
    var before := LatestVerified(db.readings, r.meter, Some(r.period));
    if before.Some? {
      assert EarlierVerified(next.readings[before.value], next.readings[id], r.meter);
    } else {
      assert Eligible(next.readings[id], r.meter, None);
    }
    forall i | 0 <= i < |db.readings| && EarlierVerified(r.(status := Verified), db.readings[i], r.meter)
      ensures r.value <= db.readings[i].value
    {
      assert EarlierVerified(next.readings[id], next.readings[i], r.meter);
    }
  }

  lemma {:induction false} NotBelowEarlier(db: Db, meter: nat, period: nat, i: nat)
    requires meter < |db.meters| && Rising(db, meter) && i < |db.readings| &&
      Eligible(db.readings[i], meter, Some(period))
    requires Unique(db)
    ensures db.readings[i].value <= PreviousValue(db, meter, Some(period))
  {
    var last := LatestVerified(db.readings, meter, Some(period)).value;
    if i != last {
      assert EarlierVerified(db.readings[i], db.readings[last], meter);
    }
  }

  lemma {:induction false} FittingRises(db: Db, id: nat, actor: User)
    requires Unique(db) && id < |db.readings| && Reviewed(db, Review(id, Verified, actor)).Ok?
    requires Rising(db, db.readings[id].meter) && FitsBetween(db, id)
    ensures Rising(After(db, Review(id, Verified, actor)), db.readings[id].meter)
  {
    var (r, next) := (db.readings[id], After(db, Review(id, Verified, actor)));
    var before := LatestVerified(db.readings, r.meter, Some(r.period));
    if before.Some? {
      assert Eligible(db.readings[before.value], r.meter, None);
    }
    forall i, j | 0 <= i < |next.readings| && 0 <= j < |next.readings| &&
      EarlierVerified(next.readings[i], next.readings[j], r.meter)
      ensures next.readings[i].value <= next.readings[j].value
    {
      if i == id {
        assert EarlierVerified(r.(status := Verified), db.readings[j], r.meter);
      } else if j == id {
        NotBelowEarlier(db, r.meter, r.period, i);
      } else {
        assert EarlierVerified(db.readings[i], db.readings[j], r.meter);
      }
    }
  }

  /** Does a step that verifies a reading of the meter verify one that fits? */
  predicate FittingStep(db: Db, op: Op, meter: nat) {
    (op.Review? && op.status == Verified && Reviewed(db, op).Ok?
     && db.readings[op.reading].meter == meter < |db.meters|) ==>
      FitsBetween(db, op.reading)
  }

  /** Steps that verify nothing of the meter, and steps that take a reading back, keep it rising. */
  lemma {:induction false} OtherStepsKeepRising(db: Db, op: Op, meter: nat)
    requires Unique(db) && meter < |db.meters| && Rising(db, meter)
    requires op.Review? && op.status == Verified && op.reading < |db.readings| ==>
      db.readings[op.reading].meter != meter
    ensures Unique(After(db, op)) && |After(db, op).meters| == |db.meters| && Rising(After(db, op), meter)
  {
    StepKeepsUnique(db, op);
    var next := After(db, op);
    forall i, j | 0 <= i < |next.readings| && 0 <= j < |next.readings| &&
      EarlierVerified(next.readings[i], next.readings[j], meter)
      ensures next.readings[i].value <= next.readings[j].value
    {
      assert EarlierVerified(db.readings[i], db.readings[j], meter);
    }
  }

  predicate RisesThroughout(meters: seq<Meter>, ops: Ops, meter: nat)
    requires meter < |Run(meters, ops).meters|
  {
    Rising(Run(meters, ops), meter) &&
    (ops.Then? ==> meter < |Run(meters, ops.before).meters| && RisesThroughout(meters, ops.before, meter))
  }

  predicate FittingRun(meters: seq<Meter>, ops: Ops, meter: nat) {
    ops.Then? ==> FittingRun(meters, ops.before, meter) && FittingStep(Run(meters, ops.before), ops.op, meter)
  }

  /** Over all runs: a meter's verified readings rise after every step if and only if every reading fits
      when it is verified. */
  lemma {:induction false} RisesThroughoutIff(meters: seq<Meter>, ops: Ops, meter: nat)
    requires meter < |meters|
    ensures |Run(meters, ops).meters| == |meters| &&
      (RisesThroughout(meters, ops, meter) <==> FittingRun(meters, ops, meter))
  {
    EveryRunIsUnique(meters, ops);
    if ops.Then? {
      var (db, op) := (Run(meters, ops.before), ops.op);
      EveryRunIsUnique(meters, ops.before);
      RisesThroughoutIff(meters, ops.before, meter);
      if Rising(db, meter) {
        if op.Review? && op.status == Verified && Reviewed(db, op).Ok? && db.readings[op.reading].meter == meter {
          VerifyingKeepsRisingIff(db, op.reading, op.actor);
        } else if !(op.Review? && op.status == Verified && op.reading < |db.readings| &&
          db.readings[op.reading].meter == meter) {
          OtherStepsKeepRising(db, op, meter);
        }
      }
    }
  }

  /** Two months submitted before either is reviewed: both pass the comparison, and the readings fall. */
  lemma OutOfOrderReadingsFall(staff: User)
    requires BelongsToTenant(staff, 0)
    ensures var ops := Then(Then(Then(Then(Start, Submit(0, 24300, 100.0, 1, true)), Submit(0, 24301, 50.0, 1, true)),
        Review(0, Verified, staff)), Review(1, Verified, staff));
      |Run([Meter(0, 0, ColdWater, true, 0.0)], ops).meters| == 1 &&
        !Rising(Run([Meter(0, 0, ColdWater, true, 0.0)], ops), 0)
  {
    var meters := [Meter(0, 0, ColdWater, true, 0.0)];
    var one := Then(Start, Submit(0, 24300, 100.0, 1, true));
    var two := Then(one, Submit(0, 24301, 50.0, 1, true));
    var three := Then(two, Review(0, Verified, staff));
    var four := Then(three, Review(1, Verified, staff));
    var a, b := Reading(0, 24300, 100.0, Pending, 1, None), Reading(0, 24301, 50.0, Pending, 1, None);
    assert Run(meters, one) == Db(meters, [a]);
    assert Run(meters, two) == Db(meters, [a, b]);
    assert Run(meters, three).readings == [a.(status := Verified, reviewedBy := Some(staff.id)), b];
    var db := Run(meters, four);
    assert EarlierVerified(db.readings[0], db.readings[1], 0);
  }

  const COLD := [Meter(0, 0, ColdWater, true, 0.0)]

  /** The earlier month passes the comparison with the later one. */
  lemma EarlierMonthPasses(a: Reading)
    requires a.meter == 0 && a.period == 24301 && a.value == 100.0 && a.status == Verified
    ensures After(Db(COLD, [a]), Submit(0, 24300, 150.0, 1, true)) ==
      Db(COLD, [a, Reading(0, 24300, 150.0, Pending, 1, None)])
  {
    assert Eligible([a][0], 0, None);
    assert [a] + [Reading(0, 24300, 150.0, Pending, 1, None)] == [a, Reading(0, 24300, 150.0, Pending, 1, None)];
  }

  lemma EarlierMonthFalls(a: Reading, b: Reading, staff: User)
    requires BelongsToTenant(staff, 0) && a.meter == 0 && a.period == 24301 && a.value == 100.0 && a.status == Verified
    requires b == Reading(0, 24300, 150.0, Pending, 1, None)
    ensures var next := After(Db(COLD, [a, b]), Review(1, Verified, staff)); |next.meters| == 1 && !Rising(next, 0)
  {
    var next := After(Db(COLD, [a, b]), Review(1, Verified, staff));
    assert EarlierVerified(next.readings[1], next.readings[0], 0);
  }

  /** A month submitted after a later one was verified: the value is compared with the later month's, so it
      must reach that, and the readings fall from it. */
  lemma EarlierMonthReadingFalls(staff: User)
    requires BelongsToTenant(staff, 0)
    ensures var ops := Then(Then(Then(Then(Start, Submit(0, 24301, 100.0, 1, true)), Review(0, Verified, staff)),
        Submit(0, 24300, 150.0, 1, true)), Review(1, Verified, staff));
      |Run(COLD, ops).meters| == 1 && !Rising(Run(COLD, ops), 0)
  {
    var one := Then(Start, Submit(0, 24301, 100.0, 1, true));
    var two := Then(one, Review(0, Verified, staff));
    var a := Reading(0, 24301, 100.0, Verified, 1, Some(staff.id));
    assert Run(COLD, one) == Db(COLD, [Reading(0, 24301, 100.0, Pending, 1, None)]);
    assert Run(COLD, two) == Db(COLD, [a]);
    EarlierMonthPasses(a);
    EarlierMonthFalls(a, Reading(0, 24300, 150.0, Pending, 1, None), staff);
  }
}
