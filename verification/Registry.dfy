/** The ownership registry: units and their areas, claims of ownership, their verification and
    rejection, and the areas cached on buildings and tenants. */
module Registry {
  import opened Prelude

  datatype Kind = Owner | Renter | FamilyMember

  /** Areas in square metres. */
  datatype Unit = Unit(building: nat, area: real)

  /** Shares in percent. */
  datatype Ownership = Ownership(id: nat, user: nat, unit: nat, kind: Kind, share: real, verified: bool)

  datatype Person = Person(tenant: Option<nat>, verified: bool)

  /** `buildings[b]` is the tenant building b belongs to; the cached areas stand beside it. */
  datatype Db = Db(
    buildings: seq<nat>, buildingArea: seq<real>,
    tenantArea: seq<real>, tenantUnits: seq<nat>,
    units: seq<Unit>, people: seq<Person>, ownerships: seq<Ownership>, nextId: nat)

  datatype Error =
    | InvalidRequest | BlockNotFound | CrossTenant | UnitNotFound | RequestExists | InvalidShareRange
    | ShareExceedsTotal | OwnershipNotFound | OnlyConfirmedUnlink
    | RecordMissing  // a row the database refuses to update because it is not there

  function TenantOf(db: Db, unit: nat): nat
    requires unit < |db.units| && db.units[unit].building < |db.buildings|
  {
    db.buildings[db.units[unit].building]
  }

  // ---------------------------------------------------------------- sums over the tables

  function AreaOfBuilding(units: seq<Unit>, building: nat): real {
    if units == [] then 0.0
    else
      var last := units[|units| - 1];
      AreaOfBuilding(units[..|units| - 1], building) + if last.building == building then last.area else 0.0
  }

  predicate InTenant(buildings: seq<nat>, u: Unit, tenant: nat) {
    u.building < |buildings| && buildings[u.building] == tenant
  }

  function AreaOfTenant(buildings: seq<nat>, units: seq<Unit>, tenant: nat): real {
    if units == [] then 0.0
    else
      var last := units[|units| - 1];
      AreaOfTenant(buildings, units[..|units| - 1], tenant) +
      if InTenant(buildings, last, tenant) then last.area else 0.0
  }

  function UnitsOfTenant(buildings: seq<nat>, units: seq<Unit>, tenant: nat): nat {
    if units == [] then 0
    else
      UnitsOfTenant(buildings, units[..|units| - 1], tenant) +
      if InTenant(buildings, units[|units| - 1], tenant) then 1 else 0
  }

  /** The verified shares of a unit, except those of one record. */
  function SharesBut(rows: seq<Ownership>, unit: nat, but: Option<nat>): real {
    if rows == [] then 0.0
    else
      var last := rows[|rows| - 1];
      SharesBut(rows[..|rows| - 1], unit, but)
      + if last.unit == unit && last.verified && but != Some(last.id) then last.share else 0.0
  }

  function Shares(rows: seq<Ownership>, unit: nat): real {
    SharesBut(rows, unit, None)
  }

  /** The row with this id; |rows| if there is none. */
  function Find(rows: seq<Ownership>, id: nat): (i: nat)
    ensures i <= |rows| && (i < |rows| ==> rows[i].id == id)
    ensures i == |rows| ==> forall k :: 0 <= k < |rows| ==> rows[k].id != id
  {
    if rows == [] then 0 else if rows[0].id == id then 0 else 1 + Find(rows[1..], id)
  }

  predicate HoldsVerified(rows: seq<Ownership>, user: nat) {
    exists k :: 0 <= k < |rows| && rows[k].user == user && rows[k].verified
  }

  function Without(rows: seq<Ownership>, i: nat): seq<Ownership>
    requires i < |rows|
  {
    rows[..i] + rows[i + 1..]
  }

  // ---------------------------------------------------------------- the operations

  datatype Op =
    | AddUnit(building: nat, caller: Option<User>, area: real)
    | Claim(user: nat, unit: nat, kind: Kind, share: Option<real>)
    | Decide(id: nat, verifier: User, approve: bool, approvedShare: Option<real>)
    | Unlink(id: nat, staff: User)

  /** Recomputes the cached areas of one building and of its tenant. */
  function Recalculated(db: Db, building: nat): Db
    requires building < |db.buildings|
  {
    var tenant := db.buildings[building];
    var bArea := AreaOfBuilding(db.units, building);
    var tArea := AreaOfTenant(db.buildings, db.units, tenant);
    var count := UnitsOfTenant(db.buildings, db.units, tenant);
    db.(buildingArea := if building < |db.buildingArea| then db.buildingArea[building := bArea] else db.buildingArea,
        tenantArea := if tenant < |db.tenantArea| then db.tenantArea[tenant := tArea] else db.tenantArea,
        tenantUnits := if tenant < |db.tenantUnits| then db.tenantUnits[tenant := count] else db.tenantUnits)
  }

  function UnitAdded(db: Db, op: Op): Result<Db, Error>
    requires op.AddUnit?
  {
    if op.area < 1.0 then Err(InvalidRequest)
    else if op.building >= |db.buildings| then Err(BlockNotFound)
    else if op.caller.Some? && !BelongsToTenant(op.caller.value, db.buildings[op.building]) then Err(CrossTenant)
    else Ok(Recalculated(db.(units := db.units + [Unit(op.building, op.area)]), op.building))
  }

  function Claimed(db: Db, op: Op): Result<Db, Error>
    requires op.Claim?
  {
    if op.unit >= |db.units| || db.units[op.unit].building >= |db.buildings| then Err(UnitNotFound)
    else if exists k :: 0 <= k < |db.ownerships| && db.ownerships[k].user == op.user && db.ownerships[k].unit == op.unit
      then Err(RequestExists)
    else
      var share := if op.share.Some? then op.share.value else 100.0;
      if share <= 0.0 || share > 100.0 then Err(InvalidShareRange)
      else if Shares(db.ownerships, op.unit) + share > 100.0 then Err(ShareExceedsTotal)
      else if op.user >= |db.people| then Err(RecordMissing)
      else Ok(db.(
        people := db.people[op.user := db.people[op.user].(tenant := Some(TenantOf(db, op.unit)))],
        ownerships := db.ownerships + [Ownership(db.nextId, op.user, op.unit, op.kind, share, false)],
        nextId := db.nextId + 1))
  }

  predicate ManagedBy(db: Db, row: Ownership, staff: User) {
    staff.role == Superadmin
    || (row.unit < |db.units| && db.units[row.unit].building < |db.buildings| &&
      staff.tenant == Some(TenantOf(db, row.unit)))
  }

  /** Is there another record of this user in the tenant of the unit of record i? */
  predicate ElsewhereInTenant(db: Db, i: nat)
    requires i < |db.ownerships|
  {
    var row := db.ownerships[i];
    exists k :: 0 <= k < |db.ownerships| && k != i && db.ownerships[k].user == row.user
      && db.ownerships[k].unit < |db.units| && row.unit < |db.units|
      && db.units[db.ownerships[k].unit].building < |db.buildings| && db.units[row.unit].building < |db.buildings|
      && TenantOf(db, db.ownerships[k].unit) == TenantOf(db, row.unit)
  }

  /** `verifyOwnership`: approval, or rejection, which deletes the record. */
  function Decided(db: Db, op: Op): Result<Db, Error>
    requires op.Decide?
  {
    var i := Find(db.ownerships, op.id);
    if op.approvedShare.Some? && !(0.01 <= op.approvedShare.value <= 100.0) then Err(InvalidRequest)
    else if i >= |db.ownerships| then Err(OwnershipNotFound)
    else
      var row := db.ownerships[i];
      var share := if op.approvedShare.Some? then op.approvedShare.value else row.share;
      if !ManagedBy(db, row, op.verifier) then Err(CrossTenant)
      else if row.user >= |db.people| then Err(RecordMissing)
      else if op.approve then
        if SharesBut(db.ownerships, row.unit, Some(row.id)) + share > 100.0 then Err(ShareExceedsTotal)
        else Ok(db.(
          ownerships := db.ownerships[i := row.(verified := true, share := share)],
          people := db.people[row.user := db.people[row.user].(verified := true)]))
      else Ok(db.(
        ownerships := Without(db.ownerships, i),
        people := if ElsewhereInTenant(db, i) then db.people
                  else db.people[row.user := db.people[row.user].(tenant := None)]))
  }

  function Unlinked(db: Db, op: Op): Result<Db, Error>
    requires op.Unlink?
  {
    var i := Find(db.ownerships, op.id);
    if i >= |db.ownerships| then Err(OwnershipNotFound)
    else
      var row := db.ownerships[i];
      if !row.verified then Err(OnlyConfirmedUnlink)
      else if !ManagedBy(db, row, op.staff) then Err(CrossTenant)
      else if row.user >= |db.people| then Err(RecordMissing)
      else
        var rest := Without(db.ownerships, i);
        Ok(db.(
          ownerships := rest,
          people := if HoldsVerified(rest, row.user) then db.people
                    else db.people[row.user := db.people[row.user].(verified := false)]))
  }

  function Apply(db: Db, op: Op): Result<Db, Error> {
    match op
    case AddUnit(_, _, _) => UnitAdded(db, op)
    case Claim(_, _, _, _) => Claimed(db, op)
    case Decide(_, _, _, _) => Decided(db, op)
    case Unlink(_, _) => Unlinked(db, op)
  }

  /** Buildings and residents are there, units and ownerships are not yet. */
  predicate IsEmpty(db: Db) {
    && db.units == [] && db.ownerships == []
    && |db.buildingArea| == |db.buildings| && |db.tenantUnits| == |db.tenantArea|
    && (forall b :: 0 <= b < |db.buildings| ==> db.buildings[b] < |db.tenantArea| && db.buildingArea[b] == 0.0)
    && (forall t :: 0 <= t < |db.tenantArea| ==> db.tenantArea[t] == 0.0 && db.tenantUnits[t] == 0)
  }

  // ---------------------------------------------------------------- what every run keeps

  predicate Rows(db: Db) {
    && (forall k :: 0 <= k < |db.ownerships| ==>
          var o := db.ownerships[k];
          && o.id < db.nextId && o.user < |db.people| && o.unit < |db.units| && 0.0 < o.share <= 100.0
          && (o.verified ==> db.people[o.user].verified))
    && (forall j, k :: 0 <= j < k < |db.ownerships| ==>
          db.ownerships[j].id != db.ownerships[k].id
          && !(db.ownerships[j].user == db.ownerships[k].user && db.ownerships[j].unit == db.ownerships[k].unit))
  }

  predicate SharesFit(db: Db) {
    forall unit :: 0 <= unit < |db.units| ==> Shares(db.ownerships, unit) <= 100.0
  }

  predicate AreasCached(db: Db) {
    && |db.buildingArea| == |db.buildings| && |db.tenantUnits| == |db.tenantArea|
    && (forall b :: 0 <= b < |db.buildings| ==>
          db.buildings[b] < |db.tenantArea| && db.buildingArea[b] == AreaOfBuilding(db.units, b))
    && (forall t :: 0 <= t < |db.tenantArea| ==>
          && db.tenantArea[t] == AreaOfTenant(db.buildings, db.units, t)
          && db.tenantUnits[t] == UnitsOfTenant(db.buildings, db.units, t))
    && (forall u :: 0 <= u < |db.units| ==> db.units[u].building < |db.buildings| && db.units[u].area >= 1.0)
  }

  predicate Inv(db: Db) {
    Rows(db) && SharesFit(db) && AreasCached(db)
  }

  lemma {:induction false} SharesUpdate(rows: seq<Ownership>, i: nat, changed: Ownership, unit: nat)
    requires i < |rows|
    ensures Shares(rows[i := changed], unit) == Shares(rows, unit)
      - (if rows[i].unit == unit && rows[i].verified then rows[i].share else 0.0)
      + (if changed.unit == unit && changed.verified then changed.share else 0.0)
  {
    var init := rows[..|rows| - 1];
    if i == |rows| - 1 {
      assert rows[i := changed][..|rows| - 1] == init;
    } else {
      assert rows[i := changed][..|rows| - 1] == init[i := changed];
      SharesUpdate(init, i, changed, unit);
    }
  }

  lemma {:induction false} SharesWithout(rows: seq<Ownership>, i: nat, unit: nat)
    requires i < |rows|
    ensures Shares(Without(rows, i), unit)
      == Shares(rows, unit) - (if rows[i].unit == unit && rows[i].verified then rows[i].share else 0.0)
  {
    var init := rows[..|rows| - 1];
    if i == |rows| - 1 {
      assert Without(rows, i) == init;
    } else {
      assert Without(rows, i)[..|rows| - 2] == Without(init, i);
      SharesWithout(init, i, unit);
    }
  }

  lemma {:induction false} SharesButOne(rows: seq<Ownership>, i: nat, unit: nat)
    requires i < |rows| && forall k :: 0 <= k < |rows| && k != i ==> rows[k].id != rows[i].id
    ensures SharesBut(rows, unit, Some(rows[i].id))
      == Shares(rows, unit) - (if rows[i].unit == unit && rows[i].verified then rows[i].share else 0.0)
  {
    var init := rows[..|rows| - 1];
    if i == |rows| - 1 {
      SharesButNone(init, rows[i].id, unit);
    } else {
      SharesButOne(init, i, unit);
    }
  }

  lemma {:induction false} SharesButNone(rows: seq<Ownership>, id: nat, unit: nat)
    requires forall k :: 0 <= k < |rows| ==> rows[k].id != id
    ensures SharesBut(rows, unit, Some(id)) == Shares(rows, unit)
  {
    if rows != [] { SharesButNone(rows[..|rows| - 1], id, unit); }
  }

  lemma {:induction false} NoShares(rows: seq<Ownership>, unit: nat)
    requires forall k :: 0 <= k < |rows| ==> rows[k].unit != unit
    ensures Shares(rows, unit) == 0.0
  {
    if rows != [] { NoShares(rows[..|rows| - 1], unit); }
  }

  lemma AddUnitKeepsInv(db: Db, op: Op)
    requires Inv(db) && op.AddUnit? && UnitAdded(db, op).Ok?
    ensures Inv(UnitAdded(db, op).value)
  {
    var next := UnitAdded(db, op).value;
    assert next.units[..|db.units|] == db.units;
    NoShares(db.ownerships, |db.units|);
  }

  lemma ClaimKeepsInv(db: Db, op: Op)
    requires Inv(db) && op.Claim? && Claimed(db, op).Ok?
    ensures Inv(Claimed(db, op).value)
  {
    var next := Claimed(db, op).value;
    assert next.ownerships[..|db.ownerships|] == db.ownerships;
    forall unit | 0 <= unit < |db.units| ensures Shares(next.ownerships, unit) <= 100.0 {
      assert Shares(next.ownerships, unit) == Shares(db.ownerships, unit);
    }
  }

  lemma {:induction false} SharesNotNegative(rows: seq<Ownership>, unit: nat, but: Option<nat>)
    requires forall k :: 0 <= k < |rows| ==> rows[k].share > 0.0
    ensures SharesBut(rows, unit, but) >= 0.0
  {
    if rows != [] { SharesNotNegative(rows[..|rows| - 1], unit, but); }
  }

  lemma ApprovalKeepsInv(db: Db, op: Op)
    requires Inv(db) && op.Decide? && op.approve && Decided(db, op).Ok?
    ensures Inv(Decided(db, op).value)
  {
    var next, i := Decided(db, op).value, Find(db.ownerships, op.id);
    forall unit | 0 <= unit < |db.units| ensures Shares(next.ownerships, unit) <= 100.0 {
      SharesUpdate(db.ownerships, i, next.ownerships[i], unit);
      SharesButOne(db.ownerships, i, unit);
    }
    SharesNotNegative(db.ownerships, db.ownerships[i].unit, Some(op.id));
    forall k | 0 <= k < |db.ownerships| && next.ownerships[k].verified
      ensures next.people[next.ownerships[k].user].verified
    {
      assert k != i ==> db.ownerships[k].verified;
    }
    assert 0.0 < next.ownerships[i].share <= 100.0;
  }

  lemma RemovalKeepsRows(db: Db, i: nat, people: seq<Person>)
    requires Rows(db) && i < |db.ownerships| && |people| == |db.people|
    requires forall k :: 0 <= k < |db.ownerships| && k != i && db.ownerships[k].verified ==>
      people[db.ownerships[k].user].verified
    ensures Rows(db.(ownerships := Without(db.ownerships, i), people := people))
  {
    var rest := Without(db.ownerships, i);
    forall k | 0 <= k < |rest| ensures rest[k] == db.ownerships[if k < i then k else k + 1] {
    }
  }

  lemma RemovalKeepsInv(db: Db, i: nat, people: seq<Person>)
    requires Inv(db) && i < |db.ownerships| && |people| == |db.people|
    requires forall k :: 0 <= k < |db.ownerships| && k != i && db.ownerships[k].verified ==>
      people[db.ownerships[k].user].verified
    ensures Inv(db.(ownerships := Without(db.ownerships, i), people := people))
  {
    RemovalKeepsRows(db, i, people);
    forall unit | 0 <= unit < |db.units| ensures Shares(Without(db.ownerships, i), unit) <= 100.0 {
      SharesWithout(db.ownerships, i, unit);
    }
  }

  lemma UnlinkKeepsInv(db: Db, op: Op)
    requires Inv(db) && op.Unlink? && Unlinked(db, op).Ok?
    ensures Inv(Unlinked(db, op).value)
  {
    var next, i := Unlinked(db, op).value, Find(db.ownerships, op.id);
    var rest := Without(db.ownerships, i);
    forall k | 0 <= k < |db.ownerships| && k != i && db.ownerships[k].verified
      ensures next.people[db.ownerships[k].user].verified
    {
      assert rest[if k < i then k else k - 1] == db.ownerships[k];
    }
    RemovalKeepsInv(db, i, next.people);
  }

  /** Every operation keeps: one record per user and unit, verified shares of a unit of at most 100,
      the user flag of whoever holds a verified record, and the cached areas equal to the sums. */
  lemma ApplyKeepsInv(db: Db, op: Op)
    requires Inv(db) && Apply(db, op).Ok?
    ensures Inv(Apply(db, op).value)
  {
    match op
    case AddUnit(_, _, _) => AddUnitKeepsInv(db, op);
    case Claim(_, _, _, _) => ClaimKeepsInv(db, op);
    case Decide(_, _, approve, _) => 
      if approve {
        ApprovalKeepsInv(db, op);
      } else {
        RemovalKeepsInv(db, Find(db.ownerships, op.id), Decided(db, op).value.people);
      }
    case Unlink(_, _) => UnlinkKeepsInv(db, op);
  }

  datatype Ops = Start | Then(before: Ops, op: Op)

  function Next(db: Db, op: Op): Db {
    match Apply(db, op)
    case Ok(next) => next
    case Err(_) => db
  }

  function Run(start: Db, ops: Ops): Db {
    if ops == Start then start else Next(Run(start, ops.before), ops.op)
  }

  /** Over all runs of adding units, claiming, verifying, rejecting and unlinking. */
  lemma {:induction false} EveryRunIsOk(start: Db, ops: Ops)
    requires IsEmpty(start)
    ensures Inv(Run(start, ops))
  {
    if ops.Then? {
      EveryRunIsOk(start, ops.before);
      if Apply(Run(start, ops.before), ops.op).Ok? { ApplyKeepsInv(Run(start, ops.before), ops.op); }
    }
  }

  /** What an operation does to the verified shares of a unit. */
  function ShareChange(db: Db, op: Op, unit: nat): real {
    if op.AddUnit? || op.Claim? || Find(db.ownerships, op.id) >= |db.ownerships| then 0.0
    else
      var row := db.ownerships[Find(db.ownerships, op.id)];
      if row.unit != unit then 0.0
      else
        var lost := if row.verified then row.share else 0.0;
        if op.Decide? && op.approve then
          (if op.approvedShare.Some? then op.approvedShare.value else row.share) - lost
        else -lost
  }

  /** Every operation moves the verified shares of every unit by exactly what it is about. */
  lemma SharesBalance(db: Db, op: Op, unit: nat)
    requires Inv(db) && Apply(db, op).Ok?
    ensures Shares(Apply(db, op).value.ownerships, unit) == Shares(db.ownerships, unit) + ShareChange(db, op, unit)
  {
    var next := Apply(db, op).value;
    match op
    case AddUnit(_, _, _) =>
    case Claim(_, _, _, _) => assert next.ownerships[..|db.ownerships|] == db.ownerships;
    case Decide(id, _, approve, _) =>
      var i := Find(db.ownerships, id);
      if approve {
        SharesUpdate(db.ownerships, i, next.ownerships[i], unit);
      } else {
        SharesWithout(db.ownerships, i, unit);
      }
    case Unlink(id, _) => SharesWithout(db.ownerships, Find(db.ownerships, id), unit);
  }

  /** A new unit raises the cached area of its building and of its tenant by its own, and no other. */
  lemma AreasBalance(db: Db, op: Op)
    requires Inv(db) && op.AddUnit? && UnitAdded(db, op).Ok?
    ensures var (next, tenant) := (UnitAdded(db, op).value, db.buildings[op.building]);
      && next.buildingArea == db.buildingArea[op.building := db.buildingArea[op.building] + op.area]
      && next.tenantArea == db.tenantArea[tenant := db.tenantArea[tenant] + op.area]
      && next.tenantUnits == db.tenantUnits[tenant := db.tenantUnits[tenant] + 1]
  {
    var next := UnitAdded(db, op).value;
    assert next.units[..|db.units|] == db.units;
  }

  // ---------------------------------------------------------------- the other half of the user flag

  predicate FlagIsExact(db: Db, user: nat)
    requires user < |db.people|
  {
    db.people[user].verified <==> HoldsVerified(db.ownerships, user)
  }

  /** Unlinking takes the flag back when the last verified record goes ... */
  lemma UnlinkKeepsFlagExact(db: Db, op: Op, user: nat)
    requires Inv(db) && op.Unlink? && Unlinked(db, op).Ok? && user < |db.people| && FlagIsExact(db, user)
    ensures FlagIsExact(Unlinked(db, op).value, user)
  {
    RestHolds(db.ownerships, Find(db.ownerships, op.id), user);
  }

  /** ... rejecting does not: when a record that was already verified is rejected, its user stays
      marked as verified, exactly if it was the user's last one. */
  lemma RejectionKeepsFlagExactIff(db: Db, op: Op)
    requires Inv(db) && op.Decide? && !op.approve && Decided(db, op).Ok?
    requires FlagIsExact(db, db.ownerships[Find(db.ownerships, op.id)].user)
    ensures var i := Find(db.ownerships, op.id);
      var row := db.ownerships[i];
      FlagIsExact(Decided(db, op).value, row.user) <==>
        !row.verified || HoldsVerified(Without(db.ownerships, i), row.user)
  {
    var i := Find(db.ownerships, op.id);
    RestHolds(db.ownerships, i, db.ownerships[i].user);
  }

  lemma RestHolds(rows: seq<Ownership>, i: nat, user: nat)
    requires i < |rows|
    ensures HoldsVerified(rows, user) <==>
      HoldsVerified(Without(rows, i), user) || (rows[i].user == user && rows[i].verified)
  {
    var rest := Without(rows, i);
    if HoldsVerified(rest, user) {
      var k :| 0 <= k < |rest| && rest[k].user == user && rest[k].verified;
      assert rest[k] == rows[if k < i then k else k + 1];
    }
    if HoldsVerified(rows, user) {
      var k :| 0 <= k < |rows| && rows[k].user == user && rows[k].verified;
      if k != i { assert rest[if k < i then k else k - 1] == rows[k]; }
    }
  }

  predicate FlagsExact(db: Db) {
    forall user :: 0 <= user < |db.people| ==> FlagIsExact(db, user)
  }

  /** A rejection that deletes a user's last verified record. */
  predicate RejectsLast(db: Db, op: Op) {
    op.Decide? && !op.approve && Decided(db, op).Ok? &&
    var i := Find(db.ownerships, op.id);
    db.ownerships[i].verified && !HoldsVerified(Without(db.ownerships, i), db.ownerships[i].user)
  }

  lemma ClaimKeepsFlags(db: Db, op: Op)
    requires FlagsExact(db) && op.Claim? && Claimed(db, op).Ok?
    ensures FlagsExact(Claimed(db, op).value)
  {
    var next := Claimed(db, op).value;
    forall user | 0 <= user < |next.people| ensures FlagIsExact(next, user) {
      assert FlagIsExact(db, user);
      if HoldsVerified(db.ownerships, user) {
        var k :| 0 <= k < |db.ownerships| && db.ownerships[k].user == user && db.ownerships[k].verified;
        assert next.ownerships[k] == db.ownerships[k];
      }
    }
  }

  lemma ApprovalKeepsFlags(db: Db, op: Op)
    requires FlagsExact(db) && op.Decide? && op.approve && Decided(db, op).Ok?
    ensures FlagsExact(Decided(db, op).value)
  {
    var (next, i) := (Decided(db, op).value, Find(db.ownerships, op.id));
    forall user | 0 <= user < |next.people| ensures FlagIsExact(next, user) {
      assert FlagIsExact(db, user);
      if HoldsVerified(db.ownerships, user) {
        var k :| 0 <= k < |db.ownerships| && db.ownerships[k].user == user && db.ownerships[k].verified;
        assert next.ownerships[k].verified && next.ownerships[k].user == user;
      }
      assert next.ownerships[i].verified && next.ownerships[i].user == db.ownerships[i].user;
    }
  }

  lemma RejectionFlagsIff(db: Db, op: Op)
    requires Inv(db) && FlagsExact(db) && op.Decide? && !op.approve && Decided(db, op).Ok?
    ensures FlagsExact(Decided(db, op).value) <==> !RejectsLast(db, op)
  {
    var (next, i) := (Decided(db, op).value, Find(db.ownerships, op.id));
    assert FlagIsExact(db, db.ownerships[i].user);
    RejectionKeepsFlagExactIff(db, op);
    forall user | 0 <= user < |next.people| && user != db.ownerships[i].user ensures FlagIsExact(next, user) {
      assert FlagIsExact(db, user);
      RestHolds(db.ownerships, i, user);
    }
  }

  lemma StepFlagsIff(db: Db, op: Op)
    requires Inv(db) && FlagsExact(db) && Apply(db, op).Ok?
    ensures FlagsExact(Apply(db, op).value) <==> !RejectsLast(db, op)
  {
    match op
    case AddUnit(_, _, _) =>
      forall user | 0 <= user < |db.people| ensures FlagIsExact(Apply(db, op).value, user) {
        assert FlagIsExact(db, user);
      }
    case Claim(_, _, _, _) => ClaimKeepsFlags(db, op);
    case Decide(_, _, approve, _) => if approve { ApprovalKeepsFlags(db, op); } else { RejectionFlagsIff(db, op); }
    case Unlink(_, _) =>
      forall user | 0 <= user < |db.people| ensures FlagIsExact(Apply(db, op).value, user) {
        assert FlagIsExact(db, user);
        UnlinkKeepsFlagExact(db, op, user);
      }
  }

  predicate ExactThroughout(start: Db, ops: Ops) {
    FlagsExact(Run(start, ops)) && (ops.Then? ==> ExactThroughout(start, ops.before))
  }

  predicate NoLastRejected(start: Db, ops: Ops) {
    ops.Then? ==> NoLastRejected(start, ops.before) && !RejectsLast(Run(start, ops.before), ops.op)
  }

  /** Over all runs: after every step exactly the holders of verified records are marked verified, if and
      only if the run rejects no one's last verified record. */
  lemma {:induction false} FlagsExactThroughoutIff(start: Db, ops: Ops)
    requires IsEmpty(start) && forall user :: 0 <= user < |start.people| ==> !start.people[user].verified
    ensures ExactThroughout(start, ops) <==> NoLastRejected(start, ops)
  {
    if ops.Then? {
      var db := Run(start, ops.before);
      FlagsExactThroughoutIff(start, ops.before);
      EveryRunIsOk(start, ops.before);
      if FlagsExact(db) && Apply(db, ops.op).Ok? {
        StepFlagsIff(db, ops.op);
      }
    } else {
      assert FlagsExact(start);
    }
  }

  // ---------------------------------------------------------------- one building, for the examples

  /** A tenant with one empty building, its residents and its administrator. */
  function OneBuilding(people: nat): Db {
    Db([0], [0.0], [0.0], [0], [], seq(people, _ => Person(None, false)), [], 0)
  }

  const Admin := User(9, HoaAdmin, Some(0))

  function Unit100(): Ops {
    Then(Start, AddUnit(0, None, 100.0))
  }

  lemma Unit100Runs(people: nat)
    ensures IsEmpty(OneBuilding(people))
    ensures Run(OneBuilding(people), Unit100())
      == OneBuilding(people).(
        buildingArea := [100.0], tenantArea := [100.0], tenantUnits := [1], units := [Unit(0, 100.0)])
  {
    var units := [Unit(0, 100.0)];
    assert units[..0] == [];
    assert AreaOfBuilding(units, 0) == 100.0 && AreaOfTenant([0], units, 0) == 100.0 &&
      UnitsOfTenant([0], units, 0) == 1;
  }

  const Root := User(10, Superadmin, None)

  /** A claim that fits, and its approval as it stands. */
  function Granted(db: Db, user: nat, unit: nat, share: real): Db {
    Next(Next(db, Claim(user, unit, Owner, Some(share))), Decide(db.nextId, Root, true, None))
  }

  predicate CanClaim(db: Db, user: nat, unit: nat, share: real) {
    && user < |db.people| && unit < |db.units| && 0.0 < share && Shares(db.ownerships, unit) + share <= 100.0
    && forall k :: 0 <= k < |db.ownerships| ==> !(db.ownerships[k].user == user && db.ownerships[k].unit == unit)
  }

  lemma ClaimAdds(db: Db, user: nat, unit: nat, share: real)
    requires Inv(db) && CanClaim(db, user, unit, share)
    ensures var next := Next(db, Claim(user, unit, Owner, Some(share)));
      && next == db.(people := next.people, nextId := db.nextId + 1,
                     ownerships := db.ownerships + [Ownership(db.nextId, user, unit, Owner, share, false)])
      && |next.people| == |db.people| && Inv(next)
      && Shares(next.ownerships, unit) == Shares(db.ownerships, unit)
  {
    var op := Claim(user, unit, Owner, Some(share));
    SharesNotNegative(db.ownerships, unit, None);
    ApplyKeepsInv(db, op);
    SharesBalance(db, op, unit);
  }

  lemma ApprovalGrants(db: Db, i: nat)
    requires Inv(db) && i < |db.ownerships| && !db.ownerships[i].verified
    requires Shares(db.ownerships, db.ownerships[i].unit) + db.ownerships[i].share <= 100.0
    ensures var next := Next(db, Decide(db.ownerships[i].id, Root, true, None));
      && next == db.(people := next.people, ownerships := db.ownerships[i := db.ownerships[i].(verified := true)])
      && |next.people| == |db.people| && Inv(next)
  {
    var row := db.ownerships[i];
    assert Find(db.ownerships, row.id) == i;
    SharesButOne(db.ownerships, i, row.unit);
    ApplyKeepsInv(db, Decide(row.id, Root, true, None));
  }

  /** All that granting a share changes. */
  predicate Grants(db: Db, next: Db, user: nat, unit: nat, share: real) {
    && next == db.(people := next.people, nextId := db.nextId + 1,
                   ownerships := db.ownerships + [Ownership(db.nextId, user, unit, Owner, share, true)])
    && |next.people| == |db.people| && Inv(next)
    && Shares(next.ownerships, unit) == Shares(db.ownerships, unit) + share
  }

  lemma GrantedOwns(db: Db, user: nat, unit: nat, share: real)
    requires Inv(db) && CanClaim(db, user, unit, share)
    ensures Grants(db, Granted(db, user, unit, share), user, unit, share)
  {
    ClaimAdds(db, user, unit, share);
    var claimed := Next(db, Claim(user, unit, Owner, Some(share)));
    var last := |db.ownerships|;
    ApprovalGrants(claimed, last);
    SharesUpdate(claimed.ownerships, last, claimed.ownerships[last].(verified := true), unit);
  }

  /** The building with its unit of 100 square metres and one resident. */
  function WithResident(person: Person, rows: seq<Ownership>, nextId: nat): Db {
    Db([0], [100.0], [100.0], [1], [Unit(0, 100.0)], [person], rows, nextId)
  }

  const CLAIMED := Ownership(0, 0, 0, Owner, 100.0, false)
  const APPROVED := Ownership(0, 0, 0, Owner, 100.0, true)

  lemma ClaimOfAll()
    ensures Next(WithResident(Person(None, false), [], 0), Claim(0, 0, Owner, None))
      == WithResident(Person(Some(0), false), [CLAIMED], 1)
  {
    assert Shares([], 0) == 0.0;
    assert [] + [CLAIMED] == [CLAIMED];
    assert [Person(None, false)][0 := Person(Some(0), false)] == [Person(Some(0), false)];
  }

  lemma ApprovalOfAll()
    ensures Next(WithResident(Person(Some(0), false), [CLAIMED], 1), Decide(0, Admin, true, None))
      == WithResident(Person(Some(0), true), [APPROVED], 1)
  {
    assert SharesBut([CLAIMED], 0, Some(0)) == 0.0 by { assert [CLAIMED][..0] == []; }
    assert Find([CLAIMED], 0) == 0;
    assert [CLAIMED][0 := APPROVED] == [APPROVED];
    assert [Person(Some(0), false)][0 := Person(Some(0), true)] == [Person(Some(0), true)];
  }

  lemma RejectionOfAll()
    ensures Next(WithResident(Person(Some(0), true), [APPROVED], 1), Decide(0, Admin, false, None))
      == WithResident(Person(None, true), [], 1)
  {
    assert Find([APPROVED], 0) == 0;
    assert Without([APPROVED], 0) == [];
    assert [Person(Some(0), true)][0 := Person(None, true)] == [Person(None, true)];
  }

  /** A user claims a unit, is approved, and the approved record is then rejected: nothing is left of it,
      but the user stays marked as verified. */
  lemma RejectedUserStaysVerified()
    ensures exists start: Db, ops: Ops ::
      && IsEmpty(start) && |start.people| == 1 && !start.people[0].verified
      && Run(start, ops).ownerships == [] && |Run(start, ops).people| == 1 && Run(start, ops).people[0].verified
  {
    var start := OneBuilding(1);
    Unit100Runs(1);
    assert start.people == [Person(None, false)];
    assert Run(start, Unit100()) == WithResident(Person(None, false), [], 0);
    var claimed := Then(Unit100(), Claim(0, 0, Owner, None));
    ClaimOfAll();
    var approved := Then(claimed, Decide(0, Admin, true, None));
    ApprovalOfAll();
    var rejected := Then(approved, Decide(0, Admin, false, None));
    RejectionOfAll();
    assert Run(start, claimed) == WithResident(Person(Some(0), false), [CLAIMED], 1);
    assert Run(start, approved) == WithResident(Person(Some(0), true), [APPROVED], 1);
    assert Run(start, rejected) == WithResident(Person(None, true), [], 1);
  }

  // ---------------------------------------------------------------- which requests succeed, and what they do

  /** The verified shares of a unit, added up from the first row on. */
  function VerifiedShares(rows: seq<Ownership>, unit: nat): real {
    if rows == [] then 0.0
    else (if rows[0].verified && rows[0].unit == unit then rows[0].share else 0.0) + VerifiedShares(rows[1..], unit)
  }

  lemma {:induction false} SharesAreVerified(rows: seq<Ownership>, unit: nat)
    ensures Shares(rows, unit) == VerifiedShares(rows, unit)
  {
    if rows != [] {
      var init, last := rows[..|rows| - 1], rows[|rows| - 1];
      SharesAreVerified(init, unit);
      VerifiedOneMore(init, last, unit);
      assert rows == init + [last];
    }
  }

  lemma {:induction false} VerifiedOneMore(rows: seq<Ownership>, last: Ownership, unit: nat)
    ensures VerifiedShares(rows + [last], unit)
      == VerifiedShares(rows, unit) + if last.verified && last.unit == unit then last.share else 0.0
  {
    if rows == [] {
      assert [last][1..] == [];
    } else {
      assert (rows + [last])[1..] == rows[1..] + [last];
      VerifiedOneMore(rows[1..], last, unit);
    }
  }

  /** A superadmin, or staff of the tenant the unit belongs to. */
  predicate CanManage(db: Db, unit: nat, staff: User)
    requires unit < |db.units| && db.units[unit].building < |db.buildings|
  {
    staff.role == Superadmin || staff.tenant == Some(db.buildings[db.units[unit].building])
  }

  /** A unit is added exactly if it has a square metre, its building exists and the caller, if there is one,
      manages the building's tenant; units, people and records stay. */
  lemma AddsUnitIff(db: Db, op: Op)
    requires op.AddUnit?
    ensures var r := Apply(db, op);
      && (r.Ok? <==>
            && op.area >= 1.0 && op.building < |db.buildings|
            && (op.caller.Some? ==>
                  op.caller.value.role == Superadmin || op.caller.value.tenant == Some(db.buildings[op.building])))
      && (r.Ok? ==>
            && r.value.units == db.units + [Unit(op.building, op.area)] && r.value.buildings == db.buildings
            && r.value.people == db.people && r.value.ownerships == db.ownerships && r.value.nextId == db.nextId)
  {
  }

  /** A claim is accepted exactly if the unit exists, the user has no record of it yet, the share (a hundred if
      none is given) is positive and fits what is verified already. The user joins the tenant, and the record
      waits for approval. */
  lemma ClaimsIff(db: Db, op: Op, share: real)
    requires Inv(db) && op.Claim? && op.user < |db.people|
    requires op.share == Some(share) || (op.share == None && share == 100.0)
    ensures var r := Apply(db, op);
      && (r.Ok? <==>
            && op.unit < |db.units|
            && (forall k :: 0 <= k < |db.ownerships| ==>
                  !(db.ownerships[k].user == op.user && db.ownerships[k].unit == op.unit))
            && 0.0 < share && VerifiedShares(db.ownerships, op.unit) + share <= 100.0)
      && (r.Ok? ==>
            r.value == db.(
              people := db.people[op.user := Person(
                Some(db.buildings[db.units[op.unit].building]), db.people[op.user].verified)],
              ownerships := db.ownerships + [Ownership(db.nextId, op.user, op.unit, op.kind, share, false)],
              nextId := db.nextId + 1))
  {
    SharesAreVerified(db.ownerships, op.unit);
    forall k | 0 <= k < |db.ownerships| ensures db.ownerships[k].share > 0.0 {
    }
    SharesNotNegative(db.ownerships, op.unit, None);
  }

  /** Approving a record succeeds exactly if staff of the tenant do it and the final share, at least a hundredth,
      fits the other verified shares of the unit. Then the record is verified with that share, and so is its
      user; nothing else changes. */
  lemma ApprovesIff(db: Db, op: Op, i: nat, share: real)
    requires Inv(db) && op.Decide? && op.approve && i < |db.ownerships| && db.ownerships[i].id == op.id
    requires op.approvedShare == Some(share) || (op.approvedShare == None && share == db.ownerships[i].share)
    ensures var (r, row) := (Apply(db, op), db.ownerships[i]);
      && (r.Ok? <==>
            && (op.approvedShare.Some? ==> 0.01 <= share <= 100.0) && CanManage(db, row.unit, op.verifier)
            && VerifiedShares(db.ownerships, row.unit) - (if row.verified then row.share else 0.0) + share <= 100.0)
      && (r.Ok? ==>
            r.value == db.(
              ownerships := db.ownerships[i := Ownership(row.id, row.user, row.unit, row.kind, share, true)],
              people := db.people[row.user := Person(db.people[row.user].tenant, true)]))
  {
    SharesAreVerified(db.ownerships, db.ownerships[i].unit);
    SharesButOne(db.ownerships, i, db.ownerships[i].unit);
  }

  /** Does the user of record i have another record in the tenant of its unit? */
  predicate HasOther(db: Db, i: nat)
    requires AreasCached(db) && Rows(db) && i < |db.ownerships|
  {
    exists k :: 0 <= k < |db.ownerships| && k != i && IsBeside(db, db.ownerships[k], db.ownerships[i])
  }

  predicate IsBeside(db: Db, a: Ownership, b: Ownership)
    requires AreasCached(db) && a.unit < |db.units| && b.unit < |db.units|
  {
    a.user == b.user && db.buildings[db.units[a.unit].building] == db.buildings[db.units[b.unit].building]
  }

  /** Rejecting a record succeeds exactly if staff of the tenant do it. The record goes, every other stays, and
      the user leaves the tenant exactly if they have no other record there. */
  lemma RejectsIff(db: Db, op: Op, i: nat)
    requires Inv(db) && op.Decide? && !op.approve && i < |db.ownerships| && db.ownerships[i].id == op.id
    ensures var (r, row) := (Apply(db, op), db.ownerships[i]);
      && (r.Ok? <==>
            && (op.approvedShare.Some? ==> 0.01 <= op.approvedShare.value <= 100.0)
            && CanManage(db, row.unit, op.verifier))
      && (r.Ok? ==>
            r.value == db.(
              ownerships := db.ownerships[..i] + db.ownerships[i + 1..],
              people := if HasOther(db, i) then db.people
                        else db.people[row.user := Person(None, db.people[row.user].verified)]))
  {
    OtherIsElsewhere(db, i);
    assert Find(db.ownerships, op.id) == i;
  }

  lemma OtherIsElsewhere(db: Db, i: nat)
    requires Inv(db) && i < |db.ownerships|
    ensures HasOther(db, i) <==> ElsewhereInTenant(db, i)
  {
    if HasOther(db, i) {
      var k :| 0 <= k < |db.ownerships| && k != i && IsBeside(db, db.ownerships[k], db.ownerships[i]);
      assert db.ownerships[k].user == db.ownerships[i].user;
    } else {
      assert forall k :: 0 <= k < |db.ownerships| && k != i ==> !IsBeside(db, db.ownerships[k], db.ownerships[i]);
    }
  }

  /** Unlinking succeeds exactly on a verified record and by staff of its tenant. The record goes, every other
      stays, and the user stays verified exactly if another verified record is left. */
  lemma UnlinksIff(db: Db, op: Op, i: nat)
    requires Inv(db) && op.Unlink? && i < |db.ownerships| && db.ownerships[i].id == op.id
    ensures var (r, row) := (Apply(db, op), db.ownerships[i]);
      && (r.Ok? <==> row.verified && CanManage(db, row.unit, op.staff))
      && (r.Ok? ==>
            && r.value.ownerships == db.ownerships[..i] + db.ownerships[i + 1..]
            && r.value == db.(ownerships := r.value.ownerships, people := r.value.people)
            && r.value.people == db.people[row.user := Person(
                 db.people[row.user].tenant, HoldsOther(db.ownerships, i))])
  {
    OtherIsHeld(db.ownerships, i);
    assert Find(db.ownerships, op.id) == i;
  }

  /** Has the user of record i another verified record? */
  predicate HoldsOther(rows: seq<Ownership>, i: nat)
    requires i < |rows|
  {
    exists k :: 0 <= k < |rows| && k != i && rows[k].user == rows[i].user && rows[k].verified
  }

  lemma OtherIsHeld(rows: seq<Ownership>, i: nat)
    requires i < |rows|
    ensures HoldsOther(rows, i) <==> HoldsVerified(rows[..i] + rows[i + 1..], rows[i].user)
  {
    var rest := rows[..i] + rows[i + 1..];
    if HoldsOther(rows, i) {
      var k :| 0 <= k < |rows| && k != i && rows[k].user == rows[i].user && rows[k].verified;
      assert rest[if k < i then k else k - 1] == rows[k];
    }
    forall k | 0 <= k < |rest| ensures rest[k] == rows[if k < i then k else k + 1] {
    }
  }

  /** Why a request is refused. */
  lemma RefusalsAreTrue(db: Db, op: Op)
    requires Inv(db) && Apply(db, op).Err?
    ensures match Apply(db, op).error
      case InvalidRequest =>
        || (op.AddUnit? && op.area < 1.0)
        || (op.Decide? && op.approvedShare.Some? && !(0.01 <= op.approvedShare.value <= 100.0))
      case BlockNotFound => op.AddUnit? && op.building >= |db.buildings|
      case CrossTenant => IsForeign(db, op)
      case UnitNotFound => op.Claim? && op.unit >= |db.units|
      case RequestExists =>
        op.Claim? && exists k ::
          0 <= k < |db.ownerships| && db.ownerships[k].user == op.user && db.ownerships[k].unit == op.unit
      case InvalidShareRange => op.Claim? && op.share.Some? && !(0.0 < op.share.value <= 100.0)
      case ShareExceedsTotal => op.Claim? || (op.Decide? && op.approve)
      case OwnershipNotFound =>
        (op.Decide? || op.Unlink?) && forall k :: 0 <= k < |db.ownerships| ==> db.ownerships[k].id != op.id
      case OnlyConfirmedUnlink =>
        op.Unlink? && exists k ::
          0 <= k < |db.ownerships| && db.ownerships[k].id == op.id && !db.ownerships[k].verified
      case RecordMissing => op.Claim? && op.user >= |db.people|
  {
    if op.Decide? || op.Unlink? {
      var i := Find(db.ownerships, op.id);
      assert i < |db.ownerships| ==> db.ownerships[i].id == op.id;
    }
  }

  /** The caller is neither a superadmin nor of the tenant the building or the record is in. */
  predicate IsForeign(db: Db, op: Op)
    requires AreasCached(db) && Rows(db)
  {
    match op
    case AddUnit(building, caller, _) =>
      && building < |db.buildings| && caller.Some? && caller.value.role != Superadmin
      && caller.value.tenant != Some(db.buildings[building])
    case Claim(_, _, _, _) => false
    case Decide(id, staff, _, _) =>
      exists k :: 0 <= k < |db.ownerships| && db.ownerships[k].id == id && !CanManage(db, db.ownerships[k].unit, staff)
    case Unlink(id, staff) =>
      exists k :: 0 <= k < |db.ownerships| && db.ownerships[k].id == id && !CanManage(db, db.ownerships[k].unit, staff)
  }

  // ---------------------------------------------------------------- the service object

  class PropertiesService {
    const buildings: seq<nat>
    var buildingArea: seq<real>
    var tenantArea: seq<real>
    var tenantUnits: seq<nat>
    var units: seq<Unit>
    var people: seq<Person>
    var ownerships: seq<Ownership>
    var nextId: nat

    function Tables(): Db
      reads this
    {
      Db(buildings, buildingArea, tenantArea, tenantUnits, units, people, ownerships, nextId)
    }

    constructor (start: Db)
      ensures Tables() == start
    {
      buildings, buildingArea, tenantArea, tenantUnits :=
        start.buildings, start.buildingArea, start.tenantArea, start.tenantUnits;
      units, people, ownerships, nextId := start.units, start.people, start.ownerships, start.nextId;
    }

    method AddUnit(op: Op) returns (error: Option<Error>)
      requires op.AddUnit? && AreasCached(Tables())
      modifies this
      ensures error == None ==> UnitAdded(old(Tables()), op) == Ok(Tables())
      ensures error.Some? ==> UnitAdded(old(Tables()), op) == Err(error.value) && Tables() == old(Tables())
    {
      if op.area < 1.0 { return Some(InvalidRequest); }
      if op.building >= |buildings| { return Some(BlockNotFound); }
      if op.caller.Some? && !BelongsToTenant(op.caller.value, buildings[op.building]) { return Some(CrossTenant); }
      units := units + [Unit(op.building, op.area)];
      RecalculateAreas(buildings[op.building], op.building);
      return None;
    }

    /** Both sums are recomputed from the unit table, row by row. */
    method RecalculateAreas(tenant: nat, building: nat)
      requires building < |buildingArea| && tenant < |tenantArea| == |tenantUnits|
      modifies this`buildingArea, this`tenantArea, this`tenantUnits
      ensures buildingArea == old(buildingArea)[building := AreaOfBuilding(units, building)]
      ensures tenantArea == old(tenantArea)[tenant := AreaOfTenant(buildings, units, tenant)]
      ensures tenantUnits == old(tenantUnits)[tenant := UnitsOfTenant(buildings, units, tenant)]
    {
      var bArea, tArea, count := 0.0, 0.0, 0;
      for k := 0 to |units|
        invariant bArea == AreaOfBuilding(units[..k], building)
        invariant tArea == AreaOfTenant(buildings, units[..k], tenant)
        invariant count == UnitsOfTenant(buildings, units[..k], tenant)
      {
        assert units[..k + 1][..k] == units[..k];
        if units[k].building == building { bArea := bArea + units[k].area; }
        if InTenant(buildings, units[k], tenant) { tArea, count := tArea + units[k].area, count + 1; }
      }
      assert units[..|units|] == units;
      buildingArea := buildingArea[building := bArea];
      tenantArea, tenantUnits := tenantArea[tenant := tArea], tenantUnits[tenant := count];
    }

    method ClaimOwnership(op: Op) returns (error: Option<Error>)
      requires op.Claim?
      modifies this
      ensures error == None ==> Claimed(old(Tables()), op) == Ok(Tables())
      ensures error.Some? ==> Claimed(old(Tables()), op) == Err(error.value) && Tables() == old(Tables())
    {
      if op.unit >= |units| || units[op.unit].building >= |buildings| { return Some(UnitNotFound); }
      if exists k :: 0 <= k < |ownerships| && ownerships[k].user == op.user && ownerships[k].unit == op.unit {
        return Some(RequestExists);
      }
      var share := if op.share.Some? then op.share.value else 100.0;
      if share <= 0.0 || share > 100.0 { return Some(InvalidShareRange); }
      var currentSum := SumShares(op.unit, None);
      if currentSum + share > 100.0 { return Some(ShareExceedsTotal); }
      if op.user >= |people| { return Some(RecordMissing); }
      people := people[op.user := people[op.user].(tenant := Some(buildings[units[op.unit].building]))];
      ownerships := ownerships + [Ownership(nextId, op.user, op.unit, op.kind, share, false)];
      nextId := nextId + 1;
      return None;
    }

    method SumShares(unit: nat, but: Option<nat>) returns (sum: real)
      ensures sum == SharesBut(ownerships, unit, but)
    {
      sum := 0.0;
      for k := 0 to |ownerships|
        invariant sum == SharesBut(ownerships[..k], unit, but)
      {
        assert ownerships[..k + 1][..k] == ownerships[..k];
        var o := ownerships[k];
        if o.unit == unit && o.verified && but != Some(o.id) { sum := sum + o.share; }
      }
      assert ownerships[..|ownerships|] == ownerships;
    }

    method VerifyOwnership(op: Op) returns (error: Option<Error>)
      requires op.Decide?
      modifies this
      ensures error == None ==> Decided(old(Tables()), op) == Ok(Tables())
      ensures error.Some? ==> Decided(old(Tables()), op) == Err(error.value) && Tables() == old(Tables())
    {
      if op.approvedShare.Some? && !(0.01 <= op.approvedShare.value <= 100.0) { return Some(InvalidRequest); }
      var i := Find(ownerships, op.id);
      if i == |ownerships| { return Some(OwnershipNotFound); }
      var row := ownerships[i];
      if !ManagedBy(Tables(), row, op.verifier) { return Some(CrossTenant); }
      if row.user >= |people| { return Some(RecordMissing); }
      if op.approve {
        var share := if op.approvedShare.Some? then op.approvedShare.value else row.share;
        var otherSum := SumShares(row.unit, Some(row.id));
        if otherSum + share > 100.0 { return Some(ShareExceedsTotal); }
        ownerships := ownerships[i := row.(verified := true, share := share)];
        people := people[row.user := people[row.user].(verified := true)];
      } else {
        var elsewhere := ElsewhereInTenant(Tables(), i);
        ownerships := ownerships[..i] + ownerships[i + 1..];
        if !elsewhere { people := people[row.user := people[row.user].(tenant := None)]; }
      }
      return None;
    }

    method UnlinkOwnership(op: Op) returns (error: Option<Error>)
      requires op.Unlink?
      modifies this
      ensures error == None ==> Unlinked(old(Tables()), op) == Ok(Tables())
      ensures error.Some? ==> Unlinked(old(Tables()), op) == Err(error.value) && Tables() == old(Tables())
    {
      var i := Find(ownerships, op.id);
      if i == |ownerships| { return Some(OwnershipNotFound); }
      var row := ownerships[i];
      if !row.verified { return Some(OnlyConfirmedUnlink); }
      if !ManagedBy(Tables(), row, op.staff) { return Some(CrossTenant); }
      if row.user >= |people| { return Some(RecordMissing); }
      ownerships := ownerships[..i] + ownerships[i + 1..];
      if !HoldsVerified(ownerships, row.user) {
        people := people[row.user := people[row.user].(verified := false)];
      }
      return None;
    }
  }
}
