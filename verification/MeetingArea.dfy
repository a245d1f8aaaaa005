/** Exactly when a meeting can pass its eligible area: the run in which every unit votes, and the bound no
    run passes. */
module MeetingArea {
  import opened Prelude
  import opened Rounding
  import opened Votings
  import opened VotingLaws
  import opened MeetingRuns
  import R = Registry

  // ---------------------------------------------------------------- a run in which every unit votes

  predicate Registrable(start: R.Db, units: seq<R.Unit>) {
    forall u :: 0 <= u < |units| ==> units[u].building < |start.buildings| && units[u].area >= 1.0
  }

  function Adding(steps: Steps, unit: R.Unit): Steps {
    Then(steps, Register(R.AddUnit(unit.building, None, unit.area)))
  }

  function Ballot(unit: nat): Cast {
    Cast(0, true, 0, unit, For, true, 0)
  }

  predicate OwnsAll(rows: seq<R.Ownership>, id: nat) {
    forall u :: 0 <= u < |rows| ==> rows[u] == R.Ownership(id + u, 0, u, R.Owner, 100.0, true)
  }

  /** The first `n` units are registered and owned. */
  predicate Stocked(start: R.Db, reg: R.Db, units: seq<R.Unit>, n: nat)
    requires n <= |units|
  {
    && reg.units == units[..n] && Framed(start, reg)
    && |reg.ownerships| == n && OwnsAll(reg.ownerships, start.nextId) && reg.nextId == start.nextId + n
  }

  predicate Framed(start: R.Db, reg: R.Db) {
    reg.buildings == start.buildings && |reg.tenantArea| == |start.tenantArea| && |reg.people| == |start.people|
  }

  /** One more unit, and nobody owns it yet. */
  predicate Added(start: R.Db, reg: R.Db, next: R.Db, unit: R.Unit) {
    && next.units == reg.units + [unit] && Framed(start, next)
    && next.ownerships == reg.ownerships && next.nextId == reg.nextId
  }

  lemma UnitIsAdded(start: R.Db, reg: R.Db, unit: R.Unit)
    requires R.Inv(reg) && Framed(start, reg) && unit.building < |start.buildings| && unit.area >= 1.0
    ensures var next := R.Next(reg, R.AddUnit(unit.building, None, unit.area));
      Added(start, reg, next, unit) && R.Inv(next)
  {
    R.ApplyKeepsInv(reg, R.AddUnit(unit.building, None, unit.area));
  }

  lemma UnitIsOwned(start: R.Db, reg: R.Db, mid: R.Db, next: R.Db, units: seq<R.Unit>, n: nat)
    requires n < |units| && Stocked(start, reg, units, n) && Added(start, reg, mid, units[n]) &&
      R.Grants(mid, next, 0, n, 100.0)
    ensures Stocked(start, next, units, n + 1)
  {
    assert units[..n] + [units[n]] == units[..n + 1];
  }

  lemma UnitCanBeClaimed(start: R.Db, reg: R.Db, mid: R.Db, units: seq<R.Unit>, n: nat)
    requires |start.people| > 0 && n < |units| && Stocked(start, reg, units, n) && Added(start, reg, mid, units[n])
    ensures R.CanClaim(mid, 0, n, 100.0)
  {
    R.NoShares(mid.ownerships, n);
  }

  /** Registering one unit and granting it, as a step from registry to registry. */
  lemma UnitIsStocked(start: R.Db, reg: R.Db, units: seq<R.Unit>, n: nat)
    requires R.Inv(reg) && n < |units| && Registrable(start, units) && |start.people| > 0 &&
      Stocked(start, reg, units, n)
    ensures Stocked(start, Stock(reg, units[n], n), units, n + 1)
  {
    var mid := R.Next(reg, R.AddUnit(units[n].building, None, units[n].area));
    UnitIsAdded(start, reg, units[n]);
    UnitCanBeClaimed(start, reg, mid, units, n);
    R.GrantedOwns(mid, 0, n, 100.0);
    UnitIsOwned(start, reg, mid, R.Granted(mid, 0, n, 100.0), units, n);
  }

  function Stock(reg: R.Db, unit: R.Unit, n: nat): R.Db {
    R.Granted(R.Next(reg, R.AddUnit(unit.building, None, unit.area)), 0, n, 100.0)
  }

  lemma StockRuns(start: R.Db, steps: Steps, unit: R.Unit, n: nat) returns (after: Steps)
    ensures Run(start, after) == World(Stock(Run(start, steps).reg, unit, n), Run(start, steps).meetings)
  {
    var added := Adding(steps, unit);
    after := Grant(added, 0, n, 100.0, Run(start, added).reg.nextId);
    GrantRuns(start, added, 0, n, 100.0);
  }

  predicate StockedRun(start: R.Db, steps: Steps, units: seq<R.Unit>, n: nat, meetings: seq<Meeting>)
    requires n <= |units|
  {
    Stocked(start, Run(start, steps).reg, units, n) && Run(start, steps).meetings == meetings
  }

  lemma NextIsStocked(start: R.Db, steps: Steps, units: seq<R.Unit>, n: nat)
    requires R.IsEmpty(start) && n < |units| && Registrable(start, units) && |start.people| > 0
    requires Stocked(start, Run(start, steps).reg, units, n)
    ensures Stocked(start, Stock(Run(start, steps).reg, units[n], n), units, n + 1)
  {
    EveryRunIsOk(start, steps);
    UnitIsStocked(start, Run(start, steps).reg, units, n);
  }

  /** The units from `n` to `to` are registered; the first resident claims all of each and is approved. */
  lemma {:induction false} Stocking(
      start: R.Db, steps: Steps, units: seq<R.Unit>, n: nat, to: nat, meetings: seq<Meeting>)
    returns (after: Steps)
    requires R.IsEmpty(start) && n <= to <= |units| && Registrable(start, units) && |start.people| > 0
    requires StockedRun(start, steps, units, n, meetings)
    ensures StockedRun(start, after, units, to, meetings)
    decreases |units| - n
  {
    if n == to {
      after := steps;
    } else {
      var next := StockRuns(start, steps, units[n], n);
      NextIsStocked(start, steps, units, n);
      after := Stocking(start, next, units, n + 1, to, meetings);
    }
  }

  /** A meeting of one item, on which the tenant's units among the first `n` have voted with all they have. */
  predicate Polled(start: R.Db, m: Meeting, units: seq<R.Unit>, tenant: nat, eligible: real, n: nat)
    requires n <= |units|
  {
    && m.tenant == tenant && m.start == 0 && m.end == 0 && m.status == Ongoing && m.eligible == eligible
    && |m.items| == 1
    && Total(m.items[0].votes) == CapOfTenant(start.buildings, units[..n], tenant)
    && forall u :: n <= u < |units| ==> !Voted(m.items[0].votes, u)
  }

  lemma {:induction false} OwnerIsFound(rows: seq<R.Ownership>, user: nat, unit: nat, i: nat)
    requires i < |rows| && IsOwnerRow(rows[i], user, unit)
    ensures FindOwner(rows, user, unit).Some?
  {
    if !IsOwnerRow(rows[0], user, unit) {
      OwnerIsFound(rows[1..], user, unit, i - 1);
    }
  }

  lemma UnitVotes(start: R.Db, reg: R.Db, m: Meeting, units: seq<R.Unit>, tenant: nat, eligible: real, n: nat)
    requires n < |units| && Stocked(start, reg, units, |units|) && Polled(start, m, units, tenant, eligible, n)
    requires R.InTenant(start.buildings, units[n], tenant)
    ensures AfterVote(reg, m, Ballot(n)).Ok? &&
      Polled(start, AfterVote(reg, m, Ballot(n)).value, units, tenant, eligible, n + 1)
  {
    assert units[..|units|] == units;
    OwnerIsFound(reg.ownerships, 0, n, n);
    assert VoteOf(reg, m, Ballot(n)) == Ok(Vote(0, n, For, Cap(units[n].area)));
    var (before, after) := (m.items[0].votes, AfterVote(reg, m, Ballot(n)).value.items[0].votes);
    assert after[..|before|] == before;
    assert units[..n + 1][..n] == units[..n];
  }

  lemma UnitIsSkipped(start: R.Db, m: Meeting, units: seq<R.Unit>, tenant: nat, eligible: real, n: nat)
    requires n < |units| && Polled(start, m, units, tenant, eligible, n) &&
      !R.InTenant(start.buildings, units[n], tenant)
    ensures Polled(start, m, units, tenant, eligible, n + 1)
  {
    assert units[..n + 1][..n] == units[..n];
  }

  predicate AtPoll(start: R.Db, w: World, units: seq<R.Unit>, tenant: nat, eligible: real, n: nat)
    requires n <= |units|
  {
    Stocked(start, w.reg, units, |units|) && |w.meetings| == 1 &&
      Polled(start, w.meetings[0], units, tenant, eligible, n)
  }

  lemma UnitPolls(start: R.Db, w: World, units: seq<R.Unit>, tenant: nat, eligible: real, n: nat)
    requires n < |units| && AtPoll(start, w, units, tenant, eligible, n) &&
      R.InTenant(start.buildings, units[n], tenant)
    ensures AtPoll(start, Next(w, CastVote(0, Ballot(n))), units, tenant, eligible, n + 1)
  {
    UnitVotes(start, w.reg, w.meetings[0], units, tenant, eligible, n);
  }

  /** Every unit of the tenant among the first `n` votes on the one item. */
  lemma {:induction false} Polling(start: R.Db, steps: Steps, units: seq<R.Unit>, tenant: nat, eligible: real, n: nat)
    returns (after: Steps)
    requires n <= |units| && AtPoll(start, Run(start, steps), units, tenant, eligible, 0)
    ensures AtPoll(start, Run(start, after), units, tenant, eligible, n)
  {
    if n == 0 {
      after := steps;
    } else {
      var before := Polling(start, steps, units, tenant, eligible, n - 1);
      if R.InTenant(start.buildings, units[n - 1], tenant) {
        UnitPolls(start, Run(start, before), units, tenant, eligible, n - 1);
        after := Then(before, CastVote(0, Ballot(n - 1)));
      } else {
        UnitIsSkipped(start, Run(start, before).meetings[0], units, tenant, eligible, n - 1);
        after := before;
      }
    }
  }

  /** What the first `k` units make the eligible area of a meeting opened then. */
  function AreaAt(start: R.Db, units: seq<R.Unit>, k: nat, tenant: nat): real
    requires k <= |units|
  {
    R.AreaOfTenant(start.buildings, units[..k], tenant)
  }

  predicate CanMeet(start: R.Db, units: seq<R.Unit>, k: nat, tenant: nat) {
    && R.IsEmpty(start) && |start.people| > 0 && Registrable(start, units)
    && k <= |units| && tenant < |start.tenantArea| && AreaAt(start, units, k, tenant) > 0.0
  }

  lemma MeetingOpensFor(start: R.Db, w: World, units: seq<R.Unit>, k: nat, tenant: nat)
    requires CanMeet(start, units, k, tenant) && R.Inv(w.reg) && Stocked(start, w.reg, units, k) && w.meetings == []
    ensures var next := Next(w, OpenMeeting(tenant, [false], 0, 0));
      next.reg == w.reg && |next.meetings| == 1 &&
        Polled(start, next.meetings[0], units, tenant, AreaAt(start, units, k, tenant), 0)
  {
    assert units[..0] == [];
    var m := MeetingCreated(w.reg, tenant, [false], 0, 0).value;
    assert m.items[0].votes == [];
  }

  /** With a full turnout the voted area is the sum of the units' areas, each rounded to hundredths. The
      meeting opens when the first `k` units are registered; then come the others, then the votes. */
  lemma FullTurnout(start: R.Db, units: seq<R.Unit>, k: nat, tenant: nat) returns (steps: Steps)
    requires CanMeet(start, units, k, tenant)
    ensures IsAbout(Run(start, steps), 0, units, tenant, AreaAt(start, units, k, tenant))
    ensures |Run(start, steps).meetings| == 1
    ensures FirstTotal(Ballots(Run(start, steps).meetings[0].items)) == CapOfTenant(start.buildings, units, tenant)
  {
    assert units[..0] == [];
    assert StockedRun(start, Start, units, 0, []);
    var stocked := Stocking(start, Start, units, 0, k, []);
    EveryRunIsOk(start, stocked);
    MeetingOpensFor(start, Run(start, stocked), units, k, tenant);
    var ready := Then(stocked, OpenMeeting(tenant, [false], 0, 0));
    var all := Stocking(start, ready, units, k, |units|, Run(start, ready).meetings);
    steps := Polling(start, all, units, tenant, AreaAt(start, units, k, tenant), |units|);
    assert units[..|units|] == units;
    OneItemTotal(start, steps);
  }

  lemma OneItemTotal(start: R.Db, steps: Steps)
    requires R.IsEmpty(start) && |Run(start, steps).meetings| == 1 && |Run(start, steps).meetings[0].items| == 1
    ensures var items := Run(start, steps).meetings[0].items; FirstTotal(Ballots(items)) == Total(items[0].votes)
  {
    EveryRunIsOk(start, steps);
    var (w, items) := (Run(start, steps), Run(start, steps).meetings[0].items);
    assert MeetingOk(w.reg, w.meetings[0]);
    assert ItemOk(w.reg, w.meetings[0].tenant, items[0].votes);
    ItemTotalIsFirstTotal(items[0].votes);
    assert items[..0] == [] && [] + items[0].votes == items[0].votes;
    assert Ballots(items) == items[0].votes;
  }

  // ---------------------------------------------------------------- exactly when the area is kept

  lemma {:induction false} BuildingsStay(start: R.Db, steps: Steps)
    requires R.IsEmpty(start)
    ensures Run(start, steps).reg.buildings == start.buildings
  {
    if steps.Then? {
      BuildingsStay(start, steps.before);
      EveryRunIsOk(start, steps.before);
      var w := Run(start, steps.before);
      if steps.step.Register? && R.Apply(w.reg, steps.step.op).Ok? {
        RegistryGrows(w.reg, steps.step.op);
      }
    }
  }

  /** No run that ends with these units takes a meeting of the tenant with this eligible area past it. */
  ghost predicate StaysWithin(start: R.Db, units: seq<R.Unit>, tenant: nat, eligible: real) {
    forall steps: Steps, id: nat :: IsAbout(Run(start, steps), id, units, tenant, eligible) ==>
      WithinEligible(Run(start, steps).meetings[id])
  }

  predicate IsAbout(w: World, id: nat, units: seq<R.Unit>, tenant: nat, eligible: real) {
    w.reg.units == units && id < |w.meetings| && w.meetings[id].tenant == tenant && w.meetings[id].eligible == eligible
  }

  lemma CapKeepsWithin(start: R.Db, units: seq<R.Unit>, tenant: nat, eligible: real, steps: Steps, id: nat)
    requires R.IsEmpty(start) && eligible > 0.0 && IsAbout(Run(start, steps), id, units, tenant, eligible)
    requires CapOfTenant(start.buildings, units, tenant) as real <= eligible * 100.0
    ensures WithinEligible(Run(start, steps).meetings[id])
  {
    EveryRunIsOk(start, steps);
    BuildingsStay(start, steps);
    MeetingWithinCap(Run(start, steps), id);
    var m := Run(start, steps).meetings[id];
    assert MeetingOk(Run(start, steps).reg, m);
    PercentAtMost100(FirstTotal(Ballots(m.items)), m.eligible);
  }

  /** For a tenant's units, some of them perhaps registered after the meeting was opened: every reachable
      meeting stays within its eligible area if and only if the units' areas, each rounded to hundredths,
      add up to no more than it. */
  lemma StaysWithinIff(start: R.Db, units: seq<R.Unit>, k: nat, tenant: nat)
    requires CanMeet(start, units, k, tenant)
    ensures StaysWithin(start, units, tenant, AreaAt(start, units, k, tenant))
      <==> CapOfTenant(start.buildings, units, tenant) as real <= AreaAt(start, units, k, tenant) * 100.0
  {
    var eligible := AreaAt(start, units, k, tenant);
    if CapOfTenant(start.buildings, units, tenant) as real <= eligible * 100.0 {
      forall steps: Steps, id: nat | IsAbout(Run(start, steps), id, units, tenant, eligible)
        ensures WithinEligible(Run(start, steps).meetings[id])
      {
        CapKeepsWithin(start, units, tenant, eligible, steps, id);
      }
    } else {
      var steps := FullTurnout(start, units, k, tenant);
      var w := Run(start, steps);
      assert IsAbout(w, 0, units, tenant, eligible) && !WithinEligible(w.meetings[0]);
    }
  }

  // ---------------------------------------------------------------- two failing runs

  lemma OneBuildingCaps(units: seq<R.Unit>)
    requires |units| > 0 && units[|units| - 1].building == 0
    ensures CapOfTenant([0], units, 0) == CapOfTenant([0], units[..|units| - 1], 0) + Cap(units[|units| - 1].area)
    ensures R.AreaOfTenant([0], units, 0) == R.AreaOfTenant([0], units[..|units| - 1], 0) + units[|units| - 1].area
  {
  }

  /** A run after which the report and the stored percent say more than 100 percent of the eligible area voted. */
  predicate Exceeds100(start: R.Db, steps: Steps) {
    var w := Run(start, steps);
    && R.IsEmpty(start) && |w.meetings| == 1
    && Percent(FirstTotal(Ballots(w.meetings[0].items)), w.meetings[0].eligible) > 100.0
    && w.meetings[0].cachedPercent > 10000
  }

  lemma PercentAbove100(area: int, eligible: real)
    requires eligible > 0.0 && area as real >= eligible * 100.01
    ensures Percent(area, eligible) >= 100.01 && Round(100.0 * Percent(area, eligible)) > 10000
  {
    DivMonotone(eligible * 100.01, area as real, eligible);
    assert eligible * 100.01 / eligible == 100.01;
    RoundMonotone(10001.0, 100.0 * Percent(area, eligible));
  }

  lemma TurnoutExceeds(units: seq<R.Unit>, k: nat) returns (steps: Steps)
    requires CanMeet(R.OneBuilding(1), units, k, 0)
    requires CapOfTenant([0], units, 0) as real >= AreaAt(R.OneBuilding(1), units, k, 0) * 100.01
    ensures Exceeds100(R.OneBuilding(1), steps) &&
      IsAbout(Run(R.OneBuilding(1), steps), 0, units, 0, AreaAt(R.OneBuilding(1), units, k, 0))
  {
    var start := R.OneBuilding(1);
    steps := FullTurnout(start, units, k, 0);
    EveryRunIsOk(start, steps);
    var w := Run(start, steps);
    assert MeetingOk(w.reg, w.meetings[0]);
    PercentAbove100(FirstTotal(Ballots(w.meetings[0].items)), AreaAt(start, units, k, 0));
  }

  const Fine := [R.Unit(0, 1.005)]
  const Twice := [R.Unit(0, 100.0), R.Unit(0, 100.0)]

  lemma FineAreas()
    ensures CanMeet(R.OneBuilding(1), Fine, 1, 0) && AreaAt(R.OneBuilding(1), Fine, 1, 0) == 1.005 &&
      CapOfTenant([0], Fine, 0) == 101
  {
    assert Fine[..1] == Fine && Fine[..0] == [];
    OneBuildingCaps(Fine);
    R.Unit100Runs(1);
  }

  lemma TwiceAreas()
    ensures CanMeet(R.OneBuilding(1), Twice, 1, 0) && AreaAt(R.OneBuilding(1), Twice, 1, 0) == 100.0 &&
      CapOfTenant([0], Twice, 0) == 20000
  {
    assert Twice[..1] == [R.Unit(0, 100.0)] && Twice[..1][..0] == [];
    OneBuildingCaps(Twice);
    OneBuildingCaps(Twice[..1]);
    R.Unit100Runs(1);
  }

  /** One unit of 1.005 square metres: its vote weighs 1.01. */
  lemma FineAreaExceeds100()
    ensures exists start: R.Db, steps: Steps ::
      Exceeds100(start, steps) && Run(start, steps).reg.units == [R.Unit(0, 1.005)]
  {
    FineAreas();
    var steps := TurnoutExceeds(Fine, 1);
  }

  /** A unit of 100 square metres added to another after the meeting was opened: 200 percent. */
  lemma LateUnitExceeds100()
    ensures exists start: R.Db, steps: Steps ::
      Exceeds100(start, steps) && Run(start, steps).reg.units == [R.Unit(0, 100.0), R.Unit(0, 100.0)]
  {
    TwiceAreas();
    var steps := TurnoutExceeds(Twice, 1);
  }
}
