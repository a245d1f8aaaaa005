/** Registry and meetings together: every run of registering units, claiming and verifying
    ownership, opening meetings, voting and closing them. */
module MeetingRuns {
  import opened Prelude
  import opened Rounding
  import opened Votings
  import opened VotingLaws
  import R = Registry

  datatype World = World(reg: R.Db, meetings: seq<Meeting>)

  datatype Step =
    | Register(op: R.Op)
    | OpenMeeting(tenant: nat, qualified: seq<bool>, start: nat, end: nat)
    | CastVote(meeting: nat, cast: Cast)
    | CloseMeeting(meeting: nat)

  datatype Steps = Start | Then(before: Steps, step: Step)

  function Next(w: World, step: Step): World {
    match step
    case Register(op) => w.(reg := R.Next(w.reg, op))
    case OpenMeeting(tenant, qualified, start, end) =>
      (match MeetingCreated(w.reg, tenant, qualified, start, end)
       case Ok(m) => w.(meetings := w.meetings + [m])
       case Err(_) => w)
    case CastVote(meeting, cast) =>
      if meeting >= |w.meetings| then w
      else
        (match AfterVote(w.reg, w.meetings[meeting], cast)
         case Ok(m) => w.(meetings := w.meetings[meeting := m])
         case Err(_) => w)
    case CloseMeeting(meeting) =>
      if meeting >= |w.meetings| then w
      else w.(meetings := w.meetings[meeting := w.meetings[meeting].(status := Completed)])
  }

  function Run(reg: R.Db, steps: Steps): World {
    if steps == Start then World(reg, []) else Next(Run(reg, steps.before), steps.step)
  }

  // ---------------------------------------------------------------- what every run keeps

  predicate ItemOk(reg: R.Db, tenant: nat, votes: seq<Vote>) {
    OnePerUnit(votes) && forall v :: v in votes ==> Lawful(reg, tenant, v)
  }

  predicate MeetingOk(reg: R.Db, m: Meeting) {
    && m.tenant < |reg.tenantArea| && 0.0 < m.eligible <= reg.tenantArea[m.tenant]
    && (forall i :: 0 <= i < |m.items| ==> ItemOk(reg, m.tenant, m.items[i].votes))
    && m.cachedPercent == CachedPercent(Ballots(m.items), m.eligible)
    && m.cachedAchieved == CachedAchieved(Ballots(m.items), m.eligible)
  }

  predicate Inv(w: World) {
    R.Inv(w.reg) && forall i :: 0 <= i < |w.meetings| ==> MeetingOk(w.reg, w.meetings[i])
  }

  /** The registry only grows as far as meetings are concerned. */
  predicate Grows(reg: R.Db, next: R.Db) {
    && next.buildings == reg.buildings && reg.units <= next.units && |next.tenantArea| == |reg.tenantArea|
    && forall t :: 0 <= t < |reg.tenantArea| ==> reg.tenantArea[t] <= next.tenantArea[t]
  }

  lemma NewUnitGrows(reg: R.Db, op: R.Op)
    requires R.Inv(reg) && op.AddUnit? && R.UnitAdded(reg, op).Ok?
    ensures Grows(reg, R.UnitAdded(reg, op).value)
  {
    R.AreasBalance(reg, op);
  }

  /** Claims and decisions leave units and areas alone. */
  lemma PeopleDoNotGrow(reg: R.Db, op: R.Op)
    requires !op.AddUnit? && R.Apply(reg, op).Ok?
    ensures var next := R.Apply(reg, op).value;
      next.buildings == reg.buildings && next.units == reg.units && next.tenantArea == reg.tenantArea
  {
  }

  lemma RegistryGrows(reg: R.Db, op: R.Op)
    requires R.Inv(reg) && R.Apply(reg, op).Ok?
    ensures Grows(reg, R.Apply(reg, op).value)
  {
    if op.AddUnit? {
      NewUnitGrows(reg, op);
    } else {
      PeopleDoNotGrow(reg, op);
    }
  }

  lemma MeetingSurvives(reg: R.Db, next: R.Db, m: Meeting)
    requires MeetingOk(reg, m) && Grows(reg, next)
    ensures MeetingOk(next, m)
  {
    forall i | 0 <= i < |m.items| ensures ItemOk(next, m.tenant, m.items[i].votes) {
      forall v | v in m.items[i].votes ensures Lawful(next, m.tenant, v) {
        assert Lawful(reg, m.tenant, v);
      }
    }
  }

  lemma {:induction false} NoBallots(items: seq<Item>)
    requires forall i :: 0 <= i < |items| ==> items[i].votes == []
    ensures Ballots(items) == []
  {
    if items != [] { NoBallots(items[..|items| - 1]); }
  }

  lemma NewMeetingIsOk(reg: R.Db, tenant: nat, qualified: seq<bool>, start: nat, end: nat)
    requires MeetingCreated(reg, tenant, qualified, start, end).Ok?
    ensures MeetingOk(reg, MeetingCreated(reg, tenant, qualified, start, end).value)
  {
    var m := MeetingCreated(reg, tenant, qualified, start, end).value;
    NoBallots(m.items);
    assert Percent(0, m.eligible) == 0.0;
  }

  /** The weight a verified share gives a unit fits its area. */
  lemma VoteIsLawful(reg: R.Db, m: Meeting, c: Cast)
    requires R.Inv(reg) && VoteOf(reg, m, c).Ok?
    ensures Lawful(reg, m.tenant, VoteOf(reg, m, c).value)
  {
    var owner := FindOwner(reg.ownerships, c.user, c.unit).value;
    WeightWithinCap(reg.units[c.unit].area, owner.share);
  }

  lemma VoteKeepsMeetingOk(reg: R.Db, m: Meeting, c: Cast)
    requires R.Inv(reg) && MeetingOk(reg, m) && AfterVote(reg, m, c).Ok?
    ensures MeetingOk(reg, AfterVote(reg, m, c).value)
  {
    var next := AfterVote(reg, m, c).value;
    VoteIsLawful(reg, m, c);
    var (old', new') := (m.items[c.item].votes, next.items[c.item].votes);
    assert new'[..|old'|] == old';
    assert ItemOk(reg, m.tenant, old');
    assert ItemOk(reg, m.tenant, new');
  }

  lemma StepKeepsInv(w: World, step: Step)
    requires Inv(w)
    ensures Inv(Next(w, step))
  {
    match step
    case Register(op) =>
      if R.Apply(w.reg, op).Ok? {
        R.ApplyKeepsInv(w.reg, op);
        RegistryGrows(w.reg, op);
        forall i | 0 <= i < |w.meetings| ensures MeetingOk(R.Apply(w.reg, op).value, w.meetings[i]) {
          MeetingSurvives(w.reg, R.Apply(w.reg, op).value, w.meetings[i]);
        }
      }
    case OpenMeeting(tenant, qualified, start, end) =>
      if MeetingCreated(w.reg, tenant, qualified, start, end).Ok? {
        NewMeetingIsOk(w.reg, tenant, qualified, start, end);
      }
    case CastVote(meeting, cast) =>
      if meeting < |w.meetings| && AfterVote(w.reg, w.meetings[meeting], cast).Ok? {
        VoteKeepsMeetingOk(w.reg, w.meetings[meeting], cast);
      }
    case CloseMeeting(meeting) =>
  }

  /** In every reachable state each unit has voted at most once on each item, every vote comes from the
      meeting's own tenant and weighs no more than its unit, and the stored quorum is up to date. */
  lemma {:induction false} EveryRunIsOk(reg: R.Db, steps: Steps)
    requires R.IsEmpty(reg)
    ensures Inv(Run(reg, steps))
  {
    if steps == Start {
      R.EveryRunIsOk(reg, R.Start);
    } else {
      EveryRunIsOk(reg, steps.before);
      StepKeepsInv(Run(reg, steps.before), steps.step);
    }
  }

  lemma MeetingWithinCap(w: World, id: nat)
    requires Inv(w) && id < |w.meetings|
    ensures var m := w.meetings[id];
      var cap := CapOfTenant(w.reg.buildings, w.reg.units, m.tenant);
      && FirstTotal(Ballots(m.items)) <= cap
      && forall i :: 0 <= i < |m.items| ==> Total(m.items[i].votes) <= cap
  {
    var m := w.meetings[id];
    forall v | v in Ballots(m.items) ensures Lawful(w.reg, m.tenant, v) {
      var i := ItemOfBallot(m.items, v);
      assert ItemOk(w.reg, m.tenant, m.items[i].votes);
    }
    VotedAreaWithinCap(w.reg, m.tenant, Ballots(m.items));
    forall i | 0 <= i < |m.items|
      ensures Total(m.items[i].votes) <= CapOfTenant(w.reg.buildings, w.reg.units, m.tenant)
    {
      assert ItemOk(w.reg, m.tenant, m.items[i].votes);
      ItemTotalIsFirstTotal(m.items[i].votes);
      VotedAreaWithinCap(w.reg, m.tenant, m.items[i].votes);
    }
  }

  lemma PercentAtMost100(area: int, eligible: real)
    requires eligible > 0.0 && area as real <= eligible * 100.0
    ensures Percent(area, eligible) <= 100.0 && Round(100.0 * Percent(area, eligible)) <= 10000
  {
    DivMonotone(area as real, eligible * 100.0, eligible);
    assert eligible * 100.0 / eligible == 100.0;
    RoundMonotone(100.0 * Percent(area, eligible), 10000.0);
  }

  /** No unit was added to the tenant since the meeting was opened (units have at least one square
      metre), and its areas are whole hundredths. */
  predicate Settled(w: World, id: nat)
    requires id < |w.meetings|
  {
    var m := w.meetings[id];
    && m.tenant < |w.reg.tenantArea| && m.eligible == w.reg.tenantArea[m.tenant]
    && WholeHundredths(w.reg.buildings, w.reg.units, m.tenant)
  }

  predicate WithinEligible(m: Meeting) {
    && (forall i :: 0 <= i < |m.items| ==> Total(m.items[i].votes) as real <= m.eligible * 100.0)
    && FirstTotal(Ballots(m.items)) as real <= m.eligible * 100.0
    && Percent(FirstTotal(Ballots(m.items)), m.eligible) <= 100.0
    && m.cachedPercent <= 10000
  }

  lemma MeetingWithinEligible(w: World, id: nat)
    requires Inv(w) && id < |w.meetings| && Settled(w, id)
    ensures WithinEligible(w.meetings[id])
  {
    var m := w.meetings[id];
    assert MeetingOk(w.reg, m);
    MeetingWithinCap(w, id);
    CapIsArea(w.reg.buildings, w.reg.units, m.tenant);
    PercentAtMost100(FirstTotal(Ballots(m.items)), m.eligible);
  }

  /** End to end: in every reachable state a settled meeting's votes, on every item and in the whole
      meeting, stay within the eligible area, and no quorum passes 100 percent. */
  lemma VotedAreaWithinEligible(reg: R.Db, steps: Steps, id: nat)
    requires R.IsEmpty(reg) && id < |Run(reg, steps).meetings| && Settled(Run(reg, steps), id)
    ensures WithinEligible(Run(reg, steps).meetings[id])
  {
    EveryRunIsOk(reg, steps);
    MeetingWithinEligible(Run(reg, steps), id);
  }

  // ---------------------------------------------------------------- a quorum that is lost again

  /** A user claims a share of a unit and is approved, as record `id`. */
  function Grant(steps: Steps, user: nat, unit: nat, share: real, id: nat): Steps {
    Then(Then(steps, Register(R.Claim(user, unit, R.Owner, Some(share)))), Register(R.Decide(id, R.Root, true, None)))
  }

  lemma GrantRuns(reg: R.Db, steps: Steps, user: nat, unit: nat, share: real)
    ensures var w := Run(reg, steps);
      Run(reg, Grant(steps, user, unit, share, w.reg.nextId)) == w.(reg := R.Granted(w.reg, user, unit, share))
  {
  }

  /** One unit of 100 square metres; its two owners hold 90 and 10 percent, both verified. */
  function CoOwned(): Steps {
    Grant(Grant(Then(Start, Register(R.AddUnit(0, None, 100.0))), 0, 0, 90.0, 0), 1, 0, 10.0, 1)
  }

  const Large := R.Ownership(0, 0, 0, R.Owner, 90.0, true)
  const Small := R.Ownership(1, 1, 0, R.Owner, 10.0, true)

  predicate IsCoOwned(reg: R.Db) {
    && reg.buildings == [0] && reg.tenantArea == [100.0] && reg.units == [R.Unit(0, 100.0)]
    && reg.ownerships == [Large, Small]
  }

  lemma UnitRuns()
    ensures var start := R.OneBuilding(2);
      var w := Run(start, Then(Start, Register(R.AddUnit(0, None, 100.0))));
      && R.IsEmpty(start) && w == World(R.Run(start, R.Unit100()), []) && R.Inv(w.reg)
  {
    var start := R.OneBuilding(2);
    R.Unit100Runs(2);
    R.EveryRunIsOk(start, R.Unit100());
    assert R.Run(start, R.Unit100()) == R.Next(R.Run(start, R.Start), R.AddUnit(0, None, 100.0));
  }

  lemma FirstGranted(db: R.Db, next: R.Db)
    requires db.ownerships == [] && db.nextId == 0 && R.Grants(db, next, 0, 0, 90.0)
    ensures next.ownerships == [Large] && next.nextId == 1 && R.Shares([Large], 0) == 90.0
  {
    assert db.ownerships + [Large] == [Large];
  }

  lemma SecondGranted(db: R.Db, next: R.Db)
    requires db.ownerships == [Large] && db.nextId == 1 && R.Grants(db, next, 1, 0, 10.0)
    ensures next.ownerships == [Large, Small]
  {
    assert db.ownerships + [Small] == [Large, Small];
  }

  lemma CoOwnedRuns()
    ensures R.IsEmpty(R.OneBuilding(2))
    ensures var w := Run(R.OneBuilding(2), CoOwned()); IsCoOwned(w.reg) && w.meetings == []
  {
    var start := R.OneBuilding(2);
    var unit := Then(Start, Register(R.AddUnit(0, None, 100.0)));
    UnitRuns();
    R.Unit100Runs(2);
    var db := Run(start, unit).reg;
    R.GrantedOwns(db, 0, 0, 90.0);
    var one := R.Granted(db, 0, 0, 90.0);
    FirstGranted(db, one);
    R.GrantedOwns(one, 1, 0, 10.0);
    SecondGranted(one, R.Granted(one, 1, 0, 10.0));
    GrantRuns(start, unit, 0, 0, 90.0);
    GrantRuns(start, Grant(unit, 0, 0, 90.0, 0), 1, 0, 10.0);
  }

  const Ready := Meeting(0, 0, 0, Ongoing, 100.0, [Item(false, []), Item(false, [])], 0, false)
  const LargeVote := Vote(0, 0, For, 9000)
  const SmallVote := Vote(1, 0, For, 1000)
  const Quorate :=
    Ready.(items := [Item(false, []), Item(false, [LargeVote])], cachedPercent := 9000, cachedAchieved := true)
  const Inquorate :=
    Ready.(
      items := [Item(false, [SmallVote]), Item(false, [LargeVote])], cachedPercent := 1000, cachedAchieved := false)

  lemma BallotsOfTwo(x: Item, y: Item)
    ensures Ballots([x, y]) == x.votes + y.votes
  {
    assert [x, y][..1] == [x] && [x][..0] == [];
    assert Ballots([x]) == [] + x.votes == x.votes;
  }

  lemma FirstTotalOfOne(v: Vote)
    ensures FirstTotal([v]) == v.weight && Voted([v], v.unit)
  {
    assert [v][..0] == [];
  }

  lemma FirstTotalOfTwo(v: Vote, w: Vote)
    requires v.unit == w.unit
    ensures FirstTotal([v, w]) == v.weight
  {
    assert [v, w][..1] == [v];
    FirstTotalOfOne(v);
  }

  lemma FindsOwner(o: R.Ownership, p: R.Ownership, user: nat, unit: nat)
    ensures IsOwnerRow(o, user, unit) ==> FindOwner([o, p], user, unit) == Some(o)
    ensures !IsOwnerRow(o, user, unit) && IsOwnerRow(p, user, unit) ==> FindOwner([o, p], user, unit) == Some(p)
  {
    assert [o, p][1..] == [p];
  }

  /** The large owner votes on the second item: 90 percent. */
  lemma LargeVoteCounts(reg: R.Db)
    requires IsCoOwned(reg)
    ensures AfterVote(reg, Ready, Cast(0, true, 1, 0, For, true, 0)) == Ok(Quorate)
    ensures RecomputedAchieved(Ballots(Quorate.items), 100.0)
  {
    FindsOwner(Large, Small, 0, 0);
    assert [] + [LargeVote] == [LargeVote];
    assert Added(Ready.items, 1, LargeVote) == Quorate.items;
    BallotsOfTwo(Item(false, []), Item(false, [LargeVote]));
    assert [] + [LargeVote] == [LargeVote];
    FirstTotalOfOne(LargeVote);
    assert Percent(9000, 100.0) == 90.0;
  }

  /** Then the small owner votes on the first item, and only that vote is found: 10 percent. */
  lemma SmallVoteCounts(reg: R.Db)
    requires IsCoOwned(reg)
    ensures AfterVote(reg, Quorate, Cast(1, true, 0, 0, For, true, 0)) == Ok(Inquorate)
    ensures !RecomputedAchieved(Ballots(Inquorate.items), 100.0)
  {
    FindsOwner(Large, Small, 1, 0);
    assert [] + [SmallVote] == [SmallVote];
    assert Added(Quorate.items, 0, SmallVote) == Inquorate.items;
    BallotsOfTwo(Item(false, [SmallVote]), Item(false, [LargeVote]));
    assert [SmallVote] + [LargeVote] == [SmallVote, LargeVote];
    FirstTotalOfTwo(SmallVote, LargeVote);
    assert Percent(1000, 100.0) == 10.0;
  }

  lemma MeetingOpens(w: World)
    requires IsCoOwned(w.reg) && w.meetings == []
    ensures Next(w, OpenMeeting(0, [false, false], 0, 0)) == w.(meetings := [Ready])
  {
    var m := MeetingCreated(w.reg, 0, [false, false], 0, 0).value;
    assert m.items == Ready.items;
    assert [] + [Ready] == [Ready];
  }

  lemma OnlyMeetingVotes(reg: R.Db, m: Meeting, cast: Cast, after: Meeting)
    requires AfterVote(reg, m, cast) == Ok(after)
    ensures Next(World(reg, [m]), CastVote(0, cast)) == World(reg, [after])
  {
  }

  lemma ReadyRuns() returns (steps: Steps, reg: R.Db)
    ensures R.IsEmpty(R.OneBuilding(2)) && IsCoOwned(reg) && Run(R.OneBuilding(2), steps) == World(reg, [Ready])
  {
    CoOwnedRuns();
    var w := Run(R.OneBuilding(2), CoOwned());
    reg := w.reg;
    MeetingOpens(w);
    steps := Then(CoOwned(), OpenMeeting(0, [false, false], 0, 0));
  }

  lemma QuorumRuns() returns (steps: Steps, reg: R.Db)
    ensures R.IsEmpty(R.OneBuilding(2)) && IsCoOwned(reg) && Run(R.OneBuilding(2), steps) == World(reg, [Quorate])
  {
    var ready: Steps;
    ready, reg := ReadyRuns();
    LargeVoteCounts(reg);
    OnlyMeetingVotes(reg, Ready, Cast(0, true, 1, 0, For, true, 0), Quorate);
    steps := Then(ready, CastVote(0, Cast(0, true, 1, 0, For, true, 0)));
  }

  /** The vote is accepted, and the meeting's quorum, stored and reported, is gone. */
  predicate LosesQuorum(reg: R.Db, steps: Steps, cast: Cast) {
    var (before, after) := (Run(reg, steps), Run(reg, Then(steps, CastVote(0, cast))));
    && |before.meetings| == 1 && |after.meetings| == 1 && VoteOf(before.reg, before.meetings[0], cast).Ok?
    && before.meetings[0].cachedAchieved && !after.meetings[0].cachedAchieved
    && RecomputedAchieved(Ballots(before.meetings[0].items), before.meetings[0].eligible)
    && !RecomputedAchieved(Ballots(after.meetings[0].items), after.meetings[0].eligible)
  }

  /** A vote can take an achieved quorum away: two co-owners of one unit, the larger of whom voted first,
      but on a later item. */
  lemma VoteCanLoseQuorum()
    ensures exists reg: R.Db, steps: Steps, cast: Cast :: R.IsEmpty(reg) && LosesQuorum(reg, steps, cast)
  {
    var steps, reg := QuorumRuns();
    var cast := Cast(1, true, 0, 0, For, true, 0);
    LargeVoteCounts(reg);
    SmallVoteCounts(reg);
    OnlyMeetingVotes(reg, Quorate, cast, Inquorate);
    assert LosesQuorum(R.OneBuilding(2), steps, cast);
  }

  /** Once a meeting is closed, no vote in it is accepted, whatever happens in between. */
  lemma {:induction false} ClosedMeetingTakesNoVote(reg: R.Db, steps: Steps, more: Steps, meeting: nat)
    requires meeting < |Run(reg, steps).meetings| && Continues(more, Then(steps, CloseMeeting(meeting)))
    ensures meeting < |Run(reg, more).meetings|
    ensures Run(reg, more).meetings[meeting] == Run(reg, steps).meetings[meeting].(status := Completed)
  {
    if more != Then(steps, CloseMeeting(meeting)) {
      ClosedMeetingTakesNoVote(reg, steps, more.before, meeting);
    }
  }

  predicate Continues(more: Steps, steps: Steps) {
    more == steps || (more.Then? && Continues(more.before, steps))
  }
}
