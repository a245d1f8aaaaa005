/** Owners' meetings: votes weighted by area, one per unit and agenda item, with a quorum that is
    cached after every vote and recomputed whenever a meeting is shown. */
module Votings {
  import opened Prelude
  import opened Rounding
  import R = Registry

  datatype Choice = For | Against | Abstain

  /** The weight is in hundredths of a square metre: the source rounds it to two decimals. */
  datatype Vote = Vote(user: nat, unit: nat, choice: Choice, weight: int)

  datatype Item = Item(qualified: bool, votes: seq<Vote>)

  datatype MeetingStatus = Ongoing | Completed

  /** `eligible` in square metres, `cachedPercent` in hundredths of a percent. */
  datatype Meeting = Meeting(
    tenant: nat, start: nat, end: nat, status: MeetingStatus, eligible: real, items: seq<Item>,
    cachedPercent: int, cachedAchieved: bool)

  const THRESHOLD := 50.0
  const QUALIFIED := 66.67

  datatype Error =
    | TenantNotFound | ZeroTotalArea | UserBlocked | AgendaItemNotFound | MeetingNotActive | OutsideVotingPeriod
    | NotEligibleVoter | UnitTenantMismatch | AlreadyVoted | OtpRejected | CrossTenant

  // ---------------------------------------------------------------- tallies

  /** All votes of a meeting, item by item. */
  function Ballots(items: seq<Item>): seq<Vote> {
    if items == [] then [] else Ballots(items[..|items| - 1]) + items[|items| - 1].votes
  }

  predicate Voted(votes: seq<Vote>, unit: nat) {
    votes != [] && (votes[|votes| - 1].unit == unit || Voted(votes[..|votes| - 1], unit))
  }

  /** The area of the units that voted; of several votes of a unit the first one found counts. */
  function FirstTotal(votes: seq<Vote>): int {
    if votes == [] then 0
    else
      var (init, last) := (votes[..|votes| - 1], votes[|votes| - 1]);
      FirstTotal(init) + if Voted(init, last.unit) then 0 else last.weight
  }

  /** How many units voted. */
  function Participants(votes: seq<Vote>): nat {
    if votes == [] then 0
    else
      var (init, last) := (votes[..|votes| - 1], votes[|votes| - 1]);
      Participants(init) + if Voted(init, last.unit) then 0 else 1
  }

  function Total(votes: seq<Vote>): int {
    if votes == [] then 0 else Total(votes[..|votes| - 1]) + votes[|votes| - 1].weight
  }

  function TotalOf(votes: seq<Vote>, choice: Choice): int {
    if votes == [] then 0
    else
      TotalOf(votes[..|votes| - 1], choice) +
      if votes[|votes| - 1].choice == choice then votes[|votes| - 1].weight else 0
  }

  /** Percent of the eligible area; `area` in hundredths of a square metre. */
  function Percent(area: int, eligible: real): real {
    if eligible > 0.0 then area as real / eligible else 0.0
  }

  function Weight(area: real, share: real): int {
    Round(area * share)
  }

  /** The quorum as `updateMeetingQuorum` stores it: rounded first, compared afterwards. */
  function CachedPercent(votes: seq<Vote>, eligible: real): int {
    Round(100.0 * Percent(FirstTotal(votes), eligible))
  }

  function CachedAchieved(votes: seq<Vote>, eligible: real): bool {
    CachedPercent(votes, eligible) as real >= 100.0 * THRESHOLD
  }

  /** The quorum as the report recomputes it: compared exactly. */
  function RecomputedAchieved(votes: seq<Vote>, eligible: real): bool {
    Percent(FirstTotal(votes), eligible) >= THRESHOLD
  }

  function Approved(item: Item, eligible: real): bool {
    if item.qualified then Percent(TotalOf(item.votes, For), eligible) >= QUALIFIED
    else
      var voted := Total(item.votes);
      if voted > 0 then TotalOf(item.votes, For) as real / voted as real * 100.0 > 50.0 else false
  }

  // ---------------------------------------------------------------- the operations

  function MeetingCreated(reg: R.Db, tenant: nat, qualified: seq<bool>, start: nat, end: nat): Result<Meeting, Error> {
    if tenant >= |reg.tenantArea| then Err(TenantNotFound)
    else if reg.tenantArea[tenant] <= 0.0 then Err(ZeroTotalArea)
    else Ok(Meeting(tenant, start, end, Ongoing, reg.tenantArea[tenant],
                    seq(|qualified|, k requires 0 <= k < |qualified| => Item(qualified[k], [])), 0, false))
  }

  /** The verified OWNER record of a user for a unit. */
  predicate IsOwnerRow(o: R.Ownership, user: nat, unit: nat) {
    o.user == user && o.unit == unit && o.kind == R.Owner && o.verified
  }

  function FindOwner(rows: seq<R.Ownership>, user: nat, unit: nat): (r: Option<R.Ownership>)
    ensures r.Some? ==> r.value in rows && IsOwnerRow(r.value, user, unit)
    ensures r == None ==> forall o :: o in rows ==> !IsOwnerRow(o, user, unit)
  {
    if rows == [] then None
    else if IsOwnerRow(rows[0], user, unit) then Some(rows[0])
    else FindOwner(rows[1..], user, unit)
  }

  /** A vote, with the outcome of the checks outside this module: is the user's account active, and
      did `verifyVoteOtp` accept the code. */
  datatype Cast = Cast(user: nat, isActive: bool, item: nat, unit: nat, choice: Choice, otpOk: bool, now: nat)

  function VoteOf(reg: R.Db, m: Meeting, c: Cast): Result<Vote, Error> {
    if !c.isActive then Err(UserBlocked)
    else if c.item >= |m.items| then Err(AgendaItemNotFound)
    else if m.status != Ongoing then Err(MeetingNotActive)
    else if c.now < m.start || c.now > m.end then Err(OutsideVotingPeriod)
    else
      var owner := FindOwner(reg.ownerships, c.user, c.unit);
      if owner == None || c.unit >= |reg.units| || reg.units[c.unit].building >= |reg.buildings| then
        Err(NotEligibleVoter)
      else if R.TenantOf(reg, c.unit) != m.tenant then Err(UnitTenantMismatch)
      else if Voted(m.items[c.item].votes, c.unit) then Err(AlreadyVoted)
      else if !c.otpOk then Err(OtpRejected)
      else Ok(Vote(c.user, c.unit, c.choice, Weight(reg.units[c.unit].area, owner.value.share)))
  }

  function Added(items: seq<Item>, item: nat, vote: Vote): seq<Item>
    requires item < |items|
  {
    items[item := items[item].(votes := items[item].votes + [vote])]
  }

  function WithQuorum(m: Meeting): Meeting {
    if m.eligible <= 0.0 then m
    else m.(cachedPercent := CachedPercent(Ballots(m.items), m.eligible),
            cachedAchieved := CachedAchieved(Ballots(m.items), m.eligible))
  }

  function AfterVote(reg: R.Db, m: Meeting, c: Cast): Result<Meeting, Error> {
    match VoteOf(reg, m, c)
    case Err(e) => Err(e)
    case Ok(vote) => Ok(WithQuorum(m.(items := Added(m.items, c.item, vote))))
  }

  datatype ItemResult = ItemResult(areaFor: int, areaAgainst: int, areaAbstain: int, isApproved: bool)
  datatype Report = Report(items: seq<ItemResult>, votedArea: int, isQuorumAchieved: bool, participants: nat)

  /** A JavaScript Map from unit to weight, in insertion order. */
  type UnitAreas = seq<(nat, int)>

  predicate Has(areas: UnitAreas, unit: nat) {
    areas != [] && (areas[|areas| - 1].0 == unit || Has(areas[..|areas| - 1], unit))
  }

  function SumOf(areas: UnitAreas): int {
    if areas == [] then 0 else SumOf(areas[..|areas| - 1]) + areas[|areas| - 1].1
  }

  /** The map after all of `votes` went through it. */
  ghost predicate Collected(areas: UnitAreas, votes: seq<Vote>) {
    && SumOf(areas) == FirstTotal(votes) && |areas| == Participants(votes)
    && (forall unit :: Has(areas, unit) <==> Voted(votes, unit))
  }

  function Inserted(areas: UnitAreas, v: Vote): UnitAreas {
    if Has(areas, v.unit) then areas else areas + [(v.unit, v.weight)]
  }

  lemma InsertCollects(areas: UnitAreas, votes: seq<Vote>, v: Vote)
    requires Collected(areas, votes)
    ensures Collected(Inserted(areas, v), votes + [v])
  {
    assert (votes + [v])[..|votes|] == votes;
    assert Has(areas, v.unit) <==> Voted(votes, v.unit);
    if !Has(areas, v.unit) { assert Inserted(areas, v)[..|areas|] == areas; }
  }

  /** One agenda item's votes go through the map. */
  method CollectItem(areas: UnitAreas, ghost earlier: seq<Vote>, votes: seq<Vote>) returns (next: UnitAreas)
    requires Collected(areas, earlier)
    ensures Collected(next, earlier + votes)
  {
    next := areas;
    assert earlier + votes[..0] == earlier;
    for j := 0 to |votes|
      invariant Collected(next, earlier + votes[..j])
    {
      InsertCollects(next, earlier + votes[..j], votes[j]);
      assert earlier + votes[..j + 1] == earlier + votes[..j] + [votes[j]];
      if !Has(next, votes[j].unit) { next := next + [(votes[j].unit, votes[j].weight)]; }
    }
    assert votes[..|votes|] == votes;
  }

  /** The tallies of one agenda item. */
  method TallyItem(votes: seq<Vote>) returns (areaFor: int, areaAgainst: int, areaAbstain: int)
    ensures areaFor == TotalOf(votes, For) && areaAgainst == TotalOf(votes, Against) &&
      areaAbstain == TotalOf(votes, Abstain)
  {
    areaFor, areaAgainst, areaAbstain := 0, 0, 0;
    for j := 0 to |votes|
      invariant areaFor == TotalOf(votes[..j], For) && areaAgainst == TotalOf(votes[..j], Against)
      invariant areaAbstain == TotalOf(votes[..j], Abstain)
    {
      assert votes[..j + 1][..j] == votes[..j];
      if votes[j].choice == For { areaFor := areaFor + votes[j].weight; }
      if votes[j].choice == Against { areaAgainst := areaAgainst + votes[j].weight; }
      if votes[j].choice == Abstain { areaAbstain := areaAbstain + votes[j].weight; }
    }
    assert votes[..|votes|] == votes;
  }

  class VotingsService {
    var meetings: seq<Meeting>

    constructor ()
      ensures meetings == []
    {
      meetings := [];
    }

    method CastVote(reg: R.Db, id: nat, c: Cast) returns (error: Option<Error>)
      requires id < |meetings|
      modifies this
      ensures error == None ==>
        AfterVote(reg, old(meetings)[id], c).Ok? &&
          meetings == old(meetings)[id := AfterVote(reg, old(meetings)[id], c).value]
      ensures error.Some? ==> AfterVote(reg, old(meetings)[id], c) == Err(error.value) && meetings == old(meetings)
    {
      var m := meetings[id];
      if !c.isActive { return Some(UserBlocked); }
      if c.item >= |m.items| { return Some(AgendaItemNotFound); }
      if m.status != Ongoing { return Some(MeetingNotActive); }
      if c.now < m.start || c.now > m.end { return Some(OutsideVotingPeriod); }
      var owner := FindOwner(reg.ownerships, c.user, c.unit);
      if owner == None || c.unit >= |reg.units| || reg.units[c.unit].building >= |reg.buildings| {
        return Some(NotEligibleVoter);
      }
      if R.TenantOf(reg, c.unit) != m.tenant { return Some(UnitTenantMismatch); }
      if Voted(m.items[c.item].votes, c.unit) { return Some(AlreadyVoted); }
      if !c.otpOk { return Some(OtpRejected); }
      var areaWeight := Weight(reg.units[c.unit].area, owner.value.share);
      var vote := Vote(c.user, c.unit, c.choice, areaWeight);
      meetings :=
        meetings[id := m.(items := m.items[c.item := m.items[c.item].(votes := m.items[c.item].votes + [vote])])];
      UpdateMeetingQuorum(id);
      return None;
    }

    /** The voted area in percent, rounded, then compared with the threshold, then stored. */
    method UpdateMeetingQuorum(id: nat)
      requires id < |meetings|
      modifies this
      ensures meetings == old(meetings)[id := WithQuorum(old(meetings)[id])]
    {
      var m := meetings[id];
      if m.eligible <= 0.0 { return; }
      var total := VotedArea(m.items);
      var percent := Round(100.0 * Percent(total, m.eligible));
      meetings := meetings[id := m.(cachedPercent := percent, cachedAchieved := percent as real >= 100.0 * THRESHOLD)];
    }
  }

  /** Each unit's first weight over all items, and the sum of the map. */
  method VotedArea(items: seq<Item>) returns (total: int)
    ensures total == FirstTotal(Ballots(items))
  {
    var areas: UnitAreas := [];
    for i := 0 to |items|
      invariant Collected(areas, Ballots(items[..i]))
    {
      assert items[..i + 1][..i] == items[..i];
      areas := CollectItem(areas, Ballots(items[..i]), items[i].votes);
    }
    assert items[..|items|] == items;
    total := SumAreas(areas);
  }

  function ResultOf(item: Item, eligible: real): ItemResult {
    ItemResult(TotalOf(item.votes, For), TotalOf(item.votes, Against), TotalOf(item.votes, Abstain),
      Approved(item, eligible))
  }

  /** What approval means, on the tallies (in hundredths of a square metre): a qualified majority is 66.67 percent
      of the eligible area, a simple one is more for than against and abstained together. */
  predicate IsDecided(item: Item, eligible: real, r: ItemResult) {
    r.isApproved <==>
      if item.qualified then eligible > 0.0 && r.areaFor as real >= 66.67 * eligible
      else r.areaFor > r.areaAgainst + r.areaAbstain && r.areaFor + r.areaAgainst + r.areaAbstain > 0
  }

  lemma ResultIsDecided(item: Item, eligible: real)
    ensures IsDecided(item, eligible, ResultOf(item, eligible))
  {
    ThreeChoices(item.votes);
    PercentReaches(TotalOf(item.votes, For), eligible, 66.67);
    var voted := Total(item.votes);
    if voted > 0 {
      HalfIsMore(TotalOf(item.votes, For), voted);
    }
  }

  lemma PercentReaches(area: int, eligible: real, threshold: real)
    requires threshold > 0.0
    ensures Percent(area, eligible) >= threshold <==> eligible > 0.0 && area as real >= threshold * eligible
  {
    if eligible > 0.0 {
      var p := Percent(area, eligible);
      assert p * eligible == area as real;
      if p >= threshold {
        MulReal(eligible, threshold, p);
      } else {
        MulLess(eligible, p, threshold);
      }
    }
  }

  lemma HalfIsMore(part: int, whole: int)
    requires whole > 0
    ensures part as real / whole as real * 100.0 > 50.0 <==> 2 * part > whole
  {
    var q := part as real / whole as real;
    assert q * whole as real == part as real;
    if q > 0.5 {
      MulLess(whole as real, 0.5, q);
    } else {
      MulReal(whole as real, q, 0.5);
    }
  }

  lemma MulReal(k: real, a: real, b: real)
    requires k >= 0.0 && a <= b
    ensures a * k <= b * k
  {
  }

  lemma MulLess(k: real, a: real, b: real)
    requires k > 0.0 && a < b
    ensures a * k < b * k
  {
  }

  /** The tallies and the approval of one agenda item. */
  method DecideItem(item: Item, eligible: real) returns (r: ItemResult)
    ensures r == ResultOf(item, eligible) && IsDecided(item, eligible, r)
  {
    var areaFor, areaAgainst, areaAbstain := TallyItem(item.votes);
    ThreeChoices(item.votes);
    var voted := areaFor + areaAgainst + areaAbstain;
    var fromVoted := if voted > 0 then areaFor as real / voted as real * 100.0 else 0.0;
    var isApproved := if item.qualified then Percent(areaFor, eligible) >= QUALIFIED else fromVoted > 50.0;
    ResultIsDecided(item, eligible);
    r := ItemResult(areaFor, areaAgainst, areaAbstain, isApproved);
  }

  /** `enrichMeetingWithResults`: the tallies of each item and the quorum over the same votes. */
  method EnrichMeeting(m: Meeting) returns (r: Report)
    ensures |r.items| == |m.items|
    ensures forall i :: 0 <= i < |m.items| ==> r.items[i] == ResultOf(m.items[i], m.eligible)
    ensures r.votedArea == FirstTotal(Ballots(m.items)) && r.participants == Participants(Ballots(m.items))
    ensures r.isQuorumAchieved == RecomputedAchieved(Ballots(m.items), m.eligible)
    ensures forall i :: 0 <= i < |m.items| ==> IsDecided(m.items[i], m.eligible, r.items[i])
    ensures r.isQuorumAchieved <==> m.eligible > 0.0 && r.votedArea as real >= 50.0 * m.eligible
  {
    var areas: UnitAreas := [];
    var results: seq<ItemResult> := [];
    for i := 0 to |m.items|
      invariant |results| == i && Collected(areas, Ballots(m.items[..i]))
      invariant forall k :: 0 <= k < i ==> results[k] == ResultOf(m.items[k], m.eligible)
    {
      assert m.items[..i + 1][..i] == m.items[..i];
      var item := m.items[i];
      areas := CollectItem(areas, Ballots(m.items[..i]), item.votes);
      var result := DecideItem(item, m.eligible);
      results := results + [result];
    }
    assert m.items[..|m.items|] == m.items;
    var total := SumAreas(areas);
    PercentReaches(total, m.eligible, 50.0);
    forall i | 0 <= i < |m.items| ensures IsDecided(m.items[i], m.eligible, results[i]) {
      ResultIsDecided(m.items[i], m.eligible);
    }
    r := Report(results, total, Percent(total, m.eligible) >= THRESHOLD, |areas|);
  }

  method SumAreas(areas: UnitAreas) returns (sum: int)
    ensures sum == SumOf(areas)
  {
    sum := 0;
    for k := 0 to |areas|
      invariant sum == SumOf(areas[..k])
    {
      assert areas[..k + 1][..k] == areas[..k];
      sum := sum + areas[k].1;
    }
    assert areas[..|areas|] == areas;
  }

  lemma {:induction false} ThreeChoices(votes: seq<Vote>)
    ensures Total(votes) == TotalOf(votes, For) + TotalOf(votes, Against) + TotalOf(votes, Abstain)
  {
    if votes != [] { ThreeChoices(votes[..|votes| - 1]); }
  }
}
