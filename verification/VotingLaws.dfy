/** What holds of the tallies and of the quorum: bounds by area, order independence, monotonicity,
    and how the cached and the recomputed quorum relate. */
module VotingLaws {
  import opened Prelude
  import opened Rounding
  import opened Votings
  import R = Registry

  // ---------------------------------------------------------------- the voted area, unit by unit

  /** The weight of the first vote of a unit; 0 if it did not vote. */
  function FirstWeight(votes: seq<Vote>, unit: nat): int {
    if votes == [] then 0
    else
      var (init, last) := (votes[..|votes| - 1], votes[|votes| - 1]);
      if Voted(init, unit) then FirstWeight(init, unit) else if last.unit == unit then last.weight else 0
  }

  function SumFirst(votes: seq<Vote>, n: nat): int {
    if n == 0 then 0 else SumFirst(votes, n - 1) + FirstWeight(votes, n - 1)
  }

  predicate UnitsBelow(votes: seq<Vote>, n: nat) {
    forall v :: v in votes ==> v.unit < n
  }

  lemma {:induction false} AbsentIsZero(votes: seq<Vote>, unit: nat)
    requires !Voted(votes, unit)
    ensures FirstWeight(votes, unit) == 0
  {
  }

  lemma {:induction false} SumFirstSnoc(votes: seq<Vote>, v: Vote, n: nat)
    ensures SumFirst(votes + [v], n) == SumFirst(votes, n) + if v.unit < n && !Voted(votes, v.unit) then v.weight else 0
  {
    if n > 0 {
      SumFirstSnoc(votes, v, n - 1);
      assert (votes + [v])[..|votes|] == votes;
      if !Voted(votes, n - 1) { AbsentIsZero(votes, n - 1); }
    }
  }

  lemma {:induction false} SumFirstOfNone(n: nat)
    ensures SumFirst([], n) == 0
  {
    if n > 0 { SumFirstOfNone(n - 1); }
  }

  lemma {:induction false} FirstTotalBySums(votes: seq<Vote>, n: nat)
    requires UnitsBelow(votes, n)
    ensures FirstTotal(votes) == SumFirst(votes, n)
  {
    if votes == [] {
      SumFirstOfNone(n);
    } else {
      var (init, last) := (votes[..|votes| - 1], votes[|votes| - 1]);
      FirstTotalBySums(init, n);
      SumFirstSnoc(init, last, n);
      assert votes == init + [last];
    }
  }

  lemma {:induction false} SumFirstLe(a: seq<Vote>, b: seq<Vote>, n: nat)
    requires forall unit :: 0 <= unit < n ==> FirstWeight(a, unit) <= FirstWeight(b, unit)
    ensures SumFirst(a, n) <= SumFirst(b, n)
  {
    if n > 0 { SumFirstLe(a, b, n - 1); }
  }

  lemma {:induction false} MemberVoted(votes: seq<Vote>, v: Vote)
    requires v in votes
    ensures Voted(votes, v.unit)
  {
    var init := votes[..|votes| - 1];
    if v != votes[|votes| - 1] {
      assert v in init;
      MemberVoted(init, v);
    }
  }

  lemma {:induction false} FirstVote(votes: seq<Vote>, unit: nat) returns (v: Vote)
    requires Voted(votes, unit)
    ensures v in votes && v.unit == unit && v.weight == FirstWeight(votes, unit)
  {
    var init := votes[..|votes| - 1];
    if Voted(init, unit) { v := FirstVote(init, unit); } else { v := votes[|votes| - 1]; }
  }

  /** Every unit votes with one weight: the hypothesis under which it does not matter which vote of a
      unit is found first. Co-owners with different shares can break it. */
  predicate Uniform(votes: seq<Vote>) {
    forall v, w :: v in votes && w in votes && v.unit == w.unit ==> v.weight == w.weight
  }

  predicate NonNegative(votes: seq<Vote>) {
    forall v :: v in votes ==> v.weight >= 0
  }

  lemma Bound(votes: seq<Vote>) returns (n: nat)
    ensures UnitsBelow(votes, n)
  {
    n := 0;
    for k := 0 to |votes|
      invariant UnitsBelow(votes[..k], n)
    {
      if votes[k].unit >= n { n := votes[k].unit + 1; }
    }
    assert votes[..|votes|] == votes;
  }

  /** More votes, at least as much voted area. */
  lemma MoreVotesMoreArea(a: seq<Vote>, b: seq<Vote>)
    requires (forall v :: v in a ==> v in b) && Uniform(b) && NonNegative(b)
    ensures FirstTotal(a) <= FirstTotal(b)
  {
    var n := Bound(b);
    forall unit | 0 <= unit < n ensures FirstWeight(a, unit) <= FirstWeight(b, unit) {
      if Voted(a, unit) {
        var v := FirstVote(a, unit);
        MemberVoted(b, v);
        var w := FirstVote(b, unit);
      } else {
        AbsentIsZero(a, unit);
        if Voted(b, unit) { var w := FirstVote(b, unit); } else { AbsentIsZero(b, unit); }
      }
    }
    FirstTotalBySums(a, n);
    FirstTotalBySums(b, n);
    SumFirstLe(a, b, n);
  }

  // ---------------------------------------------------------------- votes of a meeting

  lemma {:induction false} BallotsOfItem(items: seq<Item>, i: nat)
    requires i < |items|
    ensures forall v :: v in items[i].votes ==> v in Ballots(items)
  {
    if i < |items| - 1 {
      assert items[..|items| - 1][i] == items[i];
      BallotsOfItem(items[..|items| - 1], i);
    }
  }

  lemma {:induction false} ItemOfBallot(items: seq<Item>, v: Vote) returns (i: nat)
    requires v in Ballots(items)
    ensures i < |items| && v in items[i].votes
  {
    if v in items[|items| - 1].votes {
      i := |items| - 1;
    } else {
      i := ItemOfBallot(items[..|items| - 1], v);
    }
  }

  predicate Includes(larger: Item, smaller: Item) {
    forall v :: v in smaller.votes ==> v in larger.votes
  }

  predicate IncludedIn(x: Item, items: seq<Item>) {
    exists j :: 0 <= j < |items| && Includes(items[j], x)
  }

  lemma BallotsIncluded(a: seq<Item>, b: seq<Item>)
    requires forall i :: 0 <= i < |a| ==> IncludedIn(a[i], b)
    ensures forall v :: v in Ballots(a) ==> v in Ballots(b)
  {
    forall v | v in Ballots(a) ensures v in Ballots(b) {
      var i := ItemOfBallot(a, v);
      var j :| 0 <= j < |b| && Includes(b[j], a[i]);
      BallotsOfItem(b, j);
    }
  }

  lemma AddedIncludes(items: seq<Item>, item: nat, vote: Vote)
    requires item < |items|
    ensures forall v :: v in Ballots(items) ==> v in Ballots(Added(items, item, vote))
  {
    var next := Added(items, item, vote);
    forall i | 0 <= i < |items| ensures IncludedIn(items[i], next) {
      assert Includes(next[i], items[i]);
    }
    BallotsIncluded(items, next);
  }

  lemma PercentMonotone(a: int, b: int, eligible: real)
    requires a <= b
    ensures Percent(a, eligible) <= Percent(b, eligible)
    ensures Round(100.0 * Percent(a, eligible)) <= Round(100.0 * Percent(b, eligible))
  {
    if eligible > 0.0 { DivMonotone(a as real, b as real, eligible); }
    RoundMonotone(100.0 * Percent(a, eligible), 100.0 * Percent(b, eligible));
  }

  lemma DivMonotone(a: real, b: real, d: real)
    requires a <= b && d > 0.0
    ensures a / d <= b / d
  {
    var q := (b - a) / d;
    assert q >= 0.0;
    assert b / d == a / d + q;
  }

  /** If every unit votes with one weight, casting a vote never lowers the quorum: not the area, not
      the stored percentage, and an achieved quorum stays achieved. */
  lemma {:induction false} VoteNeverLowersQuorum(items: seq<Item>, item: nat, vote: Vote, eligible: real)
    requires item < |items| && Uniform(Ballots(Added(items, item, vote))) &&
      NonNegative(Ballots(Added(items, item, vote)))
    ensures var (before, after) := (Ballots(items), Ballots(Added(items, item, vote)));
      && FirstTotal(before) <= FirstTotal(after)
      && CachedPercent(before, eligible) <= CachedPercent(after, eligible)
      && (CachedAchieved(before, eligible) ==> CachedAchieved(after, eligible))
      && (RecomputedAchieved(before, eligible) ==> RecomputedAchieved(after, eligible))
  {
    AddedIncludes(items, item, vote);
    MoreVotesMoreArea(Ballots(items), Ballots(Added(items, item, vote)));
    PercentMonotone(FirstTotal(Ballots(items)), FirstTotal(Ballots(Added(items, item, vote))), eligible);
  }

  /** A vote cast between the votes before and after it, in the order in which they are found. */
  lemma {:induction false} VoteInBetween(before: seq<Vote>, vote: Vote, after: seq<Vote>)
    ensures FirstTotal(before + [vote] + after) == FirstTotal(before + after) + (
      if Voted(before, vote.unit) then 0
      else if Voted(after, vote.unit) then vote.weight - FirstWeight(after, vote.unit)
      else vote.weight)
    ensures forall unit :: Voted(before + [vote] + after, unit) <==>
      Voted(before, unit) || unit == vote.unit || Voted(after, unit)
    ensures forall unit :: Voted(before + after, unit) <==> Voted(before, unit) || Voted(after, unit)
  {
    if after == [] {
      assert before + [vote] + after == before + [vote] && before + after == before;
      assert (before + [vote])[..|before|] == before;
    } else {
      var (init, last) := (after[..|after| - 1], after[|after| - 1]);
      VoteInBetween(before, vote, init);
      assert before + [vote] + after == before + [vote] + init + [last];
      assert (before + [vote] + init + [last])[..|before| + 1 + |init|] == before + [vote] + init;
      assert before + after == before + init + [last];
      assert (before + init + [last])[..|before| + |init|] == before + init;
    }
  }

  lemma Reassociate(a: seq<Vote>, b: seq<Vote>, c: seq<Vote>, d: seq<Vote>)
    ensures a + b + c + d == a + b + (c + d)
  {
  }

  lemma {:induction false} BallotsSplit(items: seq<Item>, item: nat)
    requires item < |items|
    ensures Ballots(items) == Ballots(items[..item]) + items[item].votes + LaterBallots(items, item)
  {
    if item == |items| - 1 {
      assert items[..item] == items[..|items| - 1];
    } else {
      var (init, last) := (items[..|items| - 1], items[|items| - 1].votes);
      BallotsSplit(init, item);
      assert init[..item] == items[..item];
      Reassociate(Ballots(items[..item]), items[item].votes, LaterBallots(init, item), last);
    }
  }

  /** The votes of the items after one item. */
  function LaterBallots(items: seq<Item>, item: nat): seq<Vote>
    requires item < |items|
  {
    if item == |items| - 1 then [] else LaterBallots(items[..|items| - 1], item) + items[|items| - 1].votes
  }

  lemma {:induction false} LaterBallotsAgree(a: seq<Item>, b: seq<Item>, item: nat)
    requires item < |a| == |b| && forall i :: item < i < |a| ==> a[i] == b[i]
    ensures LaterBallots(a, item) == LaterBallots(b, item)
  {
    if item < |a| - 1 {
      LaterBallotsAgree(a[..|a| - 1], b[..|b| - 1], item);
    }
  }

  /** Exactly when a vote lowers the voted area: its unit has voted before, on later items only, and
      the first of those votes weighs more than the new one. */
  lemma {:induction false} VoteLowersAreaIff(items: seq<Item>, item: nat, vote: Vote)
    requires item < |items| && !Voted(items[item].votes, vote.unit) && vote.weight >= 0
    ensures FirstTotal(Ballots(Added(items, item, vote))) < FirstTotal(Ballots(items)) <==>
      && !Voted(Ballots(items[..item]), vote.unit)
      && Voted(LaterBallots(items, item), vote.unit)
      && vote.weight < FirstWeight(LaterBallots(items, item), vote.unit)
  {
    var (earlier, own, later) := (Ballots(items[..item]), items[item].votes, LaterBallots(items, item));
    BallotsSplit(items, item);
    BallotsSplit(Added(items, item, vote), item);
    LaterBallotsAgree(Added(items, item, vote), items, item);
    assert Added(items, item, vote)[..item] == items[..item];
    assert earlier + (own + [vote]) + later == (earlier + own) + [vote] + later;
    VoteInBetween(earlier + own, vote, later);
    VoteInBetween(earlier, vote, own);
  }

  /** Who took part is never forgotten, whatever the weights. */
  lemma ParticipantsGrow(items: seq<Item>, item: nat, vote: Vote, unit: nat)
    requires item < |items| && Voted(Ballots(items), unit)
    ensures Voted(Ballots(Added(items, item, vote)), unit)
  {
    AddedIncludes(items, item, vote);
    var v := FirstVote(Ballots(items), unit);
    MemberVoted(Ballots(Added(items, item, vote)), v);
  }

  /** The stored quorum reads the items in whatever order the database returns them, the report in
      agenda order. With one weight per unit both see the same area. */
  lemma {:induction false} OrderDoesNotMatter(a: seq<Item>, b: seq<Item>)
    requires multiset(a) == multiset(b) && Uniform(Ballots(a)) && NonNegative(Ballots(a))
    ensures FirstTotal(Ballots(a)) == FirstTotal(Ballots(b))
  {
    SameItemsSameBallots(a, b);
    SameItemsSameBallots(b, a);
    MoreVotesMoreArea(Ballots(a), Ballots(b));
    MoreVotesMoreArea(Ballots(b), Ballots(a));
  }

  lemma SameItemsSameBallots(a: seq<Item>, b: seq<Item>)
    requires multiset(a) == multiset(b)
    ensures forall v :: v in Ballots(a) ==> v in Ballots(b)
  {
    forall i | 0 <= i < |a| ensures IncludedIn(a[i], b) {
      assert a[i] in multiset(b);
      var j :| 0 <= j < |b| && b[j] == a[i];
      assert Includes(b[j], a[i]);
    }
    BallotsIncluded(a, b);
  }

  // ---------------------------------------------------------------- one item

  /** The votes of one item come from different units. */
  predicate OnePerUnit(votes: seq<Vote>) {
    votes != [] ==>
      OnePerUnit(votes[..|votes| - 1]) && !Voted(votes[..|votes| - 1], votes[|votes| - 1].unit)
  }

  lemma {:induction false} ItemTotalIsFirstTotal(votes: seq<Vote>)
    requires OnePerUnit(votes)
    ensures Total(votes) == FirstTotal(votes)
  {
    if votes != [] { ItemTotalIsFirstTotal(votes[..|votes| - 1]); }
  }

  lemma {:induction false} ForAtMostTotal(votes: seq<Vote>)
    requires NonNegative(votes)
    ensures 0 <= TotalOf(votes, For) <= Total(votes)
  {
    if votes != [] { ForAtMostTotal(votes[..|votes| - 1]); }
  }

  /** An approval by qualified majority implies a quorum, stored and recomputed. */
  lemma {:induction false} QualifiedApprovalHasQuorum(items: seq<Item>, i: nat, eligible: real)
    requires i < |items| && items[i].qualified && Approved(items[i], eligible)
    requires OnePerUnit(items[i].votes) && Uniform(Ballots(items)) && NonNegative(Ballots(items))
    ensures RecomputedAchieved(Ballots(items), eligible) && CachedAchieved(Ballots(items), eligible)
  {
    BallotsOfItem(items, i);
    ItemTotalIsFirstTotal(items[i].votes);
    ForAtMostTotal(items[i].votes);
    MoreVotesMoreArea(items[i].votes, Ballots(items));
    PercentMonotone(TotalOf(items[i].votes, For), FirstTotal(Ballots(items)), eligible);
    RecomputedImpliesCached(Ballots(items), eligible);
  }

  // ---------------------------------------------------------------- two ways to compare

  lemma RecomputedImpliesCached(votes: seq<Vote>, eligible: real)
    ensures RecomputedAchieved(votes, eligible) ==> CachedAchieved(votes, eligible)
  {
    if RecomputedAchieved(votes, eligible) {
      RoundMonotone(5000.0, 100.0 * Percent(FirstTotal(votes), eligible));
    }
  }

  /** The stored answer rounds before it compares. It never denies a quorum the report grants, and it
      grants one the report denies exactly in the last half hundredth of a percent below the threshold. */
  lemma QuorumsDisagreeIff(votes: seq<Vote>, eligible: real)
    ensures RecomputedAchieved(votes, eligible) ==> CachedAchieved(votes, eligible)
    ensures CachedAchieved(votes, eligible) && !RecomputedAchieved(votes, eligible)
      <==> THRESHOLD - 0.005 <= Percent(FirstTotal(votes), eligible) < THRESHOLD
  {
    RecomputedImpliesCached(votes, eligible);
    var p := Percent(FirstTotal(votes), eligible);
    assert CachedAchieved(votes, eligible) <==> Round(100.0 * p) >= 5000;
  }

  // ---------------------------------------------------------------- weights and areas

  /** The most a unit can weigh: its area in whole hundredths. */
  function Cap(area: real): int {
    Round(area * 100.0)
  }

  lemma WeightWithinCap(area: real, share: real)
    requires area >= 0.0 && 0.0 <= share <= 100.0
    ensures 0 <= Weight(area, share) <= Cap(area)
  {
    assert area * share <= area * 100.0 by { MulMonotone(area, share, 100.0); }
    assert 0.0 <= area * share by { MulMonotone(area, 0.0, share); }
    RoundMonotone(area * share, area * 100.0);
    RoundMonotone(0.0, area * share);
  }

  lemma MulMonotone(k: real, a: real, b: real)
    requires k >= 0.0 && a <= b
    ensures k * a <= k * b
  {
  }

  /** No vote weighs more than its unit's area exactly if the area does not round up to two decimals. */
  lemma {:induction false} WeightWithinAreaIff(area: real)
    requires area >= 0.0
    ensures (forall share: real :: 0.0 < share <= 100.0 ==> Weight(area, share) as real <= area * 100.0)
      <==> Cap(area) as real <= area * 100.0
  {
    if Cap(area) as real <= area * 100.0 {
      forall share: real | 0.0 < share <= 100.0 ensures Weight(area, share) as real <= area * 100.0 {
        WeightWithinCap(area, share);
      }
    } else {
      assert Weight(area, 100.0) as real > area * 100.0;
    }
  }

  function CapOfTenant(buildings: seq<nat>, units: seq<R.Unit>, tenant: nat): int {
    if units == [] then 0
    else
      var last := units[|units| - 1];
      CapOfTenant(buildings, units[..|units| - 1], tenant) +
      if R.InTenant(buildings, last, tenant) then Cap(last.area) else 0
  }

  /** Is every area of the tenant a whole number of hundredths? */
  predicate WholeHundredths(buildings: seq<nat>, units: seq<R.Unit>, tenant: nat) {
    forall u :: 0 <= u < |units| && R.InTenant(buildings, units[u], tenant) ==>
      Cap(units[u].area) as real == units[u].area * 100.0
  }

  lemma {:induction false} CapIsArea(buildings: seq<nat>, units: seq<R.Unit>, tenant: nat)
    requires WholeHundredths(buildings, units, tenant)
    ensures CapOfTenant(buildings, units, tenant) as real == R.AreaOfTenant(buildings, units, tenant) * 100.0
  {
    if units != [] {
      var init := units[..|units| - 1];
      assert forall u :: 0 <= u < |init| ==> init[u] == units[u];
      CapIsArea(buildings, init, tenant);
    }
  }

  lemma {:induction false} SumWithinCap(votes: seq<Vote>, buildings: seq<nat>, units: seq<R.Unit>, tenant: nat)
    requires forall u :: 0 <= u < |units| ==>
      FirstWeight(votes, u) <= if R.InTenant(buildings, units[u], tenant) then Cap(units[u].area) else 0
    ensures SumFirst(votes, |units|) <= CapOfTenant(buildings, units, tenant)
  {
    if units != [] {
      var init := units[..|units| - 1];
      assert forall u :: 0 <= u < |init| ==> init[u] == units[u];
      SumWithinCap(votes, buildings, init, tenant);
    }
  }

  /** A vote of the meeting's own tenant, no heavier than its unit. */
  predicate Lawful(reg: R.Db, tenant: nat, v: Vote) {
    && v.unit < |reg.units| && R.InTenant(reg.buildings, reg.units[v.unit], tenant)
    && reg.units[v.unit].area >= 1.0 && 0 <= v.weight <= Cap(reg.units[v.unit].area)
  }

  lemma VotedAreaWithinCap(reg: R.Db, tenant: nat, votes: seq<Vote>)
    requires forall v :: v in votes ==> Lawful(reg, tenant, v)
    requires forall u :: 0 <= u < |reg.units| ==> reg.units[u].area >= 1.0
    ensures FirstTotal(votes) <= CapOfTenant(reg.buildings, reg.units, tenant)
  {
    forall u | 0 <= u < |reg.units|
      ensures FirstWeight(votes, u) <=
        if R.InTenant(reg.buildings, reg.units[u], tenant) then Cap(reg.units[u].area) else 0
    {
      if Voted(votes, u) {
        var v := FirstVote(votes, u);
      } else {
        AbsentIsZero(votes, u);
        WeightWithinCap(reg.units[u].area, 0.0);
      }
    }
    SumWithinCap(votes, reg.buildings, reg.units, tenant);
    FirstTotalBySums(votes, |reg.units|);
  }

  /** An accepted vote adds its weight to its own choice of its own item, and its unit is done there. */
  lemma VoteCountsOnce(reg: R.Db, m: Meeting, c: Cast, i: nat, choice: Choice)
    requires AfterVote(reg, m, c).Ok? && i < |m.items|
    ensures var next := AfterVote(reg, m, c).value;
      && |next.items| == |m.items|
      && TotalOf(next.items[i].votes, choice) == TotalOf(m.items[i].votes, choice)
           + (if i == c.item && choice == c.choice then VoteOf(reg, m, c).value.weight else 0)
      && Voted(next.items[c.item].votes, c.unit)
  {
    var next := AfterVote(reg, m, c).value;
    var votes := next.items[c.item].votes;
    assert votes[..|votes| - 1] == m.items[c.item].votes;
  }

  /** Nobody can vote again for a unit on an item, whatever else happened in the registry. */
  lemma NoSecondVote(reg: R.Db, m: Meeting, c: Cast, later: R.Db, again: Cast)
    requires AfterVote(reg, m, c).Ok? && again.item == c.item && again.unit == c.unit
    ensures AfterVote(later, AfterVote(reg, m, c).value, again).Err?
  {
    VoteCountsOnce(reg, m, c, c.item, For);
  }

  // ---------------------------------------------------------------- majorities and quorums, in areas

  /** One more vote for never takes a simple majority away, one more against or abstaining never makes one. */
  lemma SimpleMajorityFollowsVotes(item: Item, vote: Vote, eligible: real)
    requires !item.qualified && NonNegative(item.votes) && vote.weight >= 0
    ensures var next := item.(votes := item.votes + [vote]);
      && (vote.choice == For ==> (Approved(item, eligible) ==> Approved(next, eligible)))
      && (vote.choice != For ==> (Approved(next, eligible) ==> Approved(item, eligible)))
  {
    var next := item.(votes := item.votes + [vote]);
    assert next.votes[..|item.votes|] == item.votes;
    ResultIsDecided(item, eligible);
    ResultIsDecided(next, eligible);
    TalliesNotNegative(item.votes);
  }

  lemma {:induction false} TalliesNotNegative(votes: seq<Vote>)
    requires NonNegative(votes)
    ensures TotalOf(votes, For) >= 0 && TotalOf(votes, Against) >= 0 && TotalOf(votes, Abstain) >= 0
  {
    if votes != [] { TalliesNotNegative(votes[..|votes| - 1]); }
  }

  /** With weights that are not negative a simple majority is just more for than against and abstained. */
  lemma SimpleMajorityIff(item: Item, eligible: real)
    requires !item.qualified && NonNegative(item.votes)
    ensures Approved(item, eligible) <==>
      TotalOf(item.votes, For) > TotalOf(item.votes, Against) + TotalOf(item.votes, Abstain)
  {
    ResultIsDecided(item, eligible);
    TalliesNotNegative(item.votes);
  }

  /** The reported quorum is half the eligible area, the stored one 49.995 percent of it; the stored percent is
      right to half a hundredth. */
  lemma QuorumsInAreas(votes: seq<Vote>, eligible: real)
    ensures RecomputedAchieved(votes, eligible) <==> eligible > 0.0 && FirstTotal(votes) as real >= 50.0 * eligible
    ensures CachedAchieved(votes, eligible) <==> eligible > 0.0 && FirstTotal(votes) as real >= 49.995 * eligible
    ensures eligible > 0.0 ==>
      var exact := 100.0 * (FirstTotal(votes) as real / eligible);
      exact - 0.5 < CachedPercent(votes, eligible) as real <= exact + 0.5
  {
    PercentReaches(FirstTotal(votes), eligible, 50.0);
    PercentReaches(FirstTotal(votes), eligible, 49.995);
    var p := Percent(FirstTotal(votes), eligible);
    assert CachedAchieved(votes, eligible) <==> Round(100.0 * p) >= 5000;
  }

  /** A unit voted if some vote is for it. */
  lemma {:induction false} VotedIff(votes: seq<Vote>, unit: nat)
    ensures Voted(votes, unit) <==> exists v :: v in votes && v.unit == unit
  {
    if votes != [] {
      var init, last := votes[..|votes| - 1], votes[|votes| - 1];
      VotedIff(init, unit);
      assert votes == init + [last];
    }
  }

  function UnitsThatVoted(votes: seq<Vote>): set<nat> {
    set v | v in votes :: v.unit
  }

  /** Participants are counted by unit, however often a unit voted. */
  lemma {:induction false} ParticipantsAreUnits(votes: seq<Vote>)
    ensures Participants(votes) == |UnitsThatVoted(votes)|
  {
    if votes == [] {
      assert UnitsThatVoted(votes) == {};
    } else {
      var init, last := votes[..|votes| - 1], votes[|votes| - 1];
      ParticipantsAreUnits(init);
      VotedIff(init, last.unit);
      assert votes == init + [last];
      assert Voted(init, last.unit) <==> last.unit in UnitsThatVoted(init);
      assert UnitsThatVoted(votes) == UnitsThatVoted(init) + {last.unit} by {
        forall unit | unit in UnitsThatVoted(init) + {last.unit} ensures unit in UnitsThatVoted(votes) {
          VotedIff(votes, unit);
          VotedIff(init, unit);
        }
      }
      if Voted(init, last.unit) {
        assert UnitsThatVoted(init) + {last.unit} == UnitsThatVoted(init);
      }
    }
  }

  // ---------------------------------------------------------------- which votes count

  /** A verified owner's record of a user for a unit. */
  predicate OwnsShare(rows: seq<R.Ownership>, user: nat, unit: nat, share: real) {
    exists o :: o in rows && o.user == user && o.unit == unit && o.kind == R.Owner && o.verified && o.share == share
  }

  /** A vote is accepted exactly if the account is active, the item exists, the meeting is on, the time is within
      its period, the user is a verified owner of the unit, the unit belongs to the meeting's tenant and has not
      voted on the item, and the code was right. */
  lemma VoteCountsIff(reg: R.Db, m: Meeting, c: Cast)
    ensures AfterVote(reg, m, c).Ok? <==>
      && c.isActive && c.item < |m.items| && m.status == Ongoing && m.start <= c.now <= m.end
      && (exists o :: o in reg.ownerships && OwnsShare([o], c.user, c.unit, o.share))
      && c.unit < |reg.units| && reg.units[c.unit].building < |reg.buildings|
      && reg.buildings[reg.units[c.unit].building] == m.tenant
      && (forall v :: v in m.items[c.item].votes ==> v.unit != c.unit)
      && c.otpOk
  {
    if c.item < |m.items| {
      VotedIff(m.items[c.item].votes, c.unit);
    }
    forall o | o in reg.ownerships
      ensures OwnsShare([o], c.user, c.unit, o.share) <==> IsOwnerRow(o, c.user, c.unit)
    {
      assert o in [o];
    }
  }

  /** It is then the item's last vote, by that user, unit and choice, with a weight of the unit's area times the
      user's share, to half a hundredth; every other item, and what the meeting is about, stays. */
  lemma AcceptedVoteIs(reg: R.Db, m: Meeting, c: Cast)
    requires AfterVote(reg, m, c).Ok?
    ensures var next := AfterVote(reg, m, c).value;
      && |next.items| == |m.items| && next == m.(items := next.items, cachedPercent := next.cachedPercent,
                                                 cachedAchieved := next.cachedAchieved)
      && (forall i :: 0 <= i < |m.items| && i != c.item ==> next.items[i] == m.items[i])
      && next.items[c.item].qualified == m.items[c.item].qualified
      && exists weight: int, share: real ::
           && next.items[c.item].votes == m.items[c.item].votes + [Vote(c.user, c.unit, c.choice, weight)]
           && OwnsShare(reg.ownerships, c.user, c.unit, share)
           && reg.units[c.unit].area * share - 0.5 < weight as real <= reg.units[c.unit].area * share + 0.5
  {
    var owner := FindOwner(reg.ownerships, c.user, c.unit).value;
    var v := VoteOf(reg, m, c).value;
    assert OwnsShare(reg.ownerships, c.user, c.unit, owner.share);
    assert AfterVote(reg, m, c).value.items[c.item].votes == m.items[c.item].votes
      + [Vote(c.user, c.unit, c.choice, v.weight)];
  }

  /** After it the stored quorum is that of all votes so far; without an eligible area it stays. */
  lemma QuorumIsRenewed(reg: R.Db, m: Meeting, c: Cast)
    requires AfterVote(reg, m, c).Ok?
    ensures var next := AfterVote(reg, m, c).value;
      var area := FirstTotal(Ballots(next.items));
      if m.eligible > 0.0 then
        && (next.cachedAchieved <==> area as real >= 49.995 * m.eligible)
        && var exact := 100.0 * (area as real / m.eligible);
           exact - 0.5 < next.cachedPercent as real <= exact + 0.5
      else next.cachedPercent == m.cachedPercent && next.cachedAchieved == m.cachedAchieved
  {
    QuorumsInAreas(Ballots(AfterVote(reg, m, c).value.items), m.eligible);
  }

  /** Why a vote is refused. */
  lemma VoteIsRefused(reg: R.Db, m: Meeting, c: Cast)
    requires AfterVote(reg, m, c).Err?
    ensures match AfterVote(reg, m, c).error
      case UserBlocked => !c.isActive
      case AgendaItemNotFound => c.item >= |m.items|
      case MeetingNotActive => m.status == Completed
      case OutsideVotingPeriod => !(m.start <= c.now <= m.end)
      case NotEligibleVoter =>
        || (forall o :: o in reg.ownerships ==> !OwnsShare([o], c.user, c.unit, o.share))
        || c.unit >= |reg.units| || reg.units[c.unit].building >= |reg.buildings|
      case UnitTenantMismatch =>
        && c.unit < |reg.units| && reg.units[c.unit].building < |reg.buildings|
        && reg.buildings[reg.units[c.unit].building] != m.tenant
      case AlreadyVoted => c.item < |m.items| && exists v :: v in m.items[c.item].votes && v.unit == c.unit
      case OtpRejected => !c.otpOk
      case _ => false
  {
    if c.item < |m.items| {
      VotedIff(m.items[c.item].votes, c.unit);
    }
    forall o | o in reg.ownerships
      ensures OwnsShare([o], c.user, c.unit, o.share) <==> IsOwnerRow(o, c.user, c.unit)
    {
      assert o in [o];
    }
  }

  /** A meeting is opened exactly for a tenant with some area, which is then its eligible area; it has the items
      asked for, and no votes. */
  lemma OpensIff(reg: R.Db, tenant: nat, qualified: seq<bool>, start: nat, end: nat)
    ensures var r := MeetingCreated(reg, tenant, qualified, start, end);
      && (r.Ok? <==> tenant < |reg.tenantArea| && reg.tenantArea[tenant] > 0.0)
      && (r.Err? ==> r.error == if tenant < |reg.tenantArea| then ZeroTotalArea else TenantNotFound)
      && (r.Ok? ==>
            && r.value.eligible == reg.tenantArea[tenant] && r.value.tenant == tenant
            && r.value.start == start && r.value.end == end && r.value.status == Ongoing
            && r.value.cachedPercent == 0 && !r.value.cachedAchieved && |r.value.items| == |qualified|
            && forall i :: 0 <= i < |qualified| ==> r.value.items[i] == Item(qualified[i], []))
  {
  }
}
