/** What a meter's readings bill to, period by period, and what that adds up to. */
module Consumption {
  import opened Prelude
  import opened Rounding
  import opened Meters

  function Verified(db: Db, meter: nat, period: nat): Option<nat> {
    FindAt(db.readings, meter, period, Some(Status.Verified))
  }

  /** The last verified value before a period, or the meter's initial one. */
  function Before(db: Db, meter: nat, period: nat): real
    requires meter < |db.meters|
  {
    PreviousValue(db, meter, Some(period))
  }

  /** Consumption of one period; a period without a verified reading has none. */
  function Consumed(db: Db, meter: nat, period: nat): (c: real)
    requires meter < |db.meters|
    ensures c >= 0.0
  {
    var row := Verified(db, meter, period);
    if row.Some? && db.readings[row.value].value > Before(db, meter, period)
    then db.readings[row.value].value - Before(db, meter, period) else 0.0
  }

  /** Consumption over the periods before `n`. */
  function Total(db: Db, meter: nat, n: nat): real
    requires meter < |db.meters|
  {
    if n == 0 then 0.0 else Total(db, meter, n - 1) + Consumed(db, meter, n - 1)
  }

  /** One period moves the previous value to its verified reading, if it has one. */
  lemma BeforeMoves(db: Db, meter: nat, period: nat)
    requires Unique(db) && meter < |db.meters|
    ensures var row := Verified(db, meter, period);
      Before(db, meter, period + 1) == if row.Some? then db.readings[row.value].value else Before(db, meter, period)
  {
    var row := Verified(db, meter, period);
    var next := LatestVerified(db.readings, meter, Some(period + 1));
    var last := LatestVerified(db.readings, meter, Some(period));
    if row.Some? {
      assert Eligible(db.readings[row.value], meter, Some(period + 1));
      assert db.readings[next.value].period == period;
    } else {
      if next.Some? {
        assert !At(db.readings[next.value], meter, period, Some(Status.Verified));
        assert Eligible(db.readings[next.value], meter, Some(period));
        assert Eligible(db.readings[last.value], meter, Some(period + 1));
        assert db.readings[next.value].period == db.readings[last.value].period;
      } else if last.Some? {
        assert Eligible(db.readings[last.value], meter, Some(period + 1));
      }
    }
  }

  predicate NoFall(db: Db, meter: nat, period: nat)
    requires meter < |db.meters|
  {
    var row := Verified(db, meter, period);
    row.Some? ==> db.readings[row.value].value >= Before(db, meter, period)
  }

  lemma ConsumedIsMove(db: Db, meter: nat, period: nat)
    requires Unique(db) && meter < |db.meters|
    ensures Consumed(db, meter, period) >= Before(db, meter, period + 1) - Before(db, meter, period)
    ensures Consumed(db, meter, period) == Before(db, meter, period + 1) - Before(db, meter, period) <==>
      NoFall(db, meter, period)
  {
    BeforeMoves(db, meter, period);
  }

  /** No verified reading before `n` is below the one it is counted from. */
  predicate Climbs(db: Db, meter: nat, n: nat)
    requires meter < |db.meters|
  {
    n == 0 || (Climbs(db, meter, n - 1) && NoFall(db, meter, n - 1))
  }

  lemma StartsAtInitial(db: Db, meter: nat)
    requires meter < |db.meters|
    ensures Before(db, meter, 0) == db.meters[meter].initial
  {
  }

  /** Total consumption is at least the last value less the initial one, and equal exactly when no
      reading is below the one before it. */
  lemma {:induction false} TotalTelescopes(db: Db, meter: nat, n: nat)
    requires Unique(db) && meter < |db.meters|
    ensures Total(db, meter, n) >= Before(db, meter, n) - db.meters[meter].initial
    ensures Total(db, meter, n) == Before(db, meter, n) - db.meters[meter].initial <==> Climbs(db, meter, n)
  {
    if n == 0 {
      StartsAtInitial(db, meter);
    } else {
      TotalTelescopes(db, meter, n - 1);
      ConsumedIsMove(db, meter, n - 1);
      TelescopeStep(Total(db, meter, n - 1), Consumed(db, meter, n - 1), db.meters[meter].initial,
                    Before(db, meter, n - 1), Before(db, meter, n));
    }
  }

  lemma TelescopeStep(total: real, c: real, initial: real, before: real, after: real)
    requires total >= before - initial && c >= after - before
    ensures total + c >= after - initial
    ensures total + c == after - initial <==> total == before - initial && c == after - before
  {
  }

  predicate PairBefore(r: Reading, later: Reading, meter: nat, n: nat) {
    EarlierVerified(r, later, meter) && later.period < n
  }

  /** The same as Rising, cut off at period `n`. */
  predicate RisingBefore(db: Db, meter: nat, n: nat)
    requires meter < |db.meters|
  {
    && (forall i :: 0 <= i < |db.readings| && Eligible(db.readings[i], meter, Some(n))
          ==> db.meters[meter].initial <= db.readings[i].value)
    && (forall i, j ::
      0 <= i < |db.readings| && 0 <= j < |db.readings| && PairBefore(db.readings[i], db.readings[j], meter, n) ==>
        db.readings[i].value <= db.readings[j].value)
  }

  lemma RisingBounds(db: Db, meter: nat, n: nat, i: nat)
    requires meter < |db.meters| && Unique(db) && RisingBefore(db, meter, n)
    requires i < |db.readings| && Eligible(db.readings[i], meter, Some(n))
    ensures db.readings[i].value <= Before(db, meter, n)
  {
    var last := LatestVerified(db.readings, meter, Some(n)).value;
    if i != last {
      assert PairBefore(db.readings[i], db.readings[last], meter, n);
    }
  }

  lemma InitialBounds(db: Db, meter: nat, n: nat)
    requires meter < |db.meters| && RisingBefore(db, meter, n)
    ensures db.meters[meter].initial <= Before(db, meter, n)
  {
    var last := LatestVerified(db.readings, meter, Some(n));
    if last.Some? {
      assert Eligible(db.readings[last.value], meter, Some(n));
    }
  }

  lemma RisingShrinks(db: Db, meter: nat, n: nat)
    requires meter < |db.meters| && n > 0 && RisingBefore(db, meter, n)
    ensures RisingBefore(db, meter, n - 1)
  {
    forall i | 0 <= i < |db.readings| && Eligible(db.readings[i], meter, Some(n - 1))
      ensures Eligible(db.readings[i], meter, Some(n))
    {
    }
    forall i, j | 0 <= i < |db.readings| && 0 <= j < |db.readings| &&
      PairBefore(db.readings[i], db.readings[j], meter, n - 1)
      ensures db.readings[i].value <= db.readings[j].value
    {
      assert PairBefore(db.readings[i], db.readings[j], meter, n);
    }
  }

  lemma RisingDoesNotFall(db: Db, meter: nat, n: nat)
    requires meter < |db.meters| && n > 0 && RisingBefore(db, meter, n)
    ensures NoFall(db, meter, n - 1)
  {
    var row := Verified(db, meter, n - 1);
    var last := LatestVerified(db.readings, meter, Some(n - 1));
    if row.Some? {
      assert Eligible(db.readings[row.value], meter, Some(n));
      if last.Some? {
        assert PairBefore(db.readings[last.value], db.readings[row.value], meter, n);
      }
    }
  }

  lemma RisingGrows(db: Db, meter: nat, n: nat)
    requires meter < |db.meters| && Unique(db) && RisingBefore(db, meter, n)
    requires NoFall(db, meter, n)
    ensures RisingBefore(db, meter, n + 1)
  {
    InitialBounds(db, meter, n);
    forall j | 0 <= j < |db.readings| && Eligible(db.readings[j], meter, Some(n + 1)) &&
      !Eligible(db.readings[j], meter, Some(n))
      ensures Verified(db, meter, n) == Some(j)
    {
      assert At(db.readings[j], meter, n, Some(Status.Verified));
    }
    forall i, j | 0 <= i < |db.readings| && 0 <= j < |db.readings| &&
      PairBefore(db.readings[i], db.readings[j], meter, n + 1)
      ensures db.readings[i].value <= db.readings[j].value
    {
      if !Eligible(db.readings[j], meter, Some(n)) {
        RisingBounds(db, meter, n, i);
      } else {
        assert PairBefore(db.readings[i], db.readings[j], meter, n);
      }
    }
  }

  /** Comparing neighbours is comparing all: the two notions of nondecreasing readings agree. */
  lemma {:induction false} ClimbsIffRising(db: Db, meter: nat, n: nat)
    requires Unique(db) && meter < |db.meters|
    ensures Climbs(db, meter, n) <==> RisingBefore(db, meter, n)
  {
    if n > 0 {
      ClimbsIffRising(db, meter, n - 1);
      if Climbs(db, meter, n) {
        RisingGrows(db, meter, n - 1);
      }
      if RisingBefore(db, meter, n) {
        RisingShrinks(db, meter, n);
        RisingDoesNotFall(db, meter, n);
      }
    }
  }

  lemma RisingTelescopes(db: Db, meter: nat, n: nat)
    requires Unique(db) && meter < |db.meters| && Rising(db, meter)
    ensures Total(db, meter, n) == Before(db, meter, n) - db.meters[meter].initial
  {
    assert RisingBefore(db, meter, n) by {
      forall i | 0 <= i < |db.readings| && Eligible(db.readings[i], meter, Some(n))
        ensures Eligible(db.readings[i], meter, None)
      {
      }
    }
    ClimbsIffRising(db, meter, n);
    TotalTelescopes(db, meter, n);
  }

  /** Readings kept in order consume exactly the last value less the initial one, at every period. */
  lemma OrderlyRunTelescopes(meters: seq<Meter>, ops: Ops, meter: nat, n: nat)
    requires OrderlyRun(meters, ops) && meter < |meters|
    ensures var db := Run(meters, ops);
      |db.meters| == |meters| && Total(db, meter, n) == Before(db, meter, n) - db.meters[meter].initial
  {
    EveryOrderlyRunRises(meters, ops, meter);
    EveryRunIsUnique(meters, ops);
    RisingTelescopes(Run(meters, ops), meter, n);
  }

  // ---------------------------------------------------------------- money

  /** `Math.round(x * 100) / 100`. */
  function Cents(x: real): (r: real)
    ensures x - 0.005 < r <= x + 0.005
  {
    Round(x * 100.0) as real / 100.0
  }

  function Price(rate: real, amount: real): (r: real)
    ensures rate * amount - 0.005 < r <= rate * amount + 0.005
  {
    Cents(rate * amount)
  }

  /** What one period bills at a rate; nothing without a verified reading. */
  function Bill(db: Db, meter: nat, rate: real, period: nat): real
    requires meter < |db.meters|
  {
    if Verified(db, meter, period).Some? then Price(rate, Consumed(db, meter, period)) else 0.0
  }

  function Billed(db: Db, meter: nat, rate: real, n: nat): real
    requires meter < |db.meters|
  {
    if n == 0 then 0.0 else Billed(db, meter, rate, n - 1) + Bill(db, meter, rate, n - 1)
  }

  function HasBill(db: Db, meter: nat, period: nat): nat {
    if Verified(db, meter, period).Some? then 1 else 0
  }

  function Bills(db: Db, meter: nat, n: nat): nat {
    if n == 0 then 0 else Bills(db, meter, n - 1) + HasBill(db, meter, n - 1)
  }

  /** Within so many half-cents of a price. */
  predicate Near(x: real, rate: real, amount: real, halfCents: nat) {
    rate * amount - 0.005 * halfCents as real <= x <= rate * amount + 0.005 * halfCents as real
  }

  lemma BillIsNear(db: Db, meter: nat, rate: real, period: nat)
    requires meter < |db.meters|
    ensures Near(Bill(db, meter, rate, period), rate, Consumed(db, meter, period), HasBill(db, meter, period))
  {
    if Verified(db, meter, period) == None {
      assert rate * 0.0 == 0.0;
    }
  }

  lemma BilledUnrolls(db: Db, meter: nat, rate: real, n: nat)
    requires meter < |db.meters| && n > 0
    ensures Billed(db, meter, rate, n) == Billed(db, meter, rate, n - 1) + Bill(db, meter, rate, n - 1)
    ensures Total(db, meter, n) == Total(db, meter, n - 1) + Consumed(db, meter, n - 1)
    ensures Bills(db, meter, n) == Bills(db, meter, n - 1) + HasBill(db, meter, n - 1)
  {
  }

  lemma NearStep(rate: real, x: real, total: real, k: nat, y: real, c: real, l: nat, x': real, total': real, k': nat)
    requires Near(x, rate, total, k) && Near(y, rate, c, l)
    requires x' == x + y && total' == total + c && k' == k + l
    ensures Near(x', rate, total', k')
  {
    assert rate * total' == rate * total + rate * c;
  }

  /** Rounding each bill moves their sum from the exact price by at most half a cent a bill. */
  lemma {:induction false} BilledNearTotal(db: Db, meter: nat, rate: real, n: nat)
    requires meter < |db.meters|
    ensures Near(Billed(db, meter, rate, n), rate, Total(db, meter, n), Bills(db, meter, n))
  {
    if n == 0 {
      assert rate * 0.0 == 0.0;
    } else {
      BilledNearTotal(db, meter, rate, n - 1);
      BillIsNear(db, meter, rate, n - 1);
      BilledUnrolls(db, meter, rate, n);
      NearStep(rate, Billed(db, meter, rate, n - 1), Total(db, meter, n - 1), Bills(db, meter, n - 1),
               Bill(db, meter, rate, n - 1), Consumed(db, meter, n - 1), HasBill(db, meter, n - 1),
               Billed(db, meter, rate, n), Total(db, meter, n), Bills(db, meter, n));
    }
  }

  lemma RisingBills(db: Db, meter: nat, rate: real, n: nat)
    requires Unique(db) && meter < |db.meters| && Rising(db, meter)
    ensures Near(Billed(db, meter, rate, n), rate, Before(db, meter, n) - db.meters[meter].initial, Bills(db, meter, n))
  {
    RisingTelescopes(db, meter, n);
    BilledNearTotal(db, meter, rate, n);
  }

  /** Readings kept in order bill the price of (last value - initial value), but for the rounding. */
  lemma OrderlyRunBills(meters: seq<Meter>, ops: Ops, meter: nat, rate: real, n: nat)
    requires OrderlyRun(meters, ops) && meter < |meters|
    ensures var db := Run(meters, ops);
      && |db.meters| == |meters|
      && Near(Billed(db, meter, rate, n), rate, Before(db, meter, n) - db.meters[meter].initial, Bills(db, meter, n))
  {
    EveryOrderlyRunRises(meters, ops, meter);
    EveryRunIsUnique(meters, ops);
    RisingBills(Run(meters, ops), meter, rate, n);
  }

  // ---------------------------------------------------------------- later readings leave earlier bills alone

  /** The verified readings of a meter up to a period are the same rows in both tables. */
  predicate SameUpTo(db: Db, next: Db, meter: nat, period: nat) {
    && next.meters == db.meters && |db.readings| <= |next.readings|
    && (forall i :: 0 <= i < |next.readings| && Eligible(next.readings[i], meter, Some(period + 1)) ==>
      i < |db.readings|)
    && (forall i :: 0 <= i < |db.readings| ==> SameRow(db.readings[i], next.readings[i], meter, period))
  }

  predicate SameRow(r: Reading, next: Reading, meter: nat, period: nat) {
    && (Eligible(r, meter, Some(period + 1)) <==> Eligible(next, meter, Some(period + 1)))
    && (Eligible(r, meter, Some(period + 1)) ==> next.period == r.period && next.value == r.value)
  }

  lemma SameVerified(db: Db, next: Db, meter: nat, period: nat)
    requires Unique(db) && Unique(next) && SameUpTo(db, next, meter, period) && Verified(db, meter, period).Some?
    ensures Verified(next, meter, period) == Verified(db, meter, period)
    ensures next.readings[Verified(db, meter, period).value].value ==
      db.readings[Verified(db, meter, period).value].value
  {
    var i := Verified(db, meter, period).value;
    assert SameRow(db.readings[i], next.readings[i], meter, period);
    assert At(next.readings[i], meter, period, Some(Status.Verified));
  }

  lemma SameBefore(db: Db, next: Db, meter: nat, period: nat)
    requires Unique(db) && Unique(next) && SameUpTo(db, next, meter, period) && meter < |db.meters|
    ensures Before(next, meter, period) == Before(db, meter, period)
  {
    var (last, now) :=
      (LatestVerified(db.readings, meter, Some(period)), LatestVerified(next.readings, meter, Some(period)));
    if last.Some? {
      assert SameRow(db.readings[last.value], next.readings[last.value], meter, period);
      assert Eligible(next.readings[last.value], meter, Some(period));
    }
    if now.Some? {
      assert Eligible(next.readings[now.value], meter, Some(period + 1));
      assert SameRow(db.readings[now.value], next.readings[now.value], meter, period);
      assert Eligible(db.readings[now.value], meter, Some(period));
    }
  }

  lemma SameConsumed(db: Db, next: Db, meter: nat, period: nat)
    requires Verified(db, meter, period).Some? && Verified(next, meter, period) == Verified(db, meter, period)
    requires next.readings[Verified(db, meter, period).value].value ==
      db.readings[Verified(db, meter, period).value].value
    requires meter < |db.meters| && next.meters == db.meters && Before(next, meter, period) == Before(db, meter, period)
    ensures Consumed(next, meter, period) == Consumed(db, meter, period)
  {
  }

  lemma SameBill(db: Db, next: Db, meter: nat, rate: real, period: nat)
    requires Unique(db) && Unique(next) && SameUpTo(db, next, meter, period) && meter < |db.meters|
    requires Verified(db, meter, period).Some?
    ensures Verified(next, meter, period).Some? && Bill(next, meter, rate, period) == Bill(db, meter, rate, period)
  {
    SameVerified(db, next, meter, period);
    SameBefore(db, next, meter, period);
    SameConsumed(db, next, meter, period);
  }

  lemma SubmitIsLater(db: Db, op: Op, meter: nat, period: nat)
    requires op.Submit?
    ensures SameUpTo(db, After(db, op), meter, period)
  {
  }

  lemma ReviewIsLater(db: Db, op: Op, meter: nat, period: nat)
    requires InOrder(db) && op.Review? && Orderly(db, op) && Verified(db, meter, period).Some?
    ensures SameUpTo(db, After(db, op), meter, period)
  {
    var (next, i) := (After(db, op), Verified(db, meter, period).value);
    if Reviewed(db, op).Ok? {
      assert Ahead(db.readings[op.reading], db.readings[i]);
    }
  }

  /** Submitting and reviewing in order changes no bill of a period that has a verified reading. */
  lemma EarlierBillsStay(db: Db, op: Op, meter: nat, rate: real, period: nat)
    requires InOrder(db) && Orderly(db, op) && !op.SetActive? && meter < |db.meters| &&
      Verified(db, meter, period).Some?
    ensures After(db, op).meters == db.meters
    ensures Verified(After(db, op), meter, period).Some?
    ensures Bill(After(db, op), meter, rate, period) == Bill(db, meter, rate, period)
  {
    if op.Submit? { SubmitIsLater(db, op, meter, period); } else { ReviewIsLater(db, op, meter, period); }
    StepKeepsUnique(db, op);
    SameBill(db, After(db, op), meter, rate, period);
  }
}
