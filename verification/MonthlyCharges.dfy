/** Month by month: readings are submitted and reviewed, charges generated, payments recorded, in any
    interleaving, and the charges of a meter still add up to its readings. */
module MonthlyCharges {
  import opened Prelude
  import C = Consumption
  import F = Finance
  import M = Meters

  datatype World = World(db: M.Db, ledger: F.Ledger)

  datatype Step =
    | Meter(op: M.Op)
    | Generate(tenant: nat, period: nat)
    | Pay(account: nat, amount: real, staff: User)
    | OpenAccount(unit: nat, tenant: nat)

  datatype Steps = Start | Then(before: Steps, step: Step)

  /** Units and tariffs stay as they are; charging reads the meters as they are by then. */
  function Next(units: seq<F.Unit>, tariffs: seq<F.Tariff>, w: World, step: Step): World {
    match step
    case Meter(op) => w.(db := M.After(w.db, op))
    case Generate(tenant, period) => w.(ledger := F.After(F.Data(units, tariffs, w.db), w.ledger, tenant, period))
    case Pay(account, amount, staff) =>
      (match F.Recorded(w.ledger, account, amount, staff)
       case Ok(ledger) => w.(ledger := ledger)
       case Err(_) => w)
    case OpenAccount(unit, tenant) => w.(ledger := F.WithAccount(w.ledger, unit, tenant))
  }

  function Run(units: seq<F.Unit>, tariffs: seq<F.Tariff>, meters: seq<M.Meter>, steps: Steps): World {
    if steps == Start then World(M.Db(meters, []), F.Ledger(map[], [], []))
    else Next(units, tariffs, Run(units, tariffs, meters, steps.before), steps.step)
  }

  /** Readings come in order, each reviewed once before the next, and no meter is switched on or off. */
  predicate OrderlyRun(units: seq<F.Unit>, tariffs: seq<F.Tariff>, meters: seq<M.Meter>, steps: Steps) {
    steps.Then? ==>
      && OrderlyRun(units, tariffs, meters, steps.before)
      && (steps.step.Meter? ==>
            !steps.step.op.SetActive? && M.Orderly(Run(units, tariffs, meters, steps.before).db, steps.step.op))
  }

  predicate Inv(units: seq<F.Unit>, tariffs: seq<F.Tariff>, meters: seq<M.Meter>, w: World) {
    && M.InOrder(w.db) && w.db.meters == meters && F.Consistent(w.ledger)
    && F.AllCorrect(F.Data(units, tariffs, w.db), w.ledger.charges)
  }

  /** What a unit is charged does not change when readings go on in order, once there is something. */
  lemma AmountStays(units: seq<F.Unit>, tariffs: seq<F.Tariff>, db: M.Db, op: M.Op, u: nat, t: nat, period: nat)
    requires M.InOrder(db) && M.Orderly(db, op) && !op.SetActive? && u < |units| && t < |tariffs|
    requires F.Amount(F.Data(units, tariffs, db), u, t, period).Some?
    ensures M.After(db, op).meters == db.meters
    ensures F.Amount(F.Data(units, tariffs, M.After(db, op)), u, t, period) ==
      F.Amount(F.Data(units, tariffs, db), u, t, period)
  {
    var next := M.After(db, op);
    assert next.meters == db.meters;
    match tariffs[t].calculation
    case PerConsumption(Some(kind)) =>
      var meter := F.FirstMeter(db.meters, |db.meters|, u, kind).value;
      C.EarlierBillsStay(db, op, meter, tariffs[t].rate, period);
    case _ =>
  }

  /** A charge that is right stays right when readings go on in order. */
  lemma ChargeStaysCorrect(units: seq<F.Unit>, tariffs: seq<F.Tariff>, db: M.Db, op: M.Op, c: F.Charge)
    requires M.InOrder(db) && M.Orderly(db, op) && !op.SetActive?
    requires F.Correct(F.Data(units, tariffs, db), c.period, c)
    ensures M.After(db, op).meters == db.meters && F.Correct(F.Data(units, tariffs, M.After(db, op)), c.period, c)
  {
    AmountStays(units, tariffs, db, op, c.account, c.tariff, c.period);
  }

  lemma MeterStep(units: seq<F.Unit>, tariffs: seq<F.Tariff>, meters: seq<M.Meter>, w: World, op: M.Op)
    requires Inv(units, tariffs, meters, w) && M.Orderly(w.db, op) && !op.SetActive?
    ensures Inv(units, tariffs, meters, w.(db := M.After(w.db, op)))
  {
    if op.Submit? { M.SubmitKeepsOrder(w.db, op); } else { M.ReviewKeepsOrder(w.db, op); }
    var charges := w.ledger.charges;
    forall k | 0 <= k < |charges|
      ensures F.Correct(F.Data(units, tariffs, M.After(w.db, op)), charges[k].period, charges[k])
    {
      ChargeStaysCorrect(units, tariffs, w.db, op, charges[k]);
    }
  }

  lemma StepKeepsInv(units: seq<F.Unit>, tariffs: seq<F.Tariff>, meters: seq<M.Meter>, w: World, step: Step)
    requires Inv(units, tariffs, meters, w) && (step.Meter? ==> !step.op.SetActive? && M.Orderly(w.db, step.op))
    ensures Inv(units, tariffs, meters, Next(units, tariffs, w, step))
  {
    match step
    case Meter(op) => MeterStep(units, tariffs, meters, w, op);
    case Generate(tenant, period) =>
      var data := F.Data(units, tariffs, w.db);
      if F.Generated(data, w.ledger, tenant, period).Ok? {
        F.GenerateKeepsConsistent(data, w.ledger, tenant, period);
        F.GenerateKeepsCorrect(data, w.ledger, tenant, period);
      }
    case Pay(account, amount, staff) =>
      if F.Recorded(w.ledger, account, amount, staff).Ok? {
        F.PaymentKeepsConsistent(w.ledger, account, amount, staff);
      }
    case OpenAccount(unit, tenant) => F.OpeningKeepsConsistent(w.ledger, unit, tenant);
  }

  /** In every reachable state every charge ever made has the amount it would have now, although readings
      came in between, and every balance is exact. */
  lemma {:induction false} EveryRunStaysCorrect(
      units: seq<F.Unit>, tariffs: seq<F.Tariff>, meters: seq<M.Meter>, steps: Steps)
    requires OrderlyRun(units, tariffs, meters, steps)
    ensures Inv(units, tariffs, meters, Run(units, tariffs, meters, steps))
  {
    if steps.Then? {
      EveryRunStaysCorrect(units, tariffs, meters, steps.before);
      StepKeepsInv(units, tariffs, meters, Run(units, tariffs, meters, steps.before), steps.step);
    }
  }

  /** From the meter to the account, month by month: once every verified reading was charged, whenever that
      was, the tariff has charged the unit the price of (last reading - initial value), within half a cent
      for each reading. */
  lemma MonthlyReadingsToCharges(
    units: seq<F.Unit>, tariffs: seq<F.Tariff>, meters: seq<M.Meter>, steps: Steps, u: nat, t: nat, kind: M.Kind,
    meter: nat, months: nat)
    requires OrderlyRun(units, tariffs, meters, steps)
    requires F.Metered(F.Data(units, tariffs, Run(units, tariffs, meters, steps).db), u, t, kind, meter)
    requires var w := Run(units, tariffs, meters, steps);
      && F.Complete(w.ledger.charges, u, t, w.db, meter, months)
      && forall k :: 0 <= k < |w.ledger.charges| ==> w.ledger.charges[k].period < months
    ensures var w := Run(units, tariffs, meters, steps);
      C.Near(F.ChargedBy(w.ledger.charges, |w.ledger.charges|, u, t), tariffs[t].rate,
             C.Before(w.db, meter, months) - w.db.meters[meter].initial, C.Bills(w.db, meter, months))
  {
    EveryRunStaysCorrect(units, tariffs, meters, steps);
    var w := Run(units, tariffs, meters, steps);
    StateToCharges(units, tariffs, meters, w, u, t, kind, meter, months);
  }

  lemma StateToCharges(
    units: seq<F.Unit>, tariffs: seq<F.Tariff>, meters: seq<M.Meter>, w: World, u: nat, t: nat, kind: M.Kind,
    meter: nat, months: nat)
    requires Inv(units, tariffs, meters, w) && F.Metered(F.Data(units, tariffs, w.db), u, t, kind, meter)
    requires F.Complete(w.ledger.charges, u, t, w.db, meter, months)
    requires forall k :: 0 <= k < |w.ledger.charges| ==> w.ledger.charges[k].period < months
    ensures C.Near(F.ChargedBy(w.ledger.charges, |w.ledger.charges|, u, t), tariffs[t].rate,
                   C.Before(w.db, meter, months) - w.db.meters[meter].initial, C.Bills(w.db, meter, months))
  {
    var charges := w.ledger.charges;
    F.ChargesAreBills(F.Data(units, tariffs, w.db), charges, |charges|, u, t, kind, meter, months);
    F.CompleteIsBilled(charges, u, t, w.db, meter, tariffs[t].rate, months);
    M.InOrderRises(w.db, meter);
    C.RisingBills(w.db, meter, tariffs[t].rate, months);
  }
}
