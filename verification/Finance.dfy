/** Charges, payments and the balance every account shows. */
module Finance {
  import opened Prelude
  import opened Rounding
  import M = Meters
  import C = Consumption

  datatype Method = Flat | PerArea | PerConsumption(kind: Option<M.Kind>)

  datatype Tariff = Tariff(tenant: nat, isActive: bool, calculation: Method, rate: real)

  datatype Unit = Unit(tenant: nat, area: real)

  /** What charging reads: units, tariffs and meters, all with row numbers as ids. */
  datatype Data = Data(units: seq<Unit>, tariffs: seq<Tariff>, metering: M.Db)

  /** A unit has at most one account, so an account goes by its unit's id. */
  datatype Account = Account(tenant: nat, balance: real)

  datatype Charge = Charge(account: nat, tariff: nat, period: nat, amount: real)

  datatype Payment = Payment(account: nat, amount: real, recordedBy: nat)

  datatype Ledger = Ledger(accounts: map<nat, Account>, charges: seq<Charge>, payments: seq<Payment>)

  datatype Error = NoActiveTariffs | AccountNotFound | WrongTenant

  // ---------------------------------------------------------------- one charge

  predicate Measures(meter: M.Meter, unit: nat, kind: M.Kind) {
    meter.unit == unit && meter.kind == kind && meter.isActive
  }

  function FirstMeter(meters: seq<M.Meter>, n: nat, unit: nat, kind: M.Kind): (meter: Option<nat>)
    requires n <= |meters|
    ensures meter.Some? ==> meter.value < n && Measures(meters[meter.value], unit, kind)
    ensures meter.Some? ==> forall i :: 0 <= i < meter.value ==> !Measures(meters[i], unit, kind)
    ensures meter == None ==> forall i :: 0 <= i < n ==> !Measures(meters[i], unit, kind)
  {
    if n == 0 then None
    else
      var meter := FirstMeter(meters, n - 1, unit, kind);
      if meter.Some? then meter else if Measures(meters[n - 1], unit, kind) then Some(n - 1) else None
  }

  /** What a tariff charges a unit for a period, or None where the period is skipped. */
  function Amount(data: Data, unit: nat, tariff: nat, period: nat): Option<real>
    requires unit < |data.units| && tariff < |data.tariffs|
  {
    var t := data.tariffs[tariff];
    match t.calculation
    case Flat => Some(t.rate)
    case PerArea => Some(C.Price(t.rate, data.units[unit].area))
    case PerConsumption(None) => None
    case PerConsumption(Some(kind)) =>
      match FirstMeter(data.metering.meters, |data.metering.meters|, unit, kind)
      case None => None
      case Some(meter) =>
        if C.Verified(data.metering, meter, period) == None then None
        else Some(C.Bill(data.metering, meter, t.rate, period))
  }

  predicate IsFor(c: Charge, unit: nat, tariff: nat, period: nat) {
    c.account == unit && c.tariff == tariff && c.period == period
  }

  predicate Has(charges: seq<Charge>, unit: nat, tariff: nat, period: nat) {
    exists i :: 0 <= i < |charges| && IsFor(charges[i], unit, tariff, period)
  }

  // ---------------------------------------------------------------- charging all

  predicate Within(ids: seq<nat>, n: nat) {
    forall i :: 0 <= i < |ids| ==> ids[i] < n
  }

  /** Whether an id is among the first `n`. */
  predicate Among(ids: seq<nat>, n: nat, id: nat)
    requires n <= |ids|
  {
    n > 0 && (ids[n - 1] == id || Among(ids, n - 1, id))
  }

  lemma {:induction false} AmongIsIn(ids: seq<nat>, n: nat, id: nat)
    requires n <= |ids|
    ensures Among(ids, n, id) <==> id in ids[..n]
  {
    if n > 0 {
      AmongIsIn(ids, n - 1, id);
      assert ids[..n] == ids[..n - 1] + [ids[n - 1]];
    }
  }

  function ActiveTariffs(tariffs: seq<Tariff>, n: nat, tenant: nat): (ids: seq<nat>)
    requires n <= |tariffs|
    ensures Within(ids, n)
    ensures forall t :: t in ids <==> 0 <= t < n && tariffs[t].isActive && tariffs[t].tenant == tenant
    ensures forall i, j :: 0 <= i < j < |ids| ==> ids[i] < ids[j]
  {
    if n == 0 then []
    else if tariffs[n - 1].isActive && tariffs[n - 1].tenant == tenant then
      ActiveTariffs(tariffs, n - 1, tenant) + [n - 1]
    else ActiveTariffs(tariffs, n - 1, tenant)
  }

  function UnitsOf(units: seq<Unit>, n: nat, tenant: nat): (ids: seq<nat>)
    requires n <= |units|
    ensures Within(ids, n)
    ensures forall u :: u in ids <==> 0 <= u < n && units[u].tenant == tenant
    ensures forall i, j :: 0 <= i < j < |ids| ==> ids[i] < ids[j]
  {
    if n == 0 then []
    else if units[n - 1].tenant == tenant then UnitsOf(units, n - 1, tenant) + [n - 1]
    else UnitsOf(units, n - 1, tenant)
  }

  /** The charges table, the two counters and the affected accounts while charging. */
  datatype Progress = Progress(charges: seq<Charge>, created: nat, skipped: nat, affected: set<nat>)

  function Attempt(data: Data, period: nat, p: Progress, unit: nat, tariff: nat): Progress
    requires unit < |data.units| && tariff < |data.tariffs|
  {
    var amount := Amount(data, unit, tariff, period);
    if amount == None || Has(p.charges, unit, tariff, period) then p.(skipped := p.skipped + 1)
    else
      Progress(
        p.charges + [Charge(unit, tariff, period, amount.value)], p.created + 1, p.skipped, p.affected + {unit})
  }

  function OverTariffs(data: Data, period: nat, p: Progress, unit: nat, tariffs: seq<nat>, n: nat): Progress
    requires n <= |tariffs| && unit < |data.units| && Within(tariffs, |data.tariffs|)
  {
    if n == 0 then p
    else Attempt(data, period, OverTariffs(data, period, p, unit, tariffs, n - 1), unit, tariffs[n - 1])
  }

  function OverUnits(data: Data, period: nat, p: Progress, units: seq<nat>, tariffs: seq<nat>, n: nat): Progress
    requires n <= |units| && Within(units, |data.units|) && Within(tariffs, |data.tariffs|)
  {
    if n == 0 then p
    else OverTariffs(data, period, OverUnits(data, period, p, units, tariffs, n - 1), units[n - 1], tariffs, |tariffs|)
  }

  /** Accounts are opening with a zero balance for the units that have none. */
  function Opened(data: Data, accounts: map<nat, Account>, units: seq<nat>, n: nat): (opening: map<nat, Account>)
    requires n <= |units| && Within(units, |data.units|)
    ensures forall a :: a in opening <==> a in accounts || Among(units, n, a)
    ensures forall a :: a in accounts ==> opening[a] == accounts[a]
    ensures forall a :: a in opening && a !in accounts ==> opening[a].balance == 0.0
  {
    if n == 0 then accounts
    else
      var before := Opened(data, accounts, units, n - 1);
      if units[n - 1] in before then before else before[units[n - 1] := Account(data.units[units[n - 1]].tenant, 0.0)]
  }

  function Charged(charges: seq<Charge>, n: nat, account: nat): real
    requires n <= |charges|
  {
    if n == 0 then 0.0
    else Charged(charges, n - 1, account) + if charges[n - 1].account == account then charges[n - 1].amount else 0.0
  }

  function Paid(payments: seq<Payment>, n: nat, account: nat): real
    requires n <= |payments|
  {
    if n == 0 then 0.0
    else Paid(payments, n - 1, account) + if payments[n - 1].account == account then payments[n - 1].amount else 0.0
  }

  /** `recalculateBalance`: all that was paid less all that was charged, rounded to cents. */
  function Balance(charges: seq<Charge>, payments: seq<Payment>, account: nat): real {
    C.Cents(Paid(payments, |payments|, account) - Charged(charges, |charges|, account))
  }

  function Rebalanced(
      accounts: map<nat, Account>, charges: seq<Charge>, payments: seq<Payment>, affected: set<nat>)
      : (r: map<nat, Account>)
    ensures r.Keys == accounts.Keys
  {
    map a | a in accounts ::
      if a in affected then accounts[a].(balance := Balance(charges, payments, a)) else accounts[a]
  }

  datatype Outcome = Outcome(ledger: Ledger, created: nat, skipped: nat)

  function Charging(data: Data, charges: seq<Charge>, tenant: nat, period: nat): Progress {
    var (units, tariffs) :=
      (UnitsOf(data.units, |data.units|, tenant), ActiveTariffs(data.tariffs, |data.tariffs|, tenant));
    OverUnits(data, period, Progress(charges, 0, 0, {}), units, tariffs, |units|)
  }

  function Generated(data: Data, ledger: Ledger, tenant: nat, period: nat): Result<Outcome, Error> {
    if ActiveTariffs(data.tariffs, |data.tariffs|, tenant) == [] then Err(NoActiveTariffs)
    else
      var p := Charging(data, ledger.charges, tenant, period);
      var units := UnitsOf(data.units, |data.units|, tenant);
      var accounts := Opened(data, ledger.accounts, units, |units|);
      var rebalanced := Rebalanced(accounts, p.charges, ledger.payments, p.affected);
      Ok(Outcome(Ledger(rebalanced, p.charges, ledger.payments), p.created, p.skipped))
  }

  /** `getOrCreatePersonalAccount`, as registering a unit and showing a resident's accounts call it. */
  function WithAccount(ledger: Ledger, unit: nat, tenant: nat): Ledger {
    if unit in ledger.accounts then ledger else ledger.(accounts := ledger.accounts[unit := Account(tenant, 0.0)])
  }

  function Recorded(ledger: Ledger, account: nat, amount: real, staff: User): Result<Ledger, Error> {
    if account !in ledger.accounts then Err(AccountNotFound)
    else if !BelongsToTenant(staff, ledger.accounts[account].tenant) then Err(WrongTenant)
    else
      var payments := ledger.payments + [Payment(account, amount, staff.id)];
      Ok(Ledger(Rebalanced(ledger.accounts, ledger.charges, payments, {account}), ledger.charges, payments))
  }

  // ---------------------------------------------------------------- the service

  method FindCharge(charges: seq<Charge>, unit: nat, tariff: nat, period: nat) returns (found: bool)
    ensures found <==> Has(charges, unit, tariff, period)
  {
    for i := 0 to |charges|
      invariant forall k :: 0 <= k < i ==> !IsFor(charges[k], unit, tariff, period)
    {
      if IsFor(charges[i], unit, tariff, period) { return true; }
    }
    return false;
  }

  /** The two nested loops of `generateCharges`. */
  method ChargeUnits(
      data: Data, period: nat, accounts: map<nat, Account>, charges: seq<Charge>, units: seq<nat>, tariffs: seq<nat>)
    returns (opening: map<nat, Account>, p: Progress)
    requires Within(units, |data.units|) && Within(tariffs, |data.tariffs|)
    ensures opening == Opened(data, accounts, units, |units|)
    ensures p == OverUnits(data, period, Progress(charges, 0, 0, {}), units, tariffs, |units|)
  {
    opening, p := accounts, Progress(charges, 0, 0, {});
    for i := 0 to |units|
      invariant opening == Opened(data, accounts, units, i)
      invariant p == OverUnits(data, period, Progress(charges, 0, 0, {}), units, tariffs, i)
    {
      if units[i] !in opening { opening := opening[units[i] := Account(data.units[units[i]].tenant, 0.0)]; }
      p := ChargeUnit(data, period, p, units[i], tariffs);
    }
  }

  method ChargeUnit(data: Data, period: nat, before: Progress, unit: nat, tariffs: seq<nat>) returns (p: Progress)
    requires unit < |data.units| && Within(tariffs, |data.tariffs|)
    ensures p == OverTariffs(data, period, before, unit, tariffs, |tariffs|)
  {
    p := before;
    for j := 0 to |tariffs|
      invariant p == OverTariffs(data, period, before, unit, tariffs, j)
    {
      p := ChargeOne(data, period, p, unit, tariffs[j]);
    }
  }

  method ChargeOne(data: Data, period: nat, before: Progress, unit: nat, tariff: nat) returns (p: Progress)
    requires unit < |data.units| && tariff < |data.tariffs|
    ensures p == Attempt(data, period, before, unit, tariff)
  {
    p := before;
    var amount := Amount(data, unit, tariff, period);
    if amount == None { return p.(skipped := p.skipped + 1); }
    var duplicate := FindCharge(p.charges, unit, tariff, period);
    if duplicate { return p.(skipped := p.skipped + 1); }
    return Progress(
      p.charges + [Charge(unit, tariff, period, amount.value)], p.created + 1, p.skipped, p.affected + {unit});
  }

  method RecalculateBalance(accounts: map<nat, Account>, charges: seq<Charge>, payments: seq<Payment>, account: nat)
    returns (r: map<nat, Account>)
    requires account in accounts
    ensures r == Rebalanced(accounts, charges, payments, {account})
  {
    var paid, charged := 0.0, 0.0;
    for i := 0 to |payments|
      invariant paid == Paid(payments, i, account)
    {
      if payments[i].account == account { paid := paid + payments[i].amount; }
    }
    for i := 0 to |charges|
      invariant charged == Charged(charges, i, account)
    {
      if charges[i].account == account { charged := charged + charges[i].amount; }
    }
    r := accounts[account := accounts[account].(balance := C.Cents(paid - charged))];
  }

  method RecalculateAll(accounts: map<nat, Account>, charges: seq<Charge>, payments: seq<Payment>, affected: set<nat>)
    returns (r: map<nat, Account>)
    requires affected <= accounts.Keys
    ensures r == Rebalanced(accounts, charges, payments, affected)
  {
    r := accounts;
    var rest := affected;
    while rest != {}
      invariant rest <= affected
      invariant r == Rebalanced(accounts, charges, payments, affected - rest)
    {
      var account :| account in rest;
      r := RecalculateBalance(r, charges, payments, account);
      rest := rest - {account};
    }
    assert affected - rest == affected;
  }

  class FinanceService {
    var accounts: map<nat, Account>
    var charges: seq<Charge>
    var payments: seq<Payment>

    function Tables(): Ledger
      reads this
    {
      Ledger(accounts, charges, payments)
    }

    constructor ()
      ensures Tables() == Ledger(map[], [], [])
    {
      accounts, charges, payments := map[], [], [];
    }

    method GenerateCharges(data: Data, tenant: nat, period: nat) returns (result: Result<(nat, nat), Error>)
      modifies this`accounts, this`charges
      ensures result.Ok? ==>
        Generated(data, old(Tables()), tenant, period) == Ok(Outcome(Tables(), result.value.0, result.value.1))
      ensures result.Err? ==>
        Generated(data, old(Tables()), tenant, period) == Err(result.error) && Tables() == old(Tables())
    {
      var tariffs := ActiveTariffs(data.tariffs, |data.tariffs|, tenant);
      if |tariffs| == 0 { return Err(NoActiveTariffs); }
      var units := UnitsOf(data.units, |data.units|, tenant);
      if |units| == 0 {
        assert accounts == Rebalanced(accounts, charges, payments, {});
        return Ok((0, 0));
      }
      var opening, p := ChargeUnits(data, period, accounts, charges, units, tariffs);
      ChargingGrows(data, charges, tenant, period);
      accounts := RecalculateAll(opening, p.charges, payments, p.affected);
      charges := p.charges;
      return Ok((p.created, p.skipped));
    }

    method GetOrCreatePersonalAccount(unit: nat, tenant: nat)
      modifies this`accounts
      ensures Tables() == WithAccount(old(Tables()), unit, tenant)
    {
      if unit in accounts { return; }
      accounts := accounts[unit := Account(tenant, 0.0)];
    }

    method RecordPayment(account: nat, amount: real, staff: User) returns (result: Result<real, Error>)
      modifies this`accounts, this`payments
      ensures result.Ok? ==> Recorded(old(Tables()), account, amount, staff) == Ok(Tables())
      ensures result.Ok? ==> account in accounts && result.value == accounts[account].balance
      ensures result.Err? ==>
        Recorded(old(Tables()), account, amount, staff) == Err(result.error) && Tables() == old(Tables())
    {
      if account !in accounts { return Err(AccountNotFound); }
      if !BelongsToTenant(staff, accounts[account].tenant) { return Err(WrongTenant); }
      payments := payments + [Payment(account, amount, staff.id)];
      accounts := RecalculateBalance(accounts, charges, payments, account);
      return Ok(accounts[account].balance);
    }
  }

  // ---------------------------------------------------------------- what charging adds

  /** How charging has grown the table it started from. */
  predicate Grown(data: Data, period: nat, start: seq<Charge>, p: Progress) {
    && |start| <= |p.charges| && p.charges[..|start|] == start
    && p.created == |p.charges| - |start|
    && (forall k :: |start| <= k < |p.charges| ==>
      p.charges[k].account in p.affected && Correct(data, period, p.charges[k]))
  }

  predicate Correct(data: Data, period: nat, c: Charge) {
    && c.account < |data.units| && c.tariff < |data.tariffs| && c.period == period
    && Amount(data, c.account, c.tariff, period) == Some(c.amount)
  }

  /** At most one charge per account, tariff and period. */
  predicate ChargedOnce(charges: seq<Charge>) {
    forall i, j :: 0 <= i < j < |charges| ==>
      !IsFor(charges[j], charges[i].account, charges[i].tariff, charges[i].period)
  }

  lemma AttemptGrows(data: Data, period: nat, start: seq<Charge>, p: Progress, unit: nat, tariff: nat)
    requires unit < |data.units| && tariff < |data.tariffs| && Grown(data, period, start, p)
    ensures var q := Attempt(data, period, p, unit, tariff);
      && Grown(data, period, start, q) && (ChargedOnce(p.charges) ==> ChargedOnce(q.charges))
      && q.created + q.skipped == p.created + p.skipped + 1
      && q.affected <= p.affected + {unit}
  {
    var q := Attempt(data, period, p, unit, tariff);
    assert q.charges[..|start|] == p.charges[..|start|];
    if q.created > p.created {
      forall i | 0 <= i < |p.charges|
        ensures !IsFor(q.charges[|p.charges|], p.charges[i].account, p.charges[i].tariff, p.charges[i].period)
      {
        assert !IsFor(p.charges[i], unit, tariff, period);
      }
    }
  }

  lemma {:induction false} TariffsGrow(
      data: Data, period: nat, start: seq<Charge>, p: Progress, unit: nat, tariffs: seq<nat>, n: nat)
    requires n <= |tariffs| && unit < |data.units| && Within(tariffs, |data.tariffs|) && Grown(data, period, start, p)
    ensures var q := OverTariffs(data, period, p, unit, tariffs, n);
      && Grown(data, period, start, q) && (ChargedOnce(p.charges) ==> ChargedOnce(q.charges))
      && q.created + q.skipped == p.created + p.skipped + n
      && q.affected <= p.affected + {unit}
  {
    if n > 0 {
      TariffsGrow(data, period, start, p, unit, tariffs, n - 1);
      AttemptGrows(data, period, start, OverTariffs(data, period, p, unit, tariffs, n - 1), unit, tariffs[n - 1]);
    }
  }

  lemma {:induction false} UnitsGrow(
      data: Data, period: nat, start: seq<Charge>, p: Progress, units: seq<nat>, tariffs: seq<nat>, n: nat)
    requires n <= |units| && Within(units, |data.units|) && Within(tariffs, |data.tariffs|) &&
      Grown(data, period, start, p)
    ensures var q := OverUnits(data, period, p, units, tariffs, n);
      && Grown(data, period, start, q) && (ChargedOnce(p.charges) ==> ChargedOnce(q.charges))
      && q.created + q.skipped == p.created + p.skipped + n * |tariffs|
      && (forall a :: a in q.affected ==> a in p.affected || Among(units, n, a))
  {
    if n > 0 {
      UnitsGrow(data, period, start, p, units, tariffs, n - 1);
      var before := OverUnits(data, period, p, units, tariffs, n - 1);
      TariffsGrow(data, period, start, before, units[n - 1], tariffs, |tariffs|);
      assert n * |tariffs| == (n - 1) * |tariffs| + |tariffs|;
    }
  }

  lemma ChargingGrows(data: Data, charges: seq<Charge>, tenant: nat, period: nat)
    ensures var (p, units) := (Charging(data, charges, tenant, period), UnitsOf(data.units, |data.units|, tenant));
      && Grown(data, period, charges, p) && (ChargedOnce(charges) ==> ChargedOnce(p.charges))
      && p.created + p.skipped == |units| * |ActiveTariffs(data.tariffs, |data.tariffs|, tenant)|
      && (forall a :: a in p.affected ==> Among(units, |units|, a))
  {
    var units, tariffs :=
      UnitsOf(data.units, |data.units|, tenant), ActiveTariffs(data.tariffs, |data.tariffs|, tenant);
    UnitsGrow(data, period, charges, Progress(charges, 0, 0, {}), units, tariffs, |units|);
  }

  // ---------------------------------------------------------------- which charges exist afterwards

  predicate Chargeable(data: Data, unit: nat, tariff: nat, period: nat) {
    unit < |data.units| && tariff < |data.tariffs| && Amount(data, unit, tariff, period).Some?
  }

  lemma AttemptHas(data: Data, period: nat, p: Progress, unit: nat, tariff: nat, u: nat, t: nat, month: nat)
    requires unit < |data.units| && tariff < |data.tariffs|
    ensures Has(Attempt(data, period, p, unit, tariff).charges, u, t, month) <==>
      Has(p.charges, u, t, month) || (u == unit && t == tariff && month == period && Chargeable(data, u, t, period))
  {
    var q := Attempt(data, period, p, unit, tariff);
    if Has(p.charges, u, t, month) {
      var i :| 0 <= i < |p.charges| && IsFor(p.charges[i], u, t, month);
      assert IsFor(q.charges[i], u, t, month);
    }
    if q.created > p.created {
      assert q.charges[|p.charges|] == Charge(unit, tariff, period, Amount(data, unit, tariff, period).value);
    }
  }

  lemma {:induction false} TariffsHave(
    data: Data, period: nat, p: Progress, unit: nat, tariffs: seq<nat>, n: nat, u: nat, t: nat, month: nat)
    requires n <= |tariffs| && unit < |data.units| && Within(tariffs, |data.tariffs|)
    ensures Has(OverTariffs(data, period, p, unit, tariffs, n).charges, u, t, month) <==>
      Has(p.charges, u, t, month) ||
        (u == unit && Among(tariffs, n, t) && month == period && Chargeable(data, u, t, period))
  {
    if n > 0 {
      TariffsHave(data, period, p, unit, tariffs, n - 1, u, t, month);
      AttemptHas(data, period, OverTariffs(data, period, p, unit, tariffs, n - 1), unit, tariffs[n - 1], u, t, month);
    }
  }

  lemma {:induction false} UnitsHave(
    data: Data, period: nat, p: Progress, units: seq<nat>, tariffs: seq<nat>, n: nat, u: nat, t: nat, month: nat)
    requires n <= |units| && Within(units, |data.units|) && Within(tariffs, |data.tariffs|)
    ensures Has(OverUnits(data, period, p, units, tariffs, n).charges, u, t, month) <==>
      || Has(p.charges, u, t, month)
      || (Among(units, n, u) && Among(tariffs, |tariffs|, t) && month == period && Chargeable(data, u, t, period))
  {
    if n > 0 {
      UnitsHave(data, period, p, units, tariffs, n - 1, u, t, month);
      var before := OverUnits(data, period, p, units, tariffs, n - 1);
      TariffsHave(data, period, before, units[n - 1], tariffs, |tariffs|, u, t, month);
    }
  }

  /** The units and tariffs of one `generateCharges` call. */
  predicate InScope(data: Data, tenant: nat, unit: nat, tariff: nat) {
    && unit < |data.units| && data.units[unit].tenant == tenant
    && tariff < |data.tariffs| && data.tariffs[tariff].isActive && data.tariffs[tariff].tenant == tenant
  }

  /** After a call a charge exists exactly if it did before, or the call's period, unit and tariff ask for
      it and there is something to charge. Old charges stay as they were, new ones have the right amount,
      there are as many as `created` says, and every unit and tariff was either created or skipped. */
  lemma GenerateChargesExactly(data: Data, ledger: Ledger, tenant: nat, period: nat, u: nat, t: nat, month: nat)
    requires Generated(data, ledger, tenant, period).Ok?
    ensures var out := Generated(data, ledger, tenant, period).value;
      && (Has(out.ledger.charges, u, t, month) <==>
            Has(ledger.charges, u, t, month) ||
              (month == period && InScope(data, tenant, u, t) && Chargeable(data, u, t, period)))
      && |out.ledger.charges| == |ledger.charges| + out.created
      && out.ledger.charges[..|ledger.charges|] == ledger.charges
      && (forall k :: |ledger.charges| <= k < |out.ledger.charges| ==> Correct(data, period, out.ledger.charges[k]))
      && out.created + out.skipped
           == |UnitsOf(data.units, |data.units|, tenant)| * |ActiveTariffs(data.tariffs, |data.tariffs|, tenant)|
  {
    ChargingGrows(data, ledger.charges, tenant, period);
    var units, tariffs :=
      UnitsOf(data.units, |data.units|, tenant), ActiveTariffs(data.tariffs, |data.tariffs|, tenant);
    UnitsHave(data, period, Progress(ledger.charges, 0, 0, {}), units, tariffs, |units|, u, t, month);
    AmongIsIn(units, |units|, u);
    AmongIsIn(tariffs, |tariffs|, t);
    assert units[..|units|] == units && tariffs[..|tariffs|] == tariffs;
  }

  // ---------------------------------------------------------------- charging twice

  predicate Saturated(data: Data, period: nat, charges: seq<Charge>, unit: nat, tariffs: seq<nat>) {
    forall j :: 0 <= j < |tariffs| && Chargeable(data, unit, tariffs[j], period) ==>
      Has(charges, unit, tariffs[j], period)
  }

  lemma {:induction false} TariffsIdle(data: Data, period: nat, p: Progress, unit: nat, tariffs: seq<nat>, n: nat)
    requires n <= |tariffs| && unit < |data.units| && Within(tariffs, |data.tariffs|)
    requires Saturated(data, period, p.charges, unit, tariffs)
    ensures OverTariffs(data, period, p, unit, tariffs, n) == p.(skipped := p.skipped + n)
  {
    if n > 0 {
      TariffsIdle(data, period, p, unit, tariffs, n - 1);
    }
  }

  lemma {:induction false} UnitsIdle(data: Data, period: nat, p: Progress, units: seq<nat>, tariffs: seq<nat>, n: nat)
    requires n <= |units| && Within(units, |data.units|) && Within(tariffs, |data.tariffs|)
    requires forall i :: 0 <= i < |units| ==> Saturated(data, period, p.charges, units[i], tariffs)
    ensures OverUnits(data, period, p, units, tariffs, n) == p.(skipped := p.skipped + n * |tariffs|)
  {
    if n > 0 {
      UnitsIdle(data, period, p, units, tariffs, n - 1);
      TariffsIdle(data, period, OverUnits(data, period, p, units, tariffs, n - 1), units[n - 1], tariffs, |tariffs|);
      assert n * |tariffs| == (n - 1) * |tariffs| + |tariffs|;
    }
  }

  lemma ChargedIsSaturated(data: Data, ledger: Ledger, tenant: nat, period: nat, unit: nat)
    requires Generated(data, ledger, tenant, period).Ok? && unit < |data.units| && data.units[unit].tenant == tenant
    ensures Saturated(data, period, Generated(data, ledger, tenant, period).value.ledger.charges, unit,
                      ActiveTariffs(data.tariffs, |data.tariffs|, tenant))
  {
    var tariffs := ActiveTariffs(data.tariffs, |data.tariffs|, tenant);
    forall j | 0 <= j < |tariffs| && Chargeable(data, unit, tariffs[j], period)
      ensures Has(Generated(data, ledger, tenant, period).value.ledger.charges, unit, tariffs[j], period)
    {
      assert tariffs[j] in tariffs;
      GenerateChargesExactly(data, ledger, tenant, period, unit, tariffs[j], period);
    }
  }

  lemma ChargingAgainIsIdle(data: Data, ledger: Ledger, tenant: nat, period: nat)
    requires Generated(data, ledger, tenant, period).Ok?
    ensures var once := Generated(data, ledger, tenant, period).value;
      Charging(data, once.ledger.charges, tenant, period) ==
        Progress(once.ledger.charges, 0, once.created + once.skipped, {})
  {
    var once := Generated(data, ledger, tenant, period).value;
    var units, tariffs :=
      UnitsOf(data.units, |data.units|, tenant), ActiveTariffs(data.tariffs, |data.tariffs|, tenant);
    forall i | 0 <= i < |units| ensures Saturated(data, period, once.ledger.charges, units[i], tariffs) {
      assert units[i] in units;
      ChargedIsSaturated(data, ledger, tenant, period, units[i]);
    }
    UnitsIdle(data, period, Progress(once.ledger.charges, 0, 0, {}), units, tariffs, |units|);
    ChargingGrows(data, ledger.charges, tenant, period);
  }

  predicate HaveAccounts(accounts: map<nat, Account>, units: seq<nat>) {
    forall i :: 0 <= i < |units| ==> units[i] in accounts
  }

  lemma {:induction false} NothingToOpen(data: Data, accounts: map<nat, Account>, units: seq<nat>, n: nat)
    requires n <= |units| && Within(units, |data.units|) && HaveAccounts(accounts, units)
    ensures Opened(data, accounts, units, n) == accounts
  {
    if n > 0 {
      NothingToOpen(data, accounts, units, n - 1);
    }
  }

  lemma {:induction false} IsAmong(ids: seq<nat>, n: nat, i: nat)
    requires i < n <= |ids|
    ensures Among(ids, n, ids[i])
  {
    if i < n - 1 {
      IsAmong(ids, n - 1, i);
    }
  }

  lemma UnitsHaveAccounts(data: Data, ledger: Ledger, tenant: nat, period: nat)
    requires Generated(data, ledger, tenant, period).Ok?
    ensures HaveAccounts(
      Generated(data, ledger, tenant, period).value.ledger.accounts, UnitsOf(data.units, |data.units|, tenant))
  {
    var units := UnitsOf(data.units, |data.units|, tenant);
    forall i | 0 <= i < |units| ensures units[i] in Opened(data, ledger.accounts, units, |units|) {
      IsAmong(units, |units|, i);
    }
  }

  /** Charging the same period again with the same data creates nothing and changes no table. */
  lemma GenerateTwiceIsOnce(data: Data, ledger: Ledger, tenant: nat, period: nat)
    requires Generated(data, ledger, tenant, period).Ok?
    ensures var once := Generated(data, ledger, tenant, period).value;
      Generated(data, once.ledger, tenant, period) == Ok(Outcome(once.ledger, 0, once.created + once.skipped))
  {
    var once := Generated(data, ledger, tenant, period).value;
    var units := UnitsOf(data.units, |data.units|, tenant);
    ChargingAgainIsIdle(data, ledger, tenant, period);
    UnitsHaveAccounts(data, ledger, tenant, period);
    NothingToOpen(data, once.ledger.accounts, units, |units|);
    assert Rebalanced(once.ledger.accounts, once.ledger.charges, once.ledger.payments, {}) == once.ledger.accounts;
  }

  // ---------------------------------------------------------------- balances

  /** Every stored balance is what recalculating it now would give, and no charge is made twice. */
  predicate Consistent(ledger: Ledger) {
    && ChargedOnce(ledger.charges)
    && (forall k :: 0 <= k < |ledger.charges| ==> ledger.charges[k].account in ledger.accounts)
    && (forall k :: 0 <= k < |ledger.payments| ==> ledger.payments[k].account in ledger.accounts)
    && (forall a :: a in ledger.accounts ==> ledger.accounts[a].balance == Balance(ledger.charges, ledger.payments, a))
  }

  /** Charges to other accounts do not count. */
  lemma {:induction false} ChargedElsewhere(before: seq<Charge>, after: seq<Charge>, n: nat, account: nat)
    requires |before| <= n <= |after| && after[..|before|] == before
    requires forall k :: |before| <= k < n ==> after[k].account != account
    ensures Charged(after, n, account) == Charged(before, |before|, account)
  {
    if n > |before| {
      ChargedElsewhere(before, after, n - 1, account);
    } else {
      ChargedPrefix(before, after, n, account);
    }
  }

  lemma {:induction false} ChargedPrefix(before: seq<Charge>, after: seq<Charge>, n: nat, account: nat)
    requires n <= |before| <= |after| && after[..|before|] == before
    ensures Charged(after, n, account) == Charged(before, n, account)
  {
    if n > 0 {
      ChargedPrefix(before, after, n - 1, account);
      assert after[n - 1] == after[..|before|][n - 1];
    }
  }

  lemma {:induction false} PaidElsewhere(payments: seq<Payment>, more: Payment, n: nat, account: nat)
    requires n <= |payments|
    ensures Paid(payments + [more], n, account) == Paid(payments, n, account)
  {
    if n > 0 {
      PaidElsewhere(payments, more, n - 1, account);
    }
  }

  lemma {:induction false} NothingCharged(charges: seq<Charge>, payments: seq<Payment>, account: nat)
    requires forall k :: 0 <= k < |charges| ==> charges[k].account != account
    requires forall k :: 0 <= k < |payments| ==> payments[k].account != account
    ensures Balance(charges, payments, account) == 0.0
  {
    assert charges[..0] == [];
    ChargedElsewhere([], charges, |charges|, account);
    NothingPaid(payments, |payments|, account);
    assert Round(0.0) == 0;
  }

  lemma {:induction false} NothingPaid(payments: seq<Payment>, n: nat, account: nat)
    requires n <= |payments| && forall k :: 0 <= k < n ==> payments[k].account != account
    ensures Paid(payments, n, account) == 0.0
  {
    if n > 0 {
      NothingPaid(payments, n - 1, account);
    }
  }

  lemma NewChargesHaveAccounts(data: Data, ledger: Ledger, tenant: nat, period: nat, k: nat)
    requires Consistent(ledger) && Generated(data, ledger, tenant, period).Ok?
    requires k < |Generated(data, ledger, tenant, period).value.ledger.charges|
    ensures var next := Generated(data, ledger, tenant, period).value.ledger;
      next.charges[k].account in next.accounts
  {
    var p := Charging(data, ledger.charges, tenant, period);
    ChargingGrows(data, ledger.charges, tenant, period);
    if k < |ledger.charges| {
      assert p.charges[k] == p.charges[..|ledger.charges|][k];
    }
  }

  lemma UnaffectedKeepTheirSum(data: Data, period: nat, start: seq<Charge>, p: Progress, a: nat)
    requires Grown(data, period, start, p) && a !in p.affected
    ensures Charged(p.charges, |p.charges|, a) == Charged(start, |start|, a)
  {
    forall k | |start| <= k < |p.charges| ensures p.charges[k].account != a {
      assert p.charges[k].account in p.affected;
    }
    ChargedElsewhere(start, p.charges, |p.charges|, a);
  }

  lemma UnaffectedBalance(ledger: Ledger, charges: seq<Charge>, account: Account, a: nat)
    requires Consistent(ledger)
    requires Charged(charges, |charges|, a) == Charged(ledger.charges, |ledger.charges|, a)
    requires if a in ledger.accounts then account == ledger.accounts[a] else account.balance == 0.0
    ensures account.balance == Balance(charges, ledger.payments, a)
  {
    if a !in ledger.accounts {
      NothingCharged(ledger.charges, ledger.payments, a);
    }
  }

  lemma BalanceIsExact(data: Data, ledger: Ledger, tenant: nat, period: nat, a: nat)
    requires Consistent(ledger) && Generated(data, ledger, tenant, period).Ok?
    requires a in Generated(data, ledger, tenant, period).value.ledger.accounts
    ensures var next := Generated(data, ledger, tenant, period).value.ledger;
      next.accounts[a].balance == Balance(next.charges, next.payments, a)
  {
    var p := Charging(data, ledger.charges, tenant, period);
    if a !in p.affected {
      ChargingGrows(data, ledger.charges, tenant, period);
      UnaffectedKeepTheirSum(data, period, ledger.charges, p, a);
      UnaffectedBalance(ledger, p.charges, Generated(data, ledger, tenant, period).value.ledger.accounts[a], a);
    }
  }

  lemma GenerateKeepsConsistent(data: Data, ledger: Ledger, tenant: nat, period: nat)
    requires Consistent(ledger) && Generated(data, ledger, tenant, period).Ok?
    ensures Consistent(Generated(data, ledger, tenant, period).value.ledger)
  {
    var next := Generated(data, ledger, tenant, period).value.ledger;
    ChargingGrows(data, ledger.charges, tenant, period);
    forall k | 0 <= k < |next.charges| ensures next.charges[k].account in next.accounts {
      NewChargesHaveAccounts(data, ledger, tenant, period, k);
    }
    forall a | a in next.accounts ensures next.accounts[a].balance == Balance(next.charges, next.payments, a) {
      BalanceIsExact(data, ledger, tenant, period, a);
    }
    forall k | 0 <= k < |next.payments| ensures next.payments[k].account in next.accounts {
      assert ledger.payments[k].account in ledger.accounts;
    }
  }

  lemma PaymentKeepsConsistent(ledger: Ledger, account: nat, amount: real, staff: User)
    requires Consistent(ledger) && Recorded(ledger, account, amount, staff).Ok?
    ensures Consistent(Recorded(ledger, account, amount, staff).value)
  {
    var next := Recorded(ledger, account, amount, staff).value;
    forall a | a in next.accounts ensures next.accounts[a].balance == Balance(next.charges, next.payments, a) {
      if a != account {
        PaidElsewhere(ledger.payments, Payment(account, amount, staff.id), |ledger.payments|, a);
      }
    }
  }

  /** A payment raises the balance of its account by its amount, up to the rounding, and no other. */
  lemma PaymentRaisesBalance(ledger: Ledger, account: nat, amount: real, staff: User, a: nat)
    requires Consistent(ledger) && Recorded(ledger, account, amount, staff).Ok? && a in ledger.accounts
    ensures var next := Recorded(ledger, account, amount, staff).value;
      && next.accounts.Keys == ledger.accounts.Keys && next.charges == ledger.charges
      && var moved := next.accounts[a].balance - ledger.accounts[a].balance;
      if a == account then amount - 0.01 <= moved <= amount + 0.01 else moved == 0.0
  {
    var next := Recorded(ledger, account, amount, staff).value;
    PaidElsewhere(ledger.payments, Payment(account, amount, staff.id), |ledger.payments|, a);
    assert Paid(next.payments, |next.payments|, a) ==
      Paid(ledger.payments, |ledger.payments|, a) + if a == account then amount else 0.0;
  }

  /** Charging a tenant does not touch the accounts of others. */
  lemma GenerateLeavesOthers(data: Data, ledger: Ledger, tenant: nat, period: nat, a: nat)
    requires Generated(data, ledger, tenant, period).Ok? && !(a < |data.units| && data.units[a].tenant == tenant)
    ensures var next := Generated(data, ledger, tenant, period).value.ledger;
      && (a in next.accounts <==> a in ledger.accounts)
      && (a in ledger.accounts ==> next.accounts[a] == ledger.accounts[a])
      && Charged(next.charges, |next.charges|, a) == Charged(ledger.charges, |ledger.charges|, a)
  {
    var units := UnitsOf(data.units, |data.units|, tenant);
    ChargingGrows(data, ledger.charges, tenant, period);
    AmongIsIn(units, |units|, a);
    assert units[..|units|] == units;
    UnaffectedKeepTheirSum(data, period, ledger.charges, Charging(data, ledger.charges, tenant, period), a);
  }

  lemma OpeningKeepsConsistent(ledger: Ledger, unit: nat, tenant: nat)
    requires Consistent(ledger)
    ensures Consistent(WithAccount(ledger, unit, tenant))
  {
    if unit !in ledger.accounts {
      NothingCharged(ledger.charges, ledger.payments, unit);
    }
  }

  datatype Op =
    | Generate(data: Data, tenant: nat, period: nat)
    | Pay(account: nat, amount: real, staff: User)
    | OpenAccount(unit: nat, tenant: nat)

  datatype Ops = Start | Then(before: Ops, op: Op)

  function After(data: Data, ledger: Ledger, tenant: nat, period: nat): Ledger {
    match Generated(data, ledger, tenant, period)
    case Ok(out) => out.ledger
    case Err(_) => ledger
  }

  /** Units, tariffs and readings may change in any way between two calls. */
  function Run(ops: Ops): Ledger {
    if ops == Start then Ledger(map[], [], [])
    else
      var ledger := Run(ops.before);
      match ops.op
      case Generate(data, tenant, period) => After(data, ledger, tenant, period)
      case Pay(account, amount, staff) =>
        (match Recorded(ledger, account, amount, staff)
         case Ok(next) => next
         case Err(_) => ledger)
      case OpenAccount(unit, tenant) => WithAccount(ledger, unit, tenant)
  }

  /** In every reachable state every stored balance is exact, though each call recomputes only some. */
  lemma {:induction false} EveryRunIsConsistent(ops: Ops)
    ensures Consistent(Run(ops))
  {
    if ops.Then? {
      EveryRunIsConsistent(ops.before);
      var ledger := Run(ops.before);
      match ops.op
      case Generate(data, tenant, period) =>
        if Generated(data, ledger, tenant, period).Ok? {
          GenerateKeepsConsistent(data, ledger, tenant, period);
        }
      case Pay(account, amount, staff) =>
        if Recorded(ledger, account, amount, staff).Ok? {
          PaymentKeepsConsistent(ledger, account, amount, staff);
        }
      case OpenAccount(unit, tenant) => OpeningKeepsConsistent(ledger, unit, tenant);
    }
  }

  // ---------------------------------------------------------------- what an account shows

  /** What was charged to an account, added up from the first charge on. */
  function SumOfCharges(charges: seq<Charge>, account: nat): real {
    if charges == [] then 0.0
    else (if charges[0].account == account then charges[0].amount else 0.0) + SumOfCharges(charges[1..], account)
  }

  /** What was paid into an account, likewise. */
  function SumOfPayments(payments: seq<Payment>, account: nat): real {
    if payments == [] then 0.0
    else (if payments[0].account == account then payments[0].amount else 0.0) + SumOfPayments(payments[1..], account)
  }

  lemma {:induction false} ChargesSplit(a: seq<Charge>, b: seq<Charge>, account: nat)
    ensures SumOfCharges(a + b, account) == SumOfCharges(a, account) + SumOfCharges(b, account)
  {
    if a == [] {
      assert a + b == b;
    } else {
      assert (a + b)[1..] == a[1..] + b;
      ChargesSplit(a[1..], b, account);
    }
  }

  lemma {:induction false} ChargedIsSum(charges: seq<Charge>, n: nat, account: nat)
    requires n <= |charges|
    ensures Charged(charges, n, account) == SumOfCharges(charges[..n], account)
  {
    if n > 0 {
      ChargedIsSum(charges, n - 1, account);
      assert charges[..n] == charges[..n - 1] + [charges[n - 1]];
      ChargesSplit(charges[..n - 1], [charges[n - 1]], account);
    }
  }

  lemma {:induction false} PaymentsSplit(a: seq<Payment>, b: seq<Payment>, account: nat)
    ensures SumOfPayments(a + b, account) == SumOfPayments(a, account) + SumOfPayments(b, account)
  {
    if a == [] {
      assert a + b == b;
    } else {
      assert (a + b)[1..] == a[1..] + b;
      PaymentsSplit(a[1..], b, account);
    }
  }

  lemma {:induction false} PaidIsSum(payments: seq<Payment>, n: nat, account: nat)
    requires n <= |payments|
    ensures Paid(payments, n, account) == SumOfPayments(payments[..n], account)
  {
    if n > 0 {
      PaidIsSum(payments, n - 1, account);
      assert payments[..n] == payments[..n - 1] + [payments[n - 1]];
      PaymentsSplit(payments[..n - 1], [payments[n - 1]], account);
    }
  }

  lemma BalanceIsNear(charges: seq<Charge>, payments: seq<Payment>, account: nat)
    ensures var net := SumOfPayments(payments, account) - SumOfCharges(charges, account);
      net - 0.005 < Balance(charges, payments, account) <= net + 0.005
  {
    ChargedIsSum(charges, |charges|, account);
    PaidIsSum(payments, |payments|, account);
    assert charges[..|charges|] == charges && payments[..|payments|] == payments;
  }

  /** In every reachable state an account shows what was paid into it less what was charged to it, to half a
      cent; so a charge lowers it and a payment raises it. */
  lemma EveryBalanceIsPaidLessCharged(ops: Ops, account: nat)
    requires account in Run(ops).accounts
    ensures var ledger := Run(ops);
      var net := SumOfPayments(ledger.payments, account) - SumOfCharges(ledger.charges, account);
      net - 0.005 < ledger.accounts[account].balance <= net + 0.005
  {
    EveryRunIsConsistent(ops);
    BalanceIsNear(Run(ops).charges, Run(ops).payments, account);
  }

  /** Charging lowers every account by what it adds for it, to a cent; an account it opens begins with minus
      that, to half a cent. No payment is touched. */
  lemma GenerateLowersBalance(data: Data, ledger: Ledger, tenant: nat, period: nat, account: nat)
    requires Consistent(ledger) && Generated(data, ledger, tenant, period).Ok?
    requires account in Generated(data, ledger, tenant, period).value.ledger.accounts
    ensures var next := Generated(data, ledger, tenant, period).value.ledger;
      && next.payments == ledger.payments && ledger.charges <= next.charges
      && var added := SumOfCharges(next.charges[|ledger.charges|..], account);
         if account in ledger.accounts
         then -added - 0.01 <= next.accounts[account].balance - ledger.accounts[account].balance <= -added + 0.01
         else -added - 0.005 <= next.accounts[account].balance <= -added + 0.005
  {
    GenerateKeepsConsistent(data, ledger, tenant, period);
    ChargingGrows(data, ledger.charges, tenant, period);
    if account !in ledger.accounts {
      NothingSummed(ledger, account);
    }
    ChargesLower(ledger, Generated(data, ledger, tenant, period).value.ledger, account);
  }

  lemma ChargesLower(ledger: Ledger, next: Ledger, account: nat)
    requires next.payments == ledger.payments && ledger.charges <= next.charges && account in next.accounts
    requires next.accounts[account].balance == Balance(next.charges, next.payments, account)
    requires if account in ledger.accounts
      then ledger.accounts[account].balance == Balance(ledger.charges, ledger.payments, account)
      else SumOfCharges(ledger.charges, account) == 0.0 && SumOfPayments(ledger.payments, account) == 0.0
    ensures var added := SumOfCharges(next.charges[|ledger.charges|..], account);
      if account in ledger.accounts
      then -added - 0.01 <= next.accounts[account].balance - ledger.accounts[account].balance <= -added + 0.01
      else -added - 0.005 <= next.accounts[account].balance <= -added + 0.005
  {
    assert next.charges == ledger.charges + next.charges[|ledger.charges|..];
    ChargesSplit(ledger.charges, next.charges[|ledger.charges|..], account);
    BalanceIsNear(next.charges, next.payments, account);
    if account in ledger.accounts {
      BalanceIsNear(ledger.charges, ledger.payments, account);
    }
  }

  lemma NothingSummed(ledger: Ledger, account: nat)
    requires Consistent(ledger) && account !in ledger.accounts
    ensures SumOfCharges(ledger.charges, account) == 0.0 && SumOfPayments(ledger.payments, account) == 0.0
  {
    NoCharges(ledger.charges, account);
    NoPayments(ledger.payments, account);
  }

  lemma {:induction false} NoCharges(charges: seq<Charge>, account: nat)
    requires forall k :: 0 <= k < |charges| ==> charges[k].account != account
    ensures SumOfCharges(charges, account) == 0.0
  {
    if charges != [] { NoCharges(charges[1..], account); }
  }

  lemma {:induction false} NoPayments(payments: seq<Payment>, account: nat)
    requires forall k :: 0 <= k < |payments| ==> payments[k].account != account
    ensures SumOfPayments(payments, account) == 0.0
  {
    if payments != [] { NoPayments(payments[1..], account); }
  }

  /** Charging succeeds exactly if the tenant has an active tariff. */
  lemma GeneratesIff(data: Data, ledger: Ledger, tenant: nat, period: nat)
    ensures Generated(data, ledger, tenant, period).Ok? <==>
      exists t :: 0 <= t < |data.tariffs| && data.tariffs[t].isActive && data.tariffs[t].tenant == tenant
    ensures Generated(data, ledger, tenant, period).Err? ==>
      Generated(data, ledger, tenant, period).error == NoActiveTariffs
  {
    var tariffs := ActiveTariffs(data.tariffs, |data.tariffs|, tenant);
    if exists t :: 0 <= t < |data.tariffs| && data.tariffs[t].isActive && data.tariffs[t].tenant == tenant {
      var t :| 0 <= t < |data.tariffs| && data.tariffs[t].isActive && data.tariffs[t].tenant == tenant;
      assert t in tariffs;
    }
    if tariffs != [] {
      assert tariffs[0] in tariffs;
    }
  }

  /** After charging exactly the accounts there were and those of the tenant's units exist; each new one is the
      tenant's, the others are whose they were. */
  lemma GenerateOpens(data: Data, ledger: Ledger, tenant: nat, period: nat, account: nat)
    requires Generated(data, ledger, tenant, period).Ok?
    ensures var accounts := Generated(data, ledger, tenant, period).value.ledger.accounts;
      && (account in accounts <==>
            account in ledger.accounts || (account < |data.units| && data.units[account].tenant == tenant))
      && (account in accounts ==>
            accounts[account].tenant
              == if account in ledger.accounts then ledger.accounts[account].tenant else tenant)
  {
    var units := UnitsOf(data.units, |data.units|, tenant);
    AmongIsIn(units, |units|, account);
    assert units[..|units|] == units;
    OpenedOfTenant(data, ledger.accounts, units, |units|, tenant);
  }

  lemma {:induction false} OpenedOfTenant(
      data: Data, accounts: map<nat, Account>, units: seq<nat>, n: nat, tenant: nat)
    requires n <= |units| && Within(units, |data.units|)
    requires forall u :: u in units ==> data.units[u].tenant == tenant
    ensures forall a :: a in Opened(data, accounts, units, n) && a !in accounts ==>
      Opened(data, accounts, units, n)[a].tenant == tenant
  {
    if n > 0 {
      OpenedOfTenant(data, accounts, units, n - 1, tenant);
      assert units[n - 1] in units;
    }
  }

  /** A payment is recorded exactly by a superadmin or staff of the account's tenant; it is the one payment
      more, and the account's tenant stays. */
  lemma RecordsIff(ledger: Ledger, account: nat, amount: real, staff: User)
    ensures var r := Recorded(ledger, account, amount, staff);
      && (r.Ok? <==>
            account in ledger.accounts
            && (staff.role == Superadmin || staff.tenant == Some(ledger.accounts[account].tenant)))
      && (r.Ok? ==>
            && r.value.payments == ledger.payments + [Payment(account, amount, staff.id)]
            && r.value.accounts[account].tenant == ledger.accounts[account].tenant)
      && (r.Err? ==> r.error == if account in ledger.accounts then WrongTenant else AccountNotFound)
  {
  }

  /** Opening leaves an account that exists as it is, and opens any other at zero. */
  lemma OpensAtZero(ledger: Ledger, unit: nat, tenant: nat)
    ensures var next := WithAccount(ledger, unit, tenant);
      && next.charges == ledger.charges && next.payments == ledger.payments
      && next.accounts.Keys == ledger.accounts.Keys + {unit}
      && (unit !in ledger.accounts ==> next.accounts[unit] == Account(tenant, 0.0))
      && forall a :: a in ledger.accounts ==> next.accounts[a] == ledger.accounts[a]
  {
  }

  /** Whoever pays exactly the debt an account shows, in whatever state, brings it to exactly zero. */
  lemma PayingDebtClears(ops: Ops, account: nat, staff: User)
    requires account in Run(ops).accounts
    requires staff.role == Superadmin || staff.tenant == Some(Run(ops).accounts[account].tenant)
    ensures var pay := Pay(account, -Run(ops).accounts[account].balance, staff);
      account in Run(Then(ops, pay)).accounts && Run(Then(ops, pay)).accounts[account].balance == 0.0
  {
    EveryRunIsConsistent(ops);
    RecordsIff(Run(ops), account, -Run(ops).accounts[account].balance, staff);
    DebtIsCleared(Run(ops), account, staff);
  }

  lemma DebtIsCleared(ledger: Ledger, account: nat, staff: User)
    requires account in ledger.accounts
    requires ledger.accounts[account].balance == Balance(ledger.charges, ledger.payments, account)
    requires Recorded(ledger, account, -ledger.accounts[account].balance, staff).Ok?
    ensures Recorded(ledger, account, -ledger.accounts[account].balance, staff).value.accounts[account].balance == 0.0
  {
    var payment := Payment(account, -ledger.accounts[account].balance, staff.id);
    PaidElsewhere(ledger.payments, payment, |ledger.payments|, account);
    RestIsNothing(Paid(ledger.payments, |ledger.payments|, account)
                  - Charged(ledger.charges, |ledger.charges|, account));
  }

  lemma RestIsNothing(net: real)
    ensures C.Cents(net - C.Cents(net)) == 0.0
  {
    assert Round((net - C.Cents(net)) * 100.0) == 0;
  }

  /** After charging a period, in whatever state, every unit has one charge for every active tariff of the tenant
      that asks for something, and none twice. */
  lemma ChargedPeriodIsCharged(ops: Ops, data: Data, tenant: nat, period: nat, u: nat, t: nat)
    requires InScope(data, tenant, u, t) && Amount(data, u, t, period).Some?
    ensures var charges := Run(Then(ops, Generate(data, tenant, period))).charges;
      Has(charges, u, t, period) && ChargedOnce(charges)
  {
    EveryRunIsConsistent(Then(ops, Generate(data, tenant, period)));
    assert data.tariffs[t].isActive && data.tariffs[t].tenant == tenant;
    GeneratesIff(data, Run(ops), tenant, period);
    GenerateChargesExactly(data, Run(ops), tenant, period, u, t, period);
  }

  // ---------------------------------------------------------------- what a tariff asks for

  predicate IsMeterOf(m: M.Meter, unit: nat, kind: M.Kind) {
    m.unit == unit && m.kind == kind && m.isActive
  }

  /** A verified reading of a meter in a period. */
  predicate IsReading(r: M.Reading, meter: nat, period: nat) {
    r.meter == meter && r.period == period && r.status == M.Verified
  }

  predicate IsEarlier(r: M.Reading, meter: nat, period: nat) {
    r.meter == meter && r.period < period && r.status == M.Verified
  }

  /** The value a period is counted from: that of a latest verified reading before it, or the initial value
      where there is none. */
  predicate IsBase(db: M.Db, meter: nat, period: nat, base: real)
    requires meter < |db.meters|
  {
    if forall i :: 0 <= i < |db.readings| ==> !IsEarlier(db.readings[i], meter, period)
    then base == db.meters[meter].initial
    else exists i ::
      && 0 <= i < |db.readings| && IsEarlier(db.readings[i], meter, period) && base == db.readings[i].value
      && forall j :: 0 <= j < |db.readings| && IsEarlier(db.readings[j], meter, period) ==>
           db.readings[j].period <= db.readings[i].period
  }

  /** A flat tariff asks for its rate and a tariff by area for rate times area, to half a cent, always; a tariff
      without a kind of meter asks for nothing. */
  lemma AmountIsRate(data: Data, unit: nat, tariff: nat, period: nat)
    requires unit < |data.units| && tariff < |data.tariffs|
    ensures var (t, amount) := (data.tariffs[tariff], Amount(data, unit, tariff, period));
      match t.calculation
      case Flat => amount == Some(t.rate)
      case PerArea =>
        && amount.Some?
        && t.rate * data.units[unit].area - 0.005 < amount.value <= t.rate * data.units[unit].area + 0.005
      case PerConsumption(kind) => kind == None ==> amount == None
  {
  }

  lemma MeteredIff(data: Data, unit: nat, tariff: nat, period: nat, kind: M.Kind)
    requires unit < |data.units| && tariff < |data.tariffs|
    requires data.tariffs[tariff].calculation == PerConsumption(Some(kind))
    ensures Amount(data, unit, tariff, period).Some? <==>
      exists m: nat, r: nat :: IsMetered(data.metering, unit, kind, period, m, r)
    ensures Amount(data, unit, tariff, period).Some? ==>
      var m := FirstMeter(data.metering.meters, |data.metering.meters|, unit, kind);
      && m.Some? && C.Verified(data.metering, m.value, period).Some?
      && IsMetered(data.metering, unit, kind, period, m.value, C.Verified(data.metering, m.value, period).value)
  {
    var db := data.metering;
    var first := FirstMeter(db.meters, |db.meters|, unit, kind);
    if exists m: nat, r: nat :: IsMetered(db, unit, kind, period, m, r) {
      var m: nat, r: nat :| IsMetered(db, unit, kind, period, m, r);
      assert Measures(db.meters[m], unit, kind);
      assert first == Some(m);
      assert M.At(db.readings[r], m, period, Some(M.Verified));
    }
    if Amount(data, unit, tariff, period).Some? {
      assert IsMetered(db, unit, kind, period, first.value, C.Verified(db, first.value, period).value);
    }
  }

  lemma BillIsPrice(db: M.Db, meter: nat, rate: real, period: nat)
    requires meter < |db.meters| && C.Verified(db, meter, period).Some?
    ensures IsPrice(C.Bill(db, meter, rate, period), rate,
                    db.readings[C.Verified(db, meter, period).value].value - C.Before(db, meter, period))
  {
    assert rate * 0.0 == 0.0;
  }

  /** A tariff by consumption asks for something exactly if the unit has an active meter of its kind and the
      first one has a verified reading in the period; then for rate times consumption, to half a cent. */
  lemma AmountIsConsumption(data: Data, unit: nat, tariff: nat, period: nat, kind: M.Kind)
    requires unit < |data.units| && tariff < |data.tariffs|
    requires data.tariffs[tariff].calculation == PerConsumption(Some(kind))
    ensures var (db, amount) := (data.metering, Amount(data, unit, tariff, period));
      && (amount.Some? <==> exists m: nat, r: nat :: IsMetered(db, unit, kind, period, m, r))
      && (amount.Some? ==> exists m: nat, r: nat, base ::
            && IsMetered(db, unit, kind, period, m, r) && IsBase(db, m, period, base)
            && IsPrice(amount.value, data.tariffs[tariff].rate, db.readings[r].value - base))
  {
    var db := data.metering;
    MeteredIff(data, unit, tariff, period, kind);
    if Amount(data, unit, tariff, period).Some? {
      var m := FirstMeter(db.meters, |db.meters|, unit, kind).value;
      BeforeIsBase(db, m, period);
      BillIsPrice(db, m, data.tariffs[tariff].rate, period);
    }
  }

  /** The first active meter of a kind, and a verified reading of it in a period. */
  predicate IsMetered(db: M.Db, unit: nat, kind: M.Kind, period: nat, meter: nat, reading: nat) {
    && meter < |db.meters| && IsMeterOf(db.meters[meter], unit, kind)
    && (forall i :: 0 <= i < meter ==> !IsMeterOf(db.meters[i], unit, kind))
    && reading < |db.readings| && IsReading(db.readings[reading], meter, period)
  }

  /** The price of what was consumed, to half a cent; a reading that fell consumed nothing. */
  predicate IsPrice(amount: real, rate: real, consumed: real) {
    if consumed > 0.0 then rate * consumed - 0.005 < amount <= rate * consumed + 0.005
    else -0.005 < amount <= 0.005
  }

  lemma BeforeIsBase(db: M.Db, meter: nat, period: nat)
    requires meter < |db.meters|
    ensures IsBase(db, meter, period, C.Before(db, meter, period))
  {
    var last := M.LatestVerified(db.readings, meter, Some(period));
    if last.Some? {
      assert IsEarlier(db.readings[last.value], meter, period);
      forall j | 0 <= j < |db.readings| && IsEarlier(db.readings[j], meter, period)
        ensures db.readings[j].period <= db.readings[last.value].period
      {
        assert M.Eligible(db.readings[j], meter, Some(period));
      }
    } else {
      forall j | 0 <= j < |db.readings| ensures !IsEarlier(db.readings[j], meter, period) {
        assert !M.Eligible(db.readings[j], meter, Some(period));
      }
    }
  }

  // ---------------------------------------------------------------- from readings to charges

  predicate SameData(ops: Ops, data: Data) {
    ops.Then? ==> SameData(ops.before, data) && (ops.op.Generate? ==> ops.op.data == data)
  }

  predicate AllCorrect(data: Data, charges: seq<Charge>) {
    forall k :: 0 <= k < |charges| ==> Correct(data, charges[k].period, charges[k])
  }

  lemma GenerateKeepsCorrect(data: Data, ledger: Ledger, tenant: nat, period: nat)
    requires AllCorrect(data, ledger.charges) && Generated(data, ledger, tenant, period).Ok?
    ensures AllCorrect(data, Generated(data, ledger, tenant, period).value.ledger.charges)
  {
    ChargingGrows(data, ledger.charges, tenant, period);
    var p := Charging(data, ledger.charges, tenant, period);
    forall k | 0 <= k < |p.charges| ensures Correct(data, p.charges[k].period, p.charges[k]) {
      if k < |ledger.charges| {
        assert p.charges[k] == p.charges[..|ledger.charges|][k];
      }
    }
  }

  /** While the data stays the same, every charge ever made has the amount it would have now. */
  lemma {:induction false} EveryChargeIsCorrect(ops: Ops, data: Data)
    requires SameData(ops, data)
    ensures AllCorrect(data, Run(ops).charges)
  {
    if ops.Then? {
      EveryChargeIsCorrect(ops.before, data);
      var ledger := Run(ops.before);
      if ops.op.Generate? && Generated(data, ledger, ops.op.tenant, ops.op.period).Ok? {
        GenerateKeepsCorrect(data, ledger, ops.op.tenant, ops.op.period);
      }
    }
  }

  /** Everything one tariff ever charged one account. */
  function ChargedBy(charges: seq<Charge>, n: nat, unit: nat, tariff: nat): real
    requires n <= |charges|
  {
    if n == 0 then 0.0
    else
      ChargedBy(charges, n - 1, unit, tariff)
      + if charges[n - 1].account == unit && charges[n - 1].tariff == tariff then charges[n - 1].amount else 0.0
  }

  /** Whether one of the first `n` charges is for this unit, tariff and period. */
  predicate HasIn(charges: seq<Charge>, n: nat, unit: nat, tariff: nat, period: nat)
    requires n <= |charges|
  {
    n > 0 && (IsFor(charges[n - 1], unit, tariff, period) || HasIn(charges, n - 1, unit, tariff, period))
  }

  lemma {:induction false} HasInIsHas(charges: seq<Charge>, n: nat, unit: nat, tariff: nat, period: nat)
    requires n <= |charges|
    ensures HasIn(charges, n, unit, tariff, period) <==>
      exists i :: 0 <= i < n && IsFor(charges[i], unit, tariff, period)
  {
    if n > 0 {
      HasInIsHas(charges, n - 1, unit, tariff, period);
    }
  }

  /** The bills of one meter over the periods before `months` that are among the first `n` charges. */
  function BilledIn(charges: seq<Charge>, n: nat, u: nat, t: nat, db: M.Db, meter: nat, rate: real, months: nat): real
    requires n <= |charges| && meter < |db.meters|
  {
    if months == 0 then 0.0
    else
      BilledIn(charges, n, u, t, db, meter, rate, months - 1)
      + if HasIn(charges, n, u, t, months - 1) then C.Bill(db, meter, rate, months - 1) else 0.0
  }

  /** One more charge adds its own period's bill, if it is for the unit and tariff and new to them. */
  lemma {:induction false} BilledInGrows(
    charges: seq<Charge>, n: nat, u: nat, t: nat, db: M.Db, meter: nat, rate: real, months: nat)
    requires 0 < n <= |charges| && meter < |db.meters|
    requires var c := charges[n - 1]; !HasIn(charges, n - 1, c.account, c.tariff, c.period)
    ensures var c := charges[n - 1];
      BilledIn(charges, n, u, t, db, meter, rate, months) == BilledIn(charges, n - 1, u, t, db, meter, rate, months)
        + if c.account == u && c.tariff == t && c.period < months then C.Bill(db, meter, rate, c.period) else 0.0
  {
    if months > 0 {
      BilledInGrows(charges, n, u, t, db, meter, rate, months - 1);
    }
  }

  /** A unit of the data, its consumption tariff, and the meter that tariff reads. */
  predicate Metered(data: Data, u: nat, t: nat, kind: M.Kind, meter: nat) {
    && u < |data.units| && t < |data.tariffs| && data.tariffs[t].calculation == PerConsumption(Some(kind))
    && FirstMeter(data.metering.meters, |data.metering.meters|, u, kind) == Some(meter)
  }

  lemma AmountIsBill(data: Data, c: Charge, u: nat, t: nat, kind: M.Kind, meter: nat)
    requires Metered(data, u, t, kind, meter) && c.account == u && c.tariff == t && Correct(data, c.period, c)
    ensures c.amount == C.Bill(data.metering, meter, data.tariffs[t].rate, c.period)
  {
  }

  /** Correct charges, none made twice, add up to the bills of the periods charged, in whatever order. */
  lemma {:induction false} ChargesAreBills(
    data: Data, charges: seq<Charge>, n: nat, u: nat, t: nat, kind: M.Kind, meter: nat, months: nat)
    requires n <= |charges| && Metered(data, u, t, kind, meter) && AllCorrect(data, charges) && ChargedOnce(charges)
    requires forall k :: 0 <= k < |charges| ==> charges[k].period < months
    ensures ChargedBy(charges, n, u, t) ==
      BilledIn(charges, n, u, t, data.metering, meter, data.tariffs[t].rate, months)
  {
    var rate := data.tariffs[t].rate;
    if n == 0 {
      NoneBilled(charges, u, t, data.metering, meter, rate, months);
    } else {
      var c := charges[n - 1];
      ChargesAreBills(data, charges, n - 1, u, t, kind, meter, months);
      HasInIsHas(charges, n - 1, c.account, c.tariff, c.period);
      BilledInGrows(charges, n, u, t, data.metering, meter, rate, months);
      if c.account == u && c.tariff == t {
        AmountIsBill(data, c, u, t, kind, meter);
      }
    }
  }

  lemma {:induction false} NoneBilled(
      charges: seq<Charge>, u: nat, t: nat, db: M.Db, meter: nat, rate: real, months: nat)
    requires meter < |db.meters|
    ensures BilledIn(charges, 0, u, t, db, meter, rate, months) == 0.0
  {
    if months > 0 {
      NoneBilled(charges, u, t, db, meter, rate, months - 1);
    }
  }

  /** Every period with a verified reading was charged. */
  predicate Complete(charges: seq<Charge>, u: nat, t: nat, db: M.Db, meter: nat, months: nat) {
    forall p: nat :: p < months && C.Verified(db, meter, p).Some? ==> Has(charges, u, t, p)
  }

  lemma {:induction false} CompleteIsBilled(
    charges: seq<Charge>, u: nat, t: nat, db: M.Db, meter: nat, rate: real, months: nat)
    requires meter < |db.meters| && Complete(charges, u, t, db, meter, months)
    ensures BilledIn(charges, |charges|, u, t, db, meter, rate, months) == C.Billed(db, meter, rate, months)
  {
    if months > 0 {
      CompleteIsBilled(charges, u, t, db, meter, rate, months - 1);
      HasInIsHas(charges, |charges|, u, t, months - 1);
    }
  }

  /** From the meter to the account. Readings were submitted and reviewed in order; then charges were
      generated in any order of periods, any number of times, with payments in between, until every
      verified reading was charged. The tariff has then charged the unit the price of (last reading -
      initial value), within half a cent for each reading. */
  lemma {:induction false} ReadingsToCharges(
    data: Data, ops: Ops, u: nat, t: nat, kind: M.Kind, meter: nat, months: nat, meters: seq<M.Meter>, readings: M.Ops)
    requires SameData(ops, data) && Metered(data, u, t, kind, meter)
    requires M.OrderlyRun(meters, readings) && data.metering == M.Run(meters, readings)
    requires Complete(Run(ops).charges, u, t, data.metering, meter, months)
    requires forall k :: 0 <= k < |Run(ops).charges| ==> Run(ops).charges[k].period < months
    ensures C.Near(ChargedBy(Run(ops).charges, |Run(ops).charges|, u, t), data.tariffs[t].rate,
                   C.Before(data.metering, meter, months) - data.metering.meters[meter].initial,
                   C.Bills(data.metering, meter, months))
  {
    var charges := Run(ops).charges;
    EveryRunIsConsistent(ops);
    EveryChargeIsCorrect(ops, data);
    ChargesAreBills(data, charges, |charges|, u, t, kind, meter, months);
    CompleteIsBilled(charges, u, t, data.metering, meter, data.tariffs[t].rate, months);
    PriceOfReadings(data.metering, meter, data.tariffs[t].rate, months, meters, readings);
  }

  lemma PriceOfReadings(db: M.Db, meter: nat, rate: real, months: nat, meters: seq<M.Meter>, readings: M.Ops)
    requires M.OrderlyRun(meters, readings) && db == M.Run(meters, readings) && meter < |db.meters|
    ensures C.Near(C.Billed(db, meter, rate, months), rate,
                   C.Before(db, meter, months) - db.meters[meter].initial, C.Bills(db, meter, months))
  {
    M.EveryRunIsUnique(meters, readings);
    C.OrderlyRunBills(meters, readings, meter, rate, months);
  }
}
