/** The SOS alert protocol: staff read an alert, decide, and later commit with a compare-and-set.
    Between the read and the commit any number of other clients may act. */
module Sos {
  import opened Prelude

  datatype Status = Active | Resolved | FalseAlarm

  datatype Alert = Alert(
    tenant: nat, triggeredBy: nat, status: Status,
    acceptedBy: Option<nat>, acceptedAt: Option<nat>,
    resolvedBy: Option<nat>, resolvedAt: Option<nat>, note: Option<string>)

  /** A shift handover note; its text is assembled from these parts. */
  datatype Note = Note(tenant: nat, author: nat, alert: nat, outcome: Status, closedAt: nat, comment: Option<string>)

  datatype Action = SosAccepted | SosResolved(status: Status, note: Option<string>)
  /** An audit entry; of the actor only the id is stored, the model keeps the user as it was. */
  datatype Entry = Entry(tenant: nat, actor: User, action: Action, alert: nat)

  /** The tables. An alert's id is its row number: alerts are never deleted. */
  datatype Db = Db(alerts: seq<Alert>, notes: seq<Note>, audit: seq<Entry>)

  datatype Error =
    | ChairmanViewOnly | ProcessForbidden | AlertNotFound | CrossTenant | AlreadyProcessed
    | TakenByOther | InvalidResolution | NoteTooLong | UpdateConflict

  const MAX_NOTE := 1600

  // ---------------------------------------------------------------- the operations

  predicate MayProcess(user: User) {
    user.role in {Security, Dispatcher, HoaAdmin, Superadmin}
  }

  /** The checks both operations make on a freshly read alert. */
  function Processable(db: Db, id: nat, user: User): Result<Alert, Error> {
    if user.role == HoaChairman then Err(ChairmanViewOnly)
    else if !MayProcess(user) then Err(ProcessForbidden)
    else if id >= |db.alerts| then Err(AlertNotFound)
    else
      var alert := db.alerts[id];
      if !BelongsToTenant(user, alert.tenant) then Err(CrossTenant)
      else if alert.status != Active then Err(AlreadyProcessed)
      else if alert.acceptedBy.Some? && alert.acceptedBy.value != user.id then Err(TakenByOther)
      else Ok(alert)
  }

  /** What a client holds between its read and its commit. */
  datatype Attempt =
    | Accepting(id: nat, user: User, seen: Alert, readAt: nat)
    | Resolving(id: nat, user: User, seen: Alert, readAt: nat, outcome: Status, note: Option<string>)

  /** `trigger`: one active alert per resident; a repeated call returns the existing one. */
  function Triggered(db: Db, resident: nat, tenant: nat): Db {
    if exists i :: 0 <= i < |db.alerts| && db.alerts[i].triggeredBy == resident && db.alerts[i].status == Active then db
    else db.(alerts := db.alerts + [Alert(tenant, resident, Active, None, None, None, None, None)])
  }

  /** The first half of `accept`. No attempt: the caller already holds the alert. */
  function BeginAccept(db: Db, id: nat, user: User, now: nat): Result<Option<Attempt>, Error> {
    match Processable(db, id, user)
    case Err(e) => Err(e)
    case Ok(alert) =>
      if alert.acceptedBy == Some(user.id) then Ok(None) else Ok(Some(Accepting(id, user, alert, now)))
  }

  /** The first half of `resolve`; `text` is the trimmed note. */
  function BeginResolve(
      db: Db, id: nat, user: User, outcome: Status, text: string, now: nat): Result<Option<Attempt>, Error> {
    match Processable(db, id, user)
    case Err(e) => Err(e)
    case Ok(alert) =>
      if outcome == Active then Err(InvalidResolution)
      else if |text| > MAX_NOTE then Err(NoteTooLong)
      else Ok(Some(Resolving(id, user, alert, now, outcome, if text == "" then None else Some(text))))
  }

  /** Does the `where` clause of the guarded update match a row? */
  predicate Matches(db: Db, a: Attempt) {
    a.id < |db.alerts| &&
    var row := db.alerts[a.id];
    && row.tenant == a.seen.tenant
    && row.status == Active
    && row.acceptedBy == (if a.Accepting? then None else a.seen.acceptedBy)
  }

  /** The transaction of `accept` or `resolve`: the guarded update and the rows written with it. */
  function Commit(db: Db, a: Attempt, stamp: nat): Result<Db, Error> {
    if !Matches(db, a) then Err(UpdateConflict)
    else
      var row := db.alerts[a.id];
      match a
      case Accepting(id, user, seen, _) => Ok(Db(
        db.alerts[id := row.(acceptedBy := Some(user.id), acceptedAt := Some(stamp))],
        db.notes,
        db.audit + [Entry(seen.tenant, user, SosAccepted, id)]))
      case Resolving(id, user, seen, _, outcome, note) => Ok(Db(
        db.alerts[id := row.(status := outcome, resolvedBy := Some(user.id), resolvedAt := Some(stamp), note := note,
                             acceptedBy := Some(user.id),
                             acceptedAt := if seen.acceptedAt.Some? then seen.acceptedAt else Some(stamp))],
        db.notes + [Note(seen.tenant, user.id, id, outcome, stamp, note)],
        db.audit + [Entry(seen.tenant, user, SosResolved(outcome, note), id)]))
  }

  /** The service object over its three tables. */
  class SosService {
    var alerts: seq<Alert>
    var notes: seq<Note>
    var audit: seq<Entry>

    function Tables(): Db
      reads this
    {
      Db(alerts, notes, audit)
    }

    constructor ()
      ensures Tables() == Db([], [], [])
    {
      alerts, notes, audit := [], [], [];
    }

    method Trigger(resident: nat, tenant: nat)
      modifies this
      ensures Tables() == Triggered(old(Tables()), resident, tenant)
    {
      for i := 0 to |alerts|
        invariant Tables() == old(Tables())
        invariant forall k :: 0 <= k < i ==> !(alerts[k].triggeredBy == resident && alerts[k].status == Active)
      {
        if alerts[i].triggeredBy == resident && alerts[i].status == Active { return; }
      }
      alerts := alerts + [Alert(tenant, resident, Active, None, None, None, None, None)];
    }

    method CommitAccept(a: Attempt, stamp: nat) returns (error: Option<Error>)
      requires a.Accepting?
      modifies this
      ensures error == None ==> Commit(old(Tables()), a, stamp) == Ok(Tables())
      ensures error.Some? ==> Commit(old(Tables()), a, stamp) == Err(error.value) && Tables() == old(Tables())
    {
      if a.id >= |alerts| { return Some(UpdateConflict); }
      var row := alerts[a.id];
      if row.tenant != a.seen.tenant || row.status != Active || row.acceptedBy != None { return Some(UpdateConflict); }
      alerts := alerts[a.id := row.(acceptedBy := Some(a.user.id), acceptedAt := Some(stamp))];
      audit := audit + [Entry(a.seen.tenant, a.user, SosAccepted, a.id)];
      return None;
    }

    method CommitResolve(a: Attempt, stamp: nat) returns (error: Option<Error>)
      requires a.Resolving?
      modifies this
      ensures error == None ==> Commit(old(Tables()), a, stamp) == Ok(Tables())
      ensures error.Some? ==> Commit(old(Tables()), a, stamp) == Err(error.value) && Tables() == old(Tables())
    {
      if a.id >= |alerts| { return Some(UpdateConflict); }
      var row := alerts[a.id];
      if row.tenant != a.seen.tenant || row.status != Active || row.acceptedBy != a.seen.acceptedBy {
        return Some(UpdateConflict);
      }
      var acceptedAt := if a.seen.acceptedAt.Some? then a.seen.acceptedAt else Some(stamp);
      alerts := alerts[a.id := row.(status := a.outcome, resolvedBy := Some(a.user.id), resolvedAt := Some(stamp),
                                    note := a.note, acceptedBy := Some(a.user.id), acceptedAt := acceptedAt)];
      notes := notes + [Note(a.seen.tenant, a.user.id, a.id, a.outcome, stamp, a.note)];
      audit := audit + [Entry(a.seen.tenant, a.user, SosResolved(a.outcome, a.note), a.id)];
      return None;
    }
  }

  // ---------------------------------------------------------------- runs

  /** The tables, a clock, and the attempts of all clients that have read but not yet committed. */
  datatype System = System(db: Db, clock: nat, attempts: map<nat, Attempt>)

  datatype Step =
    | Trigger(resident: nat, tenant: nat)
    | StartAccept(client: nat, id: nat, user: User)
    | StartResolve(client: nat, id: nat, user: User, outcome: Status, text: string)
    | Finish(client: nat, stamp: nat)  // commits with a timestamp the client took after its read
    | Tick(ms: nat)

  const Start := System(Db([], [], []), 0, map[])

  function Held(s: System, client: nat, r: Result<Option<Attempt>, Error>): System {
    match r
    case Ok(Some(a)) => s.(attempts := s.attempts[client := a])
    case _ => s
  }

  function Next(s: System, step: Step): System {
    match step
    case Trigger(resident, tenant) => s.(db := Triggered(s.db, resident, tenant))
    case StartAccept(client, id, user) => Held(s, client, BeginAccept(s.db, id, user, s.clock))
    case StartResolve(client, id, user, outcome, text) =>
      Held(s, client, BeginResolve(s.db, id, user, outcome, text, s.clock))
    case Finish(client, stamp) =>
      if client in s.attempts && s.attempts[client].readAt <= stamp <= s.clock then
        match Commit(s.db, s.attempts[client], stamp)
        case Ok(db) => s.(db := db, attempts := s.attempts - {client})
        case Err(_) => s.(attempts := s.attempts - {client})
      else s
    case Tick(ms) => s.(clock := s.clock + ms)
  }

  function Run(s: System, steps: seq<Step>): System {
    if steps == [] then s else Next(Run(s, steps[..|steps| - 1]), steps[|steps| - 1])
  }

  // ---------------------------------------------------------------- what every run keeps

  function Accepts(audit: seq<Entry>, id: nat): nat {
    if audit == [] then 0
    else
      var last := audit[|audit| - 1];
      Accepts(audit[..|audit| - 1], id) + if last.alert == id && last.action.SosAccepted? then 1 else 0
  }

  function Closings(audit: seq<Entry>, id: nat): nat {
    if audit == [] then 0
    else
      var last := audit[|audit| - 1];
      Closings(audit[..|audit| - 1], id) + if last.alert == id && last.action.SosResolved? then 1 else 0
  }

  function Handovers(notes: seq<Note>, id: nat): nat {
    if notes == [] then 0
    else Handovers(notes[..|notes| - 1], id) + if notes[|notes| - 1].alert == id then 1 else 0
  }

  /** The paper trail of alert `id` agrees with its row. */
  ghost predicate Consistent(db: Db, id: nat)
    requires id < |db.alerts|
  {
    var a := db.alerts[id];
    && (a.acceptedBy.Some? <==> a.acceptedAt.Some?)
    && (if a.status == Active then
          && a.resolvedBy == None && a.resolvedAt == None
          && Accepts(db.audit, id) == (if a.acceptedBy.Some? then 1 else 0)
          && Closings(db.audit, id) == 0 && Handovers(db.notes, id) == 0
        else
          && a.resolvedBy.Some? && a.acceptedBy == a.resolvedBy
          && a.resolvedAt.Some? && a.acceptedAt.value <= a.resolvedAt.value
          && Accepts(db.audit, id) <= 1
          && Closings(db.audit, id) == 1 && Handovers(db.notes, id) == 1)
  }

  /** Every audit entry names the alert's acceptor, who was entitled to process it; every closing
      entry and every note repeats what the alert's row says. */
  ghost predicate Signed(db: Db) {
    && (forall e :: e in db.audit ==>
          SignedBy(db, e))
    && (forall n :: n in db.notes ==>
          && n.alert < |db.alerts| && db.alerts[n.alert].resolvedBy == Some(n.author)
          && db.alerts[n.alert].status == n.outcome && db.alerts[n.alert].resolvedAt == Some(n.closedAt)
          && db.alerts[n.alert].note == n.comment)
  }

  predicate SignedBy(db: Db, e: Entry) {
    && e.alert < |db.alerts|
    && db.alerts[e.alert].acceptedBy == Some(e.actor.id) && db.alerts[e.alert].tenant == e.tenant
    && MayProcess(e.actor) && BelongsToTenant(e.actor, e.tenant)
    && (e.action.SosResolved? ==> e.action.status != Active)
    && (e.action.SosResolved? ==>
      db.alerts[e.alert].status == e.action.status && db.alerts[e.alert].note == e.action.note)
  }

  /** How an alert may change over time: once closed never again, once taken by one person only. */
  predicate Evolves(before: Alert, after: Alert) {
    && after.tenant == before.tenant && after.triggeredBy == before.triggeredBy
    && (before.status != Active ==> after == before)
    && (before.acceptedBy.Some? ==> after.acceptedBy == before.acceptedBy && after.acceptedAt == before.acceptedAt)
    && (after.status == Active && after.acceptedBy == before.acceptedBy ==> after == before)
  }

  predicate DbEvolves(before: Db, after: Db) {
    && |before.alerts| <= |after.alerts|
    && (forall i :: 0 <= i < |before.alerts| ==> Evolves(before.alerts[i], after.alerts[i]))
    && before.audit <= after.audit && before.notes <= after.notes
  }

  ghost predicate AttemptOk(s: System, a: Attempt) {
    && a.readAt <= s.clock
    && a.id < |s.db.alerts|
    && Evolves(a.seen, s.db.alerts[a.id])
    && Processable(Db(s.db.alerts[a.id := a.seen], [], []), a.id, a.user) == Ok(a.seen)
    && (a.seen.acceptedBy.Some? <==> a.seen.acceptedAt.Some?)
    && (a.seen.acceptedAt.Some? ==> a.seen.acceptedAt.value <= a.readAt)
    && a.seen.resolvedBy == None && a.seen.resolvedAt == None
    && (a.Accepting? ==> a.seen.acceptedBy == None)
    && (a.Resolving? ==> a.outcome != Active)
  }

  ghost predicate Inv(s: System) {
    && (forall i :: 0 <= i < |s.db.alerts| ==> Consistent(s.db, i))
    && (forall i :: 0 <= i < |s.db.alerts| ==>
          (s.db.alerts[i].acceptedAt.Some? ==> s.db.alerts[i].acceptedAt.value <= s.clock))
    && Signed(s.db)
    && (forall c :: c in s.attempts ==> AttemptOk(s, s.attempts[c]))
  }

  lemma TrailOfNewAlert(db: Db)
    requires Signed(db)
    ensures Accepts(db.audit, |db.alerts|) == 0 && Closings(db.audit, |db.alerts|) == 0
    ensures Handovers(db.notes, |db.alerts|) == 0
  {
    NoEntries(db.audit, |db.alerts|);
    NoNotes(db.notes, |db.alerts|);
  }

  lemma {:induction false} NoEntries(audit: seq<Entry>, id: nat)
    requires forall e :: e in audit ==> e.alert != id
    ensures Accepts(audit, id) == 0 && Closings(audit, id) == 0
  {
    if audit != [] { NoEntries(audit[..|audit| - 1], id); }
  }

  lemma {:induction false} NoNotes(notes: seq<Note>, id: nat)
    requires forall n :: n in notes ==> n.alert != id
    ensures Handovers(notes, id) == 0
  {
    if notes != [] { NoNotes(notes[..|notes| - 1], id); }
  }

  lemma CommitKeepsConsistent(s: System, a: Attempt, stamp: nat)
    requires Inv(s) && AttemptOk(s, a) && a.readAt <= stamp && Matches(s.db, a)
    ensures var db' := Commit(s.db, a, stamp).value;
      DbEvolves(s.db, db') && forall i :: 0 <= i < |db'.alerts| ==> Consistent(db', i)
  {
    var db' := Commit(s.db, a, stamp).value;
    assert db'.audit[..|db'.audit| - 1] == s.db.audit;
    assert Consistent(s.db, a.id);
    if a.Resolving? {
      assert db'.notes[..|db'.notes| - 1] == s.db.notes;
    }
    forall i | 0 <= i < |db'.alerts| ensures Consistent(db', i) {
      assert Consistent(s.db, i);
    }
  }

  lemma CommitKeepsSigned(s: System, a: Attempt, stamp: nat)
    requires Inv(s) && AttemptOk(s, a) && Matches(s.db, a)
    ensures Signed(Commit(s.db, a, stamp).value)
  {
    var db' := Commit(s.db, a, stamp).value;
    assert Consistent(s.db, a.id);
    forall e | e in s.db.audit ensures SignedBy(db', e) {
      assert SignedBy(s.db, e);
    }
    var last := db'.audit[|s.db.audit|];
    assert SignedBy(db', last);
  }

  /** One committed transaction: only its own alert changes, and it changes lawfully. */
  lemma CommitKeepsInv(s: System, a: Attempt, stamp: nat)
    requires Inv(s) && AttemptOk(s, a) && a.readAt <= stamp <= s.clock && Matches(s.db, a)
    ensures var db' := Commit(s.db, a, stamp).value;
      DbEvolves(s.db, db') && Inv(s.(db := db'))
  {
    CommitKeepsConsistent(s, a, stamp);
    CommitKeepsSigned(s, a, stamp);
    AttemptsSurvive(s, s.(db := Commit(s.db, a, stamp).value));
  }

  lemma AttemptsSurvive(s: System, t: System)
    requires forall c :: c in s.attempts ==> AttemptOk(s, s.attempts[c])
    requires DbEvolves(s.db, t.db) && s.clock <= t.clock
    ensures forall c :: c in s.attempts ==> AttemptOk(t, s.attempts[c])
  {
  }

  lemma TriggerKeepsInv(s: System, resident: nat, tenant: nat)
    requires Inv(s)
    ensures var t := s.(db := Triggered(s.db, resident, tenant)); Inv(t) && DbEvolves(s.db, t.db)
  {
    var t := s.(db := Triggered(s.db, resident, tenant));
    TrailOfNewAlert(s.db);
    forall i | 0 <= i < |t.db.alerts| ensures Consistent(t.db, i) {
      if i < |s.db.alerts| { assert Consistent(s.db, i); }
    }
    AttemptsSurvive(s, t);
  }

  lemma HoldingKeepsInv(s: System, client: nat, a: Attempt)
    requires Inv(s) && AttemptOk(s, a)
    ensures Inv(s.(attempts := s.attempts[client := a]))
  {
    var t := s.(attempts := s.attempts[client := a]);
    forall c | c in t.attempts ensures AttemptOk(t, t.attempts[c]) {
      assert AttemptOk(s, t.attempts[c]);
    }
  }

  lemma ReadIsOk(s: System, id: nat, user: User, outcome: Status, text: string)
    requires Inv(s) && Processable(s.db, id, user).Ok?
    ensures BeginAccept(s.db, id, user, s.clock).Ok?
    ensures var r := BeginAccept(s.db, id, user, s.clock).value; r.Some? ==> AttemptOk(s, r.value)
    ensures var r := BeginResolve(s.db, id, user, outcome, text, s.clock);
      r.Ok? && r.value.Some? ==> AttemptOk(s, r.value.value)
  {
    assert Consistent(s.db, id);
    assert s.db.alerts[id := s.db.alerts[id]] == s.db.alerts;
  }

  lemma FinishKeepsInv(s: System, client: nat, stamp: nat)
    requires Inv(s) && client in s.attempts
    ensures var t := Next(s, Finish(client, stamp)); Inv(t) && DbEvolves(s.db, t.db)
  {
    var a := s.attempts[client];
    assert AttemptOk(s, a);
    ForgettingKeepsInv(s, client);
    var rest := s.(attempts := s.attempts - {client});
    if a.readAt <= stamp <= s.clock && Matches(s.db, a) {
      assert AttemptOk(rest, a);
      CommitKeepsInv(rest, a, stamp);
    }
  }

  lemma ForgettingKeepsInv(s: System, client: nat)
    requires Inv(s)
    ensures Inv(s.(attempts := s.attempts - {client}))
  {
    var t := s.(attempts := s.attempts - {client});
    forall c | c in t.attempts ensures AttemptOk(t, t.attempts[c]) {
      assert AttemptOk(s, s.attempts[c]);
    }
  }

  lemma TickKeepsInv(s: System, ms: nat)
    requires Inv(s)
    ensures Inv(s.(clock := s.clock + ms))
  {
    var t := s.(clock := s.clock + ms);
    AttemptsSurvive(s, t);
    forall i | 0 <= i < |t.db.alerts| ensures Consistent(t.db, i) {
      assert Consistent(s.db, i);
    }
  }

  lemma StepKeepsInv(s: System, step: Step)
    requires Inv(s)
    ensures Inv(Next(s, step)) && DbEvolves(s.db, Next(s, step).db)
  {
    match step
    case Trigger(resident, tenant) => TriggerKeepsInv(s, resident, tenant);
    case StartAccept(client, id, user) =>
      var r := BeginAccept(s.db, id, user, s.clock);
      if r.Ok? && r.value.Some? {
        ReadIsOk(s, id, user, Active, "");
        HoldingKeepsInv(s, client, r.value.value);
      }
    case StartResolve(client, id, user, outcome, text) =>
      var r := BeginResolve(s.db, id, user, outcome, text, s.clock);
      if r.Ok? && r.value.Some? {
        ReadIsOk(s, id, user, outcome, text);
        HoldingKeepsInv(s, client, r.value.value);
      }
    case Finish(client, stamp) => if client in s.attempts { FinishKeepsInv(s, client, stamp); }
    case Tick(ms) => TickKeepsInv(s, ms);
  }

  /** Safety over every interleaving of every set of clients. */
  lemma {:induction false} EveryRunIsConsistent(steps: seq<Step>)
    ensures Inv(Run(Start, steps))
  {
    if steps != [] {
      EveryRunIsConsistent(steps[..|steps| - 1]);
      StepKeepsInv(Run(Start, steps[..|steps| - 1]), steps[|steps| - 1]);
    }
  }

  lemma EvolvesTrans(a: Db, b: Db, c: Db)
    requires DbEvolves(a, b) && DbEvolves(b, c)
    ensures DbEvolves(a, c)
  {
    forall i | 0 <= i < |a.alerts| ensures Evolves(a.alerts[i], c.alerts[i]) {
      assert Evolves(a.alerts[i], b.alerts[i]) && Evolves(b.alerts[i], c.alerts[i]);
    }
  }

  lemma OneMoreStep(steps: seq<Step>, step: Step)
    ensures DbEvolves(Run(Start, steps).db, Run(Start, steps + [step]).db)
  {
    assert (steps + [step])[..|steps|] == steps;
    EveryRunIsConsistent(steps);
    StepKeepsInv(Run(Start, steps), step);
  }

  /** However a run goes on: a closed alert stays exactly as it was, an acceptor is never replaced,
      and the audit log and the notes only grow. So an alert leaves ACTIVE at most once. */
  lemma {:induction false} HistoryIsStable(steps: seq<Step>, more: seq<Step>)
    ensures DbEvolves(Run(Start, steps).db, Run(Start, steps + more).db)
  {
    if more == [] {
      assert steps + more == steps;
    } else {
      var init, last := more[..|more| - 1], more[|more| - 1];
      HistoryIsStable(steps, init);
      OneMoreStep(steps + init, last);
      assert steps + more == steps + init + [last];
      EvolvesTrans(Run(Start, steps).db, Run(Start, steps + init).db, Run(Start, steps + more).db);
    }
  }

  lemma CompareAndSetIsExact(s: System, client: nat, stamp: nat)
    requires Inv(s) && client in s.attempts
    ensures s.attempts[client].id < |s.db.alerts|
    ensures Commit(s.db, s.attempts[client], stamp).Ok? <==>
      s.db.alerts[s.attempts[client].id] == s.attempts[client].seen
  {
    var a := s.attempts[client];
    assert AttemptOk(s, a);
    assert Consistent(s.db, a.id);
  }

  /** The two compared columns detect every concurrent change: in any reachable state a pending
      attempt commits if and only if its alert is still exactly the row that was read. */
  lemma CommitSucceedsIffUnchanged(steps: seq<Step>, client: nat, stamp: nat)
    requires client in Run(Start, steps).attempts
    ensures var s := Run(Start, steps);
      var a := s.attempts[client];
      && a.id < |s.db.alerts|
      && (Commit(s.db, a, stamp).Ok? <==> s.db.alerts[a.id] == a.seen)
  {
    EveryRunIsConsistent(steps);
    CompareAndSetIsExact(Run(Start, steps), client, stamp);
  }

  // ---------------------------------------------------------------- what a step achieves

  /** A successful commit makes the alert the user's own, closes it if it was a resolve, writes exactly
      the rows that belong to it, and leaves every other alert alone. */
  lemma CommitTakesEffect(db: Db, a: Attempt, stamp: nat, id: nat)
    requires Commit(db, a, stamp).Ok? && id < |db.alerts|
    ensures var next := Commit(db, a, stamp).value;
      && |next.alerts| == |db.alerts|
      && (if id != a.id then next.alerts[id] == db.alerts[id]
          else
            && next.alerts[id].acceptedBy == Some(a.user.id)
            && next.alerts[id].status == (if a.Resolving? then a.outcome else Active)
            && next.alerts[id].acceptedAt
                 == (if a.Resolving? && a.seen.acceptedAt.Some? then a.seen.acceptedAt else Some(stamp))
            && (a.Resolving? ==>
                  && next.alerts[id].resolvedBy == Some(a.user.id) && next.alerts[id].resolvedAt == Some(stamp)
                  && next.alerts[id].note == a.note))
      && Accepts(next.audit, id) == Accepts(db.audit, id) + (if id == a.id && a.Accepting? then 1 else 0)
      && Closings(next.audit, id) == Closings(db.audit, id) + (if id == a.id && a.Resolving? then 1 else 0)
      && Handovers(next.notes, id) == Handovers(db.notes, id) + (if id == a.id && a.Resolving? then 1 else 0)
  {
    var next := Commit(db, a, stamp).value;
    assert next.audit[..|db.audit|] == db.audit;
    if a.Resolving? {
      assert next.notes[..|db.notes|] == db.notes;
    }
  }

  /** A resident never has two active alerts. */
  predicate OneActive(alerts: seq<Alert>) {
    forall i, j :: 0 <= i < j < |alerts| && alerts[i].status == Active && alerts[j].status == Active
      ==> alerts[i].triggeredBy != alerts[j].triggeredBy
  }

  lemma ClosingKeepsOneActive(before: Db, after: Db)
    requires OneActive(before.alerts) && DbEvolves(before, after) && |before.alerts| == |after.alerts|
    ensures OneActive(after.alerts)
  {
    forall i, j | 0 <= i < j < |after.alerts| && after.alerts[i].status == Active && after.alerts[j].status == Active
      ensures after.alerts[i].triggeredBy != after.alerts[j].triggeredBy
    {
      assert Evolves(before.alerts[i], after.alerts[i]) && Evolves(before.alerts[j], after.alerts[j]);
    }
  }

  lemma {:induction false} OneActivePerResident(steps: seq<Step>)
    ensures OneActive(Run(Start, steps).db.alerts)
  {
    if steps != [] {
      var (init, last) := (steps[..|steps| - 1], steps[|steps| - 1]);
      var s := Run(Start, init);
      OneActivePerResident(init);
      EveryRunIsConsistent(init);
      StepKeepsInv(s, last);
      if !last.Trigger? {
        ClosingKeepsOneActive(s.db, Next(s, last).db);
      }
    }
  }

  // ---------------------------------------------------------------- what a press and an answer bring about

  predicate IsActiveOf(a: Alert, resident: nat) {
    a.triggeredBy == resident && a.status == Active
  }

  predicate HasActive(alerts: seq<Alert>, resident: nat) {
    exists i :: 0 <= i < |alerts| && IsActiveOf(alerts[i], resident)
  }

  predicate HasOneActive(alerts: seq<Alert>, resident: nat) {
    forall i, j :: 0 <= i < |alerts| && 0 <= j < |alerts| ==>
      (IsActiveOf(alerts[i], resident) && IsActiveOf(alerts[j], resident) ==> i == j)
  }

  /** After a press, in whatever state, the resident has exactly one active alert. If it is a new one it is
      the only thing that changed: an alert of the tenant that nobody has taken. */
  lemma PressRaisesAlert(steps: seq<Step>, resident: nat, tenant: nat)
    ensures var (db, next) := (Run(Start, steps).db, Run(Start, steps + [Trigger(resident, tenant)]).db);
      && HasActive(next.alerts, resident) && HasOneActive(next.alerts, resident)
      && (next == db <==> HasActive(db.alerts, resident))
      && (next != db ==>
            && |next.alerts| == |db.alerts| + 1 && db.alerts <= next.alerts
            && next.alerts[|db.alerts|] == Alert(tenant, resident, Active, None, None, None, None, None)
            && next.notes == db.notes && next.audit == db.audit)
  {
    assert (steps + [Trigger(resident, tenant)])[..|steps|] == steps;
    var (db, next) := (Run(Start, steps).db, Run(Start, steps + [Trigger(resident, tenant)]).db);
    OneActivePerResident(steps + [Trigger(resident, tenant)]);
    if HasActive(db.alerts, resident) {
      var i :| 0 <= i < |db.alerts| && IsActiveOf(db.alerts[i], resident);
      assert db.alerts[i].triggeredBy == resident;
    } else {
      assert forall i :: 0 <= i < |db.alerts| ==> !IsActiveOf(db.alerts[i], resident);
      assert IsActiveOf(next.alerts[|db.alerts|], resident);
    }
  }

  /** Who can take or close an alert as it is now: staff of the alert's tenant or a superadmin, but no
      chairman, while the alert is active and nobody else has taken it. */
  predicate CanProcess(db: Db, id: nat, user: User) {
    && id < |db.alerts| && db.alerts[id].status == Active
    && user.role !in {HoaChairman, ResidentOwner, ResidentTenant}
    && (user.role == Superadmin || user.tenant == Some(db.alerts[id].tenant))
    && (db.alerts[id].acceptedBy == None || db.alerts[id].acceptedBy == Some(user.id))
  }

  /** Why a call is refused. */
  predicate Explains(e: Error, db: Db, id: nat, user: User) {
    match e
    case ChairmanViewOnly => user.role == HoaChairman
    case ProcessForbidden => user.role in {ResidentOwner, ResidentTenant}
    case AlertNotFound => id >= |db.alerts|
    case CrossTenant => id < |db.alerts| && user.role != Superadmin && user.tenant != Some(db.alerts[id].tenant)
    case AlreadyProcessed => id < |db.alerts| && db.alerts[id].status in {Resolved, FalseAlarm}
    case TakenByOther => id < |db.alerts| && db.alerts[id].acceptedBy !in {None, Some(user.id)}
    case _ => false
  }

  /** Accepting begins exactly if the user can process the alert; whoever holds it already need not. */
  lemma AcceptBeginsIff(db: Db, id: nat, user: User, now: nat)
    ensures var r := BeginAccept(db, id, user, now);
      && (r.Ok? <==> CanProcess(db, id, user))
      && (r.Ok? ==>
            r.value == if db.alerts[id].acceptedBy.Some? then None else Some(Accepting(id, user, db.alerts[id], now)))
      && (r.Err? ==> Explains(r.error, db, id, user))
  {
  }

  /** Resolving begins exactly if the user can process the alert, says how it ended, and in no more than
      1600 characters; an empty comment is none. */
  lemma ResolveBeginsIff(db: Db, id: nat, user: User, outcome: Status, text: string, now: nat)
    ensures var r := BeginResolve(db, id, user, outcome, text, now);
      && (r.Ok? <==> CanProcess(db, id, user) && outcome in {Resolved, FalseAlarm} && |text| <= 1600)
      && (r.Ok? ==>
            && r.value.Some? && r.value.value.Resolving? && (r.value.value.note == None <==> text == "")
            && r.value.value == Resolving(id, user, db.alerts[id], now, outcome, r.value.value.note)
            && (text != "" ==> r.value.value.note == Some(text)))
      && (r.Err? ==>
            match r.error
            case InvalidResolution => outcome == Active
            case NoteTooLong => |text| > 1600
            case e => Explains(e, db, id, user))
  {
  }

  lemma RunSnoc(s: System, steps: seq<Step>, step: Step)
    ensures Run(s, steps + [step]) == Next(Run(s, steps), step)
  {
    assert (steps + [step])[..|steps|] == steps;
  }

  /** In any reachable state whoever can process an untaken alert, and does so undisturbed, takes it. */
  lemma AcceptSucceeds(steps: seq<Step>, client: nat, id: nat, user: User)
    requires CanProcess(Run(Start, steps).db, id, user) && Run(Start, steps).db.alerts[id].acceptedBy == None
    ensures var s := Run(Start, steps);
      var next := Run(Start, steps + [StartAccept(client, id, user)] + [Finish(client, s.clock)]).db;
      && next.alerts == s.db.alerts[id := s.db.alerts[id].(acceptedBy := Some(user.id), acceptedAt := Some(s.clock))]
      && next.notes == s.db.notes
      && next.audit == s.db.audit + [Entry(s.db.alerts[id].tenant, user, SosAccepted, id)]
  {
    var s := Run(Start, steps);
    RunSnoc(Start, steps, StartAccept(client, id, user));
    RunSnoc(Start, steps + [StartAccept(client, id, user)], Finish(client, s.clock));
    AcceptBeginsIff(s.db, id, user, s.clock);
  }

  /** And whoever can process an alert closes it, with the outcome, the comment and the handover note; an
      alert nobody had taken counts as taken at that moment. */
  lemma ResolveSucceeds(steps: seq<Step>, client: nat, id: nat, user: User, outcome: Status, text: string)
    requires CanProcess(Run(Start, steps).db, id, user) && outcome in {Resolved, FalseAlarm} && 1 <= |text| <= 1600
    ensures var s := Run(Start, steps);
      var next := Run(Start, steps + [StartResolve(client, id, user, outcome, text)] + [Finish(client, s.clock)]).db;
      var a := s.db.alerts[id];
      && next.alerts == s.db.alerts[id := Alert(
           a.tenant, a.triggeredBy, outcome,
           Some(user.id), if a.acceptedBy == None then Some(s.clock) else a.acceptedAt,
           Some(user.id), Some(s.clock), Some(text))]
      && next.notes == s.db.notes + [Note(a.tenant, user.id, id, outcome, s.clock, Some(text))]
      && next.audit == s.db.audit + [Entry(a.tenant, user, SosResolved(outcome, Some(text)), id)]
  {
    var s := Run(Start, steps);
    EveryRunIsConsistent(steps);
    assert Consistent(s.db, id);
    RunSnoc(Start, steps, StartResolve(client, id, user, outcome, text));
    RunSnoc(Start, steps + [StartResolve(client, id, user, outcome, text)], Finish(client, s.clock));
    ResolveBeginsIff(s.db, id, user, outcome, text, s.clock);
  }
}
