/** Service requests: an optimistic lock on `updatedAt`, an audit trail written in the same
    transaction, and a rating operation that closes a request without looking at the lock. */
module ServiceRequests {
  import opened Prelude

  datatype Status = Pending | Assigned | InProgress | Resolved | Rejected | Closed

  /** The part of a request the audit trail speaks of. */
  datatype Face = Face(status: Status, assignee: Option<nat>)

  datatype Request = Request(
    tenant: nat, creator: nat, face: Face, updatedAt: nat,
    rating: Option<int>, feedback: Option<string>)

  datatype Change = Change(request: nat, actor: Option<nat>, from: Face, to: Face)

  /** A request's id is its row number: requests are never deleted. */
  datatype Db = Db(requests: seq<Request>, audit: seq<Change>)

  datatype Staff = Staff(tenant: Option<nat>, role: Role, isActive: bool)
  type Directory = map<nat, Staff>

  datatype Error =
    | RequestNotFound | StatusChangeForbidden | CrossTenantEdit | UpdateConflict
    | InvalidAssignee | AssigneeRequired | RatingCreatorOnly

  // ---------------------------------------------------------------- the operations

  const NewFace := Face(Pending, None)

  function Created(db: Db, tenant: nat, creator: nat, stamp: nat): Db {
    db.(requests := db.requests + [Request(tenant, creator, NewFace, stamp, None, None)])
  }

  predicate MayEdit(user: User) {
    user.role == HoaAdmin || user.role == Dispatcher
  }

  predicate Eligible(staff: Directory, id: nat, tenant: nat) {
    && id in staff && staff[id].isActive && staff[id].tenant == Some(tenant)
    && (staff[id].role == HoaAdmin || staff[id].role == Dispatcher)
  }

  /** What a client holds between its read and its commit. */
  datatype Attempt =
    | Updating(id: nat, actor: Option<nat>, seen: Request, to: Face)
    | Rating(id: nat, actor: Option<nat>, seen: Request, stars: int, feedback: Option<string>)

  /** `updateStatus` up to its transaction. `Ok(None)`: nothing to change. */
  function BeginUpdate(db: Db, staff: Directory, id: nat, user: Option<User>, status: Status,
                       assignee: Option<nat>, expected: Option<nat>): Result<Option<Attempt>, Error> {
    if id >= |db.requests| then Err(RequestNotFound)
    else
      var request := db.requests[id];
      if user.Some? && user.value.role != Superadmin && !MayEdit(user.value) then Err(StatusChangeForbidden)
      else if user.Some? && !BelongsToTenant(user.value, request.tenant) then Err(CrossTenantEdit)
      else if expected.Some? && expected.value != request.updatedAt then Err(UpdateConflict)
      else if assignee.Some? && !Eligible(staff, assignee.value, request.tenant) then Err(InvalidAssignee)
      else
        var next := if assignee.Some? then assignee else request.face.assignee;
        if status == Assigned && next == None then Err(AssigneeRequired)
        else if request.face == Face(status, next) then Ok(None)
        else Ok(Some(Updating(id, if user.Some? then Some(user.value.id) else None, request, Face(status, next))))
  }

  /** `rateRequest` up to its transaction. */
  function BeginRating(
      db: Db, id: nat, userId: nat, stars: int, feedback: Option<string>): Result<Option<Attempt>, Error> {
    if id >= |db.requests| then Err(RequestNotFound)
    else if db.requests[id].creator != userId then Err(RatingCreatorOnly)
    else Ok(Some(Rating(id, Some(userId), db.requests[id], stars, feedback)))
  }

  /** The transaction. Only an update compares versions; a rating writes whatever it finds. */
  function Commit(db: Db, a: Attempt, stamp: nat): Result<Db, Error> {
    if a.id >= |db.requests| || (a.Updating? && db.requests[a.id].updatedAt != a.seen.updatedAt) then
      Err(UpdateConflict)
    else
      var row := db.requests[a.id];
      match a
      case Updating(id, actor, seen, to) => Ok(Db(
        db.requests[id := row.(face := to, updatedAt := stamp)],
        db.audit + [Change(id, actor, seen.face, to)]))
      case Rating(id, actor, seen, stars, feedback) => Ok(Db(
        db.requests[id := row.(face := Face(Closed, row.face.assignee), updatedAt := stamp, rating := Some(stars),
                                    feedback := if feedback.Some? then feedback else row.feedback)],
        if seen.face.status == Closed then db.audit
        else db.audit + [Change(id, actor, seen.face, Face(Closed, seen.face.assignee))]))
  }

  /** The service object over its two tables. */
  class ServiceRequestsService {
    var requests: seq<Request>
    var audit: seq<Change>

    function Tables(): Db
      reads this
    {
      Db(requests, audit)
    }

    constructor ()
      ensures Tables() == Db([], [])
    {
      requests, audit := [], [];
    }

    method CreateRequest(tenant: nat, creator: nat, stamp: nat) returns (id: nat)
      modifies this
      ensures Tables() == Created(old(Tables()), tenant, creator, stamp) && id == |old(requests)|
    {
      id := |requests|;
      requests := requests + [Request(tenant, creator, NewFace, stamp, None, None)];
    }

    method CommitUpdate(a: Attempt, stamp: nat) returns (error: Option<Error>)
      requires a.Updating?
      modifies this
      ensures error == None ==> Commit(old(Tables()), a, stamp) == Ok(Tables())
      ensures error.Some? ==> Commit(old(Tables()), a, stamp) == Err(error.value) && Tables() == old(Tables())
    {
      if a.id >= |requests| || requests[a.id].updatedAt != a.seen.updatedAt { return Some(UpdateConflict); }
      requests := requests[a.id := requests[a.id].(face := a.to, updatedAt := stamp)];
      audit := audit + [Change(a.id, a.actor, a.seen.face, a.to)];
      return None;
    }

    method CommitRating(a: Attempt, stamp: nat) returns (error: Option<Error>)
      requires a.Rating?
      modifies this
      ensures error == None ==> Commit(old(Tables()), a, stamp) == Ok(Tables())
      ensures error.Some? ==> Commit(old(Tables()), a, stamp) == Err(error.value) && Tables() == old(Tables())
    {
      if a.id >= |requests| { return Some(UpdateConflict); }
      var row := requests[a.id];
      requests := requests[a.id := row.(face := Face(Closed, row.face.assignee), updatedAt := stamp,
                                        rating := Some(a.stars),
                                        feedback := if a.feedback.Some? then a.feedback else row.feedback)];
      if a.seen.face.status != Closed {
        audit := audit + [Change(a.id, a.actor, a.seen.face, Face(Closed, a.seen.face.assignee))];
      }
      return None;
    }
  }

  // ---------------------------------------------------------------- runs

  datatype System = System(db: Db, attempts: map<nat, Attempt>)

  datatype Step =
    | Create(tenant: nat, creator: nat, stamp: nat)
    | StartUpdate(client: nat, id: nat, user: Option<User>, status: Status, assignee: Option<nat>,
        expected: Option<nat>)
    | StartRating(client: nat, id: nat, userId: nat, stars: int, feedback: Option<string>)
    | Finish(client: nat, stamp: nat)

  const Start := System(Db([], []), map[])

  function Held(s: System, client: nat, r: Result<Option<Attempt>, Error>): System {
    match r
    case Ok(Some(a)) => s.(attempts := s.attempts[client := a])
    case _ => s
  }

  function Next(staff: Directory, s: System, step: Step): System {
    match step
    case Create(tenant, creator, stamp) => s.(db := Created(s.db, tenant, creator, stamp))
    case StartUpdate(client, id, user, status, assignee, expected) =>
      Held(s, client, BeginUpdate(s.db, staff, id, user, status, assignee, expected))
    case StartRating(client, id, userId, stars, feedback) =>
      Held(s, client, BeginRating(s.db, id, userId, stars, feedback))
    case Finish(client, stamp) =>
      if client !in s.attempts then s
      else
        match Commit(s.db, s.attempts[client], stamp)
        case Ok(db) => System(db, s.attempts - {client})
        case Err(_) => s.(attempts := s.attempts - {client})
  }

  function Run(staff: Directory, steps: seq<Step>): System {
    if steps == [] then Start
    else Next(staff, Run(staff, steps[..|steps| - 1]), steps[|steps| - 1])
  }

  // ---------------------------------------------------------------- the audit chain

  /** Where the trail of request `id` ends. */
  function TrailEnd(audit: seq<Change>, id: nat): Face {
    if audit == [] then NewFace
    else if audit[|audit| - 1].request == id then audit[|audit| - 1].to
    else TrailEnd(audit[..|audit| - 1], id)
  }

  /** Every entry of request `id` starts where the previous one ended. */
  predicate Chained(audit: seq<Change>, id: nat) {
    audit != [] ==>
      && Chained(audit[..|audit| - 1], id)
      && (audit[|audit| - 1].request == id ==> audit[|audit| - 1].from == TrailEnd(audit[..|audit| - 1], id))
  }

  /** The trail leads from the new request, entry by entry, to the request as it is now. */
  predicate Audited(db: Db, id: nat)
    requires id < |db.requests|
  {
    Chained(db.audit, id) && TrailEnd(db.audit, id) == db.requests[id].face
  }

  /** Does a rating still see the request's current status and assignee? Of a request it saw closed
      it only needs the status. */
  predicate SeesCurrent(db: Db, a: Attempt) {
    && a.id < |db.requests|
    && a.seen.face.status == db.requests[a.id].face.status
    && (a.seen.face.status == Closed || a.seen.face.assignee == db.requests[a.id].face.assignee)
  }

  /** The two things the code takes for granted: a write gets a later `updatedAt` than the row had,
      and no rating overtakes an update between its own read and write. */
  predicate OrderlyStep(s: System, step: Step) {
    step.Finish? && step.client in s.attempts && s.attempts[step.client].id < |s.db.requests| ==>
      var a := s.attempts[step.client];
      && s.db.requests[a.id].updatedAt < step.stamp
      && (a.Rating? ==> SeesCurrent(s.db, a))
  }

  predicate Orderly(staff: Directory, steps: seq<Step>) {
    steps != [] ==>
      && Orderly(staff, steps[..|steps| - 1])
      && OrderlyStep(Run(staff, steps[..|steps| - 1]), steps[|steps| - 1])
  }

  predicate FaceOk(staff: Directory, tenant: nat, face: Face) {
    && (face.status == Assigned ==> face.assignee.Some?)
    && (face.assignee.Some? ==> Eligible(staff, face.assignee.value, tenant))
  }

  ghost predicate AttemptOk(staff: Directory, s: System, a: Attempt) {
    && a.id < |s.db.requests|
    && a.seen.tenant == s.db.requests[a.id].tenant
    && a.seen.updatedAt <= s.db.requests[a.id].updatedAt
    && (a.seen.updatedAt == s.db.requests[a.id].updatedAt ==> a.seen == s.db.requests[a.id])
    && (a.Updating? ==>
          && FaceOk(staff, a.seen.tenant, a.to)
          && (a.seen.face.assignee.Some? ==> a.to.assignee.Some?)
          && a.to != a.seen.face)
  }

  ghost predicate Inv(staff: Directory, s: System) {
    && (forall i :: 0 <= i < |s.db.requests| ==>
      Audited(s.db, i) && FaceOk(staff, s.db.requests[i].tenant, s.db.requests[i].face))
    && (forall e :: e in s.db.audit ==> e.request < |s.db.requests| && e.from != e.to)
    && (forall c :: c in s.attempts ==> AttemptOk(staff, s, s.attempts[c]))
  }

  predicate DbEvolves(before: Db, after: Db) {
    && |before.requests| <= |after.requests|
    && before.audit <= after.audit
    && (forall i :: 0 <= i < |before.requests| ==>
          && after.requests[i].tenant == before.requests[i].tenant
          && after.requests[i].creator == before.requests[i].creator
          && before.requests[i].updatedAt <= after.requests[i].updatedAt
          && (before.requests[i].face.assignee.Some? ==> after.requests[i].face.assignee.Some?))
  }

  lemma {:induction false} NoTrail(audit: seq<Change>, id: nat)
    requires forall e :: e in audit ==> e.request != id
    ensures Chained(audit, id) && TrailEnd(audit, id) == NewFace
  {
    if audit != [] { NoTrail(audit[..|audit| - 1], id); }
  }

  lemma TrailGrows(audit: seq<Change>, e: Change, id: nat)
    ensures TrailEnd(audit + [e], id) == if e.request == id then e.to else TrailEnd(audit, id)
    ensures Chained(audit + [e], id) <==> Chained(audit, id) && (e.request == id ==> e.from == TrailEnd(audit, id))
  {
    assert (audit + [e])[..|audit|] == audit;
  }

  /** A rating keeps its request audited exactly when it still sees the current status and assignee. */
  lemma RatingKeepsTrailIff(db: Db, a: Attempt, stamp: nat)
    requires a.Rating? && a.id < |db.requests| && Audited(db, a.id)
    ensures Commit(db, a, stamp).Ok?
    ensures Audited(Commit(db, a, stamp).value, a.id) <==> SeesCurrent(db, a)
  {
    TrailGrows(db.audit, Change(a.id, a.actor, a.seen.face, Face(Closed, a.seen.face.assignee)), a.id);
  }

  /** An update that commits keeps its request audited exactly when it saw the current status and assignee. */
  lemma UpdateKeepsTrailIff(db: Db, a: Attempt, stamp: nat)
    requires a.Updating? && a.id < |db.requests| && Audited(db, a.id) && Commit(db, a, stamp).Ok?
    ensures Audited(Commit(db, a, stamp).value, a.id) <==> a.seen.face == db.requests[a.id].face
  {
    TrailGrows(db.audit, Change(a.id, a.actor, a.seen.face, a.to), a.id);
  }

  /** After another write the lock still lets an update through exactly when that write was stamped with
      the very version the update had read; the update's own stamp plays no part. */
  lemma StaleUpdateCommitsIff(db: Db, other: Attempt, a: Attempt, stamp: nat, later: nat)
    requires a.Updating? && a.id == other.id && Commit(db, other, stamp).Ok?
    ensures Commit(Commit(db, other, stamp).value, a, later).Ok? <==> stamp == a.seen.updatedAt
  {
  }

  /** Where a version stands for one state of its row, the lock makes an update keep its request audited. */
  lemma UpdateKeepsTrail(staff: Directory, s: System, a: Attempt, stamp: nat)
    requires Inv(staff, s) && AttemptOk(staff, s, a) && a.Updating? && Commit(s.db, a, stamp).Ok?
    ensures Audited(Commit(s.db, a, stamp).value, a.id)
  {
    assert Audited(s.db, a.id);
    TrailGrows(s.db.audit, Change(a.id, a.actor, a.seen.face, a.to), a.id);
  }

  lemma CommitFramesOthers(db: Db, a: Attempt, stamp: nat, i: nat)
    requires Commit(db, a, stamp).Ok? && i < |db.requests| && i != a.id && Audited(db, i)
    ensures var db' := Commit(db, a, stamp).value; Audited(db', i) && db'.requests[i] == db.requests[i]
  {
    var db' := Commit(db, a, stamp).value;
    if db'.audit != db.audit {
      assert db'.audit == db.audit + [db'.audit[|db.audit|]];
      TrailGrows(db.audit, db'.audit[|db.audit|], i);
    }
  }

  lemma AttemptsSurviveCommit(staff: Directory, s: System, a: Attempt, stamp: nat)
    requires forall c :: c in s.attempts ==> AttemptOk(staff, s, s.attempts[c])
    requires Commit(s.db, a, stamp).Ok? && s.db.requests[a.id].updatedAt < stamp
    ensures var t := s.(db := Commit(s.db, a, stamp).value);
      forall c :: c in s.attempts ==> AttemptOk(staff, t, s.attempts[c])
  {
  }

  lemma CommitKeepsInv(staff: Directory, s: System, a: Attempt, stamp: nat)
    requires Inv(staff, s) && AttemptOk(staff, s, a) && Commit(s.db, a, stamp).Ok?
    requires s.db.requests[a.id].updatedAt < stamp && (a.Rating? ==> SeesCurrent(s.db, a))
    ensures var t := s.(db := Commit(s.db, a, stamp).value); Inv(staff, t) && DbEvolves(s.db, t.db)
  {
    var t := s.(db := Commit(s.db, a, stamp).value);
    if a.Updating? { UpdateKeepsTrail(staff, s, a, stamp); } else { RatingKeepsTrailIff(s.db, a, stamp); }
    AttemptsSurviveCommit(staff, s, a, stamp);
    forall i | 0 <= i < |t.db.requests|
      ensures Audited(t.db, i) && FaceOk(staff, t.db.requests[i].tenant, t.db.requests[i].face)
    {
      assert Audited(s.db, i);
      if i != a.id { CommitFramesOthers(s.db, a, stamp, i); }
    }
  }

  lemma CreateKeepsInv(staff: Directory, s: System, tenant: nat, creator: nat, stamp: nat)
    requires Inv(staff, s)
    ensures var t := s.(db := Created(s.db, tenant, creator, stamp)); Inv(staff, t) && DbEvolves(s.db, t.db)
  {
    var t := s.(db := Created(s.db, tenant, creator, stamp));
    NoTrail(s.db.audit, |s.db.requests|);
    forall i | 0 <= i < |t.db.requests|
      ensures Audited(t.db, i) && FaceOk(staff, t.db.requests[i].tenant, t.db.requests[i].face)
    {
      assert i < |s.db.requests| ==> Audited(s.db, i);
    }
    forall c | c in t.attempts ensures AttemptOk(staff, t, t.attempts[c]) {
      assert AttemptOk(staff, s, s.attempts[c]);
    }
  }

  lemma HoldingKeepsInv(staff: Directory, s: System, client: nat, r: Result<Option<Attempt>, Error>)
    requires Inv(staff, s) && (r.Ok? && r.value.Some? ==> AttemptOk(staff, s, r.value.value))
    ensures Inv(staff, Held(s, client, r))
  {
    var t := Held(s, client, r);
    forall c | c in t.attempts ensures AttemptOk(staff, t, t.attempts[c]) {
      assert c in s.attempts ==> AttemptOk(staff, s, s.attempts[c]);
    }
  }

  lemma ForgettingKeepsInv(staff: Directory, s: System, client: nat)
    requires Inv(staff, s)
    ensures Inv(staff, s.(attempts := s.attempts - {client}))
  {
    var t := s.(attempts := s.attempts - {client});
    forall c | c in t.attempts ensures AttemptOk(staff, t, t.attempts[c]) {
      assert AttemptOk(staff, s, s.attempts[c]);
    }
  }

  lemma StepKeepsInv(staff: Directory, s: System, step: Step)
    requires Inv(staff, s) && OrderlyStep(s, step)
    ensures Inv(staff, Next(staff, s, step)) && DbEvolves(s.db, Next(staff, s, step).db)
  {
    match step
    case Create(tenant, creator, stamp) => CreateKeepsInv(staff, s, tenant, creator, stamp);
    case StartUpdate(client, id, user, status, assignee, expected) =>
      assert id < |s.db.requests| ==> FaceOk(staff, s.db.requests[id].tenant, s.db.requests[id].face);
      HoldingKeepsInv(staff, s, client, BeginUpdate(s.db, staff, id, user, status, assignee, expected));
    case StartRating(client, id, userId, stars, feedback) =>
      HoldingKeepsInv(staff, s, client, BeginRating(s.db, id, userId, stars, feedback));
    case Finish(client, stamp) =>
      if client in s.attempts {
        var a := s.attempts[client];
        assert AttemptOk(staff, s, a);
        if Commit(s.db, a, stamp).Ok? {
          CommitKeepsInv(staff, s, a, stamp);
          ForgettingKeepsInv(staff, s.(db := Commit(s.db, a, stamp).value), client);
        } else {
          ForgettingKeepsInv(staff, s, client);
        }
      }
  }

  /** Over every orderly interleaving: each request's audit entries form a chain from (PENDING,
      nobody) to its current status and assignee; an ASSIGNED request has an assignee; an assignee
      is always an active request handler of the request's own tenant. */
  lemma {:induction false} EveryOrderlyRunIsAudited(staff: Directory, steps: seq<Step>)
    requires Orderly(staff, steps)
    ensures Inv(staff, Run(staff, steps))
  {
    if steps != [] {
      EveryOrderlyRunIsAudited(staff, steps[..|steps| - 1]);
      StepKeepsInv(staff, Run(staff, steps[..|steps| - 1]), steps[|steps| - 1]);
    }
  }

  /** However an orderly run goes on, the trail only grows and nobody's assignment goes back to nobody. */
  lemma {:induction false} AssigneesAreNeverCleared(staff: Directory, steps: seq<Step>, more: seq<Step>)
    requires Orderly(staff, steps + more)
    ensures Orderly(staff, steps)
    ensures DbEvolves(Run(staff, steps).db, Run(staff, steps + more).db)
  {
    if more == [] {
      assert steps + more == steps;
    } else {
      var init := more[..|more| - 1];
      assert (steps + more)[..|steps + more| - 1] == steps + init;
      AssigneesAreNeverCleared(staff, steps, init);
      EveryOrderlyRunIsAudited(staff, steps + init);
      StepKeepsInv(staff, Run(staff, steps + init), more[|more| - 1]);
    }
  }

  // ---------------------------------------------------------------- what orderliness rules out

  lemma RunSnoc(staff: Directory, steps: seq<Step>, step: Step)
    ensures Run(staff, steps + [step]) == Next(staff, Run(staff, steps), step)
  {
    assert (steps + [step])[..|steps|] == steps;
  }

  const Handler: Directory := map[7 := Staff(Some(1), Dispatcher, true)]
  const Fresh := Request(1, 5, NewFace, 10, None, None)
  const Rate := Rating(0, Some(5), Fresh, 4, None)
  const Assign := Updating(0, None, Fresh, Face(Assigned, Some(7)))

  /** The creator reads the request to rate it, then a dispatcher reads it to assign it. */
  const BothRead := [Create(1, 5, 10), StartRating(1, 0, 5, 4, None), StartUpdate(2, 0, None, Assigned, Some(7), None)]

  lemma RunBothRead()
    ensures Run(Handler, BothRead) == System(Db([Fresh], []), map[1 := Rate, 2 := Assign])
  {
    var one, two := BothRead[..1], BothRead[..2];
    assert Run(Handler, one) == System(Db([Fresh], []), map[]) by { assert one[..0] == []; }
    assert Run(Handler, two) == System(Db([Fresh], []), map[1 := Rate]) by { assert two[..1] == one; }
    assert BothRead[..|BothRead| - 1] == two;
  }

  const Assigning := Change(0, None, NewFace, Face(Assigned, Some(7)))
  const Closing := Change(0, Some(5), NewFace, Face(Closed, None))

  /** The update commits, then the rating does. */
  lemma RunOvertaken() returns (steps: seq<Step>)
    ensures Run(Handler, steps).db.audit == [Assigning, Closing] && |Run(Handler, steps).db.requests| == 1
  {
    RunBothRead();
    RunSnoc(Handler, BothRead, Finish(2, 11));
    steps := BothRead + [Finish(2, 11)] + [Finish(1, 12)];
    RunSnoc(Handler, BothRead + [Finish(2, 11)], Finish(1, 12));
    assert [Assigning] + [Closing] == [Assigning, Closing];
  }

  /** A rating that overtakes an update: the request is assigned after the rating has read it.
      The trail then says "from PENDING" right after an entry that ended in ASSIGNED. */
  lemma OvertakingRatingBreaksTrail()
    ensures exists staff, steps ::
      var db := Run(staff, steps).db;
      |db.requests| == 1 && !Chained(db.audit, 0)
  {
    var steps := RunOvertaken();
    assert [Assigning, Closing] == [Assigning] + [Closing];
    TrailGrows([Assigning], Closing, 0);
    var audit := Run(Handler, steps).db.audit;
    assert !Chained(audit, 0);
  }

  const StartWork := Updating(0, None, Fresh, Face(InProgress, None))
  const RejectWork := Updating(0, None, Fresh, Face(Rejected, None))

  /** Two dispatchers read the new request, one to start it and one to reject it. */
  const BothUpdate :=
    [Create(1, 5, 10), StartUpdate(1, 0, None, InProgress, None, None), StartUpdate(2, 0, None, Rejected, None, None)]

  lemma RunBothUpdate()
    ensures Run(Handler, BothUpdate) == System(Db([Fresh], []), map[1 := StartWork, 2 := RejectWork])
  {
    var one, two := BothUpdate[..1], BothUpdate[..2];
    assert Run(Handler, one) == System(Db([Fresh], []), map[]) by { assert one[..0] == []; }
    assert Run(Handler, two) == System(Db([Fresh], []), map[1 := StartWork]) by { assert two[..1] == one; }
    assert BothUpdate[..|BothUpdate| - 1] == two;
  }

  const Starting := Change(0, None, NewFace, Face(InProgress, None))
  const Rejecting := Change(0, None, NewFace, Face(Rejected, None))

  const Started := Fresh.(face := Face(InProgress, None))

  lemma FirstWrite()
    ensures Next(Handler, System(Db([Fresh], []), map[1 := StartWork, 2 := RejectWork]), Finish(1, 10))
      == System(Db([Started], [Starting]), map[2 := RejectWork])
  {
    assert map[1 := StartWork, 2 := RejectWork] - {1} == map[2 := RejectWork];
  }

  lemma SecondWrite()
    ensures Next(Handler, System(Db([Started], [Starting]), map[2 := RejectWork]), Finish(2, 11)).db
      == Db([Started.(face := Face(Rejected, None), updatedAt := 11)], [Starting, Rejecting])
  {
    assert [Starting] + [Rejecting] == [Starting, Rejecting];
  }

  /** The first write falls into the millisecond in which the request was created; the second comes later. */
  lemma RunSameStamp() returns (steps: seq<Step>)
    ensures Run(Handler, steps).db.audit == [Starting, Rejecting] && |Run(Handler, steps).db.requests| == 1
  {
    RunBothUpdate();
    RunSnoc(Handler, BothUpdate, Finish(1, 10));
    FirstWrite();
    steps := BothUpdate + [Finish(1, 10)] + [Finish(2, 11)];
    RunSnoc(Handler, BothUpdate + [Finish(1, 10)], Finish(2, 11));
    SecondWrite();
  }

  /** A write stamped with the version that was read: the lock does not see it, and the next update's
      entry does not start where the last one ended. */
  lemma SameStampBreaksTrail()
    ensures exists staff, steps ::
      var db := Run(staff, steps).db;
      |db.requests| == 1 && (forall e :: e in db.audit ==> e.to.status != Closed) && !Chained(db.audit, 0)
  {
    var steps := RunSameStamp();
    assert [Starting, Rejecting] == [Starting] + [Rejecting];
    TrailGrows([Starting], Rejecting, 0);
    var audit := Run(Handler, steps).db.audit;
    assert !Chained(audit, 0);
  }

  // ---------------------------------------------------------------- exactly which runs stay audited

  /** Did the attempt see the status and assignee it is about to write over? */
  predicate Sees(db: Db, a: Attempt) {
    a.id < |db.requests| && if a.Updating? then a.seen.face == db.requests[a.id].face else SeesCurrent(db, a)
  }

  /** Every attempt that commits in the run sees what it writes over. */
  predicate Sighted(staff: Directory, steps: seq<Step>) {
    steps != [] ==>
      && Sighted(staff, steps[..|steps| - 1])
      && SightedStep(Run(staff, steps[..|steps| - 1]), steps[|steps| - 1])
  }

  predicate SightedStep(s: System, step: Step) {
    (step.Finish? && step.client in s.attempts && Commit(s.db, s.attempts[step.client], step.stamp).Ok?) ==>
      Sees(s.db, s.attempts[step.client])
  }

  predicate AllAudited(db: Db) {
    forall i :: 0 <= i < |db.requests| ==> Audited(db, i)
  }

  /** All requests are audited after every step of the run. */
  predicate AuditedThroughout(staff: Directory, steps: seq<Step>) {
    AllAudited(Run(staff, steps).db) && (steps != [] ==> AuditedThroughout(staff, steps[..|steps| - 1]))
  }

  predicate EntriesKnown(db: Db) {
    forall e :: e in db.audit ==> e.request < |db.requests|
  }

  lemma {:induction false} EntriesAreKnown(staff: Directory, steps: seq<Step>)
    ensures EntriesKnown(Run(staff, steps).db)
  {
    if steps != [] {
      EntriesAreKnown(staff, steps[..|steps| - 1]);
    }
  }

  lemma CommitIsAuditedIff(db: Db, a: Attempt, stamp: nat)
    requires AllAudited(db) && Commit(db, a, stamp).Ok?
    ensures AllAudited(Commit(db, a, stamp).value) <==> Sees(db, a)
  {
    if a.Updating? { UpdateKeepsTrailIff(db, a, stamp); } else { RatingKeepsTrailIff(db, a, stamp); }
    var next := Commit(db, a, stamp).value;
    forall i | 0 <= i < |db.requests| && i != a.id ensures Audited(next, i) {
      CommitFramesOthers(db, a, stamp, i);
    }
  }

  lemma CreateStaysAudited(db: Db, tenant: nat, creator: nat, stamp: nat)
    requires AllAudited(db) && EntriesKnown(db)
    ensures AllAudited(Created(db, tenant, creator, stamp))
  {
    NoTrail(db.audit, |db.requests|);
    var next := Created(db, tenant, creator, stamp);
    forall i | 0 <= i < |next.requests| ensures Audited(next, i) {
      assert i < |db.requests| ==> Audited(db, i);
    }
  }

  lemma StepIsAuditedIff(staff: Directory, s: System, step: Step)
    requires AllAudited(s.db) && EntriesKnown(s.db)
    ensures AllAudited(Next(staff, s, step).db) <==> SightedStep(s, step)
  {
    match step
    case Create(tenant, creator, stamp) => CreateStaysAudited(s.db, tenant, creator, stamp);
    case Finish(client, stamp) =>
      if client in s.attempts && Commit(s.db, s.attempts[client], stamp).Ok? {
        CommitIsAuditedIff(s.db, s.attempts[client], stamp);
      }
    case _ =>
  }

  /** Over all runs, whatever the stamps: the trails stay chains that lead to the current state, after
      every step, if and only if every attempt that commits sees the state it writes over. */
  lemma {:induction false} RunIsAuditedIff(staff: Directory, steps: seq<Step>)
    ensures AuditedThroughout(staff, steps) <==> Sighted(staff, steps)
  {
    if steps != [] {
      var (init, last) := (steps[..|steps| - 1], steps[|steps| - 1]);
      RunIsAuditedIff(staff, init);
      EntriesAreKnown(staff, init);
      if AuditedThroughout(staff, init) {
        StepIsAuditedIff(staff, Run(staff, init), last);
      }
    }
  }

  /** A successful update shows in the request and at the end of its trail, and nowhere else. */
  lemma UpdateTakesEffect(db: Db, a: Attempt, stamp: nat, id: nat)
    requires a.Updating? && Commit(db, a, stamp).Ok? && id < |db.requests|
    ensures var next := Commit(db, a, stamp).value;
      && next.audit == db.audit + [Change(a.id, a.actor, a.seen.face, a.to)]
      && if id == a.id then
           && TrailEnd(next.audit, id) == a.to && next.requests[id].face == a.to
           && next.requests[id] == db.requests[id].(face := a.to, updatedAt := stamp)
         else TrailEnd(next.audit, id) == TrailEnd(db.audit, id) && next.requests[id] == db.requests[id]
  {
    TrailGrows(db.audit, Change(a.id, a.actor, a.seen.face, a.to), id);
  }

  /** A successful rating closes the request, whoever it is assigned to, keeps an earlier comment if it
      brings none, and writes an entry exactly if it saw the request open. */
  lemma RatingTakesEffect(db: Db, a: Attempt, stamp: nat, id: nat)
    requires a.Rating? && Commit(db, a, stamp).Ok? && id < |db.requests|
    ensures var next := Commit(db, a, stamp).value;
      && (next.audit != db.audit <==> a.seen.face.status != Closed)
      && (next.audit != db.audit ==>
            next.audit == db.audit + [Change(a.id, a.actor, a.seen.face, Face(Closed, a.seen.face.assignee))])
      && |next.requests| == |db.requests|
      && if id != a.id then next.requests[id] == db.requests[id]
         else
           && next.requests[id].face == Face(Closed, db.requests[id].face.assignee)
           && next.requests[id].updatedAt == stamp && next.requests[id].rating == Some(a.stars)
           && (a.feedback.Some? ==> next.requests[id].feedback == a.feedback)
           && (a.feedback == None ==> next.requests[id].feedback == db.requests[id].feedback)
           && next.requests[id].tenant == db.requests[id].tenant && next.requests[id].creator == db.requests[id].creator
  {
  }

  // ---------------------------------------------------------------- who may change a request, and to what

  /** An active administrator or dispatcher of the tenant. */
  predicate CanHandle(staff: Directory, id: nat, tenant: nat) {
    id in staff && staff[id] in {Staff(Some(tenant), HoaAdmin, true), Staff(Some(tenant), Dispatcher, true)}
  }

  /** Who may change a request: a superadmin, an administrator or dispatcher of its tenant, or a call
      without a user. */
  predicate CanEdit(request: Request, user: Option<User>) {
    user.Some? ==>
      || user.value.role == Superadmin
      || (user.value.role !in {HoaChairman, Security, ResidentOwner, ResidentTenant}
          && user.value.tenant == Some(request.tenant))
  }

  /** The status and assignee a call asks for; without an assignee the request keeps its own. */
  predicate AsksFor(request: Request, status: Status, assignee: Option<nat>, to: Face) {
    to.status == status && (if assignee.Some? then to.assignee == assignee else to.assignee == request.face.assignee)
  }

  /** An update begins exactly if the request is there, the caller may change it and has seen its current
      version (if it says which it saw), a new assignee can handle it, and nothing becomes ASSIGNED to nobody. */
  lemma UpdateBeginsIff(db: Db, staff: Directory, id: nat, user: Option<User>, status: Status,
                        assignee: Option<nat>, expected: Option<nat>)
    ensures BeginUpdate(db, staff, id, user, status, assignee, expected).Ok? <==>
      && id < |db.requests| && CanEdit(db.requests[id], user)
      && expected in {None, Some(db.requests[id].updatedAt)}
      && (assignee.Some? ==> CanHandle(staff, assignee.value, db.requests[id].tenant))
      && !(status == Assigned && assignee == None && db.requests[id].face.assignee == None)
  {
  }

  /** It then holds what was read, who asks, and what is asked for; asking for what is there already is done. */
  lemma UpdateHolds(db: Db, staff: Directory, id: nat, user: Option<User>, status: Status,
                    assignee: Option<nat>, expected: Option<nat>)
    requires BeginUpdate(db, staff, id, user, status, assignee, expected).Ok?
    ensures var a := BeginUpdate(db, staff, id, user, status, assignee, expected).value;
      && (a == None <==> AsksFor(db.requests[id], status, assignee, db.requests[id].face))
      && (a.Some? ==>
            && a.value.Updating? && a.value.id == id && a.value.seen == db.requests[id]
            && AsksFor(db.requests[id], status, assignee, a.value.to)
            && (user == None <==> a.value.actor == None) && (user.Some? ==> a.value.actor == Some(user.value.id)))
  {
  }

  /** Why an update is refused. */
  lemma UpdateRefused(db: Db, staff: Directory, id: nat, user: Option<User>, status: Status,
                      assignee: Option<nat>, expected: Option<nat>)
    requires BeginUpdate(db, staff, id, user, status, assignee, expected).Err?
    ensures match BeginUpdate(db, staff, id, user, status, assignee, expected).error
      case RequestNotFound => id >= |db.requests|
      case StatusChangeForbidden =>
        user.Some? && user.value.role in {HoaChairman, Security, ResidentOwner, ResidentTenant}
      case CrossTenantEdit =>
        && id < |db.requests| && user.Some? && user.value.role != Superadmin
        && user.value.tenant != Some(db.requests[id].tenant)
      case UpdateConflict => id < |db.requests| && expected !in {None, Some(db.requests[id].updatedAt)}
      case InvalidAssignee =>
        id < |db.requests| && assignee.Some? && !CanHandle(staff, assignee.value, db.requests[id].tenant)
      case AssigneeRequired =>
        id < |db.requests| && status == Assigned && assignee == None && db.requests[id].face.assignee == None
      case RatingCreatorOnly => false
  {
  }

  /** Only the creator can rate a request. */
  lemma RatingBeginsIff(db: Db, id: nat, userId: nat, stars: int, feedback: Option<string>)
    ensures var r := BeginRating(db, id, userId, stars, feedback);
      && (r.Ok? <==> id < |db.requests| && db.requests[id].creator == userId)
      && (r.Ok? ==> r.value == Some(Rating(id, Some(userId), db.requests[id], stars, feedback)))
      && (r.Err? ==> r.error == if id >= |db.requests| then RequestNotFound else RatingCreatorOnly)
  {
  }

  /** From any state, whoever may make a change and is not disturbed makes it: the request has the status and
      assignee asked for, and the trail one more entry that says so. */
  lemma UpdateSucceeds(staff: Directory, steps: seq<Step>, client: nat, id: nat, user: Option<User>, status: Status,
                       assignee: Option<nat>, stamp: nat, to: Face)
    requires var db := Run(staff, steps).db;
      && id < |db.requests| && CanEdit(db.requests[id], user) && AsksFor(db.requests[id], status, assignee, to)
      && (assignee.Some? ==> CanHandle(staff, assignee.value, db.requests[id].tenant))
      && !(to.status == Assigned && to.assignee == None) && to != db.requests[id].face
    ensures var db := Run(staff, steps).db;
      var start := StartUpdate(client, id, user, status, assignee, None);
      var next := Run(staff, steps + [start] + [Finish(client, stamp)]).db;
      && next.requests == db.requests[id := db.requests[id].(face := to, updatedAt := stamp)]
      && |next.audit| == |db.audit| + 1 && db.audit <= next.audit
      && next.audit[|db.audit|].request == id
      && next.audit[|db.audit|].from == db.requests[id].face && next.audit[|db.audit|].to == to
  {
    var s := Run(staff, steps);
    var start := StartUpdate(client, id, user, status, assignee, None);
    UpdateBeginsIff(s.db, staff, id, user, status, assignee, None);
    UpdateHolds(s.db, staff, id, user, status, assignee, None);
    RunSnoc(staff, steps, start);
    RunSnoc(staff, steps + [start], Finish(client, stamp));
    var a := BeginUpdate(s.db, staff, id, user, status, assignee, None).value.value;
    assert a.to == to;
    HeldUpdateCommits(staff, s, client, a, stamp);
  }

  lemma HeldUpdateCommits(staff: Directory, s: System, client: nat, a: Attempt, stamp: nat)
    requires a.Updating? && a.id < |s.db.requests| && a.seen == s.db.requests[a.id]
    ensures Next(staff, Held(s, client, Ok(Some(a))), Finish(client, stamp)).db == Db(
      s.db.requests[a.id := s.db.requests[a.id].(face := a.to, updatedAt := stamp)],
      s.db.audit + [Change(a.id, a.actor, a.seen.face, a.to)])
  {
  }

  /** A new request is pending, of the tenant and its creator, assigned to nobody and rated by nobody; the
      others stay as they were. */
  lemma CreateTakesEffect(staff: Directory, steps: seq<Step>, tenant: nat, creator: nat, stamp: nat)
    ensures var (db, next) := (Run(staff, steps).db, Run(staff, steps + [Create(tenant, creator, stamp)]).db);
      && next.requests == db.requests + [Request(tenant, creator, Face(Pending, None), stamp, None, None)]
      && next.audit == db.audit
  {
    RunSnoc(staff, steps, Create(tenant, creator, stamp));
  }
}
