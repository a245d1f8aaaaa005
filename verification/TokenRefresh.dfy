/** Silent token refresh of the mobile client: one refresh at a time, others wait in a queue. */
module TokenRefresh {
  /** A failed response; `request` identifies the request configuration that carries the retry mark. */
  datatype Failure = Failure(request: nat, unauthorized: bool, authEndpoint: bool)

  datatype Outcome = Resolved(token: nat) | Rejected(error: nat)

  /** The code of a refresh runs in two parts: up to the refresh answer, and while tokens are cleared. */
  datatype Phase = Calling | Clearing

  /** A queued promise: its request, how many times the queue was processed before it joined, and
      whether it joined while tokens were being cleared. */
  datatype Waiter = Waiter(request: nat, round: nat, late: bool)

  datatype Settlement = Settlement(waiter: Waiter, round: nat, outcome: Outcome)

  /** `isRefreshing` and `failedQueue` are the module's variables and `retried` the requests marked
      `_retry`; the rest is what happened: refreshes started and still running, waiters joined and
      settled, and how often the queue was processed. */
  datatype Client = Client(
    isRefreshing: bool, failedQueue: seq<Waiter>, retried: set<nat>,
    running: map<nat, Phase>, started: seq<nat>, joined: seq<Waiter>, settled: seq<Settlement>, rounds: nat)

  const IDLE := Client(false, [], {}, map[], [], [], [], 0)

  // ---------------------------------------------------------------- the steps between two awaits

  datatype Event =
    | Fails(failure: Failure)
    | Refreshed(request: nat, token: nat)
    | RefreshFailed(request: nat, error: nat)
    | Cleared(request: nat)

  datatype Reaction = Rejects | Waits | Refreshes

  function React(c: Client, f: Failure): Reaction {
    if !f.unauthorized || f.authEndpoint || f.request in c.retried then Rejects
    else if c.isRefreshing then Waits
    else Refreshes
  }

  predicate IsClearing(c: Client) {
    exists r :: r in c.running && c.running[r] == Clearing
  }

  function Failed(c: Client, f: Failure): Client {
    match React(c, f)
    case Rejects => c
    case Waits =>
      var w := Waiter(f.request, c.rounds, IsClearing(c));
      c.(failedQueue := c.failedQueue + [w], joined := c.joined + [w])
    case Refreshes => c.(
      isRefreshing := true, retried := c.retried + {f.request},
      running := c.running[f.request := Calling], started := c.started + [f.request])
  }

  function Settlements(queue: seq<Waiter>, round: nat, outcome: Outcome): (s: seq<Settlement>)
    ensures |s| == |queue|
    ensures forall i :: 0 <= i < |s| ==> s[i] == Settlement(queue[i], round, outcome)
  {
    seq(|queue|, i requires 0 <= i < |queue| => Settlement(queue[i], round, outcome))
  }

  function Processed(c: Client, outcome: Outcome): Client {
    c.(failedQueue := [], settled := c.settled + Settlements(c.failedQueue, c.rounds, outcome), rounds := c.rounds + 1)
  }

  /** What an event does; an event no running refresh can cause does nothing. */
  function Next(c: Client, e: Event): Client {
    match e
    case Fails(f) => Failed(c, f)
    case Refreshed(r, token) =>
      if r in c.running && c.running[r] == Calling
      then Processed(c, Resolved(token)).(running := c.running - {r}, isRefreshing := false) else c
    case RefreshFailed(r, error) =>
      if r in c.running && c.running[r] == Calling
      then Processed(c, Rejected(error)).(running := c.running[r := Clearing]) else c
    case Cleared(r) =>
      if r in c.running && c.running[r] == Clearing
      then c.(running := c.running - {r}, isRefreshing := false) else c
  }

  class TokenRefresher {
    var isRefreshing: bool
    var failedQueue: seq<Waiter>
    var retried: set<nat>
    var running: map<nat, Phase>
    var started: seq<nat>
    var joined: seq<Waiter>
    var settled: seq<Settlement>
    var rounds: nat

    function State(): Client
      reads this
    {
      Client(isRefreshing, failedQueue, retried, running, started, joined, settled, rounds)
    }

    constructor ()
      ensures State() == IDLE
    {
      isRefreshing, failedQueue, retried, running, started, joined, settled, rounds :=
        false, [], {}, map[], [], [], [], 0;
    }

    method ProcessQueue(outcome: Outcome)
      modifies this`failedQueue, this`settled, this`rounds
      ensures State() == Processed(old(State()), outcome)
    {
      for i := 0 to |failedQueue|
        invariant failedQueue == old(failedQueue) && rounds == old(rounds)
        invariant settled == old(settled) + Settlements(failedQueue[..i], rounds, outcome)
      {
        settled := settled + [Settlement(failedQueue[i], rounds, outcome)];
      }
      assert failedQueue[..|failedQueue|] == failedQueue;
      failedQueue, rounds := [], rounds + 1;
    }

    /** The response interceptor up to its first await. */
    method OnFailure(f: Failure) returns (reaction: Reaction)
      modifies this
      ensures reaction == React(old(State()), f)
      ensures State() == Next(old(State()), Fails(f))
    {
      if !f.unauthorized { return Rejects; }
      if f.authEndpoint { return Rejects; }
      if f.request in retried { return Rejects; }
      if isRefreshing {
        var w := Waiter(f.request, rounds, IsClearing(State()));
        failedQueue, joined := failedQueue + [w], joined + [w];
        return Waits;
      }
      retried := retried + {f.request};
      isRefreshing := true;
      running, started := running[f.request := Calling], started + [f.request];
      return Refreshes;
    }

    /** The refresh answered and the new tokens are saved. */
    method OnRefreshed(request: nat, token: nat)
      requires request in running && running[request] == Calling
      modifies this
      ensures State() == Next(old(State()), Refreshed(request, token))
    {
      ProcessQueue(Resolved(token));
      running := running - {request};
      isRefreshing := false;
    }

    /** The refresh failed: the queue is rejected, then clearing the tokens is awaited. */
    method OnRefreshFailed(request: nat, error: nat)
      requires request in running && running[request] == Calling
      modifies this
      ensures State() == Next(old(State()), RefreshFailed(request, error))
    {
      ProcessQueue(Rejected(error));
      running := running[request := Clearing];
    }

    method OnCleared(request: nat)
      requires request in running && running[request] == Clearing
      modifies this
      ensures State() == Next(old(State()), Cleared(request))
    {
      running := running - {request};
      isRefreshing := false;
    }
  }

  // ---------------------------------------------------------------- every interleaving

  datatype Events = Start | Then(before: Events, event: Event)

  function Run(events: Events): Client {
    if events == Start then IDLE else Next(Run(events.before), events.event)
  }

  /** At most one refresh runs, and the flag says whether one does. */
  predicate SingleFlight(c: Client) {
    && (c.isRefreshing <==> c.running != map[])
    && (forall r, q :: r in c.running && q in c.running ==> r == q)
  }

  /** Nobody refreshes twice for one request. */
  predicate OncePerRequest(c: Client) {
    && (forall r :: r in c.running ==> r in c.retried)
    && (forall i :: 0 <= i < |c.started| ==> c.started[i] in c.retried)
    && (forall i, j :: 0 <= i < j < |c.started| ==> c.started[i] != c.started[j])
  }

  /** The waiters are settled in the order they joined, each once, and by the first processing of the
      queue after it joined; those not settled yet are the queue. */
  predicate InOrder(c: Client) {
    && |c.joined| == |c.settled| + |c.failedQueue|
    && (forall k :: 0 <= k < |c.settled| ==>
      c.settled[k].waiter == c.joined[k] && c.settled[k].round == c.joined[k].round)
    && (forall k :: 0 <= k < |c.failedQueue| ==>
         c.failedQueue[k] == c.joined[|c.settled| + k] && c.failedQueue[k].round == c.rounds)
  }

  /** While nothing is being called, whoever waits joined while tokens were being cleared. */
  predicate LeftoversAreLate(c: Client) {
    (forall r :: r in c.running ==> c.running[r] == Clearing) ==>
      forall k :: 0 <= k < |c.failedQueue| ==> c.failedQueue[k].late
  }

  lemma StepKeepsSingleFlight(c: Client, e: Event)
    requires SingleFlight(c)
    ensures SingleFlight(Next(c, e))
  {
    match e
    case Fails(f) =>
      if React(c, f) == Refreshes {
        assert f.request in c.running[f.request := Calling];
      }
    case RefreshFailed(r, _) =>
      assert r in c.running ==> r in c.running[r := Clearing];
    case Refreshed(r, _) =>
      assert r in c.running ==> c.running - {r} == map[];
    case Cleared(r) =>
      assert r in c.running ==> c.running - {r} == map[];
  }

  lemma StepKeepsOnce(c: Client, e: Event)
    requires SingleFlight(c) && OncePerRequest(c)
    ensures OncePerRequest(Next(c, e))
  {
  }

  lemma ProcessingKeepsInOrder(c: Client, outcome: Outcome)
    requires InOrder(c)
    ensures InOrder(Processed(c, outcome))
  {
    var next := Processed(c, outcome);
    forall k | 0 <= k < |next.settled|
      ensures next.settled[k].waiter == next.joined[k] && next.settled[k].round == next.joined[k].round
    {
      if k >= |c.settled| {
        var i := k - |c.settled|;
        assert next.settled[k] == Settlement(c.failedQueue[i], c.rounds, outcome);
        assert c.failedQueue[i] == c.joined[|c.settled| + i];
      }
    }
  }

  lemma StepKeepsInOrder(c: Client, e: Event)
    requires InOrder(c)
    ensures InOrder(Next(c, e))
  {
    match e
    case Refreshed(_, token) => ProcessingKeepsInOrder(c, Resolved(token));
    case RefreshFailed(_, error) => ProcessingKeepsInOrder(c, Rejected(error));
    case _ =>
  }

  lemma StepKeepsLate(c: Client, e: Event)
    requires SingleFlight(c) && LeftoversAreLate(c)
    ensures LeftoversAreLate(Next(c, e))
  {
    var next := Next(c, e);
    if e.Fails? && React(c, e.failure) == Waits && (forall r :: r in next.running ==> next.running[r] == Clearing) {
      assert c.running != map[];
      var r :| r in c.running;
      assert c.running[r] == Clearing;
    }
    if e.Fails? && React(c, e.failure) == Refreshes {
      assert e.failure.request in next.running;
    }
  }

  /** In every interleaving: one refresh at a time, each waiter settled once and in order by the next
      processing of the queue, no request refreshing twice, and stranded waiters only late ones. */
  lemma {:induction false} EveryRunIsOk(events: Events)
    ensures var c := Run(events); SingleFlight(c) && OncePerRequest(c) && InOrder(c) && LeftoversAreLate(c)
  {
    if events.Then? {
      EveryRunIsOk(events.before);
      var c := Run(events.before);
      StepKeepsSingleFlight(c, events.event);
      StepKeepsOnce(c, events.event);
      StepKeepsInOrder(c, events.event);
      StepKeepsLate(c, events.event);
    }
  }

  /** Once a refresh answers, nobody who joined before waits any longer. */
  lemma {:induction false} AnswerSettlesAll(events: Events, answer: Event)
    requires answer.Refreshed? || answer.RefreshFailed?
    requires answer.request in Run(events).running && Run(events).running[answer.request] == Calling
    ensures var (c, next) := (Run(events), Run(Then(events, answer)));
      && next.failedQueue == [] && next.joined == c.joined && |next.settled| == |c.joined|
      && forall k :: |c.settled| <= k < |c.joined| ==>
           next.settled[k].outcome == if answer.Refreshed? then Resolved(answer.token) else Rejected(answer.error)
  {
    EveryRunIsOk(events);
  }

  /** When a refresh ends, the queue is left empty exactly when it succeeded or nobody joined since it failed. */
  lemma {:induction false} LeftEmptyIff(events: Events, end: Event)
    requires end.Refreshed? || end.Cleared?
    requires var c := Run(events);
      end.request in c.running && c.running[end.request] == if end.Refreshed? then Calling else Clearing
    ensures var next := Run(Then(events, end));
      && !next.isRefreshing
      && (next.failedQueue == [] <==> end.Refreshed? || JoinedSince(events) == 0)
  {
    EveryRunIsOk(events);
    if end.Cleared? {
      QueueIsJoinedSince(events);
    }
  }

  /** How many waiters joined since a refresh last answered. */
  function JoinedSince(events: Events): nat {
    if events == Start then 0
    else
      var c := Run(events.before);
      match events.event
      case Fails(f) => JoinedSince(events.before) + if React(c, f) == Waits then 1 else 0
      case Cleared(_) => JoinedSince(events.before)
      case _ => if Next(c, events.event) == c then JoinedSince(events.before) else 0
  }

  lemma {:induction false} QueueIsJoinedSince(events: Events)
    ensures |Run(events).failedQueue| == JoinedSince(events)
  {
    if events.Then? {
      QueueIsJoinedSince(events.before);
    }
  }

  /** A waiter that joins while the tokens are cleared is left behind when the refresh ends. */
  lemma WaiterCanBeStranded()
    ensures exists events: Events :: !Run(events).isRefreshing && Run(events).failedQueue != []
  {
    var one := Then(Start, Fails(Failure(1, true, false)));
    var two := Then(one, RefreshFailed(1, 7));
    var three := Then(two, Fails(Failure(2, true, false)));
    var four := Then(three, Cleared(1));
    assert Run(one).running == map[1 := Calling];
    assert Run(two).running == map[1 := Clearing] && Run(two).isRefreshing;
    assert |Run(three).failedQueue| == 1;
    assert !Run(four).isRefreshing && Run(four).failedQueue != [];
  }

  // ---------------------------------------------------------------- who refreshes, who waits

  lemma {:induction false} RetriedHaveStarted(events: Events)
    ensures forall r :: r in Run(events).retried <==> r in Run(events).started
  {
    if events.Then? {
      RetriedHaveStarted(events.before);
    }
  }

  /** A failure is passed on exactly if it is not a 401, comes from an authentication endpoint, or its request has
      started a refresh before. Any other joins the queue if a refresh is running, and starts one if none is. */
  lemma FailureIsHandled(events: Events, f: Failure)
    ensures var (c, next) := (Run(events), Run(Then(events, Fails(f))));
      if !f.unauthorized || f.authEndpoint || f.request in c.started then React(c, f) == Rejects && next == c
      else if c.running != map[] then
        && React(c, f) == Waits && next.running == c.running && next.started == c.started
        && |next.failedQueue| == |c.failedQueue| + 1 && next.settled == c.settled
        && next.failedQueue[|c.failedQueue|].request == f.request
      else
        && React(c, f) == Refreshes && next.running == map[f.request := Calling] && next.isRefreshing
        && next.started == c.started + [f.request] && next.failedQueue == c.failedQueue && next.settled == c.settled
  {
    RetriedHaveStarted(events);
    EveryRunIsOk(events);
  }

  /** A refresh that succeeds ends; one that fails goes on, as refreshing, until its tokens are cleared. */
  lemma RefreshEnds(events: Events, request: nat, token: nat, error: nat)
    requires request in Run(events).running && Run(events).running[request] == Calling
    ensures var (good, bad) := (Then(events, Refreshed(request, token)), Then(events, RefreshFailed(request, error)));
      && Run(good).running == map[] && !Run(good).isRefreshing
      && Run(bad).running == map[request := Clearing] && Run(bad).isRefreshing
      && Run(Then(bad, Cleared(request))).running == map[] && !Run(Then(bad, Cleared(request))).isRefreshing
  {
    EveryRunIsOk(events);
    var c := Run(events);
    assert c.running.Keys == {request};
    assert c.running - {request} == map[];
    assert c.running[request := Clearing] == map[request := Clearing];
    assert map[request := Clearing] - {request} == map[];
  }

  /** An event no running refresh can cause changes nothing. */
  lemma StrayAnswersDoNothing(events: Events, e: Event)
    requires !e.Fails?
    requires var c := Run(events);
      e.request !in c.running || c.running[e.request] != if e.Cleared? then Clearing else Calling
    ensures Run(Then(events, e)) == Run(events)
  {
  }
}
