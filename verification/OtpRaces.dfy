/** Calls on one phone number as they are: each reads Redis, decides, and writes later, and nothing keeps
    two of them apart. A run is a history of `Otp` exactly if every call, when it writes, would still decide
    the same; its bounds then hold. In other runs a code can be accepted twice, and guessed any number of
    times for one counted miss. */
module OtpRaces {
  import opened Prelude
  import opened Otp

  /** What a call is going to write; a key's life is counted from the time of writing. */
  datatype Write = Keep | Put(slot: Slot, life: nat) | Drop | LockOut(until: nat)

  /** A call between its reads and its write. */
  datatype Flight = Flight(asks: bool, now: nat, code: string, write: Write, outcome: Outcome)

  /** One number, the clock, the calls in flight by client, and the answers given so far. */
  datatype World = World(phone: Phone, clock: nat, flights: map<nat, Flight>, outcomes: seq<Outcome>)

  function Asked(p: Phone, now: nat, code: string): Flight {
    if IsLocked(p, now) then Flight(true, now, code, Keep, Locked)
    else if p.otp.Some? && now < p.otp.value.keyUntil && now < p.otp.value.lastRequestedAt + RESEND_AFTER
      then Flight(true, now, code, Keep, TooSoon)
    else Flight(true, now, code, Put(Slot(code, now + OTP_TTL, now, 0, 0), OTP_TTL), Issued)
  }

  function Checked(p: Phone, now: nat, code: string): Flight {
    if IsLocked(p, now) then Flight(false, now, code, Keep, Locked)
    else if p.otp == None || p.otp.value.keyUntil <= now then Flight(false, now, code, Keep, NoCode)
    else
      var slot := p.otp.value;
      if slot.expiresAt < now then Flight(false, now, code, Drop, NoCode)
      else if |code| == |slot.code| && !IsAscii(code) then Flight(false, now, code, Keep, Crashed)
      else if code == slot.code then Flight(false, now, code, Drop, Matched)
      else if slot.attempts + 1 >= MAX_ATTEMPTS then Flight(false, now, code, LockOut(now + LOCKOUT_TTL), MissedLast)
      else
        Flight(false, now, code, Put(slot.(attempts := slot.attempts + 1), RemainingLife(slot.expiresAt, now)),
               Missed(MAX_ATTEMPTS - (slot.attempts + 1)))
  }

  function Written(p: Phone, w: Write, at: nat): Phone {
    match w
    case Keep => p
    case Put(slot, life) => p.(otp := Some(slot.(keyUntil := at + life)))
    case Drop => p.(otp := None)
    case LockOut(until) => Phone(None, Some(Lock(until, at + LOCKOUT_TTL)))
  }

  datatype Step =
    | ReadToAsk(client: nat, code: string)
    | ReadToCheck(client: nat, code: string)
    | Finish(client: nat)
    | Tick(ms: nat)

  datatype Steps = Begin | After(before: Steps, step: Step)

  const FRESH := World(Phone(None, None), 0, map[], [])

  function Next(w: World, step: Step): World {
    match step
    case ReadToAsk(client, code) =>
      if client in w.flights then w else w.(flights := w.flights[client := Asked(w.phone, w.clock, code)])
    case ReadToCheck(client, code) =>
      if client in w.flights then w else w.(flights := w.flights[client := Checked(w.phone, w.clock, code)])
    case Finish(client) =>
      if client !in w.flights then w
      else w.(phone := Written(w.phone, w.flights[client].write, w.clock), flights := w.flights - {client},
              outcomes := w.outcomes + [w.flights[client].outcome])
    case Tick(ms) => w.(clock := w.clock + ms)
  }

  function Run(steps: Steps): World {
    if steps == Begin then FRESH else Next(Run(steps.before), steps.step)
  }

  // ---------------------------------------------------------------- calls that do not overlap

  function CallOf(f: Flight, done: nat): Call {
    if f.asks then Call.Ask(f.now, done, f.code) else Call.Check(f.now, done, f.code)
  }

  function FlightOf(p: Phone, asks: bool, now: nat, code: string): Flight {
    if asks then Asked(p, now, code) else Checked(p, now, code)
  }

  /** Reading, deciding and writing, with nothing in between, is the one step of `Otp`. */
  lemma FlightIsAnswer(p: Phone, asks: bool, now: nat, code: string, done: nat)
    ensures var f := FlightOf(p, asks, now, code);
      && f.asks == asks && f.now == now && f.code == code
      && CallOf(f, done) == (if asks then Call.Ask(now, done, code) else Call.Check(now, done, code))
      && Answer(p, CallOf(f, done)) == (Written(p, f.write, done), f.outcome)
  {
  }

  predicate NoOverlap(steps: Steps) {
    steps.After? ==>
      NoOverlap(steps.before) &&
      (steps.step.ReadToAsk? || steps.step.ReadToCheck? ==> Run(steps.before).flights == map[])
  }

  /** The finished calls of a run, in order. */
  function History(steps: Steps): Calls {
    if steps == Begin then Calls.Start
    else
      var (w, calls) := (Run(steps.before), History(steps.before));
      if steps.step.Finish? && steps.step.client in w.flights
      then Calls.Then(calls, CallOf(w.flights[steps.step.client], w.clock)) else calls
  }

  function Answers(calls: Calls): seq<Outcome> {
    if calls == Calls.Start then [] else Answers(calls.before) + [Last(calls)]
  }

  /** The number is where the finished calls left it; at most one call is in flight and saw just that. */
  predicate Serial(w: World, calls: Calls) {
    && w.phone == Otp.Run(calls) && w.outcomes == Answers(calls) && Ordered(calls) && Clock(calls) <= w.clock
    && (forall c, d :: c in w.flights && d in w.flights ==> c == d)
    && (forall c :: c in w.flights ==>
         var f := w.flights[c]; f == FlightOf(w.phone, f.asks, f.now, f.code) && Clock(calls) <= f.now <= w.clock)
  }

  lemma FinishStaysSerial(w: World, calls: Calls, client: nat)
    requires Serial(w, calls) && client in w.flights
    ensures Serial(Next(w, Finish(client)), Calls.Then(calls, CallOf(w.flights[client], w.clock)))
  {
    var f := w.flights[client];
    FlightIsAnswer(w.phone, f.asks, f.now, f.code, w.clock);
  }

  /** Every run in which calls on the number do not overlap is one of the histories that `Otp` bounds: the
      same answers, the same state. */
  lemma {:induction false} NoOverlapIsSerial(steps: Steps)
    requires NoOverlap(steps)
    ensures Serial(Run(steps), History(steps))
  {
    if steps.After? {
      NoOverlapIsSerial(steps.before);
      var w := Run(steps.before);
      if steps.step.Finish? && steps.step.client in w.flights {
        FinishStaysSerial(w, History(steps.before), steps.step.client);
      }
    }
  }

  // ---------------------------------------------------------------- calls that may overlap

  /** The call would decide the same on the number as it is when the call writes: the same answer, and the
      same number afterwards. */
  predicate StillRight(w: World, client: nat)
    requires client in w.flights
  {
    var f := w.flights[client];
    var g := FlightOf(w.phone, f.asks, f.now, f.code);
    f.outcome == g.outcome && Written(w.phone, f.write, w.clock) == Written(w.phone, g.write, w.clock)
  }

  predicate Undisturbed(steps: Steps) {
    steps.After? ==>
      && Undisturbed(steps.before)
      && (steps.step.Finish? && steps.step.client in Run(steps.before).flights ==>
            StillRight(Run(steps.before), steps.step.client))
  }

  /** Number and answers are those of the finished calls one after the other. */
  predicate IsHistory(w: World, calls: Calls) {
    w.phone == Otp.Run(calls) && w.outcomes == Answers(calls)
  }

  predicate HistoryThroughout(steps: Steps) {
    IsHistory(Run(steps), History(steps)) && (steps.After? ==> HistoryThroughout(steps.before))
  }

  lemma FinishIsNextCallIff(w: World, calls: Calls, client: nat)
    requires IsHistory(w, calls) && client in w.flights
    ensures IsHistory(Next(w, Finish(client)), Calls.Then(calls, CallOf(w.flights[client], w.clock)))
      <==> StillRight(w, client)
  {
    var f := w.flights[client];
    FlightIsAnswer(w.phone, f.asks, f.now, f.code, w.clock);
    assert Answers(calls) + [f.outcome] == Answers(calls) + [Last(Calls.Then(calls, CallOf(f, w.clock)))]
      <==> f.outcome == Last(Calls.Then(calls, CallOf(f, w.clock))) by {
      assert (Answers(calls) + [f.outcome])[|Answers(calls)|] == f.outcome;
    }
  }

  /** Over all runs, however the calls overlap: after every step the number and the answers are those of
      the finished calls one after the other, if and only if no call writes what it would no longer decide. */
  lemma {:induction false} HistoryThroughoutIff(steps: Steps)
    ensures HistoryThroughout(steps) <==> Undisturbed(steps)
  {
    if steps.After? {
      HistoryThroughoutIff(steps.before);
      var w := Run(steps.before);
      if steps.step.Finish? && steps.step.client in w.flights && IsHistory(w, History(steps.before)) {
        FinishIsNextCallIff(w, History(steps.before), steps.step.client);
      }
    }
  }

  /** Calls are answered in the order in which they began. */
  predicate InTurn(steps: Steps) {
    steps.After? ==>
      && InTurn(steps.before)
      && (steps.step.Finish? && steps.step.client in Run(steps.before).flights ==>
            Clock(History(steps.before)) <= Run(steps.before).flights[steps.step.client].now)
  }

  lemma {:induction false} FlightsHaveBegun(steps: Steps)
    ensures forall c :: c in Run(steps).flights ==> Run(steps).flights[c].now <= Run(steps).clock
  {
    if steps.After? {
      FlightsHaveBegun(steps.before);
    }
  }

  lemma {:induction false} InTurnIsOrdered(steps: Steps)
    requires InTurn(steps)
    ensures Ordered(History(steps)) && Clock(History(steps)) <= Run(steps).clock
  {
    if steps.After? {
      InTurnIsOrdered(steps.before);
      FlightsHaveBegun(steps.before);
    }
  }

  lemma {:induction false} NoOverlapIsUndisturbed(steps: Steps)
    requires NoOverlap(steps)
    ensures Undisturbed(steps) && InTurn(steps)
  {
    if steps.After? {
      NoOverlapIsUndisturbed(steps.before);
      NoOverlapIsSerial(steps.before);
    }
  }

  // ---------------------------------------------------------------- what such runs keep

  function MissCount(outcomes: seq<Outcome>): nat {
    if outcomes == [] then 0
    else MissCount(outcomes[..|outcomes| - 1]) + if IsMiss(outcomes[|outcomes| - 1]) then 1 else 0
  }

  function MatchCount(outcomes: seq<Outcome>): nat {
    if outcomes == [] then 0
    else MatchCount(outcomes[..|outcomes| - 1]) + if outcomes[|outcomes| - 1] == Matched then 1 else 0
  }

  /** The answers since some call, if no code was issued among them, are all about one code. */
  lemma {:induction false} SinceIssueIsOfCode(calls: Calls, i: nat)
    requires i <= |Answers(calls)| && Issued !in Answers(calls)[i..]
    ensures MissCount(Answers(calls)[i..]) <= MissesOfCode(calls)
    ensures MatchCount(Answers(calls)[i..]) <= MatchesOfCode(calls)
  {
    var all := Answers(calls);
    if i < |all| {
      assert all[i..] == Answers(calls.before)[i..] + [Last(calls)];
      assert all[i..][..|all[i..]| - 1] == Answers(calls.before)[i..];
      assert forall o :: o in Answers(calls.before)[i..] ==> o in all[i..];
      assert Last(calls) in all[i..];
      SinceIssueIsOfCode(calls.before, i);
    }
  }

  lemma {:induction false} CodeIsUsedSparinglyIn(calls: Calls, i: nat, j: nat)
    requires i <= j <= |Answers(calls)| && Issued !in Answers(calls)[i..j]
    ensures MatchCount(Answers(calls)[i..j]) <= 1
    ensures MissCount(Answers(calls)[i..j]) + MatchCount(Answers(calls)[i..j]) <= 3
  {
    if j < |Answers(calls)| {
      assert Answers(calls)[i..j] == Answers(calls.before)[i..j];
      CodeIsUsedSparinglyIn(calls.before, i, j);
    } else {
      assert Answers(calls)[i..j] == Answers(calls)[i..];
      SinceIssueIsOfCode(calls, i);
      CodeIsUsedSparingly(calls);
    }
  }

  /** As long as no call writes what it would no longer decide, a code is accepted at most once and compared
      at most three times, however calls overlap and in whatever order they are answered: so much is
      answered between two issues. */
  lemma UndisturbedUseIsSparing(steps: Steps, i: nat, j: nat)
    requires Undisturbed(steps) && i <= j <= |Run(steps).outcomes| && Issued !in Run(steps).outcomes[i..j]
    ensures MatchCount(Run(steps).outcomes[i..j]) <= 1
    ensures MissCount(Run(steps).outcomes[i..j]) + MatchCount(Run(steps).outcomes[i..j]) <= 3
  {
    HistoryThroughoutIff(steps);
    CodeIsUsedSparinglyIn(History(steps), i, j);
  }

  lemma {:induction false} MissCountIsMisses(calls: Calls)
    ensures Extends(calls, Calls.Start) && MissCount(Answers(calls)) == Misses(calls, Calls.Start)
  {
    if calls.Then? {
      MissCountIsMisses(calls.before);
      assert Answers(calls)[..|Answers(calls)| - 1] == Answers(calls.before);
    }
  }

  lemma {:induction false} MatchFree(calls: Calls)
    requires Extends(calls, Calls.Start) && Matched !in Answers(calls)
    ensures SuccessFree(calls, Calls.Start)
  {
    if calls.Then? {
      assert Answers(calls)[|Answers(calls)| - 1] == Last(calls);
      assert forall o :: o in Answers(calls.before) ==> o in Answers(calls);
      MatchFree(calls.before);
    }
  }

  lemma {:induction false} WithinClock(calls: Calls, clock: nat)
    requires Ordered(calls) && Clock(calls) <= clock && Extends(calls, Calls.Start)
    ensures Within(calls, Calls.Start, 0, clock)
  {
    if calls.Then? {
      WithinClock(calls.before, clock);
    }
  }

  /** While no check succeeds, calls can miss only so often in so much time, if none writes what it would no
      longer decide and they are answered in turn. */
  lemma UndisturbedGuessingBound(steps: Steps)
    requires Undisturbed(steps) && InTurn(steps) && Matched !in Run(steps).outcomes
    ensures MissCount(Run(steps).outcomes) <= 3 * (2 + Run(steps).clock / 60_000)
  {
    HistoryThroughoutIff(steps);
    InTurnIsOrdered(steps);
    HistoryGuessingBound(History(steps), Run(steps).clock);
  }

  lemma HistoryGuessingBound(calls: Calls, clock: nat)
    requires Ordered(calls) && Clock(calls) <= clock && Matched !in Answers(calls)
    ensures MissCount(Answers(calls)) <= 3 * (2 + clock / 60_000)
  {
    MissCountIsMisses(calls);
    MatchFree(calls);
    WithinClock(calls, clock);
    GuessingBound(calls, Calls.Start, 0, clock);
  }

  /** That covers all calls that do not overlap. */
  lemma SerialGuessingBound(steps: Steps)
    requires NoOverlap(steps) && Matched !in Run(steps).outcomes
    ensures MissCount(Run(steps).outcomes) <= 3 * (2 + Run(steps).clock / 60_000)
  {
    NoOverlapIsUndisturbed(steps);
    UndisturbedGuessingBound(steps);
  }

  // ---------------------------------------------------------------- calls that disturb each other

  const RIGHT := "123456"
  const WRONG := "000000"

  function Alone(steps: Steps, step: Step): Steps
    requires step.ReadToAsk? || step.ReadToCheck?
  {
    After(After(steps, step), Finish(step.client))
  }

  function IssuedSlot(attempts: nat): Slot {
    Slot(RIGHT, OTP_TTL, 0, attempts, OTP_TTL)
  }

  function WithCode(attempts: nat, flights: map<nat, Flight>, outcomes: seq<Outcome>): World {
    World(Phone(Some(IssuedSlot(attempts)), None), 0, flights, outcomes)
  }

  const RIGHT_FLIGHT := Flight(false, 0, RIGHT, Drop, Matched)
  const WRONG_FLIGHT := Flight(false, 0, WRONG, Put(IssuedSlot(1), OTP_TTL), Missed(2))

  lemma CodeIsIssued()
    ensures Run(Alone(Begin, ReadToAsk(0, RIGHT))) == WithCode(0, map[], [Issued])
  {
    var asked := Run(After(Begin, ReadToAsk(0, RIGHT)));
    assert asked.flights == map[0 := Flight(true, 0, RIGHT, Put(Slot(RIGHT, OTP_TTL, 0, 0, 0), OTP_TTL), Issued)];
    assert asked.flights - {0} == map[];
    assert [] + [Issued] == [Issued];
  }

  lemma CodeIsChecked(attempts: nat)
    requires attempts < 2
    ensures Checked(Phone(Some(IssuedSlot(attempts)), None), 0, RIGHT) == RIGHT_FLIGHT
    ensures attempts == 0 ==> Checked(Phone(Some(IssuedSlot(attempts)), None), 0, WRONG) == WRONG_FLIGHT
  {
    assert RIGHT[0] != WRONG[0];
  }

  /** Two checks of the right code, both read before either deletes it: both succeed. */
  lemma CodeCanBeUsedTwice()
    ensures exists steps: Steps :: Run(steps).outcomes == [Issued, Matched, Matched]
  {
    var issued := Alone(Begin, ReadToAsk(0, RIGHT));
    CodeIsIssued();
    CodeIsChecked(0);
    var both := After(After(issued, ReadToCheck(1, RIGHT)), ReadToCheck(2, RIGHT));
    assert Run(both) == WithCode(0, map[1 := RIGHT_FLIGHT, 2 := RIGHT_FLIGHT], [Issued]);
    var one := After(both, Finish(1));
    assert Run(one).flights == map[2 := RIGHT_FLIGHT] && Run(one).outcomes == [Issued] + [Matched];
    assert Run(After(one, Finish(2))).outcomes == [Issued] + [Matched] + [Matched] == [Issued, Matched, Matched];
  }

  /** A miss written late puts a code back that was already used: it is accepted again, one call after
      the other. */
  lemma UsedCodeCanComeBack()
    ensures exists steps: Steps :: Run(steps).outcomes == [Issued, Matched, Missed(2), Matched]
  {
    var issued := Alone(Begin, ReadToAsk(0, RIGHT));
    CodeIsIssued();
    CodeIsChecked(0);
    CodeIsChecked(1);
    var both := After(After(issued, ReadToCheck(1, WRONG)), ReadToCheck(2, RIGHT));
    assert Run(both) == WithCode(0, map[1 := WRONG_FLIGHT, 2 := RIGHT_FLIGHT], [Issued]);
    var used := After(both, Finish(2));
    assert Run(used) == World(Phone(None, None), 0, map[1 := WRONG_FLIGHT], [Issued] + [Matched]);
    var back := After(used, Finish(1));
    assert Run(back) == WithCode(1, map[], [Issued] + [Matched] + [Missed(2)]);
    assert Run(Alone(back, ReadToCheck(3, RIGHT))).outcomes == [Issued] + [Matched] + [Missed(2)] + [Matched];
    assert [Issued] + [Matched] + [Missed(2)] + [Matched] == [Issued, Matched, Missed(2), Matched];
  }

  /** Two requests that overlap issue two codes at one time. */
  lemma TwoIssuesAtOnce()
    ensures exists steps: Steps :: Run(steps).outcomes == [Issued, Issued] && Run(steps).clock == 0
  {
    var both := After(After(Begin, ReadToAsk(1, RIGHT)), ReadToAsk(2, WRONG));
    var one := After(both, Finish(1));
    assert Run(one).outcomes == [] + [Issued];
    assert Run(After(one, Finish(2))).outcomes == [] + [Issued] + [Issued] == [Issued, Issued];
  }

  const LATE := Flight(true, 0, WRONG, Put(Slot(WRONG, OTP_TTL, 0, 0, 0), OTP_TTL), Issued)
  const LIVE := Phone(Some(Slot(RIGHT, OTP_TTL, 0, 0, OTP_TTL + 2)), None)

  /** One request has been read and not yet written, and a code was issued at the same time. */
  lemma OneIsLate() returns (steps: Steps)
    ensures Undisturbed(steps) && Run(steps) == World(LIVE, OTP_TTL + 1, map[2 := LATE], [Issued])
  {
    var begun := After(Begin, ReadToAsk(2, WRONG));
    assert Run(begun) == World(Phone(None, None), 0, map[2 := LATE], []);
    var asked := After(After(begun, ReadToAsk(1, RIGHT)), Tick(2));
    var issued := After(asked, Finish(1));
    assert StillRight(Run(asked), 1);
    assert Run(issued) == World(LIVE, 2, map[2 := LATE], [] + [Issued]);
    steps := After(issued, Tick(OTP_TTL - 1));
  }

  /** The order matters for the pace: a request that began with another but writes after that one's code has
      expired issues a second code of the same time, although no call writes what it would no longer decide. */
  lemma LateIssueIsNotApart()
    ensures exists steps: Steps ::
      && Undisturbed(steps) && Run(steps).outcomes == [Issued, NoCode, Issued]
      && Run(steps).phone.otp.Some? && Run(steps).phone.otp.value.lastRequestedAt == 0
  {
    var late := OneIsLate();
    var check := After(late, ReadToCheck(3, RIGHT));
    var dropped := Flight(false, OTP_TTL + 1, RIGHT, Drop, NoCode);
    assert Run(check) == World(LIVE, OTP_TTL + 1, map[2 := LATE, 3 := dropped], [Issued]);
    var expired := After(check, Finish(3));
    assert Run(expired) == World(Phone(None, None), OTP_TTL + 1, map[2 := LATE], [Issued] + [NoCode]);
    var steps := After(expired, Finish(2));
    assert Run(steps).outcomes == [Issued] + [NoCode] + [Issued] == [Issued, NoCode, Issued];
    assert Run(steps).phone == Phone(Some(Slot(WRONG, OTP_TTL, 0, 0, 2 * OTP_TTL + 1)), None);
    assert Undisturbed(expired) && StillRight(Run(expired), 2);
  }

  function Guesses(n: nat): (flights: map<nat, Flight>)
    ensures forall c :: c in flights <==> 1 <= c <= n
  {
    if n == 0 then map[] else Guesses(n - 1)[n := WRONG_FLIGHT]
  }

  lemma {:induction false} ManyRead(n: nat) returns (steps: Steps)
    ensures Run(steps) == WithCode(0, Guesses(n), [Issued])
  {
    if n == 0 {
      CodeIsIssued();
      steps := Alone(Begin, ReadToAsk(0, RIGHT));
    } else {
      var before := ManyRead(n - 1);
      CodeIsChecked(0);
      steps := After(before, ReadToCheck(n, WRONG));
    }
  }

  lemma {:induction false} ManyWrite(
      before: Steps, n: nat, attempts: nat, outcomes: seq<Outcome>) returns (steps: Steps)
    requires attempts <= 1 && Run(before) == WithCode(attempts, Guesses(n), outcomes)
    ensures Run(steps).clock == 0 && |Run(steps).outcomes| == |outcomes| + n && outcomes <= Run(steps).outcomes
    ensures forall k :: |outcomes| <= k < |outcomes| + n ==> Run(steps).outcomes[k] == Missed(2)
    ensures Run(steps).phone.otp.Some? && Run(steps).phone.otp.value.attempts <= 1
    decreases n
  {
    if n == 0 {
      steps := before;
    } else {
      var next := After(before, Finish(n));
      assert Guesses(n) - {n} == Guesses(n - 1);
      assert Run(next) == WithCode(1, Guesses(n - 1), outcomes + [Missed(2)]);
      steps := ManyWrite(next, n - 1, 1, outcomes + [Missed(2)]);
    }
  }

  /** Any number of wrong guesses of one code, at one time, of which the code's counter keeps one: for
      calls that overlap there is no bound. */
  lemma OverlappingGuessesAreUnbounded(n: nat)
    ensures exists steps: Steps ::
      && Run(steps).clock == 0 && |Run(steps).outcomes| == n + 1 && Run(steps).outcomes[0] == Issued
      && (forall k :: 1 <= k <= n ==> Run(steps).outcomes[k] == Missed(2))
      && Run(steps).phone.otp.Some? && Run(steps).phone.otp.value.attempts <= 1
  {
    var read := ManyRead(n);
    var steps := ManyWrite(read, n, 0, [Issued]);
    assert Run(steps).outcomes[0] == [Issued][0];
  }
}
