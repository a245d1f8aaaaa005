/** One-time codes by SMS: issuing, checking, counting misses and locking a phone number out. A call reads
    the clock and Redis at `now` and writes to Redis at `done`; here each call finds the number as the one
    answered before it left it. `OtpRaces` says which runs that covers, and what happens in the others. */
module Otp {
  import opened Prelude
  import opened Rounding

  /** Times in milliseconds. */
  const OTP_TTL := 300_000
  const LOCKOUT_TTL := 600_000
  const RESEND_AFTER := 60_000
  const MAX_ATTEMPTS := 3

  /** A code, with the time its Redis key vanishes. */
  datatype Slot = Slot(code: string, expiresAt: nat, lastRequestedAt: nat, attempts: nat, keyUntil: nat)

  /** A lockout, with the time its Redis key vanishes. */
  datatype Lock = Lock(lockedUntil: nat, keyUntil: nat)

  /** What Redis holds about one phone number. */
  datatype Phone = Phone(otp: Option<Slot>, lock: Option<Lock>)

  datatype Outcome =
    | Issued | Locked | TooSoon | NoCode | Matched | Missed(remaining: nat) | MissedLast | Crashed

  // ---------------------------------------------------------------- the operations

  predicate IsLocked(p: Phone, now: nat) {
    p.lock.Some? && now < p.lock.value.keyUntil && now < p.lock.value.lockedUntil
  }

  /** Strings are sequences of UTF-16 units; comparing buffers of unequal byte length throws. */
  predicate IsAscii(s: string) {
    forall i :: 0 <= i < |s| ==> s[i] < 128 as char
  }

  function Request(p: Phone, now: nat, done: nat, code: string): (Phone, Outcome) {
    if IsLocked(p, now) then (p, Locked)
    else if p.otp.Some? && now < p.otp.value.keyUntil && now < p.otp.value.lastRequestedAt + RESEND_AFTER then
      (p, TooSoon)
    else (p.(otp := Some(Slot(code, now + OTP_TTL, now, 0, done + OTP_TTL))), Issued)
  }

  /** The remaining life of a code's key when a miss is written, in whole seconds and at least one. */
  function RemainingLife(expiresAt: nat, now: nat): (life: nat)
    ensures life % 1000 == 0 && expiresAt - now <= life
    ensures life <= 1000 || life < expiresAt - now + 1000
  {
    if CeilDiv(expiresAt - now, 1000) < 1 then 1000 else 1000 * CeilDiv(expiresAt - now, 1000)
  }

  function Verify(p: Phone, now: nat, done: nat, code: string): (Phone, Outcome) {
    if IsLocked(p, now) then (p, Locked)
    else if p.otp == None || p.otp.value.keyUntil <= now then (p, NoCode)
    else
      var slot := p.otp.value;
      if slot.expiresAt < now then (p.(otp := None), NoCode)
      else if |code| == |slot.code| && !IsAscii(code) then (p, Crashed)
      else if code == slot.code then (p.(otp := None), Matched)
      else if slot.attempts + 1 >= MAX_ATTEMPTS then
        (Phone(None, Some(Lock(now + LOCKOUT_TTL, done + LOCKOUT_TTL))), MissedLast)
      else
        (p.(otp := Some(slot.(attempts := slot.attempts + 1, keyUntil := done + RemainingLife(slot.expiresAt, now)))),
         Missed(MAX_ATTEMPTS - (slot.attempts + 1)))
  }

  class AuthService {
    var otps: map<string, Slot>
    var locks: map<string, Lock>

    function PhoneOf(phone: string): Phone
      reads this
    {
      Phone(if phone in otps then Some(otps[phone]) else None, if phone in locks then Some(locks[phone]) else None)
    }

    constructor ()
      ensures forall phone :: PhoneOf(phone) == Phone(None, None)
    {
      otps, locks := map[], map[];
    }

    /** `code` is the random six-digit code. */
    method RequestOtp(phone: string, now: nat, done: nat, code: string) returns (outcome: Outcome)
      modifies this
      ensures (PhoneOf(phone), outcome) == Request(old(PhoneOf(phone)), now, done, code)
      ensures forall other :: other != phone ==> PhoneOf(other) == old(PhoneOf(other))
    {
      if phone in locks && now < locks[phone].keyUntil {
        if locks[phone].lockedUntil > now { return Locked; }
      }
      if phone in otps && now < otps[phone].keyUntil {
        if now - otps[phone].lastRequestedAt < RESEND_AFTER { return TooSoon; }
      }
      var expiresAt := now + OTP_TTL;
      otps := otps[phone := Slot(code, expiresAt, now, 0, done + OTP_TTL)];
      return Issued;
    }

    method VerifyOtpCode(phone: string, now: nat, done: nat, code: string) returns (outcome: Outcome)
      modifies this
      ensures (PhoneOf(phone), outcome) == Verify(old(PhoneOf(phone)), now, done, code)
      ensures forall other :: other != phone ==> PhoneOf(other) == old(PhoneOf(other))
    {
      if phone in locks && now < locks[phone].keyUntil {
        if locks[phone].lockedUntil > now { return Locked; }
      }
      if phone !in otps || otps[phone].keyUntil <= now { return NoCode; }
      var record := otps[phone];
      if record.expiresAt < now {
        otps := otps - {phone};
        return NoCode;
      }
      if |record.code| == |code| && !IsAscii(code) { return Crashed; }
      if record.code != code {
        record := record.(attempts := record.attempts + 1);
        if record.attempts >= MAX_ATTEMPTS {
          otps := otps - {phone};
          var lockedUntil := now + LOCKOUT_TTL;
          locks := locks[phone := Lock(lockedUntil, done + LOCKOUT_TTL)];
          return MissedLast;
        }
        var seconds := CeilDiv(record.expiresAt - now, 1000);
        if seconds < 1 { seconds := 1; }
        otps := otps[phone := record.(keyUntil := done + 1000 * seconds)];
        return Missed(MAX_ATTEMPTS - record.attempts);
      }
      otps := otps - {phone};
      return Matched;
    }
  }

  // ---------------------------------------------------------------- histories of one number

  datatype Call = Ask(now: nat, done: nat, code: string) | Check(now: nat, done: nat, code: string)
  datatype Calls = Start | Then(before: Calls, call: Call)

  function Answer(p: Phone, call: Call): (Phone, Outcome) {
    if call.Ask? then Request(p, call.now, call.done, call.code) else Verify(p, call.now, call.done, call.code)
  }

  function Run(calls: Calls): Phone {
    if calls == Start then Phone(None, None) else Answer(Run(calls.before), calls.call).0
  }

  function Last(calls: Calls): Outcome
    requires calls.Then?
  {
    Answer(Run(calls.before), calls.call).1
  }

  /** When the last call began. */
  function Clock(calls: Calls): nat {
    if calls == Start then 0 else calls.call.now
  }

  /** No call began before one that is answered earlier. */
  predicate Ordered(calls: Calls) {
    calls.Then? ==> Ordered(calls.before) && Clock(calls.before) <= calls.call.now <= calls.call.done
  }

  predicate IsMiss(o: Outcome) { o.Missed? || o.MissedLast? }

  // ---------------------------------------------------------------- one code

  /** Was a code ever issued? If so, which one last, when, and how often has it been compared since? */
  predicate HasCode(calls: Calls) {
    calls.Then? && (Last(calls) == Issued || HasCode(calls.before))
  }

  function CodeOf(calls: Calls): string
    requires HasCode(calls)
  {
    if Last(calls) == Issued then calls.call.code else CodeOf(calls.before)
  }

  function IssuedAt(calls: Calls): nat
    requires HasCode(calls)
  {
    if Last(calls) == Issued then calls.call.now else IssuedAt(calls.before)
  }

  function MissesOfCode(calls: Calls): nat {
    if calls == Start || Last(calls) == Issued then 0
    else MissesOfCode(calls.before) + if IsMiss(Last(calls)) then 1 else 0
  }

  function MatchesOfCode(calls: Calls): nat {
    if calls == Start || Last(calls) == Issued then 0
    else MatchesOfCode(calls.before) + if Last(calls) == Matched then 1 else 0
  }

  predicate PhoneOk(p: Phone, clock: nat) {
    && (p.otp.Some? ==>
          && p.otp.value.attempts < MAX_ATTEMPTS
          && p.otp.value.lastRequestedAt <= clock
          && p.otp.value.expiresAt == p.otp.value.lastRequestedAt + OTP_TTL <= p.otp.value.keyUntil
          && (p.lock.Some? ==> p.lock.value.lockedUntil <= p.otp.value.lastRequestedAt))
    && (p.lock.Some? ==> p.lock.value.lockedUntil <= p.lock.value.keyUntil)
  }

  /** A code that has neither been accepted nor missed three times. */
  predicate Usable(calls: Calls) {
    HasCode(calls) && MissesOfCode(calls) < MAX_ATTEMPTS && MatchesOfCode(calls) == 0
  }

  predicate UseOk(calls: Calls) {
    var p := Run(calls);
    && MissesOfCode(calls) + MatchesOfCode(calls) <= MAX_ATTEMPTS
    && MatchesOfCode(calls) <= 1
    && (p.otp.Some? ==>
          && HasCode(calls) && MissesOfCode(calls) == p.otp.value.attempts < MAX_ATTEMPTS
          && MatchesOfCode(calls) == 0)
  }

  /** What one answer does to the code and its count of misses. */
  predicate UseStep(p: Phone, q: Phone, o: Outcome) {
    match o
    case Issued => q.otp.Some? && q.otp.value.attempts == 0
    case Matched => p.otp.Some? && q.otp == None
    case Missed(_) =>
      && p.otp.Some? && q.otp.Some?
      && q.otp.value.attempts == p.otp.value.attempts + 1 < MAX_ATTEMPTS
    case MissedLast => p.otp.Some? && q.otp == None
    case _ => q.otp == p.otp || q.otp == None
  }

  lemma AnswerUses(p: Phone, call: Call)
    ensures UseStep(p, Answer(p, call).0, Answer(p, call).1)
  {
  }

  lemma {:induction false} EveryUseIsOk(calls: Calls)
    ensures UseOk(calls)
  {
    if calls.Then? {
      EveryUseIsOk(calls.before);
      AnswerUses(Run(calls.before), calls.call);
      UseStaysOk(calls, Run(calls.before), Run(calls), Last(calls));
    }
  }

  lemma UseStaysOk(calls: Calls, p: Phone, q: Phone, o: Outcome)
    requires calls.Then? && UseOk(calls.before) && UseStep(p, q, o)
    requires p == Run(calls.before) && q == Run(calls) && o == Last(calls)
    ensures UseOk(calls)
  {
  }

  /** Every issued code is compared at most three times in all and accepted at most once, in whatever order
      the calls began. */
  lemma CodeIsUsedSparingly(calls: Calls)
    ensures MatchesOfCode(calls) <= 1 && MissesOfCode(calls) + MatchesOfCode(calls) <= 3
  {
    EveryUseIsOk(calls);
  }

  predicate CodeOk(calls: Calls) {
    var p := Run(calls);
    && UseOk(calls)
    && (p.otp.Some? ==> p.otp.value.code == CodeOf(calls) && p.otp.value.lastRequestedAt == IssuedAt(calls))
    && (Usable(calls) && Clock(calls) <= IssuedAt(calls) + OTP_TTL ==> p.otp.Some?)
    && (HasCode(calls) ==> IssuedAt(calls) <= Clock(calls))
  }

  lemma PhoneStaysOk(p: Phone, clock: nat, call: Call)
    requires PhoneOk(p, clock) && clock <= call.now <= call.done
    ensures PhoneOk(Answer(p, call).0, call.now)
  {
  }

  lemma AskKeepsCodeOk(calls: Calls)
    requires calls.Then? && calls.call.Ask? && Clock(calls.before) <= calls.call.now <= calls.call.done
    requires PhoneOk(Run(calls.before), Clock(calls.before)) && CodeOk(calls.before)
    ensures CodeOk(calls)
  {
  }

  lemma CheckKeepsCodeOk(calls: Calls)
    requires calls.Then? && calls.call.Check? && Clock(calls.before) <= calls.call.now <= calls.call.done
    requires PhoneOk(Run(calls.before), Clock(calls.before)) && CodeOk(calls.before)
    ensures CodeOk(calls)
  {
  }

  lemma {:induction false} RunIsOk(calls: Calls)
    requires Ordered(calls)
    ensures PhoneOk(Run(calls), Clock(calls)) && CodeOk(calls)
  {
    if calls.Then? {
      RunIsOk(calls.before);
      PhoneStaysOk(Run(calls.before), Clock(calls.before), calls.call);
      if calls.call.Ask? { AskKeepsCodeOk(calls); } else { CheckKeepsCodeOk(calls); }
    }
  }

  /** How long the current code's key lives: renewed, in whole seconds, by every miss. */
  function KeyUntil(calls: Calls): nat
    requires HasCode(calls)
  {
    if Last(calls) == Issued then calls.call.done + OTP_TTL
    else if Last(calls).Missed? then calls.call.done + RemainingLife(IssuedAt(calls.before) + OTP_TTL, calls.call.now)
    else KeyUntil(calls.before)
  }

  predicate KeyOk(calls: Calls) {
    HasCode(calls) ==>
      && (Run(calls).otp.Some? ==> Run(calls).otp.value.keyUntil == KeyUntil(calls))
      && KeyUntil(calls) >= IssuedAt(calls) + OTP_TTL
  }

  /** What one answer does to the life of the code's key. */
  predicate KeyStep(p: Phone, q: Phone, call: Call, o: Outcome) {
    match o
    case Issued => q.otp.Some? && q.otp.value.keyUntil == call.done + OTP_TTL
    case Missed(_) =>
      && p.otp.Some? && q.otp.Some?
      && q.otp.value.keyUntil == call.done + RemainingLife(p.otp.value.expiresAt, call.now)
    case _ => q.otp == p.otp || q.otp == None
  }

  lemma AnswerSetsKey(p: Phone, call: Call)
    ensures KeyStep(p, Answer(p, call).0, call, Answer(p, call).1)
  {
  }

  lemma KeyStaysOk(calls: Calls, p: Phone, q: Phone, o: Outcome)
    requires Ordered(calls) && calls.Then? && KeyOk(calls.before) && KeyStep(p, q, calls.call, o)
    requires p == Run(calls.before) && q == Run(calls) && o == Last(calls)
    ensures KeyOk(calls)
  {
    RunIsOk(calls.before);
  }

  lemma {:induction false} KeyIsOk(calls: Calls)
    requires Ordered(calls)
    ensures KeyOk(calls)
  {
    if calls.Then? {
      KeyIsOk(calls.before);
      AnswerSetsKey(Run(calls.before), calls.call);
      KeyStaysOk(calls, Run(calls.before), Run(calls), Last(calls));
    }
  }

  lemma VerifyMatches(p: Phone, now: nat, done: nat, code: string)
    ensures Verify(p, now, done, code).1 == Matched
      <==> (!IsLocked(p, now) && p.otp.Some? && now < p.otp.value.keyUntil && now <= p.otp.value.expiresAt
            && code == p.otp.value.code && IsAscii(code))
  {
  }

  /** A check, whatever text it submits, succeeds if and only if it has the latest code, not yet used and
      missed less than three times, at most five minutes old, while the code's key lives. (A code is
      digits; one that were not ASCII could not even be compared with itself.) */
  lemma AcceptedIff(calls: Calls, now: nat, done: nat, code: string)
    requires Ordered(Then(calls, Check(now, done, code)))
    ensures Last(Then(calls, Check(now, done, code))) == Matched
      <==> (Usable(calls) && code == CodeOf(calls) && IsAscii(code)
            && now <= IssuedAt(calls) + OTP_TTL && now < KeyUntil(calls))
  {
    RunIsOk(calls);
    KeyIsOk(calls);
    VerifyMatches(Run(calls), now, done, code);
  }

  /** The key never dies before the five minutes are over, so within them only the code matters. */
  lemma KeyOutlivesCode(calls: Calls)
    requires Ordered(calls) && HasCode(calls)
    ensures KeyUntil(calls) >= IssuedAt(calls) + OTP_TTL
  {
    KeyIsOk(calls);
  }

  // ---------------------------------------------------------------- every answer, from the history alone

  /** A third miss less than ten minutes ago. */
  predicate LockedOut(calls: Calls, now: nat) {
    && calls.Then?
    && ((Last(calls) == MissedLast && now < calls.call.now + 600_000) || LockedOut(calls.before, now))
  }

  lemma {:induction false} LockoutsPass(calls: Calls, now: nat, later: nat)
    requires LockedOut(calls, later) && now <= later
    ensures LockedOut(calls, now)
  {
    if !(Last(calls) == MissedLast && later < calls.call.now + 600_000) {
      LockoutsPass(calls.before, now, later);
    }
  }

  /** What one answer does to the lock. */
  predicate LockStep(p: Phone, q: Phone, call: Call, o: Outcome) {
    && (o == Locked <==> IsLocked(p, call.now))
    && if o == MissedLast
       then q.lock == Some(Lock(call.now + LOCKOUT_TTL, call.done + LOCKOUT_TTL)) else q.lock == p.lock
  }

  lemma AnswerLocks(p: Phone, call: Call)
    ensures LockStep(p, Answer(p, call).0, call, Answer(p, call).1)
  {
  }

  lemma {:induction false} LockIsRecent(calls: Calls, now: nat)
    requires Ordered(calls) && Clock(calls) <= now
    ensures IsLocked(Run(calls), now) <==> LockedOut(calls, now)
  {
    if calls.Then? {
      LockIsRecent(calls.before, now);
      LockIsRecent(calls.before, calls.call.now);
      AnswerLocks(Run(calls.before), calls.call);
      if LockedOut(calls.before, now) {
        LockoutsPass(calls.before, calls.call.now, now);
      }
    }
  }

  /** A call is refused as locked if and only if a check missed for the third time less than ten minutes
      ago: every lockout holds, and every lockout ends. */
  lemma LockedIff(calls: Calls, call: Call)
    requires Ordered(Then(calls, call))
    ensures Last(Then(calls, call)) == Locked <==> LockedOut(calls, call.now)
  {
    LockIsRecent(calls, call.now);
    AnswerLocks(Run(calls), call);
  }

  /** A code that can still be accepted. */
  predicate Alive(calls: Calls, now: nat) {
    Usable(calls) && now <= IssuedAt(calls) + 300_000 && now < KeyUntil(calls)
  }

  /** The answer to every request: a code is issued exactly if there was no third miss in the last ten
      minutes and no code that is neither used up nor accepted was issued in the last minute. */
  lemma IssuedIff(calls: Calls, now: nat, done: nat, code: string)
    requires Ordered(Then(calls, Ask(now, done, code)))
    ensures Last(Then(calls, Ask(now, done, code))) ==
      if LockedOut(calls, now) then Locked
      else if Usable(calls) && now < IssuedAt(calls) + 60_000 then TooSoon
      else Issued
  {
    LockIsRecent(calls, now);
    RunIsOk(calls);
  }

  /** The answer to every check. A text of the code's length that is not ASCII makes the comparison throw. */
  lemma CheckedIff(calls: Calls, now: nat, done: nat, code: string)
    requires Ordered(Then(calls, Check(now, done, code)))
    ensures Last(Then(calls, Check(now, done, code))) ==
      if LockedOut(calls, now) then Locked
      else if !Alive(calls, now) then NoCode
      else if |code| == |CodeOf(calls)| && exists i :: 0 <= i < |code| && code[i] as int >= 128 then Crashed
      else if code == CodeOf(calls) then Matched
      else if MissesOfCode(calls) == 2 then MissedLast
      else Missed(2 - MissesOfCode(calls))
  {
    LockIsRecent(calls, now);
    RunIsOk(calls);
    KeyIsOk(calls);
  }

  // ---------------------------------------------------------------- lockout and pace

  predicate Extends(calls: Calls, start: Calls) {
    calls == start || (calls.Then? && Extends(calls.before, start))
  }

  /** No call after `start` was a successful check. */
  predicate SuccessFree(calls: Calls, start: Calls)
    requires Extends(calls, start)
  {
    calls == start || (Last(calls) != Matched && SuccessFree(calls.before, start))
  }

  /** All calls after `start` begin in the time interval [from, to]. */
  predicate Within(calls: Calls, start: Calls, from: nat, to: nat)
    requires Extends(calls, start)
  {
    calls == start || (from <= calls.call.now <= to && Within(calls.before, start, from, to))
  }

  function Issues(calls: Calls, start: Calls): nat
    requires Extends(calls, start)
  {
    if calls == start then 0 else Issues(calls.before, start) + if Last(calls) == Issued then 1 else 0
  }

  function Misses(calls: Calls, start: Calls): nat
    requires Extends(calls, start)
  {
    if calls == start then 0 else Misses(calls.before, start) + if IsMiss(Last(calls)) then 1 else 0
  }

  function Lockouts(calls: Calls, start: Calls): nat
    requires Extends(calls, start)
  {
    if calls == start then 0 else Lockouts(calls.before, start) + if Last(calls) == MissedLast then 1 else 0
  }

  function Max(a: nat, b: nat): nat { if a < b then b else a }

  /** The earliest time anything can be compared again. */
  function OpensAt(p: Phone, clock: nat): nat {
    Max(clock, if p.lock.Some? then p.lock.value.lockedUntil else 0)
  }

  /** The earliest time a code can be issued again. */
  function ReissuesAt(p: Phone, clock: nat): nat {
    Max(OpensAt(p, clock), if p.otp.Some? then p.otp.value.lastRequestedAt + RESEND_AFTER else 0)
  }

  function Opens(calls: Calls): nat { OpensAt(Run(calls), Clock(calls)) }

  function Reissues(calls: Calls): nat { ReissuesAt(Run(calls), Clock(calls)) }

  /** What one answer, given at `now`, does to these two times. */
  predicate Paces(p: Phone, clock: nat, q: Phone, now: nat, o: Outcome) {
    && OpensAt(q, now) >= OpensAt(p, clock)
    && (o != Matched ==> ReissuesAt(q, now) >= ReissuesAt(p, clock))
    && (o == Issued ==> now >= ReissuesAt(p, clock) && ReissuesAt(q, now) >= now + RESEND_AFTER)
    && (o == Matched || IsMiss(o) ==> now >= OpensAt(p, clock))
    && (o == MissedLast ==> OpensAt(q, now) >= now + LOCKOUT_TTL)
  }

  lemma AnswerPaces(p: Phone, clock: nat, call: Call)
    requires PhoneOk(p, clock) && clock <= call.now <= call.done
    ensures Paces(p, clock, Answer(p, call).0, call.now, Answer(p, call).1)
  {
  }

  lemma PaceStep(calls: Calls)
    requires Ordered(calls) && calls.Then?
    ensures Opens(calls) >= Opens(calls.before)
    ensures Last(calls) == MissedLast ==>
      Opens(calls) >= calls.call.now + LOCKOUT_TTL && calls.call.now >= Opens(calls.before)
    ensures Last(calls) != Matched ==> Reissues(calls) >= Reissues(calls.before)
    ensures Last(calls) == Issued ==>
      calls.call.now >= Reissues(calls.before) && Reissues(calls) >= calls.call.now + RESEND_AFTER
  {
    RunIsOk(calls.before);
    AnswerPaces(Run(calls.before), Clock(calls.before), calls.call);
  }

  lemma {:induction false} OpensGrows(calls: Calls, start: Calls)
    requires Ordered(calls) && Extends(calls, start)
    ensures Ordered(start) && Opens(calls) >= Opens(start)
  {
    if calls != start {
      OpensGrows(calls.before, start);
      PaceStep(calls);
    }
  }

  lemma {:induction false} ReissuesGrows(calls: Calls, start: Calls)
    requires Ordered(calls) && Extends(calls, start) && SuccessFree(calls, start)
    ensures Ordered(start) && Reissues(calls) >= Reissues(start)
  {
    if calls != start {
      ReissuesGrows(calls.before, start);
      PaceStep(calls);
    }
  }

  /** After a third miss every call is refused for ten minutes: nothing is issued, nothing compared. */
  lemma LockoutHolds(calls: Calls, start: Calls)
    requires Ordered(calls) && Extends(calls, start) && calls != start
    requires start.Then? && Last(start) == MissedLast && calls.call.now < start.call.now + LOCKOUT_TTL
    ensures Last(calls) == Locked
  {
    OpensGrows(calls.before, start);
    PaceStep(start);
    RunIsOk(calls.before);
  }

  /** Two codes issued with no success in between are at least a minute apart. */
  lemma IssuesAreApart(calls: Calls, start: Calls)
    requires Ordered(calls) && Extends(calls, start) && calls != start && SuccessFree(calls.before, start)
    requires start.Then? && Last(start) == Issued && Last(calls) == Issued
    ensures calls.call.now >= start.call.now + RESEND_AFTER
  {
    ReissuesGrows(calls.before, start);
    PaceStep(start);
    PaceStep(calls);
  }

  /** Codes: a first one at once, then one a minute. */
  lemma {:induction false} IssueBound(calls: Calls, start: Calls, from: nat, span: nat)
    requires Ordered(calls) && Extends(calls, start) && SuccessFree(calls, start) &&
      Within(calls, start, from, from + span)
    ensures Issues(calls, start) >= 1 ==> Reissues(calls) >= from + RESEND_AFTER * Issues(calls, start)
    ensures Issues(calls, start) <= 1 + span / RESEND_AFTER
  {
    if calls != start {
      IssueBound(calls.before, start, from, span);
      PaceStep(calls);
    }
  }

  /** Third misses: a first one at once, then one every ten minutes. */
  lemma {:induction false} LockoutBound(calls: Calls, start: Calls, from: nat, span: nat)
    requires Ordered(calls) && Extends(calls, start) && Within(calls, start, from, from + span)
    ensures Lockouts(calls, start) >= 1 ==> Opens(calls) >= from + LOCKOUT_TTL * Lockouts(calls, start)
    ensures Lockouts(calls, start) <= 1 + span / LOCKOUT_TTL
  {
    if calls != start {
      LockoutBound(calls.before, start, from, span);
      PaceStep(calls);
    }
  }

  /** Two misses for every code, the one known at the start included, and the third misses. */
  lemma {:induction false} MissesByCode(calls: Calls, start: Calls)
    requires Ordered(calls) && Extends(calls, start)
    ensures Ordered(start)
    ensures Misses(calls, start) <= 2 * Issues(calls, start) + Lockouts(calls, start)
      + if Run(calls).otp.Some? then Run(calls).otp.value.attempts else 2
  {
    if calls != start {
      MissesByCode(calls.before, start);
      RunIsOk(calls.before);
    }
  }

  /** How often codes can be guessed wrongly by calls that begin within `span` ms and of which none succeeds:
      4 + 2 per minute + 1 + 1 per ten minutes. */
  lemma GuessingBound(calls: Calls, start: Calls, from: nat, span: nat)
    requires Ordered(calls) && Extends(calls, start) && SuccessFree(calls, start) &&
      Within(calls, start, from, from + span)
    ensures Misses(calls, start) <= 2 * (2 + span / 60_000) + 1 + span / 600_000
    ensures Misses(calls, start) <= 3 * (2 + span / 60_000)
  {
    MissesByCode(calls, start);
    IssueBound(calls, start, from, span);
    LockoutBound(calls, start, from, span);
    RunIsOk(calls);
    assert span / 600_000 <= span / 60_000;
  }
}
