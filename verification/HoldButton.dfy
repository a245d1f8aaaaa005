/** The hold-to-confirm button: a timer, and at most one confirmation in flight. */
module HoldButton {
  import opened Prelude

  /** A scheduled timer: the step at which the hold began, and when. */
  datatype Hold = Hold(step: nat, startedAt: nat)

  datatype Confirm = Confirm(hold: Hold, step: nat, at: nat)

  /** `handle`, `disposed` and `pending` are the closure's variables; `timers` is the clock's set of
      scheduled callbacks. The rest is what happened: events so far, holds begun and holds interrupted,
      the steps that interrupt, the confirmations started, those still in flight. */
  datatype Button = Button(
    handle: Option<nat>, disposed: bool, pending: bool, timers: map<nat, Hold>,
    step: nat, holds: nat, interrupted: nat, interrupts: seq<nat>, confirms: seq<Confirm>, inFlight: nat)

  const FRESH := Button(None, false, false, map[], 0, 0, 0, [], [], 0)

  /** `throws`: the confirmation fails before it returns a promise. A timer may fire at any time from
      its due time on, and never after it was cancelled. */
  datatype Event =
    | Press(finite: bool, canConfirm: bool)
    | Cancel
    | Dispose
    | Fire(timer: nat, canConfirm: bool, throws: bool)
    | Settle

  // ---------------------------------------------------------------- the events

  function Pressed(b: Button, duration: nat, e: Event, now: nat): Button
    requires e.Press?
  {
    if b.disposed || b.pending || b.handle.Some? || !e.finite || duration == 0 || !e.canConfirm then b
    else b.(handle := Some(b.holds), timers := b.timers[b.holds := Hold(b.step, now)], holds := b.holds + 1)
  }

  function Cancelled(b: Button): Button {
    b.(
      handle := None,
      timers := if b.handle.Some? then b.timers - {b.handle.value} else b.timers,
      interrupted := if b.handle.Some? then b.interrupted + 1 else b.interrupted,
      interrupts := b.interrupts + [b.step])
  }

  function Fired(b: Button, duration: nat, e: Event, now: nat): Button
    requires e.Fire?
  {
    if e.timer !in b.timers || now < b.timers[e.timer].startedAt + duration then b
    else
      var done := b.(handle := None, timers := b.timers - {e.timer});
      if b.disposed || !e.canConfirm || b.pending then done
      else done.(
        pending := !e.throws, inFlight := if e.throws then b.inFlight else b.inFlight + 1,
        confirms := b.confirms + [Confirm(b.timers[e.timer], b.step, now)])
  }

  function Next(b: Button, duration: nat, e: Event, now: nat): Button {
    var next :=
      match e
      case Press(_, _) => Pressed(b, duration, e, now)
      case Cancel => Cancelled(b)
      case Dispose => Cancelled(b.(disposed := true))
      case Fire(_, _, _) => Fired(b, duration, e, now)
      case Settle => if b.inFlight > 0 then b.(pending := false, inFlight := b.inFlight - 1) else b;
    next.(step := b.step + 1)
  }

  class HoldConfirmation {
    const duration: nat
    var handle: Option<nat>
    var disposed: bool
    var pending: bool
    var timers: map<nat, Hold>
    var step: nat
    var holds: nat
    var interrupted: nat
    var interrupts: seq<nat>
    var confirms: seq<Confirm>
    var inFlight: nat

    function State(): Button
      reads this
    {
      Button(handle, disposed, pending, timers, step, holds, interrupted, interrupts, confirms, inFlight)
    }

    constructor (duration: nat)
      ensures State() == FRESH && this.duration == duration
    {
      this.duration := duration;
      handle, disposed, pending, timers := None, false, false, map[];
      step, holds, interrupted, interrupts, confirms, inFlight := 0, 0, 0, [], [], 0;
    }

    method PressDown(e: Event, now: nat)
      requires e.Press?
      modifies this
      ensures State() == Next(old(State()), duration, e, now)
    {
      if !(disposed || pending || handle.Some? || !e.finite || duration == 0 || !e.canConfirm) {
        timers, handle, holds := timers[holds := Hold(step, now)], Some(holds), holds + 1;
      }
      step := step + 1;
    }

    method Stop()
      modifies this
      ensures State() == Next(old(State()), duration, Cancel, 0)
    {
      if handle.Some? {
        timers, interrupted := timers - {handle.value}, interrupted + 1;
      }
      handle, interrupts, step := None, interrupts + [step], step + 1;
    }

    method Drop()
      modifies this
      ensures State() == Next(old(State()), duration, Dispose, 0)
    {
      disposed := true;
      Stop();
    }

    /** The timer's callback. */
    method OnTimer(e: Event, now: nat)
      requires e.Fire? && e.timer in timers && now >= timers[e.timer].startedAt + duration
      modifies this
      ensures State() == Next(old(State()), duration, e, now)
    {
      var hold := timers[e.timer];
      handle, timers, step := None, timers - {e.timer}, step + 1;
      if disposed { return; }
      if !e.canConfirm || pending { return; }
      pending := true;
      confirms := confirms + [Confirm(hold, step - 1, now)];
      if e.throws {
        pending := false;
      } else {
        inFlight := inFlight + 1;
      }
    }

    method OnSettled()
      requires inFlight > 0
      modifies this
      ensures State() == Next(old(State()), duration, Settle, 0)
    {
      pending, inFlight, step := false, inFlight - 1, step + 1;
    }
  }

  // ---------------------------------------------------------------- any order of events

  datatype Events = Start | Then(before: Events, event: Event, now: nat)

  function Run(duration: nat, events: Events): Button {
    if events == Start then FRESH else Next(Run(duration, events.before), duration, events.event, events.now)
  }

  /** The clock holds exactly the timer of the handle, and nothing once disposed. */
  predicate OneTimer(b: Button) {
    && b.timers.Keys == (if b.handle.Some? then {b.handle.value} else {})
    && (b.disposed ==> b.handle == None)
  }

  /** At most one confirmation is in flight, `pending` says whether one is, and then nothing is held. */
  predicate OneInFlight(b: Button) {
    b.inFlight == (if b.pending then 1 else 0) && (b.pending ==> b.handle == None)
  }

  /** Confirmations and the running hold use up holds that were not interrupted. */
  predicate Counted(b: Button) {
    |b.confirms| + (if b.handle.Some? then 1 else 0) <= b.holds - b.interrupted
  }

  predicate Undisturbed(interrupts: seq<nat>, from: nat, to: nat) {
    forall k :: 0 <= k < |interrupts| ==> interrupts[k] < from || to < interrupts[k]
  }

  predicate LastBefore(confirms: seq<Confirm>, step: nat) {
    |confirms| > 0 ==> confirms[|confirms| - 1].step < step
  }

  /** A running hold began after the last confirmation and was not interrupted since. */
  predicate Open(b: Button, h: Hold) {
    h.step < b.step && Undisturbed(b.interrupts, h.step, b.step) && LastBefore(b.confirms, h.step)
  }

  predicate Past(interrupts: seq<nat>, step: nat) {
    forall k :: 0 <= k < |interrupts| ==> interrupts[k] < step
  }

  predicate Apart(confirms: seq<Confirm>) {
    forall k :: 0 < k < |confirms| ==> confirms[k - 1].step < confirms[k].hold.step
  }

  /** Every confirmation ends a hold of at least the duration that nothing interrupted, and holds of
      different confirmations do not overlap. */
  predicate Earned(b: Button, duration: nat) {
    && (forall k :: 0 <= k < |b.confirms| ==> EarnedOne(b, duration, b.confirms[k]))
    && Apart(b.confirms) && Past(b.interrupts, b.step)
    && (forall t :: t in b.timers ==> Open(b, b.timers[t]))
  }

  predicate EarnedOne(b: Button, duration: nat, c: Confirm) {
    c.hold.step < c.step < b.step && c.at >= c.hold.startedAt + duration &&
      Undisturbed(b.interrupts, c.hold.step, c.step)
  }

  predicate Inv(b: Button, duration: nat) {
    OneTimer(b) && OneInFlight(b) && Counted(b) && Earned(b, duration)
  }

  lemma StepKeepsCounts(b: Button, duration: nat, e: Event, now: nat)
    requires OneTimer(b) && OneInFlight(b) && Counted(b)
    ensures var next := Next(b, duration, e, now); OneTimer(next) && OneInFlight(next) && Counted(next)
  {
  }

  lemma OldOnesStayEarned(b: Button, duration: nat, e: Event, now: nat, k: nat)
    requires Earned(b, duration) && k < |b.confirms|
    ensures EarnedOne(Next(b, duration, e, now), duration, b.confirms[k])
  {
    assert EarnedOne(b, duration, b.confirms[k]);
  }

  lemma FireEarns(b: Button, duration: nat, e: Event, now: nat)
    requires Inv(b, duration) && e.Fire? && |Next(b, duration, e, now).confirms| > |b.confirms|
    ensures var next := Next(b, duration, e, now);
      EarnedOne(next, duration, next.confirms[|b.confirms|]) && Apart(next.confirms) && next.timers == map[]
  {
    assert Open(b, b.timers[e.timer]);
    assert b.timers - {e.timer} == map[];
  }

  lemma OpenStaysOpen(b: Button, duration: nat, e: Event, now: nat, t: nat)
    requires Inv(b, duration) && t in Next(b, duration, e, now).timers
    requires |Next(b, duration, e, now).confirms| == |b.confirms|
    ensures Open(Next(b, duration, e, now), Next(b, duration, e, now).timers[t])
  {
    if t in b.timers {
      assert Open(b, b.timers[t]);
    } else if |b.confirms| > 0 {
      assert EarnedOne(b, duration, b.confirms[|b.confirms| - 1]);
    }
  }

  lemma StepKeepsEarned(b: Button, duration: nat, e: Event, now: nat)
    requires Inv(b, duration)
    ensures Earned(Next(b, duration, e, now), duration)
  {
    var next := Next(b, duration, e, now);
    forall k | 0 <= k < |b.confirms| ensures EarnedOne(next, duration, b.confirms[k]) {
      OldOnesStayEarned(b, duration, e, now, k);
    }
    if |next.confirms| > |b.confirms| {
      FireEarns(b, duration, e, now);
    } else {
      forall t | t in next.timers ensures Open(next, next.timers[t]) {
        OpenStaysOpen(b, duration, e, now, t);
      }
    }
  }

  /** For any order of events: confirmations number at most the uninterrupted holds, each is earned by
      one of its own, and at most one is in flight. */
  lemma {:induction false} EveryRunIsEarned(duration: nat, events: Events)
    ensures Inv(Run(duration, events), duration)
  {
    if events.Then? {
      EveryRunIsEarned(duration, events.before);
      var b := Run(duration, events.before);
      StepKeepsCounts(b, duration, events.event, events.now);
      StepKeepsEarned(b, duration, events.event, events.now);
    }
  }

  predicate Extends(later: Events, events: Events) {
    later == events || (later.Then? && Extends(later.before, events))
  }

  /** After dispose no confirmation starts, whatever happens. */
  lemma {:induction false} NothingAfterDispose(duration: nat, events: Events, later: Events)
    requires Run(duration, events).disposed && Extends(later, events)
    ensures Run(duration, later).disposed && Run(duration, later).confirms == Run(duration, events).confirms
  {
    if later != events {
      NothingAfterDispose(duration, events, later.before);
    }
  }

  /** While a confirmation is in flight none starts. */
  lemma NoneWhilePending(duration: nat, events: Events, e: Event, now: nat)
    requires Run(duration, events).pending
    ensures Run(duration, Then(events, e, now)).confirms == Run(duration, events).confirms
  {
  }

  /** A hold that lasts does confirm: whenever a running hold's timer fires when it is due and confirming
      is allowed, exactly one confirmation starts, for that hold. */
  lemma LastingHoldConfirms(duration: nat, events: Events, throws: bool, now: nat)
    requires var b := Run(duration, events);
      b.handle.Some? && b.handle.value in b.timers && now >= b.timers[b.handle.value].startedAt + duration
    ensures var b := Run(duration, events);
      var next := Run(duration, Then(events, Fire(b.handle.value, true, throws), now));
      next.confirms == b.confirms + [Confirm(b.timers[b.handle.value], b.step, now)] && next.handle == None
  {
    EveryRunIsEarned(duration, events);
  }

  // ---------------------------------------------------------------- what pressing and letting go bring about

  function Length(events: Events): nat {
    if events == Start then 0 else Length(events.before) + 1
  }

  lemma {:induction false} StepsAreEvents(duration: nat, events: Events)
    ensures Run(duration, events).step == Length(events)
  {
    if events.Then? {
      StepsAreEvents(duration, events.before);
    }
  }

  predicate CanStart(b: Button, duration: nat, e: Event)
    requires e.Press?
  {
    !b.disposed && !b.pending && b.handle == None && e.finite && duration > 0 && e.canConfirm
  }

  /** A press begins a hold, at that moment, exactly if the button is alive and free, the duration makes
      sense and confirming is allowed; any other press does nothing. */
  lemma PressHoldsIff(duration: nat, events: Events, e: Event, now: nat)
    requires e.Press?
    ensures var (b, next) := (Run(duration, events), Run(duration, Then(events, e, now)));
      && (next.handle != b.handle <==> CanStart(b, duration, e))
      && (next.handle != b.handle ==>
            && next.handle.Some? && next.timers == map[next.handle.value := Hold(Length(events), now)]
            && next.holds == b.holds + 1)
      && (next.handle == b.handle ==> next == b.(step := Length(events) + 1))
      && next.confirms == b.confirms && next.interrupted == b.interrupted && next.step == Length(events) + 1
  {
    StepsAreEvents(duration, events);
    EveryRunIsEarned(duration, events);
    if Run(duration, events).handle == None {
      assert Run(duration, events).timers == map[];
    }
  }

  /** Letting go, or disposing, ends a hold that runs: no timer is left, and the hold counts as interrupted. */
  lemma LettingGoEnds(duration: nat, events: Events, e: Event, now: nat)
    requires e in {Cancel, Dispose}
    ensures var (b, next) := (Run(duration, events), Run(duration, Then(events, e, now)));
      && next.handle == None && next.timers == map[] && next.confirms == b.confirms
      && next.interrupted == (if b.handle.Some? then b.interrupted + 1 else b.interrupted)
      && next.holds == b.holds && next.interrupts == b.interrupts + [Length(events)]
      && (next.disposed <==> b.disposed || e == Dispose)
  {
    StepsAreEvents(duration, events);
    EveryRunIsEarned(duration, events);
    var b := Run(duration, events);
    if b.handle.Some? {
      assert (b.timers - {b.handle.value}).Keys == {};
    } else {
      assert b.timers == map[];
    }
  }

  /** A confirmation that settles frees the button. */
  lemma SettlingFrees(duration: nat, events: Events, now: nat)
    ensures var (b, next) := (Run(duration, events), Run(duration, Then(events, Settle, now)));
      !next.pending && next.inFlight == 0 && next.confirms == b.confirms && next.handle == b.handle
  {
    EveryRunIsEarned(duration, events);
  }

  predicate IsDue(b: Button, duration: nat, timer: nat, now: nat) {
    timer in b.timers && now >= b.timers[timer].startedAt + duration
  }

  /** A timer's callback confirms exactly if it is due and confirming is still allowed; if it is due, the hold
      is over either way. */
  lemma FiringConfirmsIff(duration: nat, events: Events, e: Event, now: nat)
    requires e.Fire?
    ensures var (b, next) := (Run(duration, events), Run(duration, Then(events, e, now)));
      && (next.confirms != b.confirms <==> IsDue(b, duration, e.timer, now) && e.canConfirm)
      && (IsDue(b, duration, e.timer, now) <==> next.timers != b.timers)
      && (IsDue(b, duration, e.timer, now) ==> next.handle == None && next.timers == map[])
  {
    EveryRunIsEarned(duration, events);
    var b := Run(duration, events);
    if IsDue(b, duration, e.timer, now) {
      assert (b.timers - {e.timer}).Keys == {};
      assert e.timer !in (b.timers - {e.timer});
    }
  }

  /** Nothing that happened since then ended the hold that was running: no letting go, no disposing, and no
      timer that was due. */
  predicate KeepsHold(duration: nat, later: Events, events: Events) {
    later != events ==>
      && later.Then? && later.event !in {Cancel, Dispose}
      && (later.event.Fire? ==>
            !IsDue(Run(duration, later.before), duration, later.event.timer, later.now))
      && KeepsHold(duration, later.before, events)
  }

  lemma {:induction false} HoldGoesOn(duration: nat, later: Events, events: Events)
    requires KeepsHold(duration, later, events) && Run(duration, events).handle.Some?
    ensures Run(duration, later).handle == Run(duration, events).handle
    ensures Run(duration, later).timers == Run(duration, events).timers
    ensures Run(duration, later).confirms == Run(duration, events).confirms
  {
    if later != events {
      HoldGoesOn(duration, later.before, events);
      EveryRunIsEarned(duration, later.before);
    }
  }

  /** From the press to the confirmation: a press on a free button that nothing ends, whatever else happens
      in between, starts exactly one confirmation when its time is up, and it is about that press. */
  lemma HeldPressConfirms(duration: nat, events: Events, e: Event, now: nat, later: Events, throws: bool, due: nat)
    requires e.Press? && CanStart(Run(duration, events), duration, e) && due >= now + duration
    requires KeepsHold(duration, later, Then(events, e, now))
    ensures var b := Run(duration, later);
      && b.handle.Some?
      && var next := Run(duration, Then(later, Fire(b.handle.value, true, throws), due));
         && next.confirms == Run(duration, events).confirms
              + [Confirm(Hold(Length(events), now), Length(later), due)]
         && (next.pending <==> !throws) && next.handle == None
  {
    PressHoldsIff(duration, events, e, now);
    HoldGoesOn(duration, later, Then(events, e, now));
    StepsAreEvents(duration, later);
    LastingHoldConfirms(duration, later, throws, due);
    EveryRunIsEarned(duration, later);
  }

  /** And a press let go before its time is up never confirms: after the release no timer is left to fire. */
  lemma ReleasedPressNeverConfirms(duration: nat, events: Events, e: Event, at: nat, fire: Event, now: nat)
    requires e in {Cancel, Dispose} && fire.Fire?
    ensures Run(duration, Then(Then(events, e, at), fire, now)).confirms == Run(duration, events).confirms
  {
    LettingGoEnds(duration, events, e, at);
  }

  /** A new button is free: its first press, held for its time, confirms. */
  lemma NewButtonConfirms(duration: nat, now: nat, due: nat)
    requires 0 < duration && now + duration <= due
    ensures var b := Run(duration, Then(Then(Start, Press(true, true), now), Fire(0, true, false), due));
      b.confirms == [Confirm(Hold(0, now), 1, due)] && b.pending && b.holds == 1 && b.interrupted == 0
  {
    HeldPressConfirms(duration, Start, Press(true, true), now, Then(Start, Press(true, true), now), false, due);
  }
}
