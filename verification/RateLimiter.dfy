/** Fixed-window rate limiting in Redis: the Lua script behind the request throttler, with its
    separate block key, and the guard that limits SMS requests per phone number. */
module RateLimiter {
  import opened Prelude
  import opened Rounding

  // ---------------------------------------------------------------- the store

  /** A Redis integer with an optional expiry time, in milliseconds of one clock. A key set to live
      d ms from time t exists at times t, ..., t + d - 1. */
  datatype Entry = Entry(value: nat, expireAt: Option<nat>)
  type Store = map<string, Entry>

  predicate Live(e: Option<Entry>, now: nat) {
    e.Some? && (e.value.expireAt.Some? ==> now < e.value.expireAt.value)
  }

  function At(store: Store, key: string): Option<Entry> {
    if key in store then Some(store[key]) else None
  }

  /** `INCR`: keeps the expiry of a live key, starts at 1 without expiry otherwise. */
  function Incr(e: Option<Entry>, now: nat): Entry {
    if Live(e, now) then Entry(e.value.value + 1, e.value.expireAt) else Entry(1, None)
  }

  // ---------------------------------------------------------------- one key's gate

  /** `ttl` and `blockDuration` in milliseconds. The phone guard writes no block key. */
  datatype Config = Config(limit: nat, ttl: nat, blocking: bool, blockDuration: nat) {
    function BlockFor(): nat {
      if blockDuration > 0 then blockDuration else ttl
    }
  }

  datatype Gate = Gate(counter: Option<Entry>, block: Option<Entry>)

  datatype Record = Record(totalHits: nat, timeToExpire: int, isBlocked: bool, timeToBlockExpire: int)

  /** One hit, counted and judged in one atomic step. */
  function Hit(cfg: Config, g: Gate, now: nat): (Gate, Record) {
    if cfg.blocking && Live(g.block, now) && g.block.value.expireAt.Some? then
      var left := CeilDiv(g.block.value.expireAt.value - now, 1000);
      (g, Record(if Live(g.counter, now) then g.counter.value.value else cfg.limit, left, true, left))
    else
      var c := Incr(g.counter, now);
      var expireAt := if c.value == 1 || c.expireAt == None then now + cfg.ttl else c.expireAt.value;
      var counter := Some(Entry(c.value, Some(expireAt)));
      var left := CeilDiv(expireAt - now, 1000);
      if c.value > cfg.limit then
        if cfg.blocking then
          (Gate(counter, Some(Entry(1, Some(now + cfg.BlockFor())))),
           Record(c.value, left, true, CeilDiv(cfg.BlockFor(), 1000)))
        else
          (Gate(counter, g.block), Record(c.value, left, true, left))
      else
        (Gate(counter, g.block), Record(c.value, left, false, 0))
  }

  const FAIL_CLOSED := ":failclosed"

  /** The fail-closed marker of a key is not part of the bucket's name. */
  function BucketOf(key: string): string {
    var clean := if |FAIL_CLOSED| <= |key| && key[|key| - |FAIL_CLOSED|..] == FAIL_CLOSED
                 then key[..|key| - |FAIL_CLOSED|] else key;
    "ratelimit:" + clean
  }

  /** A key and the same key with the marker share a bucket, which is named after the key. */
  lemma MarkerIsNoBucket(key: string)
    ensures BucketOf(key + ":failclosed") == "ratelimit:" + key
    ensures (forall k :: 0 <= k <= |key| ==> key[k..] != ":failclosed") ==> BucketOf(key) == "ratelimit:" + key
  {
    var marked := key + ":failclosed";
    assert marked[|key|..] == ":failclosed" && marked[..|key|] == key;
  }

  class RedisThrottlerStorage {
    var store: Store

    function GateOf(bucket: string): Gate
      reads this
    {
      Gate(At(store, bucket), At(store, bucket + ":blocked"))
    }

    constructor ()
      ensures store == map[]
    {
      store := map[];
    }

    /** The Lua script, command by command. */
    method Increment(key: string, ttl: nat, limit: nat, blockDuration: nat, now: nat) returns (record: Record)
      requires ttl > 0
      modifies this
      ensures (GateOf(BucketOf(key)), record)
           == Hit(Config(limit, ttl, true, blockDuration), old(GateOf(BucketOf(key))), now)
      ensures forall k :: k != BucketOf(key) && k != BucketOf(key) + ":blocked" ==> At(store, k) == old(At(store, k))
    {
      var bucket := BucketOf(key);
      var blockKey := bucket + ":blocked";
      assert bucket != blockKey by { assert |blockKey| > |bucket|; }
      var block := At(store, blockKey);
      if Live(block, now) && block.value.expireAt.Some? {
        var left := CeilDiv(block.value.expireAt.value - now, 1000);
        var hits := if Live(At(store, bucket), now) then store[bucket].value else limit;
        return Record(hits, left, true, left);
      }
      store := store[bucket := Incr(At(store, bucket), now)];
      var hits := store[bucket].value;
      if hits == 1 { store := store[bucket := Entry(hits, Some(now + ttl))]; }
      var pttl := if store[bucket].expireAt.Some? then store[bucket].expireAt.value - now else -1;
      if pttl < 0 {
        store := store[bucket := Entry(hits, Some(now + ttl))];
        pttl := ttl;
      }
      var timeToExpire := CeilDiv(pttl, 1000);
      if hits > limit {
        var bDuration := if blockDuration > 0 then blockDuration else ttl;
        store := store[blockKey := Entry(1, Some(now + bDuration))];
        return Record(hits, timeToExpire, true, CeilDiv(bDuration, 1000));
      }
      return Record(hits, timeToExpire, false, 0);
    }
  }

  // ---------------------------------------------------------------- the phone guard

  const PHONE_OTP := Config(3, 600_000, false, 0)

  predicate IsDigit(c: char) { '0' <= c <= '9' }

  function Digits(s: string): string {
    if s == "" then "" else if IsDigit(s[0]) then [s[0]] + Digits(s[1..]) else Digits(s[1..])
  }

  predicate StartsWithPlus(s: string) {
    s != "" && (s[0] == '+' || (IsSpace(s[0]) && StartsWithPlus(s[1..])))
  }

  function NormalizePhone(raw: string): string {
    var digits := Digits(raw);
    if |digits| == 11 && (digits[0] == '8' || digits[0] == '7') then "+7" + digits[1..]
    else if |digits| == 10 then "+7" + digits
    else if StartsWithPlus(raw) then "+" + digits
    else digits
  }

  function PhoneKey(rawPhone: string, hash: string -> string): string {
    "ratelimit:phone_otp:" + hash(NormalizePhone(rawPhone))
  }

  class PhoneOtpRateLimitGuard {
    var store: Store

    constructor ()
      ensures store == map[]
    {
      store := map[];
    }

    /** `hash` stands for SHA-256. Returns whether the request may go on; one without a phone number
        is left to the validation that follows. */
    method CanActivate(rawPhone: string, hash: string -> string, now: nat) returns (admitted: bool)
      modifies this
      ensures rawPhone == "" ==> admitted && store == old(store)
      ensures var key := PhoneKey(rawPhone, hash);
        rawPhone != "" ==>
        && Hit(PHONE_OTP, Gate(old(At(store, key)), None), now).0.counter == At(store, key)
        && Hit(PHONE_OTP, Gate(old(At(store, key)), None), now).1.isBlocked == !admitted
      ensures forall k :: k != PhoneKey(rawPhone, hash) ==> At(store, k) == old(At(store, k))
    {
      if rawPhone == "" { return true; }
      var key := PhoneKey(rawPhone, hash);
      store := store[key := Incr(At(store, key), now)];
      var hits := store[key].value;
      if hits == 1 || store[key].expireAt == None {
        store := store[key := Entry(hits, Some(now + 600 * 1000))];
      }
      admitted := hits <= 3;
    }
  }

  lemma {:induction false} DigitsOfDigits(s: string)
    ensures forall i :: 0 <= i < |Digits(s)| ==> IsDigit(Digits(s)[i])
    ensures Digits(Digits(s)) == Digits(s)
  {
    if s != "" {
      DigitsOfDigits(s[1..]);
      if IsDigit(s[0]) { assert Digits(s)[1..] == Digits(s[1..]); }
    }
  }

  /** A normalised number is its own normal form, so every way of writing it shares one bucket. */
  lemma NormalizeIsIdempotent(raw: string)
    ensures NormalizePhone(NormalizePhone(raw)) == NormalizePhone(raw)
  {
    var digits := Digits(raw);
    DigitsOfDigits(raw);
    var n := NormalizePhone(raw);
    if |digits| == 11 && (digits[0] == '8' || digits[0] == '7') {
      assert n[1..] == ['7'] + digits[1..] && n[1..][1..] == digits[1..];
      DigitsOfTail(digits);
      assert Digits(n) == Digits(n[1..]) == ['7'] + digits[1..];
    } else if |digits| == 10 {
      assert n[1..] == ['7'] + digits && n[1..][1..] == digits;
      assert Digits(n) == Digits(n[1..]) == ['7'] + digits;
    } else if StartsWithPlus(raw) {
      assert n[1..] == digits;
    } else if digits != "" {
      assert IsDigit(digits[0]);
    }
  }

  lemma DigitsOfTail(digits: string)
    requires digits != "" && Digits(digits) == digits && IsDigit(digits[0])
    ensures Digits(digits[1..]) == digits[1..]
  {
    assert Digits(digits)[1..] == Digits(digits[1..]);
  }

  // ---------------------------------------------------------------- which spellings share a bucket

  /** The number as its digits alone. */
  predicate AllDigits(s: string) {
    forall i :: 0 <= i < |s| ==> '0' <= s[i] <= '9'
  }

  lemma {:induction false} DigitsOfBoth(a: string, b: string)
    ensures Digits(a + b) == Digits(a) + Digits(b)
  {
    if a == "" {
      assert a + b == b;
    } else {
      assert (a + b)[1..] == a[1..] + b;
      DigitsOfBoth(a[1..], b);
    }
  }

  /** Digits stay, everything else falls out, wherever it stands. */
  lemma {:induction false} DigitsAreKept(s: string)
    ensures AllDigits(s) ==> Digits(s) == s
    ensures (forall i :: 0 <= i < |s| ==> !('0' <= s[i] <= '9')) ==> Digits(s) == ""
  {
    if s != "" {
      DigitsAreKept(s[1..]);
    }
  }

  predicate IsNational(digits: string) {
    |digits| == 10 || (|digits| == 11 && digits[0] in {'7', '8'})
  }

  function LastTen(digits: string): string
    requires |digits| >= 10
  {
    digits[|digits| - 10..]
  }

  lemma NationalForm(raw: string)
    requires IsNational(Digits(raw))
    ensures NormalizePhone(raw) == "+7" + LastTen(Digits(raw))
  {
    assert |Digits(raw)| == 10 ==> LastTen(Digits(raw)) == Digits(raw);
  }

  /** A number of ten digits, alone or after 7 or 8, with or without a plus, has one normal form. */
  lemma NationalFormsAgree(number: string, lead: char)
    requires |number| == 10 && AllDigits(number) && lead in {'7', '8'}
    ensures NormalizePhone(number) == "+7" + number
    ensures NormalizePhone([lead] + number) == "+7" + number
    ensures NormalizePhone("+" + ([lead] + number)) == "+7" + number
  {
    var whole := [lead] + number;
    DigitsAreKept(number);
    DigitsAreKept(whole);
    DigitsAfterPlus(whole);
    NationalForm(number);
    NationalForm(whole);
    NationalForm("+" + whole);
    assert LastTen(number) == number && LastTen(whole) == number;
  }

  lemma DigitsAfterPlus(s: string)
    ensures Digits("+" + s) == Digits(s)
  {
    DigitsOfBoth("+", s);
    DigitsAreKept("+");
    assert "" + Digits(s) == Digits(s);
  }

  /** Any spelling: what is not a digit does not matter, except a leading plus before a number that has neither
      ten digits nor eleven beginning with 7 or 8. */
  lemma NormalFormIs(raw: string, digits: string)
    requires AllDigits(digits) && Digits(raw) == digits
    ensures |digits| == 10 ==> NormalizePhone(raw) == "+7" + digits
    ensures |digits| == 11 && digits[0] in {'7', '8'} ==> NormalizePhone(raw) == "+7" + digits[1..]
    ensures |digits| !in {10, 11} || (|digits| == 11 && digits[0] !in {'7', '8'}) ==>
      NormalizePhone(raw) == (if LeadsWithPlus(raw) then "+" else "") + digits
  {
    LeadingPlus(raw);
  }

  /** The first character that is not blank is a plus. */
  predicate LeadsWithPlus(raw: string) {
    exists i :: 0 <= i < |raw| && raw[i] == '+' && forall k :: 0 <= k < i ==> IsSpace(raw[k])
  }

  lemma {:induction false} LeadingPlus(raw: string)
    ensures LeadsWithPlus(raw) <==> StartsWithPlus(raw)
  {
    if raw != "" && raw[0] != '+' && IsSpace(raw[0]) {
      LeadingPlus(raw[1..]);
      if LeadsWithPlus(raw[1..]) {
        var i :| 0 <= i < |raw[1..]| && raw[1..][i] == '+' && forall k :: 0 <= k < i ==> IsSpace(raw[1..][k]);
        assert raw[i + 1] == '+' && forall k :: 0 < k < i + 1 ==> raw[k] == raw[1..][k - 1];
      }
      if LeadsWithPlus(raw) {
        var i :| 0 <= i < |raw| && raw[i] == '+' && forall k :: 0 <= k < i ==> IsSpace(raw[k]);
        assert raw[1..][i - 1] == '+';
      }
    } else if raw != "" && raw[0] == '+' {
      assert LeadsWithPlus(raw);
    }
  }

  /** Two national numbers share a bucket, whatever their spelling, exactly if their last ten digits agree, as
      long as the hash tells normal forms apart. */
  lemma BucketsAgreeIff(a: string, b: string, hash: string -> string)
    requires forall x, y :: hash(x) == hash(y) ==> x == y
    requires IsNational(Digits(a)) && IsNational(Digits(b))
    ensures PhoneKey(a, hash) == PhoneKey(b, hash) <==> LastTen(Digits(a)) == LastTen(Digits(b))
  {
    NationalForm(a);
    NationalForm(b);
    KeysAgreeIff(hash(NormalizePhone(a)), hash(NormalizePhone(b)));
    var (x, y) := (LastTen(Digits(a)), LastTen(Digits(b)));
    if "+7" + x == "+7" + y {
      assert ("+7" + x)[2..] == x && ("+7" + y)[2..] == y;
    }
  }

  lemma KeysAgreeIff(x: string, y: string)
    ensures "ratelimit:phone_otp:" + x == "ratelimit:phone_otp:" + y <==> x == y
  {
    var prefix := "ratelimit:phone_otp:";
    if prefix + x == prefix + y {
      assert (prefix + x)[|prefix|..] == x && (prefix + y)[|prefix|..] == y;
    }
  }

  // ---------------------------------------------------------------- runs on one key

  /** Points in time in the order they happened; `at` is the latest. */
  datatype Times = Never | After(before: Times, at: nat)

  predicate Ordered(h: Times) {
    h.After? ==> Ordered(h.before) && (h.before.After? ==> h.before.at <= h.at)
  }

  /** No point of an ordered history is later than `t`. */
  predicate Upto(h: Times, t: int) {
    h.After? ==> h.at <= t
  }

  /** How many points lie in [from, to). */
  function Count(h: Times, from: int, to: int): nat {
    if h == Never then 0 else Count(h.before, from, to) + if from <= h.at < to then 1 else 0
  }

  /** How many points lie in the interval of length `ttl` that starts at `from`. */
  function InSpan(h: Times, from: int, ttl: nat): nat {
    Count(h, from, from + ttl)
  }

  lemma {:induction false} CountSplit(h: Times, a: int, b: int, c: int)
    requires a <= b <= c
    ensures Count(h, a, c) == Count(h, a, b) + Count(h, b, c)
  {
    if h.After? { CountSplit(h.before, a, b, c); }
  }

  lemma {:induction false} CountNone(h: Times, a: int, b: int)
    requires Ordered(h) && Upto(h, a - 1)
    ensures Count(h, a, b) == 0
  {
    if h.After? { CountNone(h.before, a, b); }
  }

  /** The gate, the times of the admitted hits, and the latest hit with its answer. */
  datatype Trace = Trace(gate: Gate, admitted: Times, last: nat, answer: Record)

  const Fresh := Trace(Gate(None, None), Never, 0, Record(0, 0, false, 0))

  function Step(cfg: Config, t: Trace, now: nat): Trace {
    var (gate, answer) := Hit(cfg, t.gate, now);
    Trace(gate, if answer.isBlocked then t.admitted else After(t.admitted, now), now, answer)
  }

  function Run(cfg: Config, hits: Times): Trace {
    if hits == Never then Fresh else Step(cfg, Run(cfg, hits.before), hits.at)
  }

  /** The most hits any time interval of length `ttl` can see. */
  function Sliding(cfg: Config): nat {
    if cfg.limit == 0 then 0 else 2 * cfg.limit - 1
  }

  /** The current counter window [start, start + ttl) and its predecessor. */
  ghost predicate WindowOk(cfg: Config, c: Entry, admitted: Times, last: nat) {
    && c.value >= 1 && c.expireAt.Some?
    && var start := c.expireAt.value - cfg.ttl;
    && 0 <= start <= last
    && Upto(admitted, start + cfg.ttl - 1)
    && InSpan(admitted, start, cfg.ttl) <= c.value
    && InSpan(admitted, start, cfg.ttl) <= cfg.limit
    && (cfg.limit >= 1 ==> Count(admitted, start, start + 1) >= 1)
    && (cfg.limit >= 1 ==> Count(admitted, start - cfg.ttl + 1, start) <= cfg.limit - 1)
  }

  ghost predicate SlidingOk(cfg: Config, admitted: Times) {
    forall from: int :: InSpan(admitted, from, cfg.ttl) <= Sliding(cfg)
  }

  /** A live block key goes with an exhausted counter that started no later than the block. */
  ghost predicate BlockOk(cfg: Config, t: Trace) {
    t.gate.block.Some? ==>
      && cfg.blocking && t.gate.block.value.expireAt.Some? && t.gate.counter.Some?
      && t.gate.counter.value.expireAt.Some?
      && (t.last < t.gate.block.value.expireAt.value ==>
            && t.gate.counter.value.value > cfg.limit
            && t.gate.counter.value.expireAt.value <= t.gate.block.value.expireAt.value - cfg.BlockFor() + cfg.ttl
            && t.gate.block.value.expireAt.value - cfg.BlockFor() <= t.last)
  }

  /** A refusal announces the block's remaining time. */
  ghost predicate AnswerOk(cfg: Config, t: Trace) {
    t.answer.isBlocked && cfg.blocking ==>
      && t.gate.block.Some? && t.gate.block.value.expireAt.Some?
      && t.last < t.gate.block.value.expireAt.value
      && t.answer.timeToBlockExpire == CeilDiv(t.gate.block.value.expireAt.value - t.last, 1000)
  }

  ghost predicate Inv(cfg: Config, t: Trace) {
    && Ordered(t.admitted) && Upto(t.admitted, t.last)
    && SlidingOk(cfg, t.admitted)
    && (t.gate.counter == None ==> t.admitted == Never)
    && (t.gate.counter.Some? ==> WindowOk(cfg, t.gate.counter.value, t.admitted, t.last))
    && BlockOk(cfg, t) && AnswerOk(cfg, t)
  }

  /** A hit that starts a new window: what was admitted less than `ttl` ago belongs to the old
      window, and the hit that opened that one is too old to be among it. */
  lemma NewWindow(cfg: Config, t: Trace, now: nat)
    requires Inv(cfg, t) && cfg.ttl > 0 && t.last <= now && !Live(t.gate.counter, now)
    ensures Upto(t.admitted, now - 1) && InSpan(t.admitted, now, cfg.ttl) == 0
    ensures cfg.limit >= 1 ==> Count(t.admitted, now - cfg.ttl + 1, now) <= cfg.limit - 1
  {
    CountNone(t.admitted, now, now + cfg.ttl);
    if t.gate.counter.Some? && cfg.limit >= 1 {
      var start := t.gate.counter.value.expireAt.value - cfg.ttl;
      CountSplit(t.admitted, start, start + 1, start + cfg.ttl);
      CountNone(t.admitted, start + cfg.ttl, now);
      CountSplit(t.admitted, start + 1, start + cfg.ttl, now);
      CountSplit(t.admitted, start + 1, now - cfg.ttl + 1, now);
    }
  }

  /** An admitted hit keeps every interval of length `ttl` within the sliding bound. */
  lemma AdmittedKeepsSliding(cfg: Config, admitted: Times, start: int, now: nat)
    requires cfg.limit >= 1 && cfg.ttl > 0 && SlidingOk(cfg, admitted)
    requires 0 <= start <= now < start + cfg.ttl
    requires Ordered(After(admitted, now))
    requires InSpan(After(admitted, now), start, cfg.ttl) <= cfg.limit
    requires Count(admitted, start - cfg.ttl + 1, start) <= cfg.limit - 1
    ensures SlidingOk(cfg, After(admitted, now))
  {
    var h := After(admitted, now);
    forall from: int ensures InSpan(h, from, cfg.ttl) <= Sliding(cfg) {
      var to := from + cfg.ttl;
      assert InSpan(admitted, from, cfg.ttl) <= Sliding(cfg);
      if from <= now < to {
        if from <= start {
          CountSplit(admitted, start - cfg.ttl + 1, from, start);
          CountSplit(h, from, start, to);
          CountSplit(h, start, to, start + cfg.ttl);
        } else {
          CountNone(h, start + cfg.ttl, to);
          CountSplit(h, from, start + cfg.ttl, to);
          CountSplit(h, start, from, start + cfg.ttl);
        }
      }
    }
  }

  predicate Counting(cfg: Config, t: Trace, now: nat) {
    t.last <= now && !(cfg.blocking && Live(t.gate.block, now))
  }

  ghost predicate StepKeepsWindow(cfg: Config, t: Trace, now: nat) {
    var u := Step(cfg, t, now);
    u.gate.counter.Some? && WindowOk(cfg, u.gate.counter.value, u.admitted, now) && SlidingOk(cfg, u.admitted)
  }

  /** A hit counted in the current window, whether it is admitted or not. */
  lemma CountedHit(cfg: Config, t: Trace, now: nat)
    requires Inv(cfg, t) && cfg.ttl > 0 && Counting(cfg, t, now) && Live(t.gate.counter, now)
    ensures StepKeepsWindow(cfg, t, now)
  {
    if t.gate.counter.value.value < cfg.limit {
      AdmittedKeepsSliding(cfg, t.admitted, t.gate.counter.value.expireAt.value - cfg.ttl, now);
    }
  }

  /** A hit that opens a window. */
  lemma OpeningHit(cfg: Config, t: Trace, now: nat)
    requires Inv(cfg, t) && cfg.ttl > 0 && Counting(cfg, t, now) && !Live(t.gate.counter, now)
    ensures StepKeepsWindow(cfg, t, now)
  {
    NewWindow(cfg, t, now);
    CountSplit(t.admitted, now, now + 1, now + cfg.ttl);
    if cfg.limit >= 1 { AdmittedKeepsSliding(cfg, t.admitted, now, now); }
  }

  lemma StepKeepsInv(cfg: Config, t: Trace, now: nat)
    requires Inv(cfg, t) && cfg.ttl > 0 && t.last <= now
    ensures Inv(cfg, Step(cfg, t, now))
  {
    if Counting(cfg, t, now) {
      if Live(t.gate.counter, now) { CountedHit(cfg, t, now); } else { OpeningHit(cfg, t, now); }
    }
  }

  lemma {:induction false} RunKeepsInv(cfg: Config, hits: Times)
    requires cfg.ttl > 0 && Ordered(hits)
    ensures Inv(cfg, Run(cfg, hits))
    ensures hits.After? ==> Run(cfg, hits).last == hits.at
  {
    if hits.After? {
      RunKeepsInv(cfg, hits.before);
      StepKeepsInv(cfg, Run(cfg, hits.before), hits.at);
    }
  }

  predicate Bounded(cfg: Config, t: Trace, from: int) {
    && InSpan(t.admitted, from, cfg.ttl) <= Sliding(cfg)
    && (t.gate.counter.Some? ==>
          && t.gate.counter.value.expireAt.Some?
          && InSpan(t.admitted, t.gate.counter.value.expireAt.value - cfg.ttl, cfg.ttl) <= cfg.limit)
  }

  /** Each counter window admits at most `limit` hits, and every time interval of length `ttl`
      at most 2 * limit - 1, wherever it starts. */
  lemma AdmissionBounds(cfg: Config, hits: Times, from: int)
    requires cfg.ttl > 0 && Ordered(hits)
    ensures Bounded(cfg, Run(cfg, hits), from)
  {
    RunKeepsInv(cfg, hits);
    assert InSpan(Run(cfg, hits).admitted, from, cfg.ttl) <= Sliding(cfg);
  }

  /** One phone number: at most 3 messages per counter window, at most 5 in any ten minutes. */
  lemma PhoneBounds(hits: Times, from: int)
    requires Ordered(hits)
    ensures InSpan(Run(PHONE_OTP, hits).admitted, from, 600_000) <= 5
  {
    AdmissionBounds(PHONE_OTP, hits, from);
  }

  // ---------------------------------------------------------------- every answer, from the hits alone

  /** When the window of the latest of these hits began: a hit opens one unless the last one still runs. */
  function Window(ttl: nat, counted: Times): nat
    requires counted.After?
  {
    if counted.before == Never || counted.at >= Window(ttl, counted.before) + ttl then counted.at
    else Window(ttl, counted.before)
  }

  /** How many of them are in that window. */
  function InWindow(ttl: nat, counted: Times): nat
    requires counted.After?
  {
    InSpan(counted, Window(ttl, counted), ttl)
  }

  /** The hits that counted, and the latest that went over the limit. */
  datatype Tally = Tally(counted: Times, over: Option<nat>)

  function BlockTime(cfg: Config): nat {
    if cfg.blockDuration == 0 then cfg.ttl else cfg.blockDuration
  }

  /** A hit within the block time after one that went over does not count, where there is blocking. */
  predicate IsShut(cfg: Config, tally: Tally, now: nat) {
    cfg.blocking && tally.over.Some? && now < tally.over.value + BlockTime(cfg)
  }

  function TallyOf(cfg: Config, hits: Times): Tally {
    if hits == Never then Tally(Never, None)
    else
      var tally := TallyOf(cfg, hits.before);
      if IsShut(cfg, tally, hits.at) then tally
      else
        var counted := After(tally.counted, hits.at);
        Tally(counted, if InWindow(cfg.ttl, counted) > cfg.limit then Some(hits.at) else tally.over)
  }

  /** What the two keys hold. */
  predicate KeysHold(cfg: Config, g: Gate, tally: Tally) {
    && g.counter == (
         if tally.counted == Never then None
         else Some(Entry(InWindow(cfg.ttl, tally.counted), Some(Window(cfg.ttl, tally.counted) + cfg.ttl))))
    && g.block == (
         if cfg.blocking && tally.over.Some? then Some(Entry(1, Some(tally.over.value + BlockTime(cfg)))) else None)
  }

  /** What the answer to the latest hit says. */
  predicate AnswerSays(cfg: Config, before: Tally, now: nat, answer: Record) {
    if IsShut(cfg, before, now) then
      var left := CeilDiv(before.over.value + BlockTime(cfg) - now, 1000);
      && answer.isBlocked && answer.timeToBlockExpire == left && answer.timeToExpire == left
      && answer.totalHits ==
           if before.counted.After? && now < Window(cfg.ttl, before.counted) + cfg.ttl
           then InWindow(cfg.ttl, before.counted) else cfg.limit
    else
      var counted := After(before.counted, now);
      && answer.totalHits == InWindow(cfg.ttl, counted)
      && (answer.isBlocked <==> InWindow(cfg.ttl, counted) > cfg.limit)
      && answer.timeToExpire == CeilDiv(Window(cfg.ttl, counted) + cfg.ttl - now, 1000)
      && answer.timeToBlockExpire ==
           if !answer.isBlocked then 0
           else if cfg.blocking then CeilDiv(BlockTime(cfg), 1000) else answer.timeToExpire
  }

  lemma {:induction false} WindowRuns(ttl: nat, counted: Times)
    requires ttl > 0 && counted.After? && Ordered(counted)
    ensures Window(ttl, counted) <= counted.at < Window(ttl, counted) + ttl
    ensures InWindow(ttl, counted) >= 1
  {
    if counted.before.After? {
      WindowRuns(ttl, counted.before);
    }
  }

  lemma OneMoreInWindow(ttl: nat, counted: Times, now: nat)
    requires ttl > 0 && Ordered(After(counted, now))
    ensures InWindow(ttl, After(counted, now)) ==
      if counted.After? && now < Window(ttl, counted) + ttl then InWindow(ttl, counted) + 1 else 1
  {
    if counted == Never {
      assert Count(After(Never, now), now, now + ttl) == Count(Never, now, now + ttl) + 1;
    } else {
      WindowRuns(ttl, counted);
      if now >= Window(ttl, counted) + ttl {
        CountNone(counted, now, now + ttl);
        assert Window(ttl, After(counted, now)) == now;
      } else {
        assert Window(ttl, After(counted, now)) == Window(ttl, counted);
      }
    }
  }

  lemma HitIsTallied(cfg: Config, g: Gate, tally: Tally, now: nat)
    requires cfg.ttl > 0 && KeysHold(cfg, g, tally) && Ordered(After(tally.counted, now))
    ensures var (next, answer) := Hit(cfg, g, now);
      AnswerSays(cfg, tally, now, answer) && (IsShut(cfg, tally, now) ==> next == g)
    ensures !IsShut(cfg, tally, now) ==>
      var counted := After(tally.counted, now);
      var over := if InWindow(cfg.ttl, counted) > cfg.limit then Some(now) else tally.over;
      KeysHold(cfg, Hit(cfg, g, now).0, Tally(counted, over))
  {
    OneMoreInWindow(cfg.ttl, tally.counted, now);
    if tally.counted.After? {
      WindowRuns(cfg.ttl, tally.counted);
    }
  }

  lemma {:induction false} CountedAreHits(cfg: Config, hits: Times)
    requires Ordered(hits)
    ensures Ordered(TallyOf(cfg, hits).counted)
    ensures TallyOf(cfg, hits).counted.After? ==> hits.After? && TallyOf(cfg, hits).counted.at <= hits.at
  {
    if hits.After? {
      CountedAreHits(cfg, hits.before);
    }
  }

  lemma {:induction false} KeysAreTallies(cfg: Config, hits: Times)
    requires cfg.ttl > 0 && Ordered(hits)
    ensures KeysHold(cfg, Run(cfg, hits).gate, TallyOf(cfg, hits))
  {
    if hits.After? {
      KeysAreTallies(cfg, hits.before);
      CountedAreHits(cfg, hits.before);
      HitIsTallied(cfg, Run(cfg, hits.before).gate, TallyOf(cfg, hits.before), hits.at);
    }
  }

  /** Over every ordered sequence of hits: what the keys and their expiry times answer to a hit is what
      counting the hits themselves says. */
  lemma HitsAreCounted(cfg: Config, hits: Times, now: nat)
    requires cfg.ttl > 0 && Ordered(After(hits, now))
    ensures AnswerSays(cfg, TallyOf(cfg, hits), now, Run(cfg, After(hits, now)).answer)
  {
    KeysAreTallies(cfg, hits);
    CountedAreHits(cfg, hits);
    HitIsTallied(cfg, Run(cfg, hits).gate, TallyOf(cfg, hits), now);
  }

  lemma {:induction false} AllCountWithoutBlocking(cfg: Config, hits: Times)
    requires !cfg.blocking
    ensures TallyOf(cfg, hits).counted == hits
  {
    if hits.After? {
      AllCountWithoutBlocking(cfg, hits.before);
    }
  }

  /** The phone guard lets a request through exactly if it is among the first three of its ten minutes. */
  lemma PhoneAdmitsIff(hits: Times, now: nat)
    requires Ordered(After(hits, now))
    ensures Run(PHONE_OTP, After(hits, now)).answer.isBlocked <==> InWindow(600_000, After(hits, now)) > 3
  {
    HitsAreCounted(PHONE_OTP, hits, now);
    AllCountWithoutBlocking(PHONE_OTP, hits);
  }

  // ---------------------------------------------------------------- the bound is reached

  function Repeat(h: Times, k: nat, t: nat): Times {
    if k == 0 then h else After(Repeat(h, k - 1, t), t)
  }

  lemma {:induction false} CountRepeat(h: Times, k: nat, t: nat, a: int, b: int)
    ensures Count(Repeat(h, k, t), a, b) == Count(h, a, b) + if a <= t < b then k else 0
  {
    if k > 0 { CountRepeat(h, k - 1, t, a, b); }
  }

  lemma {:induction false} RepeatIsOrdered(h: Times, k: nat, t: nat)
    requires Ordered(h) && Upto(h, t)
    ensures Ordered(Repeat(h, k, t)) && Upto(Repeat(h, k, t), t)
  {
    if k > 0 { RepeatIsOrdered(h, k - 1, t); }
  }

  /** `k` simultaneous hits that fit into the current window are all admitted. */
  lemma {:induction false} RepeatedHits(cfg: Config, hits: Times, c: Entry, k: nat, now: nat)
    requires Run(cfg, hits).gate == Gate(Some(c), None) && c.expireAt.Some? && now < c.expireAt.value
    requires 1 <= c.value && c.value + k <= cfg.limit && Run(cfg, hits).admitted == hits
    ensures Run(cfg, Repeat(hits, k, now)).admitted == Repeat(hits, k, now)
    ensures Run(cfg, Repeat(hits, k, now)).gate == Gate(Some(Entry(c.value + k, c.expireAt)), None)
  {
    if k > 0 { RepeatedHits(cfg, hits, c, k - 1, now); }
  }

  /** A first hit at time 0 and the rest of the quota at one later time. */
  function Quota(cfg: Config, now: nat): Times
    requires cfg.limit >= 1
  {
    Repeat(After(Never, 0), cfg.limit - 1, now)
  }

  lemma RunQuota(cfg: Config, now: nat)
    requires cfg.limit >= 1 && now < cfg.ttl
    ensures Run(cfg, Quota(cfg, now)).admitted == Quota(cfg, now)
    ensures Run(cfg, Quota(cfg, now)).gate == Gate(Some(Entry(cfg.limit, Some(cfg.ttl))), None)
    ensures Ordered(Quota(cfg, now)) && Upto(Quota(cfg, now), now)
  {
    RepeatedHits(cfg, After(Never, 0), Entry(1, Some(cfg.ttl)), cfg.limit - 1, now);
    RepeatIsOrdered(After(Never, 0), cfg.limit - 1, now);
  }

  /** One early hit, the rest of the quota at the end of its window, a full quota right after. */
  function Burst(cfg: Config): Times
    requires cfg.ttl >= 2 && cfg.limit >= 1
  {
    Repeat(After(Quota(cfg, cfg.ttl - 1), cfg.ttl), cfg.limit - 1, cfg.ttl)
  }

  lemma RunBurst(cfg: Config)
    requires cfg.ttl >= 2 && cfg.limit >= 1
    ensures Run(cfg, Burst(cfg)).admitted == Burst(cfg)
    ensures Ordered(Burst(cfg))
  {
    var next := After(Quota(cfg, cfg.ttl - 1), cfg.ttl);
    RunQuota(cfg, cfg.ttl - 1);
    RepeatedHits(cfg, next, Entry(1, Some(cfg.ttl + cfg.ttl)), cfg.limit - 1, cfg.ttl);
    RepeatIsOrdered(next, cfg.limit - 1, cfg.ttl);
  }

  lemma CountQuota(cfg: Config, to: int)
    requires cfg.ttl >= 2 && cfg.limit >= 1 && to >= cfg.ttl
    ensures Count(Quota(cfg, cfg.ttl - 1), 1, to) == cfg.limit - 1
  {
    CountRepeat(After(Never, 0), cfg.limit - 1, cfg.ttl - 1, 1, to);
  }

  lemma CountBurst(cfg: Config)
    requires cfg.ttl >= 2 && cfg.limit >= 1
    ensures Count(Burst(cfg), 1, 1 + cfg.ttl) == 2 * cfg.limit - 1
  {
    CountQuota(cfg, 1 + cfg.ttl);
    CountRepeat(After(Quota(cfg, cfg.ttl - 1), cfg.ttl), cfg.limit - 1, cfg.ttl, 1, 1 + cfg.ttl);
  }

  /** The sliding bound cannot be improved: a burst across two windows reaches it. */
  lemma SlidingBoundIsReached(cfg: Config)
    requires cfg.ttl >= 2 && cfg.limit >= 1
    ensures Ordered(Burst(cfg)) && InSpan(Run(cfg, Burst(cfg)).admitted, 1, cfg.ttl) == Sliding(cfg)
  {
    RunBurst(cfg);
    CountBurst(cfg);
  }

  // ---------------------------------------------------------------- blocking and backing off

  /** `later` continues `hits` with hits that all come before time `until`. */
  predicate Continues(later: Times, hits: Times, until: nat) {
    later == hits || (later.After? && later.at < until && Continues(later.before, hits, until))
  }

  /** While the block key lives every hit is refused and nothing changes. */
  lemma {:induction false} NothingPassesABlock(cfg: Config, hits: Times, later: Times)
    requires cfg.blocking && Run(cfg, hits).gate.block.Some? && Run(cfg, hits).gate.block.value.expireAt.Some?
    requires Continues(later, hits, Run(cfg, hits).gate.block.value.expireAt.value)
    ensures Run(cfg, later).gate == Run(cfg, hits).gate && Run(cfg, later).admitted == Run(cfg, hits).admitted
  {
    if later != hits { NothingPassesABlock(cfg, hits, later.before); }
  }

  /** Has someone who was refused waited as long as the answer said? */
  predicate Waited(cfg: Config, hits: Times, later: nat) {
    && hits.After? && Ordered(hits) && Run(cfg, hits).answer.isBlocked
    && later >= hits.at + 1000 * Run(cfg, hits).answer.timeToBlockExpire
  }

  /** Whoever waits as long as a refusal says, while nobody else hits the key, is let in. */
  ghost predicate BackoffIsHonest(cfg: Config) {
    forall hits: Times, later: nat :: Waited(cfg, hits, later) ==> !Run(cfg, After(hits, later)).answer.isBlocked
  }

  lemma BackoffHonestIf(cfg: Config)
    requires cfg.blocking && cfg.ttl > 0 && cfg.limit >= 1
    requires cfg.BlockFor() >= cfg.ttl || (cfg.BlockFor() < 1000 && cfg.ttl <= 1000)
    ensures BackoffIsHonest(cfg)
  {
    forall hits: Times, later: nat | Waited(cfg, hits, later) ensures !Run(cfg, After(hits, later)).answer.isBlocked {
      RunKeepsInv(cfg, hits);
      var t := Run(cfg, hits);
      assert later >= t.gate.block.value.expireAt.value;
      assert later >= t.gate.counter.value.expireAt.value;
    }
  }

  lemma NoQuotaNoBackoff(cfg: Config)
    requires cfg.blocking && cfg.ttl > 0 && cfg.limit == 0
    ensures !BackoffIsHonest(cfg)
  {
    var hits := After(Never, 0);
    var later := 1000 * CeilDiv(cfg.BlockFor(), 1000);
    assert Waited(cfg, hits, later);
    assert Run(cfg, After(hits, later)).answer.isBlocked;
  }

  /** limit + 1 hits at time 0: the block key is written while the window is still whole. */
  lemma Overrun(cfg: Config) returns (hits: Times)
    requires cfg.blocking && cfg.ttl > 0 && cfg.limit >= 1
    ensures Ordered(hits) && hits.After? && hits.at == 0 && Run(cfg, hits).answer.isBlocked
    ensures Run(cfg, hits).gate == Gate(Some(Entry(cfg.limit + 1, Some(cfg.ttl))), Some(Entry(1, Some(cfg.BlockFor()))))
    ensures Run(cfg, hits).answer.timeToBlockExpire == CeilDiv(cfg.BlockFor(), 1000)
  {
    RunQuota(cfg, 0);
    hits := After(Quota(cfg, 0), 0);
  }

  lemma ShortBlockLies(cfg: Config)
    requires cfg.blocking && cfg.ttl > 0 && cfg.limit >= 1
    requires cfg.BlockFor() < cfg.ttl && (cfg.BlockFor() >= 1000 || cfg.ttl > 1000)
    ensures !BackoffIsHonest(cfg)
  {
    var hits := Overrun(cfg);
    if cfg.BlockFor() < 1000 {
      assert Waited(cfg, hits, 1000);
      assert Run(cfg, After(hits, 1000)).answer.isBlocked;
    } else {
      var again := After(hits, cfg.BlockFor() % 1000);
      assert Waited(cfg, again, cfg.BlockFor());
      assert Run(cfg, After(again, cfg.BlockFor())).answer.isBlocked;
    }
  }

  /** Exactly when the announced waiting time (sent as `Retry-After`) can be trusted: the block
      outlasts the counter window, or the window fits into the one second a refusal announces at least. */
  lemma BackoffIsHonestIff(cfg: Config)
    requires cfg.blocking && cfg.ttl > 0
    ensures BackoffIsHonest(cfg) <==>
      cfg.limit >= 1 && (cfg.BlockFor() >= cfg.ttl || (cfg.BlockFor() < 1000 && cfg.ttl <= 1000))
  {
    if cfg.limit == 0 {
      NoQuotaNoBackoff(cfg);
    } else if cfg.BlockFor() >= cfg.ttl || (cfg.BlockFor() < 1000 && cfg.ttl <= 1000) {
      BackoffHonestIf(cfg);
    } else {
      ShortBlockLies(cfg);
    }
  }
}
