/** The gateway's token bucket (`TokenBucket::check`): one number per key, against the
    full history of requests it stands for. Reals model `f64`. */
module RateLimit {
  datatype Config = Config(requestsPerMinute: nat, burst: nat) {
    function Rate(): real { requestsPerMinute as real / 60.0 }
    function Capacity(): (c: real) ensures c >= 1.0 { (if burst >= 1 then burst else 1) as real }
  }

  /** `Panics` is what `Duration::from_secs_f64` does with the infinite wait of a zero rate;
      it happens under the mutex, so every later check panics too. */
  datatype Decision = Allow | Deny(retryAfter: real) | Panics

  datatype Bucket = Bucket(tokens: real, lastRefill: real)

  datatype Hit = Hit(time: real, allowed: bool)

  function Min(a: real, b: real): real { if a <= b then a else b }

  function Ceil(x: real): real { -((-x).Floor as real) }

  // ---- the full history ----

  function Cost(h: Hit): real { if h.allowed then 1.0 else 0.0 }

  /** Allowed requests of a history. */
  function Spent(h: seq<Hit>): real { if h == [] then 0.0 else Cost(h[0]) + Spent(h[1..]) }

  /** Tokens accrued up to each clock reading. The history lemmas hold for any such clock;
      the limiter's is `Linear`. */
  type Credit = real -> real

  /** Tokens accrued from `a` to `b`. */
  function Gain(rate: real, a: real, b: real): real { rate * (b - a) }

  /** The limiter's own clock of credit. */
  ghost predicate Linear(f: Credit, rate: real) {
    forall a, b {:trigger Gain(rate, a, b)} :: f(b) - f(a) == Gain(rate, a, b)
  }

  /** What is left at time `t`: the least, over every window that starts at a past check
      and ends now, of capacity + accrued - requests allowed in it. */
  function Budget(cap: real, f: Credit, h: seq<Hit>, t: real): real {
    if h == [] then cap
    else Min(cap + (f(t) - f(h[0].time)) - Spent(h), Budget(cap, f, h[1..], t))
  }

  predicate Monotone(h: seq<Hit>) { forall i :: 0 < i < |h| ==> h[i - 1].time <= h[i].time }

  /** Every decision of the history is the limiter's. */
  predicate Consistent(cap: real, f: Credit, h: seq<Hit>) {
    forall i :: 0 <= i < |h| ==> (h[i].allowed <==> Budget(cap, f, h[..i], h[i].time) >= 1.0)
  }

  lemma {:induction false} SpentAppend(h: seq<Hit>, x: Hit)
    ensures Spent(h + [x]) == Spent(h) + Cost(x)
  {
    if h == [] {
      assert [x][1..] == [] && [] + [x] == [x];
    } else {
      SpentAppend(h[1..], x);
      assert (h + [x])[1..] == h[1..] + [x];
    }
  }

  /** One refill step computes the minimum over all windows from the previous minimum. */
  lemma {:induction false} BudgetStep(cap: real, f: Credit, h: seq<Hit>, x: Hit, t: real)
    ensures Budget(cap, f, h + [x], t) ==
            Min(Budget(cap, f, h, x.time) - Cost(x) + (f(t) - f(x.time)), cap)
  {
    SpentAppend(h, x);
    if h == [] {
      assert [x][1..] == [] && [] + [x] == [x];
    } else {
      BudgetStep(cap, f, h[1..], x, t);
      assert (h + [x])[1..] == h[1..] + [x];
    }
  }

  lemma BudgetAfter(cap: real, f: Credit, h: seq<Hit>, t: real, gain: real)
    requires h != [] && gain == f(t) - f(h[|h| - 1].time)
    ensures var n := |h| - 1;
            Budget(cap, f, h, t) == Min(Budget(cap, f, h[..n], h[n].time) - Cost(h[n]) + gain, cap)
  {
    var n := |h| - 1;
    BudgetStep(cap, f, h[..n], h[n], t);
    assert h[..n] + [h[n]] == h;
  }

  /** The window from check `i` to now leaves no room for one more request. */
  predicate Full(cap: real, f: Credit, h: seq<Hit>, i: nat, t: real)
    requires i < |h|
  {
    Spent(h[i..]) + 1.0 > cap + (f(t) - f(h[i].time))
  }

  /** A request is refused exactly when some window ending now is full. */
  lemma {:induction false} RefusedIffWindowFull(cap: real, f: Credit, h: seq<Hit>, t: real)
    requires cap >= 1.0
    ensures Budget(cap, f, h, t) < 1.0 <==> exists i :: 0 <= i < |h| && Full(cap, f, h, i, t)
  {
    if h != [] {
      var rest := h[1..];
      RefusedIffWindowFull(cap, f, rest, t);
      assert h[0..] == h;
      forall i | 0 <= i < |rest| ensures Full(cap, f, rest, i, t) <==> Full(cap, f, h, i + 1, t) {
        assert rest[i..] == h[i + 1..];
      }
      if Budget(cap, f, rest, t) < 1.0 {
        var i :| 0 <= i < |rest| && Full(cap, f, rest, i, t);
        assert Full(cap, f, h, i + 1, t);
      } else {
        forall i | 1 <= i < |h| ensures !Full(cap, f, h, i, t) {
          assert !Full(cap, f, rest, i - 1, t);
        }
        assert Budget(cap, f, h, t) < 1.0 <==> Full(cap, f, h, 0, t);
      }
    }
  }

  predicate Accrues(f: Credit, h: seq<Hit>) {
    forall i :: 0 < i < |h| ==> f(h[i - 1].time) <= f(h[i].time)
  }

  /** Every window allows at most capacity + what accrued over it. */
  lemma {:induction false} WindowBound(cap: real, f: Credit, h: seq<Hit>, i: nat, j: nat)
    requires cap >= 1.0 && Accrues(f, h) && Consistent(cap, f, h) && i <= j < |h|
    ensures Spent(h[i..j + 1]) <= cap + (f(h[j].time) - f(h[i].time))
    decreases j - i
  {
    SpentAppend(h[i..j], h[j]);
    assert h[i..j] + [h[j]] == h[i..j + 1];
    if i == j {
      assert h[i..j] == [];
    } else if h[j].allowed {
      RefusedIffWindowFull(cap, f, h[..j], h[j].time);
      assert !Full(cap, f, h[..j], i, h[j].time);
      assert h[..j][i..] == h[i..j];
    } else {
      WindowBound(cap, f, h, i, j - 1);
    }
  }

  lemma LinearAccrues(f: Credit, rate: real, h: seq<Hit>)
    requires rate >= 0.0 && Linear(f, rate) && Monotone(h)
    ensures Accrues(f, h)
  {
    forall i | 0 < i < |h| ensures f(h[i - 1].time) <= f(h[i].time) {
      Scale(f, rate, h[i - 1].time, h[i].time);
    }
  }

  lemma MonotonePrefix(h: seq<Hit>, x: Hit)
    requires Monotone(h + [x])
    ensures Monotone(h) && (h != [] ==> h[|h| - 1].time <= x.time)
  {
    var all := h + [x];
    assert forall i :: 0 <= i < |h| ==> all[i] == h[i];
    if h != [] {
      assert all[|h| - 1].time <= all[|h|].time;
    }
  }

  lemma Scale(f: Credit, rate: real, a: real, b: real)
    requires Linear(f, rate)
    ensures f(b) - f(a) == Gain(rate, a, b)
    ensures rate >= 0.0 && a <= b ==> f(a) <= f(b)
  {
    assert Gain(rate, a, b) == rate * (b - a);
  }

  /** No window of the log, however placed, allows more than capacity + rate * length. */
  lemma NoWindowExceedsRate(cap: real, f: Credit, rate: real, h: seq<Hit>, i: nat, j: nat)
    requires cap >= 1.0 && rate >= 0.0 && Linear(f, rate)
    requires Monotone(h) && Consistent(cap, f, h) && i <= j < |h|
    ensures Spent(h[i..j + 1]) <= cap + Gain(rate, h[i].time, h[j].time)
  {
    LinearAccrues(f, rate, h);
    WindowBound(cap, f, h, i, j);
    Scale(f, rate, h[i].time, h[j].time);
  }

  /** In configured terms: whatever is allowed within sixty seconds is at most the burst (at
      least one) and the requests per minute together. */
  lemma AllowedPerMinute(config: Config, f: Credit, h: seq<Hit>, i: nat, j: nat)
    requires Linear(f, config.Rate()) && Monotone(h) && Consistent(config.Capacity(), f, h) && i <= j < |h|
    requires h[j].time - h[i].time <= 60.0
    ensures Spent(h[i..j + 1]) <=
            (if config.burst >= 1 then config.burst else 1) as real + config.requestsPerMinute as real
  {
    NoWindowExceedsRate(config.Capacity(), f, config.Rate(), h, i, j);
    MinuteGain(config, h[i].time, h[j].time);
  }

  lemma MinuteGain(config: Config, a: real, b: real)
    ensures b - a <= 60.0 ==> Gain(config.Rate(), a, b) <= config.requestsPerMinute as real
    ensures b - a == 60.0 ==> Gain(config.Rate(), a, b) == config.requestsPerMinute as real
  {
    var rate, n := config.Rate(), config.requestsPerMinute as real;
    assert rate * 60.0 == n;
    if b - a <= 60.0 {
      assert rate * (60.0 - (b - a)) >= 0.0;
    }
  }

  /** And a quiet minute gives back exactly the requests per minute, up to the burst. */
  lemma MinuteRefills(config: Config, f: Credit, h: seq<Hit>, t: real)
    requires Linear(f, config.Rate())
    ensures Budget(config.Capacity(), f, h, t + 60.0) ==
            Min(Budget(config.Capacity(), f, h, t) + config.requestsPerMinute as real, config.Capacity())
  {
    Scale(f, config.Rate(), t, t + 60.0);
    MinuteGain(config, t, t + 60.0);
    LaterBudget(config.Capacity(), f, h, t, t + 60.0);
  }

  /** At any one moment exactly the burst is allowed, or a single request if the burst is
      zero. */
  lemma BurstAtOnce(config: Config, f: Credit, h: seq<Hit>, t: real)
    requires forall x :: x in h ==> x.time == t
    ensures Budget(config.Capacity(), f, h, t) >= 1.0 <==>
            Spent(h) + 1.0 <= (if config.burst >= 1 then config.burst else 1) as real
  {
    BudgetAtOnce(config.Capacity(), f, h, t);
  }

  lemma {:induction false} BudgetAtOnce(cap: real, f: Credit, h: seq<Hit>, t: real)
    requires forall x :: x in h ==> x.time == t
    ensures Budget(cap, f, h, t) == cap - Spent(h) <= cap
  {
    if h != [] {
      BudgetAtOnce(cap, f, h[1..], t);
    }
  }

  lemma {:induction false} LaterBudget(cap: real, f: Credit, h: seq<Hit>, t: real, u: real)
    requires f(t) <= f(u)
    ensures Budget(cap, f, h, u) == Min(Budget(cap, f, h, t) + (f(u) - f(t)), cap)
  {
    if h != [] {
      LaterBudget(cap, f, h[1..], t, u);
    }
  }

  // ---- Retry-After ----

  function RetryAfter(rate: real, tokens: real): real
    requires rate > 0.0
  {
    var seconds := Ceil((1.0 - tokens) / rate);
    if seconds >= 1.0 then seconds else 1.0
  }

  /** Refused requests leave the budget alone: it only refills. */
  lemma {:induction false} RefusalsOnlyRefill(cap: real, f: Credit, h: seq<Hit>, denied: seq<Hit>, t: real)
    requires denied != [] && Accrues(f, denied) && f(denied[|denied| - 1].time) <= f(t)
    requires forall x :: x in denied ==> !x.allowed
    ensures Budget(cap, f, h + denied, t) ==
            Min(Budget(cap, f, h, denied[0].time) + (f(t) - f(denied[0].time)), cap)
  {
    var n := |denied| - 1;
    var x, init := denied[n], denied[..n];
    assert x in denied;
    BudgetStep(cap, f, h + init, x, t);
    assert h + init + [x] == h + denied;
    if n == 0 {
      assert h + init == h;
    } else {
      assert init[n - 1] == denied[n - 1];
      RefusalsOnlyRefill(cap, f, h, init, x.time);
    }
  }

  lemma RefillDuringRefusals(cap: real, f: Credit, rate: real, h: seq<Hit>, denied: seq<Hit>, t: real)
    requires rate >= 0.0 && Linear(f, rate)
    requires denied != [] && Monotone(denied) && denied[|denied| - 1].time <= t
    requires forall x :: x in denied ==> !x.allowed
    ensures Budget(cap, f, h + denied, t) ==
            Min(Budget(cap, f, h, denied[0].time) + Gain(rate, denied[0].time, t), cap)
  {
    LinearAccrues(f, rate, denied);
    Scale(f, rate, denied[|denied| - 1].time, t);
    RefusalsOnlyRefill(cap, f, h, denied, t);
    Scale(f, rate, denied[0].time, t);
  }

  lemma Quotient(rate: real, x: real) returns (q: real)
    requires rate > 0.0
    ensures q == x / rate && rate * q == x && (x > 0.0 ==> q > 0.0)
  {
    q := x / rate;
  }

  lemma TimesOrder(rate: real, a: real, b: real)
    requires rate > 0.0
    ensures rate * a >= rate * b <==> a >= b
  {
    if a >= b {
      assert rate * (a - b) >= 0.0;
    } else {
      assert rate * (b - a) > 0.0;
    }
  }

  lemma Shortfall(cap: real, rate: real, left: real, t0: real, t: real, after: real)
    requires cap >= 1.0 && rate > 0.0 && left < 1.0 && after == Min(left + Gain(rate, t0, t), cap)
    ensures after >= 1.0 <==> t - t0 >= (1.0 - left) / rate
    ensures (1.0 - left) / rate <= RetryAfter(rate, left) < (1.0 - left) / rate + 1.0
  {
    var q := Quotient(rate, 1.0 - left);
    var wait := t - t0;
    TimesOrder(rate, wait, q);
    assert Gain(rate, t0, t) == rate * wait;
    RetryAfterBounds(rate, left);
  }

  lemma RetryAfterBounds(rate: real, tokens: real)
    requires rate > 0.0 && tokens < 1.0
    ensures (1.0 - tokens) / rate <= RetryAfter(rate, tokens) < (1.0 - tokens) / rate + 1.0
  {
    var x := Quotient(rate, 1.0 - tokens);
    assert x <= Ceil(x) < x + 1.0;
    assert Ceil(x) >= 1.0;
  }

  /** After a refusal, and with everything in between refused too, a request at `t` is
      allowed exactly from the shortfall time on. `Retry-After` is never earlier than that
      and less than one second later. */
  lemma RetryAfterIsTight(cap: real, f: Credit, rate: real, h: seq<Hit>, denied: seq<Hit>, t: real)
    requires cap >= 1.0 && rate > 0.0 && Linear(f, rate)
    requires denied != [] && Monotone(denied) && denied[|denied| - 1].time <= t
    requires forall x :: x in denied ==> !x.allowed
    requires Budget(cap, f, h, denied[0].time) < 1.0
    ensures var left := Budget(cap, f, h, denied[0].time);
            var earliest := (1.0 - left) / rate;
            && (Budget(cap, f, h + denied, t) >= 1.0 <==> t - denied[0].time >= earliest)
            && earliest <= RetryAfter(rate, left) < earliest + 1.0
            && (t - denied[0].time >= RetryAfter(rate, left) ==> Budget(cap, f, h + denied, t) >= 1.0)
  {
    var t0 := denied[0].time;
    var left := Budget(cap, f, h, t0);
    RefillDuringRefusals(cap, f, rate, h, denied, t);
    Shortfall(cap, rate, left, t0, t, Budget(cap, f, h + denied, t));
  }

  // ---- the code ----

  /** The decision for a given number of tokens. */
  function Answer(rate: real, left: real): Decision
    requires rate >= 0.0
  {
    if left >= 1.0 then Allow
    else if rate > 0.0 then Deny(RetryAfter(rate, left))
    else Panics
  }

  // ---- a zero rate ----

  lemma {:induction false} ZeroRateBudget(cap: real, f: Credit, h: seq<Hit>, t: real)
    requires Linear(f, 0.0)
    ensures Budget(cap, f, h, t) == cap - Spent(h) <= cap
  {
    if h != [] {
      Scale(f, 0.0, h[0].time, t);
      ZeroRateBudget(cap, f, h[1..], t);
    }
  }

  lemma {:induction false} AllAllowedSpent(h: seq<Hit>)
    requires forall x :: x in h ==> x.allowed
    ensures Spent(h) == |h| as real
  {
    if h != [] {
      AllAllowedSpent(h[1..]);
    }
  }

  /** At zero requests per minute the first checks are allowed, as many as the capacity, and
      the check after them panics. */
  lemma ZeroRatePanics(config: Config, f: Credit, h: seq<Hit>, t: real)
    requires config.requestsPerMinute == 0 && Linear(f, config.Rate())
    requires forall x :: x in h ==> x.allowed
    ensures Answer(config.Rate(), Budget(config.Capacity(), f, h, t)) ==
            if |h| as real + 1.0 <= config.Capacity() then Allow else Panics
  {
    ZeroRateBudget(config.Capacity(), f, h, t);
    AllAllowedSpent(h);
  }

  /** Some history of the limiter's own decisions, with its readings in order, leads to a
      panic. */
  ghost predicate CanPanic(config: Config, f: Credit) {
    exists h: seq<Hit>, t: real ::
      && Monotone(h) && (h != [] ==> h[|h| - 1].time <= t)
      && Consistent(config.Capacity(), f, h)
      && Answer(config.Rate(), Budget(config.Capacity(), f, h, t)) == Panics
  }

  /** The limiter can panic if and only if it is configured to zero requests per minute. */
  lemma CanPanicIffZeroRate(config: Config, f: Credit)
    requires Linear(f, config.Rate())
    ensures CanPanic(config, f) <==> config.requestsPerMinute == 0
  {
    if config.requestsPerMinute == 0 {
      var cap := if config.burst >= 1 then config.burst else 1;
      var h := seq(cap, _ => Hit(0.0, true));
      forall i | 0 <= i < |h| ensures h[i].allowed <==> Budget(config.Capacity(), f, h[..i], h[i].time) >= 1.0 {
        ZeroRateBudget(config.Capacity(), f, h[..i], h[i].time);
        AllAllowedSpent(h[..i]);
      }
      ZeroRatePanics(config, f, h, 0.0);
      assert Consistent(config.Capacity(), f, h);
    }
  }

  /** What the limiter stores for a key, against that key's history; clock readings that
      arrive out of order break the link for that key only. */
  predicate Represents(cap: real, f: Credit, b: Bucket, h: seq<Hit>) {
    && h != []
    && b.lastRefill == h[|h| - 1].time
    && (Monotone(h) ==>
          && Consistent(cap, f, h)
          && b.tokens == Budget(cap, f, h[..|h| - 1], b.lastRefill) - Cost(h[|h| - 1]))
  }

  /** The refilled number is the budget that the key's whole history leaves. */
  lemma RefillIsBudget(cap: real, f: Credit, b: Bucket, h: seq<Hit>, x: Hit, gain: real)
    requires Represents(cap, f, b, h) && Monotone(h + [x])
    requires b.lastRefill <= x.time ==> gain == f(x.time) - f(b.lastRefill)
    ensures Monotone(h) && Min(b.tokens + gain, cap) == Budget(cap, f, h, x.time)
  {
    MonotonePrefix(h, x);
    BudgetAfter(cap, f, h, x.time, gain);
  }

  lemma CheckRepresents(cap: real, f: Credit, h: seq<Hit>, x: Hit, left: real)
    requires Monotone(h + [x]) ==> Consistent(cap, f, h) && left == Budget(cap, f, h, x.time)
    requires x.allowed <==> left >= 1.0
    ensures Represents(cap, f, Bucket(left - Cost(x), x.time), h + [x])
  {
    var all := h + [x];
    assert all[..|h|] == h;
    assert forall i :: 0 <= i < |h| ==> all[i] == h[i] && all[..i] == h[..i];
  }

  ghost predicate Linked(cap: real, f: Credit, buckets: map<string, Bucket>, history: map<string, seq<Hit>>) {
    && buckets.Keys == history.Keys
    && forall k :: k in history ==> Represents(cap, f, buckets[k], history[k])
  }

  /** One check of one key: its new bucket represents its longer history, and no other key
      is touched. */
  lemma CheckLinks(cap: real, f: Credit, buckets: map<string, Bucket>, history: map<string, seq<Hit>>,
                   key: string, state: Bucket, h: seq<Hit>, x: Hit, left: real, gain: real, b: Bucket)
    requires Linked(cap, f, buckets, history)
    requires if key in buckets then state == buckets[key] && h == history[key]
             else state.tokens == cap && gain == 0.0 && h == []
    requires left == Min(state.tokens + gain, cap) && (x.allowed <==> left >= 1.0)
    requires state.lastRefill <= x.time ==> gain == f(x.time) - f(state.lastRefill)
    requires b == Bucket(left - Cost(x), x.time)
    ensures Linked(cap, f, buckets[key := b], history[key := h + [x]])
    ensures Monotone(h + [x]) ==> left == Budget(cap, f, h, x.time)
  {
    if Monotone(h + [x]) && key in buckets {
      RefillIsBudget(cap, f, state, h, x, gain);
    }
    CheckRepresents(cap, f, h, x, left);
  }

  class TokenBucket {
    const refillPerSec: real
    const capacity: real
    ghost const credit: Credit
    var buckets: map<string, Bucket>
    var poisoned: bool
    ghost var history: map<string, seq<Hit>>

    ghost predicate Valid() reads this {
      && capacity >= 1.0 && refillPerSec >= 0.0 && Linear(credit, refillPerSec)
      && Linked(capacity, credit, buckets, history)
      && (poisoned ==> refillPerSec == 0.0)
    }

    ghost function HistoryOf(key: string): seq<Hit> reads this {
      if key in history then history[key] else []
    }

    constructor (config: Config)
      ensures Valid() && !poisoned && history == map[]
      ensures refillPerSec == config.Rate() && capacity == config.Capacity()
    {
      var rate := config.Rate();
      refillPerSec, capacity := rate, config.Capacity();
      credit := t => rate * t;
      buckets, poisoned, history := map[], false, map[];
    }

    /** `now` is the clock reading of this call, taken before the mutex. With that key's
        readings in order, the decision is the one its full history calls for; every other
        key's bucket and history stay as they were. */
    method Check(key: string, now: real) returns (d: Decision)
      requires Valid()
      modifies this
      ensures Valid()
      ensures old(poisoned) ==> d.Panics? && poisoned && history == old(history) && buckets == old(buckets)
      ensures !old(poisoned) ==>
                && history == old(history)[key := old(HistoryOf(key)) + [Hit(now, d.Allow?)]]
                && key in buckets && buckets == old(buckets)[key := buckets[key]]
                && (d.Panics? <==> poisoned)
      ensures !old(poisoned) && Monotone(old(HistoryOf(key)) + [Hit(now, d.Allow?)]) ==>
                d == Answer(refillPerSec, Budget(capacity, credit, old(HistoryOf(key)), now))
      ensures refillPerSec > 0.0 ==> !d.Panics?
      ensures refillPerSec == 0.0 ==> !d.Deny?
    {
      if poisoned {
        return Panics;
      }
      var state := if key in buckets then buckets[key] else Bucket(capacity, now);
      var b, left, gain;
      b, left, gain, d := Decide(state, now);
      poisoned := d.Panics?;
      ghost var h, hit := HistoryOf(key), Hit(now, d.Allow?);
      CheckLinks(capacity, credit, buckets, history, key, state, h, hit, left, gain, b);
      buckets := buckets[key := b];
      history := history[key := h + [hit]];
    }

    /** Refill, then spend one token if there is one. */
    method Decide(state: Bucket, now: real) returns (b: Bucket, left: real, gain: real, d: Decision)
      requires Linear(credit, refillPerSec) && refillPerSec >= 0.0
      ensures state.lastRefill <= now ==> gain == credit(now) - credit(state.lastRefill)
      ensures state.lastRefill >= now ==> gain == 0.0
      ensures left == Min(state.tokens + gain, capacity)
      ensures d == Answer(refillPerSec, left)
      ensures b == Bucket(left - Cost(Hit(now, d.Allow?)), now)
    {
      var elapsed := if now > state.lastRefill then now - state.lastRefill else 0.0;
      gain := elapsed * refillPerSec;
      Scale(credit, refillPerSec, state.lastRefill, now);
      left := Min(state.tokens + gain, capacity);
      if left >= 1.0 {
        b, d := Bucket(left - 1.0, now), Allow;
      } else {
        b := Bucket(left, now);
        d := if refillPerSec > 0.0 then Deny(RetryAfter(refillPerSec, left)) else Panics;
      }
    }
  }
}
