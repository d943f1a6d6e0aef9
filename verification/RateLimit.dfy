// Rate limiting by token buckets (src/ws_collab/security.py). Times and amounts are real numbers.
module RateLimit {

  /** The rate at which tokens come back, in tokens a second, and the most there can be. */
  datatype Limits = Limits(rate: real, capacity: real) {
    predicate Sound() {
      rate >= 0.0 && capacity >= 1.0
    }
  }

  function LimitsFor(rps: real): (l: Limits)
    ensures rps >= 0.0 ==> l.Sound()
  {
    Limits(rps, if rps > 1.0 then rps else 1.0)
  }

  /** A time told in tokens: between two times as many tokens come back as the clock goes on. */
  function Clock(now: real, l: Limits): real {
    now * l.rate
  }

  lemma ClockIs(from: real, to: real, l: Limits)
    ensures Clock(to, l) - Clock(from, l) == (to - from) * l.rate
  {
  }

  lemma ClockGoesOn(from: real, to: real, l: Limits)
    requires l.Sound() && from <= to
    ensures Clock(from, l) <= Clock(to, l)
  {
    var elapsed := to - from;
    ClockIs(from, to, l);
    assert elapsed * l.rate >= 0.0;
  }

  /** The tokens of a bucket and the clock when they were counted. */
  datatype Bucket = Bucket(tokens: real, counted: real)

  function Least(a: real, b: real): real {
    if a < b then a else b
  }

  /** The tokens there are at a time. */
  function Available(b: Bucket, clock: real, capacity: real): real {
    Least(capacity, b.tokens + (clock - b.counted))
  }

  class TokenBucket {
    const limits: Limits
    var tokens: real
    var updated: real

    function View(): Bucket
      reads this
    {
      Bucket(tokens, Clock(updated, limits))
    }

    constructor (limits: Limits, now: real)
      ensures this.limits == limits && View() == Bucket(limits.capacity, Clock(now, limits))
    {
      this.limits, tokens, updated := limits, limits.capacity, now;
    }

    method Take(amount: real, now: real) returns (ok: bool)
      modifies this
      ensures var available := Available(old(View()), Clock(now, limits), limits.capacity);
              && ok == (available >= amount)
              && View() == Bucket(if ok then available - amount else available, Clock(now, limits))
    {
      ClockIs(updated, now, limits);
      tokens := Least(limits.capacity, tokens + (now - updated) * limits.rate);
      updated := now;
      if tokens >= amount {
        tokens := tokens - amount;
        return true;
      }
      return false;
    }
  }

  // ---------------------------------------------------------------- one bucket for each caller

  type Buckets = map<string, Bucket>

  datatype Request = Request(key: string, cost: real, clock: real)

  /** The tokens a caller has at a time; a new caller has all there can be. */
  function Allowance(buckets: Buckets, key: string, clock: real, capacity: real): real {
    if key in buckets then Available(buckets[key], clock, capacity) else capacity
  }

  predicate Admits(buckets: Buckets, r: Request, capacity: real) {
    Allowance(buckets, r.key, r.clock, capacity) >= r.cost
  }

  function Charged(buckets: Buckets, r: Request, capacity: real): Buckets {
    var left := Allowance(buckets, r.key, r.clock, capacity) - if Admits(buckets, r, capacity) then r.cost else 0.0;
    buckets[r.key := Bucket(left, r.clock)]
  }

  class RateLimiter {
    const limits: Limits
    var buckets: map<string, TokenBucket>

    ghost predicate Valid()
      reads this, buckets.Values
    {
      && (forall key | key in buckets :: buckets[key].limits == limits)
      && (forall a, b | a in buckets && b in buckets && a != b :: buckets[a] != buckets[b])
    }

    ghost function View(): Buckets
      reads this, buckets.Values
    {
      map key | key in buckets :: buckets[key].View()
    }

    constructor (rps: real)
      ensures Valid() && limits == LimitsFor(rps) && View() == map[]
    {
      limits, buckets := LimitsFor(rps), map[];
    }

    /** The caller's bucket, made full if there is none. */
    method BucketOf(key: string, now: real) returns (bucket: TokenBucket)
      requires Valid()
      modifies `buckets
      ensures Valid() && key in buckets && buckets[key] == bucket
      ensures View() == old(View())[key := bucket.View()]
      ensures bucket.View() == if key in old(View()) then old(View())[key] else Bucket(limits.capacity, Clock(now, limits))
      ensures key !in old(buckets) ==> fresh(bucket)
      ensures key in old(buckets) ==> bucket == old(buckets[key])
    {
      if key !in buckets {
        var made := new TokenBucket(limits, now);
        buckets := buckets[key := made];
      }
      bucket := buckets[key];
    }

    method Limit(key: string, cost: real, now: real) returns (ok: bool)
      requires Valid()
      modifies this, buckets.Values
      ensures Valid()
      ensures var r := Request(key, cost, Clock(now, limits));
              && ok == Admits(old(View()), r, limits.capacity)
              && View() == Charged(old(View()), r, limits.capacity)
    {
      var bucket := BucketOf(key, now);
      ok := bucket.Take(cost, now);
    }
  }

  // ---------------------------------------------------------------- every run

  /** Tokens stay between none and the capacity, and no bucket was counted in the future. */
  ghost predicate Sound(buckets: Buckets, clock: real, capacity: real) {
    forall key | key in buckets :: 0.0 <= buckets[key].tokens <= capacity && buckets[key].counted <= clock
  }

  predicate InTime(requests: seq<Request>, start: real) {
    requests != [] ==> start <= requests[0].clock && requests[0].cost >= 0.0 && InTime(requests[1..], requests[0].clock)
  }

  function After(buckets: Buckets, requests: seq<Request>, capacity: real): Buckets
    decreases |requests|
  {
    if requests == [] then buckets else After(Charged(buckets, requests[0], capacity), requests[1..], capacity)
  }

  function Cost(buckets: Buckets, r: Request, key: string, capacity: real): real {
    if r.key == key && Admits(buckets, r, capacity) then r.cost else 0.0
  }

  /** The total cost of what is admitted for one caller. */
  function Admitted(buckets: Buckets, requests: seq<Request>, key: string, capacity: real): real
    decreases |requests|
  {
    if requests == [] then 0.0
    else
      Cost(buckets, requests[0], key, capacity)
      + Admitted(Charged(buckets, requests[0], capacity), requests[1..], key, capacity)
  }

  lemma ChargedKeeps(buckets: Buckets, r: Request, capacity: real, start: real)
    requires capacity >= 1.0 && Sound(buckets, start, capacity) && start <= r.clock && r.cost >= 0.0
    ensures Sound(Charged(buckets, r, capacity), r.clock, capacity)
  {
  }

  /** Over every run with a clock that does not go back, each bucket holds between no tokens and its capacity. */
  lemma {:induction false} RunKeeps(buckets: Buckets, requests: seq<Request>, capacity: real, start: real)
    requires capacity >= 1.0 && Sound(buckets, start, capacity) && InTime(requests, start)
    ensures Sound(After(buckets, requests, capacity), if requests == [] then start else requests[|requests| - 1].clock, capacity)
    decreases |requests|
  {
    if requests != [] {
      ChargedKeeps(buckets, requests[0], capacity, start);
      RunKeeps(Charged(buckets, requests[0], capacity), requests[1..], capacity, requests[0].clock);
    }
  }

  /** What a caller can be admitted by a time, starting with what there is at another. */
  lemma FirstPaid(buckets: Buckets, r: Request, key: string, capacity: real, start: real)
    requires capacity >= 1.0 && Sound(buckets, start, capacity) && start <= r.clock && r.cost >= 0.0
    ensures Cost(buckets, r, key, capacity) + Allowance(Charged(buckets, r, capacity), key, r.clock, capacity)
         <= Allowance(buckets, key, start, capacity) + (r.clock - start)
    ensures 0.0 <= Allowance(Charged(buckets, r, capacity), key, r.clock, capacity)
  {
  }

  /** What is admitted is paid for by what there was and what has come back. */
  lemma {:induction false} AdmittedWithin(buckets: Buckets, requests: seq<Request>, key: string, capacity: real,
                                          start: real)
    requires capacity >= 1.0 && Sound(buckets, start, capacity) && InTime(requests, start) && requests != []
    ensures Admitted(buckets, requests, key, capacity)
         <= Allowance(buckets, key, start, capacity) + (requests[|requests| - 1].clock - start)
    decreases |requests|
  {
    var r, rest := requests[0], requests[1..];
    FirstPaid(buckets, r, key, capacity, start);
    if rest != [] {
      ChargedKeeps(buckets, r, capacity, start);
      AdmittedWithin(Charged(buckets, r, capacity), rest, key, capacity, r.clock);
    }
  }

  /** In any window of any run no caller is admitted more than the capacity and the tokens that come back
      between the first request of the window and the last. */
  lemma {:induction false} WindowBound(buckets: Buckets, before: seq<Request>, window: seq<Request>, key: string,
                                       capacity: real, start: real)
    requires capacity >= 1.0 && Sound(buckets, start, capacity) && InTime(before + window, start) && window != []
    ensures Admitted(After(buckets, before, capacity), window, key, capacity)
         <= capacity + (window[|window| - 1].clock - window[0].clock)
  {
    var first, reached := window[0].clock, After(buckets, before, capacity);
    InTimeParts(before, window, start);
    RunKeeps(buckets, before, capacity, start);
    AdmittedWithin(reached, window, key, capacity, first);
  }

  lemma {:induction false} InTimeParts(before: seq<Request>, window: seq<Request>, start: real)
    requires InTime(before + window, start)
    ensures InTime(before, start) && InTime(window, if before == [] then start else before[|before| - 1].clock)
    decreases |before|
  {
    if before == [] {
      assert before + window == window;
    } else {
      assert (before + window)[1..] == before[1..] + window;
      InTimeParts(before[1..], window, before[0].clock);
    }
  }

  /** What one caller does leaves the others as they were. */
  lemma {:induction false} OthersUntouched(buckets: Buckets, requests: seq<Request>, key: string, capacity: real)
    requires forall i | 0 <= i < |requests| :: requests[i].key != key
    ensures Admitted(buckets, requests, key, capacity) == 0.0
    ensures key in After(buckets, requests, capacity) <==> key in buckets
    ensures key in buckets ==> After(buckets, requests, capacity)[key] == buckets[key]
    decreases |requests|
  {
    if requests != [] {
      OthersUntouched(Charged(buckets, requests[0], capacity), requests[1..], key, capacity);
    }
  }

  // ---------------------------------------------------------------- tokens come back

  /** The caller's earlier requests were made when the clock was at most at this. */
  predicate QuietSince(requests: seq<Request>, key: string, clock: real) {
    forall i | 0 <= i < |requests| && requests[i].key == key :: requests[i].clock <= clock
  }

  lemma {:induction false} CountedBefore(buckets: Buckets, requests: seq<Request>, key: string, capacity: real, clock: real)
    requires QuietSince(requests, key, clock) && (key in buckets ==> buckets[key].counted <= clock)
    ensures var reached := After(buckets, requests, capacity); key in reached ==> reached[key].counted <= clock
    decreases |requests|
  {
    if requests != [] {
      CountedBefore(Charged(buckets, requests[0], capacity), requests[1..], key, capacity, clock);
    }
  }

  /** Whatever a caller has been charged over any run, once as many tokens have come back as a request costs it is
      admitted, if there can be that many; so after long enough the whole capacity is there again. */
  lemma {:induction false} PatientIsAdmitted(buckets: Buckets, requests: seq<Request>, r: Request, capacity: real,
                                             start: real)
    requires capacity >= 1.0 && Sound(buckets, start, capacity) && InTime(requests, start) && r.cost <= capacity
    requires QuietSince(requests, r.key, r.clock - r.cost)
    requires r.key in buckets ==> buckets[r.key].counted <= r.clock - r.cost
    ensures Admits(After(buckets, requests, capacity), r, capacity)
  {
    RunKeeps(buckets, requests, capacity, start);
    CountedBefore(buckets, requests, r.key, capacity, r.clock - r.cost);
  }

  /** A caller with nothing charged yet is admitted up to the capacity at once, and no more. */
  lemma {:induction false} NewIsFull(buckets: Buckets, requests: seq<Request>, r: Request, capacity: real)
    requires r.key !in buckets && forall i | 0 <= i < |requests| :: requests[i].key != r.key
    ensures Admits(After(buckets, requests, capacity), r, capacity) <==> r.cost <= capacity
  {
    OthersUntouched(buckets, requests, r.key, capacity);
  }

  /** In seconds: at a rate of `rps`, a window admits a caller at most that many for each second, and that many, or one,
      at once. */
  lemma {:induction false} LimiterBound(rps: real, buckets: Buckets, before: seq<Request>, window: seq<Request>,
                                        key: string, start: real, from: real, to: real)
    requires rps >= 0.0 && Sound(buckets, start, LimitsFor(rps).capacity) && InTime(before + window, start)
    requires window != [] && window[0].clock == from * rps && window[|window| - 1].clock == to * rps
    ensures Admitted(After(buckets, before, LimitsFor(rps).capacity), window, key, LimitsFor(rps).capacity)
         <= (if rps > 1.0 then rps else 1.0) + (to - from) * rps
  {
    WindowBound(buckets, before, window, key, LimitsFor(rps).capacity, start);
  }
}
