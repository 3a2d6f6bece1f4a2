/** The TMDB client (services/tmdb_client.py): the token-bucket rate limiter and the
    request parameter normalisation, with the rule that every request waits for the
    limiter first. Time is in seconds, as a `real`. */
module TmdbClient {
  import opened Wrappers

  // ---- Token bucket ----

  /** The limiter's mutable state. */
  datatype Bucket = Bucket(allowance: real, lastCheck: real)

  /** The state after an `acquire`, and how long that call sleeps. */
  datatype Grant = Grant(bucket: Bucket, sleep: real)

  /** The allowance after crediting `elapsed` seconds at `rate / period` tokens per second,
      capped at `rate`. */
  function Refill(allowance: real, elapsed: real, rate: nat, period: nat): (r: real)
    requires period > 0
    ensures r <= rate as real
    ensures r == rate as real || r == allowance + elapsed * (rate as real / period as real)
    ensures r <= allowance + elapsed * (rate as real / period as real)
  {
    var a := allowance + elapsed * (rate as real / period as real);
    if a > rate as real then rate as real else a
  }

  lemma ProductNonneg(x: real, y: real)
    requires x >= 0.0 && y >= 0.0
    ensures x * y >= 0.0
  {
  }

  lemma ProductAtMost(x: real, y: real)
    requires 0.0 <= x <= 1.0 && y >= 0.0
    ensures x * y <= y
  {
    assert y - x * y == (1.0 - x) * y;
    ProductNonneg(1.0 - x, y);
  }

  lemma InverseRatios(rate: nat, period: nat)
    requires rate > 0 && period > 0
    ensures (rate as real / period as real) * (period as real / rate as real) == 1.0
    ensures rate as real / period as real > 0.0 && period as real / rate as real > 0.0
  {
  }

  lemma CancelFactor(x: real, q: real, s: real)
    requires q * s == 1.0
    ensures (x * q) * s == x
  {
    assert (x * q) * s == x * (q * s);
  }

  /** One `acquire` at time `now`. */
  function AcquireStep(b: Bucket, rate: nat, period: nat, now: real): Grant
    requires rate > 0 && period > 0
  {
    var a := Refill(b.allowance, now - b.lastCheck, rate, period);
    if a < 1.0 then Grant(Bucket(0.0, now), (1.0 - a) * (period as real / rate as real))
    else Grant(Bucket(a - 1.0, now), 0.0)
  }

  /** The bucket stays within `[0, rate]` whatever the clock does, and `last_check`
      becomes the call time. */
  lemma AcquireKeepsBounds(b: Bucket, rate: nat, period: nat, now: real)
    requires rate > 0 && period > 0
    requires 0.0 <= b.allowance <= rate as real
    ensures var g := AcquireStep(b, rate, period, now);
      0.0 <= g.bucket.allowance <= rate as real && g.bucket.lastCheck == now
  {
  }

  /** No wait iff the refilled allowance is at least one token; then exactly one token is
      taken. Otherwise the wait is what the missing fraction of a token takes to refill,
      and the allowance is emptied. */
  lemma AcquireCases(b: Bucket, rate: nat, period: nat, now: real)
    requires rate > 0 && period > 0
    ensures var a := Refill(b.allowance, now - b.lastCheck, rate, period);
      var g := AcquireStep(b, rate, period, now);
      && (g.sleep == 0.0 <==> a >= 1.0)
      && (a >= 1.0 ==> g.bucket.allowance == a - 1.0)
      && (a < 1.0 ==> g.bucket.allowance == 0.0 && g.sleep == (1.0 - a) * (period as real / rate as real))
  {
    var a := Refill(b.allowance, now - b.lastCheck, rate, period);
    if a < 1.0 {
      assert 1.0 - a > 0.0;
      assert period as real / rate as real > 0.0;
    }
  }

  /** With a clock that does not go back, any wait lies in `(0, period / rate]`. */
  lemma SleepBounded(b: Bucket, rate: nat, period: nat, now: real)
    requires rate > 0 && period > 0
    requires 0.0 <= b.allowance <= rate as real && now >= b.lastCheck
    ensures var g := AcquireStep(b, rate, period, now);
      g.sleep == 0.0 || 0.0 < g.sleep <= period as real / rate as real
  {
    var a := Refill(b.allowance, now - b.lastCheck, rate, period);
    var q := period as real / rate as real;
    InverseRatios(rate, period);
    ProductNonneg(now - b.lastCheck, rate as real / period as real);
    assert a >= 0.0;
    if a < 1.0 {
      ProductAtMost(1.0 - a, q);
      ProductNonneg(1.0 - a, q);
      assert (1.0 - a) * q != 0.0;
    }
  }

  /** `n` calls at the same instant. */
  function Burst(b: Bucket, rate: nat, period: nat, now: real, n: nat): (r: Grant)
    requires rate > 0 && period > 0
    decreases n
  {
    if n == 0 then Grant(b, 0.0)
    else AcquireStep(Burst(b, rate, period, now, n - 1).bucket, rate, period, now)
  }

  /** From a full bucket, `rate` calls at the same instant all pass without waiting and use
      up every token; the next call waits `period / rate`. */
  lemma {:induction false} BurstDrains(rate: nat, period: nat, t: real, n: nat)
    requires rate > 0 && period > 0 && n <= rate
    ensures Burst(Bucket(rate as real, t), rate, period, t, n).bucket == Bucket((rate - n) as real, t)
    ensures n > 0 ==> Burst(Bucket(rate as real, t), rate, period, t, n).sleep == 0.0
    ensures n == rate ==>
      AcquireStep(Burst(Bucket(rate as real, t), rate, period, t, n).bucket, rate, period, t).sleep
        == period as real / rate as real
  {
    InverseRatios(rate, period);
    if n > 0 {
      BurstDrains(rate, period, t, n - 1);
      var prev := Burst(Bucket(rate as real, t), rate, period, t, n - 1).bucket;
      assert prev == Bucket((rate - n + 1) as real, t);
      assert Refill(prev.allowance, t - t, rate, period) == (rate - n + 1) as real;
    }
    if n == rate {
      var last := Burst(Bucket(rate as real, t), rate, period, t, n).bucket;
      assert last == Bucket(0.0, t);
      assert Refill(0.0, t - t, rate, period) == 0.0;
    }
  }

  /** The time slept is credited on the next call: a call after a wait, made when the wait
      ends, starts from an empty bucket refilled by exactly the waited time. */
  lemma WaitIsCredited(b: Bucket, rate: nat, period: nat, now: real)
    requires rate > 0 && period > 0
    requires 0.0 <= b.allowance && now >= b.lastCheck
    requires AcquireStep(b, rate, period, now).sleep > 0.0
    ensures var g := AcquireStep(b, rate, period, now);
      Refill(g.bucket.allowance, (now + g.sleep) - g.bucket.lastCheck, rate, period)
        == 1.0 - Refill(b.allowance, now - b.lastCheck, rate, period)
  {
    var a := Refill(b.allowance, now - b.lastCheck, rate, period);
    InverseRatios(rate, period);
    ProductNonneg(now - b.lastCheck, rate as real / period as real);
    var x := 1.0 - a;
    var w := x * (period as real / rate as real);
    assert AcquireStep(b, rate, period, now) == Grant(Bucket(0.0, now), w);
    assert (now + w) - now == w;
    RefillAfterWait(x, rate, period);
  }

  /** An empty bucket refilled for the time `x` tokens take comes back to `x` tokens. */
  lemma RefillAfterWait(x: real, rate: nat, period: nat)
    requires rate > 0 && period > 0 && 0.0 <= x <= 1.0
    ensures Refill(0.0, x * (period as real / rate as real), rate, period) == x
  {
    InverseRatios(rate, period);
    CancelFactor(x, period as real / rate as real, rate as real / period as real);
  }

  /** `TMDBRateLimiter`. */
  class RateLimiter {
    const rate: nat
    const period: nat
    var allowance: real
    var lastCheck: real

    ghost predicate Valid()
      reads this
    {
      rate > 0 && period > 0 && 0.0 <= allowance <= rate as real
    }

    function State(): Bucket
      reads this
    {
      Bucket(allowance, lastCheck)
    }

    /** Starts full, with the clock read at construction. */
    constructor (rate: nat, period: nat, now: real)
      requires rate > 0 && period > 0
      ensures Valid()
      ensures this.rate == rate && this.period == period
      ensures allowance == rate as real && lastCheck == now
    {
      this.rate := rate;
      this.period := period;
      allowance := rate as real;
      lastCheck := now;
    }

    /** `acquire`: returns the time the call sleeps instead of sleeping. */
    method Acquire(now: real) returns (sleep: real)
      requires Valid()
      modifies this
      ensures Valid()
      ensures Grant(State(), sleep) == AcquireStep(old(State()), rate, period, now)
    {
      ghost var before := State();
      AcquireKeepsBounds(before, rate, period, now);
      var timePassed := now - lastCheck;
      lastCheck := now;
      allowance := allowance + timePassed * (rate as real / period as real);
      if allowance > rate as real {
        allowance := rate as real;
      }
      assert allowance == Refill(before.allowance, now - before.lastCheck, rate, period);
      if allowance < 1.0 {
        sleep := (1.0 - allowance) * (period as real / rate as real);
        allowance := 0.0;
      } else {
        allowance := allowance - 1.0;
        sleep := 0.0;
      }
    }
  }

  // ---- Request parameters ----

  /** A query parameter value as the callers pass them. */
  datatype Value = Text(s: string) | Int(i: int) | Bool(b: bool)

  /** An ordered dict of query parameters. */
  type Params = seq<(string, Value)>

  ghost predicate DistinctKeys(p: Params)
  {
    forall i, j :: 0 <= i < j < |p| ==> p[i].0 != p[j].0
  }

  function Keys(p: Params): set<string>
  {
    set i | 0 <= i < |p| :: p[i].0
  }

  lemma ConsDistinct(x: (string, Value), p: Params)
    requires DistinctKeys(p) && x.0 !in Keys(p)
    ensures DistinctKeys([x] + p)
  {
    var q := [x] + p;
    forall i, j | 0 <= i < j < |q|
      ensures q[i].0 != q[j].0
    {
      if i == 0 {
        assert q[j].0 == p[j - 1].0 && p[j - 1].0 in Keys(p);
      } else {
        assert q[i] == p[i - 1] && q[j] == p[j - 1];
      }
    }
  }

  function Lookup(p: Params, k: string): (r: Option<Value>)
    ensures r.None? <==> forall i :: 0 <= i < |p| ==> p[i].0 != k
    decreases |p|
  {
    if p == [] then None
    else if p[0].0 == k then Some(p[0].1)
    else Lookup(p[1..], k)
  }

  /** A value found under a key is the value of an entry with that key. */
  lemma {:induction false} LookupFound(p: Params, k: string)
    ensures Lookup(p, k).Some? ==> exists i :: 0 <= i < |p| && p[i] == (k, Lookup(p, k).value)
    decreases |p|
  {
    if p != [] && p[0].0 != k {
      LookupFound(p[1..], k);
      if Lookup(p, k).Some? {
        var i :| 0 <= i < |p[1..]| && p[1..][i] == (k, Lookup(p, k).value);
        assert p[i + 1] == p[1..][i];
      }
    }
  }

  /** `d[k] = v`: replaces the value in place when the key is present, else appends. */
  function Assign(p: Params, k: string, v: Value): (r: Params)
    ensures Keys(r) == Keys(p) + {k}
    ensures DistinctKeys(p) ==> DistinctKeys(r)
    ensures Lookup(r, k) == Some(v)
    ensures forall k' :: k' != k ==> Lookup(r, k') == Lookup(p, k')
    decreases |p|
  {
    if p == [] then
      assert [(k, v)][0].0 == k;
      [(k, v)]
    else if p[0].0 == k then
      KeysCons(p);
      KeysCons([(k, v)] + p[1..]);
      assert ([(k, v)] + p[1..])[1..] == p[1..];
      AssignHeadDistinct(p, k, v);
      [(k, v)] + p[1..]
    else
      var rest := Assign(p[1..], k, v);
      KeysCons(p);
      KeysCons([p[0]] + rest);
      assert ([p[0]] + rest)[1..] == rest;
      AssignTailDistinct(p, rest, k);
      [p[0]] + rest
  }

  lemma AssignHeadDistinct(p: Params, k: string, v: Value)
    requires p != [] && p[0].0 == k
    ensures DistinctKeys(p) ==> DistinctKeys([(k, v)] + p[1..])
  {
    if DistinctKeys(p) {
      DistinctTail(p);
      KeysCons(p);
      ConsDistinct((k, v), p[1..]);
    }
  }

  lemma AssignTailDistinct(p: Params, rest: Params, k: string)
    requires p != [] && p[0].0 != k
    requires Keys(rest) == Keys(p[1..]) + {k}
    requires DistinctKeys(p[1..]) ==> DistinctKeys(rest)
    ensures DistinctKeys(p) ==> DistinctKeys([p[0]] + rest)
  {
    if DistinctKeys(p) {
      DistinctTail(p);
      KeysCons(p);
      ConsDistinct(p[0], rest);
    }
  }

  lemma KeysCons(p: Params)
    requires p != []
    ensures Keys(p) == {p[0].0} + Keys(p[1..])
    ensures DistinctKeys(p) ==> p[0].0 !in Keys(p[1..])
  {
    forall key | key in Keys(p)
      ensures key in {p[0].0} + Keys(p[1..])
    {
      var i :| 0 <= i < |p| && p[i].0 == key;
      if i > 0 {
        assert p[1..][i - 1].0 == key;
      }
    }
    forall key | key in Keys(p[1..])
      ensures key in Keys(p)
    {
      var i :| 0 <= i < |p[1..]| && p[1..][i].0 == key;
      assert p[i + 1].0 == key;
    }
  }

  lemma DistinctTail(p: Params)
    requires p != [] && DistinctKeys(p)
    ensures DistinctKeys(p[1..])
  {
    forall i, j | 0 <= i < j < |p[1..]|
      ensures p[1..][i].0 != p[1..][j].0
    {
      assert p[1..][i] == p[i + 1] && p[1..][j] == p[j + 1];
    }
  }

  /** `d.setdefault(k, v)`. */
  function SetDefault(p: Params, k: string, v: Value): (r: Params)
    ensures DistinctKeys(p) ==> DistinctKeys(r)
    ensures Lookup(r, k) == (if Lookup(p, k).Some? then Lookup(p, k) else Some(v))
    ensures forall k' :: k' != k ==> Lookup(r, k') == Lookup(p, k')
  {
    if Lookup(p, k).Some? then p else Assign(p, k, v)
  }

  /** `str(b).lower()` for a bool value; every other value unchanged. */
  function Normalise(v: Value): (r: Value)
    ensures !r.Bool?
    ensures v.Bool? ==> r == Text(if v.b then "true" else "false")
    ensures !v.Bool? ==> r == v
  {
    if v.Bool? then Text(if v.b then "true" else "false") else v
  }

  lemma LookupPointwise(p: Params, q: Params, k: string)
    requires |p| == |q| && forall i :: 0 <= i < |p| ==> q[i] == (p[i].0, Normalise(p[i].1))
    ensures Lookup(q, k) == (if Lookup(p, k).Some? then Some(Normalise(Lookup(p, k).value)) else None)
    decreases |p|
  {
    if p != [] && p[0].0 != k {
      LookupPointwise(p[1..], q[1..], k);
    }
  }

  /** The loop turning bool values into the strings 'true' and 'false'. */
  method NormaliseBools(p: Params) returns (r: Params)
    ensures |r| == |p|
    ensures forall i :: 0 <= i < |p| ==> r[i] == (p[i].0, Normalise(p[i].1))
    ensures forall k :: Lookup(r, k) == (if Lookup(p, k).Some? then Some(Normalise(Lookup(p, k).value)) else None)
    ensures DistinctKeys(p) ==> DistinctKeys(r)
  {
    r := p;
    var i := 0;
    while i < |r|
      invariant 0 <= i <= |r| == |p|
      invariant forall j :: 0 <= j < i ==> r[j] == (p[j].0, Normalise(p[j].1))
      invariant forall j :: i <= j < |r| ==> r[j] == p[j]
    {
      if r[i].1.Bool? {
        r := r[i := (r[i].0, Normalise(r[i].1))];
      }
      i := i + 1;
    }
    forall k {
      LookupPointwise(p, r, k);
    }
  }

  /** The parameter block of `_request`: `params or {}`, `api_key` set, `language` defaulted,
      bools spelled out. */
  method BuildParams(params: Option<Params>, apiKey: string, language: string) returns (r: Params)
    requires params.Some? ==> DistinctKeys(params.value)
    ensures DistinctKeys(r)
    ensures Lookup(r, "api_key") == Some(Text(apiKey))
    ensures var given := params.GetOr([]);
      Lookup(r, "language") ==
        (if Lookup(given, "language").Some? then Some(Normalise(Lookup(given, "language").value))
         else Some(Text(language)))
    ensures var given := params.GetOr([]);
      forall k :: k != "api_key" && k != "language" ==>
        Lookup(r, k) == (if Lookup(given, k).Some? then Some(Normalise(Lookup(given, k).value)) else None)
    ensures forall i :: 0 <= i < |r| ==> !r[i].1.Bool?
  {
    var given := params.GetOr([]);
    var withKey := Assign(given, "api_key", Text(apiKey));
    var p := SetDefault(withKey, "language", Text(language));
    assert Lookup(p, "api_key") == Some(Text(apiKey));
    assert Lookup(p, "language") == if Lookup(given, "language").Some? then Lookup(given, "language") else Some(Text(language));
    assert forall k :: k != "api_key" && k != "language" ==> Lookup(p, k) == Lookup(given, k);
    r := NormaliseBools(p);
  }

  const BaseUrl: string := "https://api.themoviedb.org/3"

  /** What the client does, in order. */
  datatype Event = Waited(seconds: real) | Sent(url: string, params: Params)

  /** `TMDBClient` with its limiter; `events` records the waits and the requests issued. */
  class Client {
    const apiKey: string
    const language: string
    const limiter: RateLimiter
    var events: seq<Event>

    ghost predicate Valid()
      reads this, limiter
    {
      limiter.Valid()
    }

    constructor (apiKey: string, language: string, rate: nat, period: nat, now: real)
      requires rate > 0 && period > 0
      ensures Valid() && fresh(limiter)
      ensures this.apiKey == apiKey && this.language == language && events == []
      ensures limiter.rate == rate && limiter.period == period && limiter.allowance == rate as real
    {
      this.apiKey := apiKey;
      this.language := language;
      limiter := new RateLimiter(rate, period, now);
      events := [];
    }

    /** `_request`: the limiter is acquired before the request is sent. */
    method Request(endpoint: string, params: Option<Params>, now: real) returns (sent: Params)
      requires Valid()
      requires params.Some? ==> DistinctKeys(params.value)
      modifies this, limiter
      ensures Valid()
      ensures var g := AcquireStep(old(limiter.State()), limiter.rate, limiter.period, now);
        && limiter.State() == g.bucket
        && events == old(events) + [Waited(g.sleep), Sent(BaseUrl + "/" + endpoint, sent)]
      ensures Lookup(sent, "api_key") == Some(Text(apiKey))
      ensures forall i :: 0 <= i < |sent| ==> !sent[i].1.Bool?
    {
      var sleep := limiter.Acquire(now);
      events := events + [Waited(sleep)];
      sent := BuildParams(params, apiKey, language);
      events := events + [Sent(BaseUrl + "/" + endpoint, sent)];
    }
  }
}
