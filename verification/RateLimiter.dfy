/** The edge's per-IP token buckets, with eviction of idle entries. */
module RateLimiter {

  /** Tokens per second, bucket size, and idle window in seconds; a window of zero or less never evicts. */
  datatype Params = Params(rate: real, burst: nat, idleTTL: real)

  datatype Bucket = Bucket(tokens: real, last: real)

  datatype Entry = Entry(bucket: Bucket, seen: real)

  datatype Request = Request(at: real, ip: string)

  /** Tokens that accrue over a stretch of time. */
  function Refill(p: Params, elapsed: real): real {
    p.rate * elapsed
  }

  /** Tokens a bucket holds at a time: refilled since the last grant, capped at the burst. */
  function Available(p: Params, b: Bucket, at: real): real {
    var elapsed := if at < b.last then 0.0 else at - b.last;
    var tokens := b.tokens + Refill(p, elapsed);
    if tokens > p.burst as real then p.burst as real else tokens
  }

  /** A request takes one token or is denied and leaves the bucket as it was. */
  function Take(p: Params, b: Bucket, at: real): (Bucket, bool) {
    if Available(p, b, at) >= 1.0 then (Bucket(Available(p, b, at) - 1.0, at), true) else (b, false)
  }

  ghost function Evicted(p: Params, m: map<string, Entry>, now: real): map<string, Entry> {
    if p.idleTTL > 0.0 then map k | k in m && !(now - m[k].seen > p.idleTTL) :: m[k] else m
  }

  ghost function Admitted(p: Params, m: map<string, Entry>, r: Request): map<string, Entry> {
    if r.ip in m then m else Evicted(p, m, r.at)[r.ip := Entry(Bucket(p.burst as real, r.at), r.at)]
  }

  ghost function Allow(p: Params, m: map<string, Entry>, r: Request): (map<string, Entry>, bool) {
    var m1 := Admitted(p, m, r);
    var (b, ok) := Take(p, m1[r.ip].bucket, r.at);
    (m1[r.ip := Entry(b, r.at)], ok)
  }

  class PerIPLimiter {
    const params: Params
    var limiters: map<string, Entry>

    constructor (params: Params)
      ensures this.params == params && limiters == map[]
    {
      this.params, limiters := params, map[];
    }

    /** Creates the bucket lazily; creating one first drops the idle ones. */
    method AllowIP(now: real, ip: string) returns (ok: bool)
      modifies this
      ensures (limiters, ok) == Allow(params, old(limiters), Request(now, ip))
    {
      if ip !in limiters {
        if params.idleTTL > 0.0 {
          var left := limiters.Keys;
          while left != {}
            invariant left <= old(limiters).Keys
            invariant forall k :: k in limiters <==>
              k in old(limiters) && (k in left || !(now - old(limiters)[k].seen > params.idleTTL))
            invariant forall k :: k in limiters ==> limiters[k] == old(limiters)[k]
          {
            var k :| k in left;
            if now - limiters[k].seen > params.idleTTL {
              limiters := limiters - {k};
            }
            left := left - {k};
          }
          assert limiters == Evicted(params, old(limiters), now);
        }
        limiters := limiters[ip := Entry(Bucket(params.burst as real, now), now)];
      }
      var (bucket, granted) := Take(params, limiters[ip].bucket, now);
      limiters := limiters[ip := Entry(bucket, now)];
      ok := granted;
    }
  }

  // ---------------------------------------------------------------------------
  // Request sequences
  // ---------------------------------------------------------------------------

  ghost function State(p: Params, m: map<string, Entry>, reqs: seq<Request>): map<string, Entry>
    decreases |reqs|
  {
    if reqs == [] then m else State(p, Allow(p, m, reqs[0]).0, reqs[1..])
  }

  ghost function Answers(p: Params, m: map<string, Entry>, reqs: seq<Request>): (answers: seq<bool>)
    ensures |answers| == |reqs|
    decreases |reqs|
  {
    if reqs == [] then [] else [Allow(p, m, reqs[0]).1] + Answers(p, Allow(p, m, reqs[0]).0, reqs[1..])
  }

  ghost predicate Ordered(reqs: seq<Request>) {
    forall i, j :: 0 <= i < j < |reqs| ==> reqs[i].at <= reqs[j].at
  }

  /** The same limiter without eviction. */
  function Keeping(p: Params): Params {
    p.(idleTTL := 0.0)
  }

  lemma {:induction false} AnswersSplit(p: Params, m: map<string, Entry>, a: seq<Request>, b: seq<Request>)
    ensures Answers(p, m, a + b) == Answers(p, m, a) + Answers(p, State(p, m, a), b)
    ensures State(p, m, a + b) == State(p, State(p, m, a), b)
    decreases |a|
  {
    if a == [] {
      assert a + b == b;
    } else {
      assert (a + b)[1..] == a[1..] + b;
      AnswersSplit(p, Allow(p, m, a[0]).0, a[1..], b);
    }
  }

  // ---------------------------------------------------------------------------
  // Eviction cannot be observed
  // ---------------------------------------------------------------------------

  ghost predicate Sane(p: Params, m: map<string, Entry>, now: real) {
    forall k :: k in m ==> 0.0 <= m[k].bucket.tokens <= p.burst as real && m[k].bucket.last <= m[k].seen <= now
  }

  /** The evicting table agrees with the keeping one wherever it has an entry, and lacks only idle ones. */
  ghost predicate Simulates(p: Params, m: map<string, Entry>, kept: map<string, Entry>, now: real) {
    && Sane(p, kept, now)
    && (forall k :: k in m ==> k in kept && kept[k] == m[k])
    && (forall k :: k in kept && k !in m ==> now - kept[k].seen > p.idleTTL)
  }

  lemma RefillMonotone(p: Params, x: real, y: real)
    requires p.rate >= 0.0 && x <= y
    ensures Refill(p, x) <= Refill(p, y)
  {
    assert p.rate * (y - x) >= 0.0;
  }

  lemma RefillNonNegative(p: Params, x: real)
    requires p.rate >= 0.0 && x >= 0.0
    ensures Refill(p, x) >= 0.0
  {
  }

  lemma RefillZero(p: Params, at: real)
    ensures Refill(p, 0.0) == 0.0 && Refill(p, at - at) == 0.0
  {
  }

  lemma RefillAdds(p: Params, x: real, y: real)
    ensures Refill(p, x + y) == Refill(p, x) + Refill(p, y)
  {
  }

  lemma KeepingRefill(p: Params, x: real)
    ensures Refill(Keeping(p), x) == Refill(p, x)
  {
  }

  lemma AllowKeepsSane(p: Params, m: map<string, Entry>, now: real, r: Request)
    requires p.rate >= 0.0 && Sane(p, m, now) && now <= r.at
    ensures Sane(p, Allow(p, m, r).0, r.at)
  {
  }

  /** A bucket idle for longer than the window has refilled completely. */
  lemma IdleIsFull(p: Params, e: Entry, at: real)
    requires p.rate >= 0.0 && Refill(p, p.idleTTL) >= p.burst as real
    requires 0.0 <= e.bucket.tokens && e.bucket.last <= e.seen && at - e.seen > p.idleTTL && p.idleTTL > 0.0
    ensures Available(p, e.bucket, at) == p.burst as real
  {
    RefillMonotone(p, p.idleTTL, at - e.bucket.last);
  }

  lemma KeepingAvailable(p: Params, b: Bucket, at: real)
    ensures Available(Keeping(p), b, at) == Available(p, b, at)
    ensures Take(Keeping(p), b, at) == Take(p, b, at)
  {
    KeepingRefill(p, at - b.last);
    KeepingRefill(p, 0.0);
  }

  /** A bucket with a whole token ends up the same whether it was kept or made anew, if it was full. */
  lemma FullIsFresh(p: Params, b: Bucket, at: real)
    requires p.burst >= 1 && Available(p, b, at) == p.burst as real
    ensures Take(p, b, at) == Take(p, Bucket(p.burst as real, at), at)
  {
    RefillZero(p, at);
  }

  lemma AllowSameEntry(p: Params, m: map<string, Entry>, kept: map<string, Entry>, now: real, r: Request)
    requires p.rate >= 0.0 && p.burst >= 1 && p.idleTTL > 0.0 && Refill(p, p.idleTTL) >= p.burst as real
    requires Simulates(p, m, kept, now) && now <= r.at
    ensures Allow(p, m, r).1 == Allow(Keeping(p), kept, r).1
    ensures Allow(p, m, r).0[r.ip] == Allow(Keeping(p), kept, r).0[r.ip]
  {
    hide Refill;
    var b := Admitted(p, m, r)[r.ip].bucket;
    var b' := Admitted(Keeping(p), kept, r)[r.ip].bucket;
    KeepingAvailable(p, b', r.at);
    if r.ip !in m && r.ip in kept {
      IdleIsFull(p, kept[r.ip], r.at);
      FullIsFresh(p, b', r.at);
    }
  }

  lemma AllowSimulates(p: Params, m: map<string, Entry>, kept: map<string, Entry>, now: real, r: Request)
    requires p.rate >= 0.0 && p.burst >= 1 && p.idleTTL > 0.0 && Refill(p, p.idleTTL) >= p.burst as real
    requires Simulates(p, m, kept, now) && now <= r.at
    ensures Allow(p, m, r).1 == Allow(Keeping(p), kept, r).1
    ensures Simulates(p, Allow(p, m, r).0, Allow(Keeping(p), kept, r).0, r.at)
  {
    hide Refill, Available, Take, Allow;
    AllowKeepsSane(Keeping(p), kept, now, r);
    AllowSameEntry(p, m, kept, now, r);
    AllowOthers(p, m, r);
    AllowOthers(Keeping(p), kept, r);
  }

  /** A request keeps the other addresses' entries but for the idle ones. */
  lemma AllowOthers(p: Params, m: map<string, Entry>, r: Request)
    ensures var m' := Allow(p, m, r).0;
      && r.ip in m'
      && (forall k :: k != r.ip && k in m' ==> k in m && m'[k] == m[k])
      && (forall k :: k != r.ip && k in m && k !in m' ==> p.idleTTL > 0.0 && r.at - m[k].seen > p.idleTTL)
  {
    hide Refill, Available, Take;
  }

  lemma {:induction false} SimulatedAnswers(p: Params, m: map<string, Entry>, kept: map<string, Entry>, now: real, reqs: seq<Request>)
    requires p.rate >= 0.0 && p.burst >= 1 && p.idleTTL > 0.0 && Refill(p, p.idleTTL) >= p.burst as real
    requires Simulates(p, m, kept, now) && Ordered(reqs) && (reqs != [] ==> now <= reqs[0].at)
    ensures Answers(p, m, reqs) == Answers(Keeping(p), kept, reqs)
    decreases |reqs|
  {
    hide Refill;
    if reqs != [] {
      AllowSimulates(p, m, kept, now, reqs[0]);
      SimulatedAnswers(p, Allow(p, m, reqs[0]).0, Allow(Keeping(p), kept, reqs[0]).0, reqs[0].at, reqs[1..]);
    }
  }

  /** Without a burst nothing is ever granted. */
  lemma {:induction false} NoBurstDenies(p: Params, m: map<string, Entry>, reqs: seq<Request>)
    requires p.burst == 0
    ensures forall i :: 0 <= i < |reqs| ==> !Answers(p, m, reqs)[i]
    decreases |reqs|
  {
    if reqs != [] {
      NoBurstDenies(p, Allow(p, m, reqs[0]).0, reqs[1..]);
    }
  }

  lemma EvictionUnobservable(p: Params, reqs: seq<Request>)
    requires p.rate >= 0.0 && p.idleTTL > 0.0 && Refill(p, p.idleTTL) >= p.burst as real && Ordered(reqs)
    ensures Answers(p, map[], reqs) == Answers(Keeping(p), map[], reqs)
  {
    hide Refill;
    if p.burst == 0 {
      NoBurstDenies(p, map[], reqs);
      NoBurstDenies(Keeping(p), map[], reqs);
    } else if reqs != [] {
      SimulatedAnswers(p, map[], map[], reqs[0].at, reqs);
    }
  }

  // ---------------------------------------------------------------------------
  // Otherwise it can
  // ---------------------------------------------------------------------------

  function Repeat(at: real, ip: string, n: nat): seq<Request> {
    seq(n, _ => Request(at, ip))
  }

  ghost function Tokens(p: Params, m: map<string, Entry>, ip: string, at: real): real {
    if ip in m then Available(p, m[ip].bucket, at) else p.burst as real
  }

  ghost predicate AllGranted(answers: seq<bool>) {
    forall i :: 0 <= i < |answers| ==> answers[i]
  }

  /** `n` requests at one instant are all granted exactly when the bucket holds `n` tokens, and then they
      leave the rest. */
  lemma {:induction false} Burst(p: Params, m: map<string, Entry>, at: real, ip: string, n: nat)
    requires Tokens(p, m, ip, at) >= 0.0
    ensures AllGranted(Answers(p, m, Repeat(at, ip, n))) <==> Tokens(p, m, ip, at) >= n as real
    ensures Tokens(p, m, ip, at) >= n as real ==>
      var after := State(p, m, Repeat(at, ip, n));
      && Tokens(p, after, ip, at) == Tokens(p, m, ip, at) - n as real
      && (n > 0 ==> ip in after && after[ip] == Entry(Bucket(Tokens(p, m, ip, at) - n as real, at), at))
    decreases n
  {
    hide Refill;
    RefillZero(p, at);
    if n > 0 {
      var reqs := Repeat(at, ip, n);
      assert reqs[1..] == Repeat(at, ip, n - 1);
      var (m', ok) := Allow(p, m, reqs[0]);
      if ok {
        assert Tokens(p, m', ip, at) == Tokens(p, m, ip, at) - 1.0;
        Burst(p, m', at, ip, n - 1);
        var answers := Answers(p, m, reqs);
        assert answers[1..] == Answers(p, m', Repeat(at, ip, n - 1));
        assert AllGranted(answers) <==> AllGranted(answers[1..]) by {
          assert forall i :: 0 <= i < |answers[1..]| ==> answers[1..][i] == answers[i + 1];
          assert answers == [answers[0]] + answers[1..];
        }
      } else {
        assert !Answers(p, m, reqs)[0];
      }
    }
  }

  /** Drain one address at time zero, let another arrive at `at`, come back at once. */
  function Comeback(p: Params, at: real): seq<Request> {
    Repeat(0.0, "a", p.burst) + [Request(at, "b")] + Repeat(at, "a", p.burst)
  }

  ghost function Drained(p: Params, at: real): map<string, Entry> {
    State(p, map[], Repeat(0.0, "a", p.burst) + [Request(at, "b")])
  }

  lemma ComebackAnswers(p: Params, at: real)
    ensures var early := Repeat(0.0, "a", p.burst) + [Request(at, "b")];
      Answers(p, map[], Comeback(p, at))[|early|..] == Answers(p, Drained(p, at), Repeat(at, "a", p.burst))
  {
    var early := Repeat(0.0, "a", p.burst) + [Request(at, "b")];
    AnswersSplit(p, map[], early, Repeat(at, "a", p.burst));
    assert Comeback(p, at) == early + Repeat(at, "a", p.burst);
  }

  lemma DrainedTokens(p: Params, at: real)
    requires p.rate >= 0.0 && p.burst >= 1 && at > 0.0
    ensures p.idleTTL > 0.0 && at > p.idleTTL ==> Tokens(p, Drained(p, at), "a", at) == p.burst as real
    ensures p.idleTTL <= 0.0 && Refill(p, at) < p.burst as real ==> Tokens(p, Drained(p, at), "a", at) == Refill(p, at)
  {
    hide Refill;
    Burst(p, map[], 0.0, "a", p.burst);
    var m := State(p, map[], Repeat(0.0, "a", p.burst));
    assert m["a"] == Entry(Bucket(0.0, 0.0), 0.0);
    AnswersSplit(p, map[], Repeat(0.0, "a", p.burst), [Request(at, "b")]);
    assert [Request(at, "b")][1..] == [];
    assert Drained(p, at) == Allow(p, m, Request(at, "b")).0;
    OnlyAddress(p, 0.0, "a", p.burst);
  }

  lemma {:induction false} StateKeys(p: Params, m: map<string, Entry>, at: real, ip: string, n: nat)
    requires m.Keys <= {ip}
    ensures State(p, m, Repeat(at, ip, n)).Keys <= {ip}
    decreases n
  {
    if n > 0 {
      assert Repeat(at, ip, n)[1..] == Repeat(at, ip, n - 1);
      StateKeys(p, Allow(p, m, Repeat(at, ip, n)[0]).0, at, ip, n - 1);
    }
  }

  lemma OnlyAddress(p: Params, at: real, ip: string, n: nat)
    ensures forall k :: k in State(p, map[], Repeat(at, ip, n)) ==> k == ip
  {
    StateKeys(p, map[], at, ip, n);
  }

  lemma ComebackOrdered(p: Params, at: real)
    requires at >= 0.0
    ensures Ordered(Comeback(p, at))
  {
    var reqs := Comeback(p, at);
    assert forall i :: 0 <= i < |reqs| ==> reqs[i].at == if i < p.burst then 0.0 else at;
  }

  lemma EvictionObservable(p: Params, at: real)
    requires p.rate >= 0.0 && p.idleTTL > 0.0 && p.burst >= 1
    requires at > p.idleTTL && Refill(p, at) < p.burst as real
    ensures Answers(p, map[], Comeback(p, at)) != Answers(Keeping(p), map[], Comeback(p, at))
  {
    hide Refill, Available, Take;
    ComebackAnswers(p, at);
    ComebackAnswers(Keeping(p), at);
    ComebackGranted(p, at);
    var q := Keeping(p);
    assert q.rate == p.rate && q.burst == p.burst && q.idleTTL == 0.0;
    KeepingRefill(p, at);
    ComebackDenied(q, at);
    assert Comeback(q, at) == Comeback(p, at);
  }

  lemma ComebackGranted(p: Params, at: real)
    requires p.rate >= 0.0 && p.idleTTL > 0.0 && p.burst >= 1 && at > p.idleTTL
    ensures AllGranted(Answers(p, Drained(p, at), Repeat(at, "a", p.burst)))
  {
    hide Refill;
    DrainedTokens(p, at);
    Burst(p, Drained(p, at), at, "a", p.burst);
  }

  lemma ComebackDenied(p: Params, at: real)
    requires p.rate >= 0.0 && p.idleTTL <= 0.0 && p.burst >= 1 && at > 0.0 && Refill(p, at) < p.burst as real
    ensures !AllGranted(Answers(p, Drained(p, at), Repeat(at, "a", p.burst)))
  {
    hide Refill;
    DrainedTokens(p, at);
    RefillNonNegative(p, at);
    Burst(p, Drained(p, at), at, "a", p.burst);
  }

  /** A moment after the idle window at which the bucket would not have refilled yet. */
  lemma WaitTime(p: Params) returns (at: real)
    requires p.rate >= 0.0 && p.idleTTL > 0.0 && Refill(p, p.idleTTL) < p.burst as real
    ensures at > p.idleTTL && Refill(p, at) < p.burst as real
  {
    if p.rate == 0.0 {
      at := p.idleTTL + 1.0;
    } else {
      var slack := p.burst as real - Refill(p, p.idleTTL);
      at := p.idleTTL + slack / (2.0 * p.rate);
      assert p.rate * (slack / (2.0 * p.rate)) == slack / 2.0;
      assert slack / (2.0 * p.rate) > 0.0;
    }
  }

  /** Every time-ordered request sequence is answered exactly as by a limiter that never evicts if and only
      if an idle window is long enough to refill a whole bucket. */
  lemma EvictionUnobservableIff(p: Params)
    requires p.rate >= 0.0 && p.idleTTL > 0.0
    ensures (forall reqs :: Ordered(reqs) ==> Answers(p, map[], reqs) == Answers(Keeping(p), map[], reqs))
            <==> Refill(p, p.idleTTL) >= p.burst as real
  {
    hide Refill;
    if Refill(p, p.idleTTL) >= p.burst as real {
      forall reqs | Ordered(reqs)
        ensures Answers(p, map[], reqs) == Answers(Keeping(p), map[], reqs)
      {
        EvictionUnobservable(p, reqs);
      }
    } else {
      var at := WaitTime(p);
      RefillNonNegative(p, p.idleTTL);
      EvictionObservable(p, at);
      ComebackOrdered(p, at);
    }
  }

  // ---------------------------------------------------------------------------
  // The rate over any window
  // ---------------------------------------------------------------------------

  ghost function Passes(reqs: seq<Request>, answers: seq<bool>, ip: string): real
    requires |answers| == |reqs|
  {
    if reqs == [] then 0.0
    else Passes(reqs[1..], answers[1..], ip) + if answers[0] && reqs[0].ip == ip then 1.0 else 0.0
  }

  lemma Refilled(p: Params, b: Bucket, now: real, later: real)
    requires p.rate >= 0.0 && b.last <= now <= later && 0.0 <= b.tokens <= p.burst as real
    ensures 0.0 <= Available(p, b, now) <= p.burst as real
    ensures Available(p, b, later) <= Available(p, b, now) + Refill(p, later - now)
  {
    RefillNonNegative(p, now - b.last);
    RefillNonNegative(p, later - now);
    RefillAdds(p, now - b.last, later - now);
  }

  lemma RefillBound(p: Params, m: map<string, Entry>, ip: string, now: real, later: real)
    requires p.rate >= 0.0 && now <= later && Sane(p, m, now)
    ensures 0.0 <= Tokens(p, m, ip, now) <= p.burst as real
    ensures Tokens(p, m, ip, later) <= Tokens(p, m, ip, now) + Refill(p, later - now)
  {
    hide Refill;
    RefillNonNegative(p, later - now);
    if ip in m {
      Refilled(p, m[ip].bucket, now, later);
    }
  }

  /** A grant costs its address one token; nothing else touches a kept address's tokens. */
  lemma GrantCosts(p: Params, m: map<string, Entry>, r: Request, ip: string)
    requires p.rate >= 0.0 && p.idleTTL <= 0.0 && Sane(p, m, r.at)
    ensures var (m', ok) := Allow(p, m, r);
      Tokens(p, m', ip, r.at) + (if ok && r.ip == ip then 1.0 else 0.0) <= Tokens(p, m, ip, r.at)
  {
    hide Refill;
    RefillZero(p, r.at);
    RefillBound(p, m, ip, r.at, r.at);
  }

  lemma SaneLater(p: Params, m: map<string, Entry>, now: real, later: real)
    requires Sane(p, m, now) && now <= later
    ensures Sane(p, m, later)
  {
  }

  lemma {:induction false} PassesBound(p: Params, m: map<string, Entry>, reqs: seq<Request>, ip: string, now: real, end: real)
    requires p.rate >= 0.0 && p.idleTTL <= 0.0 && Sane(p, m, now) && Ordered(reqs) && now <= end
    requires forall i :: 0 <= i < |reqs| ==> now <= reqs[i].at <= end
    ensures Passes(reqs, Answers(p, m, reqs), ip) <= Tokens(p, m, ip, now) + Refill(p, end - now)
    decreases |reqs|
  {
    hide Refill, Available, Take;
    if reqs == [] {
      RefillBound(p, m, ip, now, now);
      RefillNonNegative(p, end - now);
      assert Refill(p, end - now) >= 0.0;
      assert Tokens(p, m, ip, now) >= 0.0;
      assert Passes(reqs, Answers(p, m, reqs), ip) == 0.0;
      var x, y, z := Refill(p, end - now), Tokens(p, m, ip, now), Passes(reqs, Answers(p, m, reqs), ip);
      assert z <= y + x;
    } else {
      var r := reqs[0];
      var m' := Allow(p, m, r).0;
      AllowKeepsSane(p, m, now, r);
      PassesBound(p, m', reqs[1..], ip, r.at, end);
      PassesAdd(p, m, reqs, ip, now, end);
    }
  }

  /** One request, granted or not, never takes more than what tokens and refill have lost meanwhile. */
  lemma PassesAdd(p: Params, m: map<string, Entry>, reqs: seq<Request>, ip: string, now: real, end: real)
    requires reqs != [] && p.rate >= 0.0 && p.idleTTL <= 0.0 && Sane(p, m, now) && now <= reqs[0].at <= end
    requires var m' := Allow(p, m, reqs[0]).0;
      Passes(reqs[1..], Answers(p, m', reqs[1..]), ip) <= Tokens(p, m', ip, reqs[0].at) + Refill(p, end - reqs[0].at)
    ensures Passes(reqs, Answers(p, m, reqs), ip) <= Tokens(p, m, ip, now) + Refill(p, end - now)
  {
    hide Refill, Available, Take;
    var r := reqs[0];
    var (m', ok) := Allow(p, m, r);
    RefillBound(p, m, ip, now, r.at);
    SaneLater(p, m, now, r.at);
    GrantCosts(p, m, r, ip);
    PassesStep(p, m, reqs, ip);
    hide Allow, Passes, Answers, Tokens, Sane;
    RefillAdds(p, end - r.at, r.at - now);
    assert end - r.at + (r.at - now) == end - now;
  }

  lemma PassesStep(p: Params, m: map<string, Entry>, reqs: seq<Request>, ip: string)
    requires reqs != []
    ensures var (m', ok) := Allow(p, m, reqs[0]);
      Passes(reqs, Answers(p, m, reqs), ip) ==
      Passes(reqs[1..], Answers(p, m', reqs[1..]), ip) + if ok && reqs[0].ip == ip then 1.0 else 0.0
  {
    hide Refill;
    var m' := Allow(p, m, reqs[0]).0;
    assert Answers(p, m, reqs)[1..] == Answers(p, m', reqs[1..]);
  }

  lemma {:induction false} StateSane(p: Params, m: map<string, Entry>, reqs: seq<Request>, now: real)
    requires p.rate >= 0.0 && Sane(p, m, now) && Ordered(reqs) && (reqs != [] ==> now <= reqs[0].at)
    ensures Sane(p, State(p, m, reqs), if reqs == [] then now else reqs[|reqs| - 1].at)
    decreases |reqs|
  {
    if reqs != [] {
      AllowKeepsSane(p, m, now, reqs[0]);
      StateSane(p, Allow(p, m, reqs[0]).0, reqs[1..], reqs[0].at);
    }
  }

  lemma WindowAnswers(p: Params, reqs: seq<Request>, i: nat, j: nat)
    requires i <= j <= |reqs|
    ensures Answers(p, map[], reqs)[i..j] == Answers(p, State(p, map[], reqs[..i]), reqs[i..j])
  {
    AnswersSplit(p, map[], reqs[..i], reqs[i..j]);
    AnswersSplit(p, map[], reqs[..j], reqs[j..]);
    assert reqs[..j] == reqs[..i] + reqs[i..j] && reqs == reqs[..j] + reqs[j..];
  }

  lemma KeptWindowBound(p: Params, reqs: seq<Request>, i: nat, j: nat, ip: string)
    requires p.rate >= 0.0 && p.idleTTL <= 0.0 && Ordered(reqs) && i < j <= |reqs|
    ensures Passes(reqs[i..j], Answers(p, map[], reqs)[i..j], ip) <= p.burst as real + Refill(p, reqs[j - 1].at - reqs[i].at)
  {
    hide Refill, Available, Take;
    var m, now, end := State(p, map[], reqs[..i]), reqs[i].at, reqs[j - 1].at;
    WindowAnswers(p, reqs, i, j);
    StateBefore(p, reqs, i);
    PassesBound(p, m, reqs[i..j], ip, now, end);
    RefillBound(p, m, ip, now, now);
    var passes, tokens, refill := Passes(reqs[i..j], Answers(p, m, reqs[i..j]), ip), Tokens(p, m, ip, now), Refill(p, end - now);
    assert passes <= tokens + refill;
    assert tokens <= p.burst as real;
  }

  lemma StateBefore(p: Params, reqs: seq<Request>, i: nat)
    requires p.rate >= 0.0 && Ordered(reqs) && i < |reqs|
    ensures Sane(p, State(p, map[], reqs[..i]), reqs[i].at)
  {
    StateSane(p, map[], reqs[..i], reqs[0].at);
    if i > 0 {
      assert reqs[..i][i - 1].at <= reqs[i].at;
      SaneLater(p, State(p, map[], reqs[..i]), reqs[..i][i - 1].at, reqs[i].at);
    }
  }

  /** In every window of a time-ordered sequence, however the sequence started, no address gets more than the
      burst plus what the rate refills over the window's length; with a long enough idle window that holds for
      the evicting limiter too. */
  lemma WindowBound(p: Params, reqs: seq<Request>, i: nat, j: nat, ip: string)
    requires p.rate >= 0.0 && Ordered(reqs) && i < j <= |reqs|
    requires p.idleTTL <= 0.0 || Refill(p, p.idleTTL) >= p.burst as real
    ensures Passes(reqs[i..j], Answers(p, map[], reqs)[i..j], ip) <= p.burst as real + Refill(p, reqs[j - 1].at - reqs[i].at)
  {
    hide Refill;
    if p.idleTTL > 0.0 {
      EvictionUnobservable(p, reqs);
      KeptWindowBound(Keeping(p), reqs, i, j, ip);
      KeepingRefill(p, reqs[j - 1].at - reqs[i].at);
    } else {
      KeptWindowBound(p, reqs, i, j, ip);
    }
  }

  // ---------------------------------------------------------------------------
  // In numbers
  // ---------------------------------------------------------------------------

  /** A request passes if its address has a whole token, counting what accrued since the last grant up to the burst; a new
      address starts full. */
  lemma PassesIff(p: Params, m: map<string, Entry>, r: Request)
    ensures Allow(p, m, r).1 <==>
      p.burst >= 1 &&
      (r.ip in m ==>
         var b := m[r.ip].bucket;
         b.tokens + p.rate * (if r.at < b.last then 0.0 else r.at - b.last) >= 1.0)
  {
    if r.ip !in m {
      RefillZero(p, r.at);
    }
  }

  /** The table after a request: its address is there and just seen, with a bucket that a refusal left alone; other
      entries are as they were, except that a new address drops those idle for longer than the window. */
  lemma TableAfter(p: Params, m: map<string, Entry>, r: Request)
    ensures var (m', ok) := Allow(p, m, r);
      && r.ip in m' && m'[r.ip].seen == r.at
      && (!ok ==> m'[r.ip].bucket == if r.ip in m then m[r.ip].bucket else Bucket(p.burst as real, r.at))
      && (ok ==> m'[r.ip].bucket.last == r.at)
      && (forall k :: k != r.ip ==>
            (k in m' <==> k in m && (r.ip in m || p.idleTTL <= 0.0 || r.at - m[k].seen <= p.idleTTL)))
      && (forall k :: k != r.ip && k in m' ==> m'[k] == m[k])
  {
  }

  /** A new address that takes some of its burst at once is granted so many more requests later as it has tokens left and
      the rate has brought back, the burst at most. */
  lemma RefillsExactly(p: Params, m: map<string, Entry>, ip: string, first: nat, start: real, more: nat, later: real)
    requires p.rate >= 0.0 && ip !in m && 0 < first <= p.burst && start <= later
    ensures AllGranted(Answers(p, m, Repeat(start, ip, first) + Repeat(later, ip, more))) <==>
      more <= p.burst && more as real <= p.burst as real - first as real + p.rate * (later - start)
  {
    var a, b := Repeat(start, ip, first), Repeat(later, ip, more);
    RefillNonNegative(p, later - start);
    assert Tokens(p, m, ip, start) == p.burst as real by {
      RefillZero(p, start);
    }
    Burst(p, m, start, ip, first);
    var after := State(p, m, a);
    assert Refill(p, later - start) == p.rate * (later - start);
    assert Tokens(p, after, ip, later) == Available(p, Bucket(p.burst as real - first as real, start), later);
    Burst(p, after, later, ip, more);
    AnswersSplit(p, m, a, b);
    hide Answers, State, Repeat, Refill;
    BothGranted(Answers(p, m, a), Answers(p, after, b));
  }

  lemma BothGranted(a: seq<bool>, b: seq<bool>)
    ensures AllGranted(a + b) <==> AllGranted(a) && AllGranted(b)
  {
    if AllGranted(a + b) {
      forall i | 0 <= i < |a|
        ensures a[i]
      {
        assert (a + b)[i] == a[i];
      }
      forall i | 0 <= i < |b|
        ensures b[i]
      {
        assert (a + b)[|a| + i] == b[i];
      }
    }
  }
}
