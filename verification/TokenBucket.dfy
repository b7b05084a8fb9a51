/** The per-key token bucket of the in-memory limiter, proved equal to a rule that never
    mentions tokens: a request is let through exactly when no window ending at it would
    overspend `burst + rate * length`. */
module TokenBucket {

  const NANOS_PER_SECOND: real := 1000000000.0

  function Seconds(ns: int): real {
    ns as real / NANOS_PER_SECOND
  }

  /** `rate` is in tokens per second. */
  datatype Policy = Policy(burst: real, rate: real) {
    ghost predicate Valid() {
      burst >= 1.0 && rate > 0.0
    }

    /** Tokens refilled over `ns` nanoseconds. */
    function Credit(ns: int): real {
      Seconds(ns) * rate
    }
  }

  /** `burst` requests refilling continuously over `per` nanoseconds. */
  function PolicyOf(burst: int, per: int): (p: Policy)
    requires burst >= 1 && per > 0
    ensures p.Valid() && p.burst == burst as real && p.Credit(per) == burst as real
  {
    var seconds := Seconds(per);
    var p := Policy(burst as real, burst as real / seconds);
    assert p.rate > 0.0 by { DivPositive(burst as real, seconds); }
    assert seconds * (burst as real / seconds) == burst as real;
    p
  }

  lemma DivPositive(x: real, y: real)
    requires x > 0.0 && y > 0.0
    ensures x / y > 0.0
  {
    assert (x / y) * y == x;
  }

  lemma CreditSplits(p: Policy, a: int, b: int)
    ensures p.Credit(a + b) == p.Credit(a) + p.Credit(b)
  {
    assert Seconds(a + b) == Seconds(a) + Seconds(b);
  }

  lemma CreditNonNegative(p: Policy, a: int)
    requires p.Valid() && a >= 0
    ensures p.Credit(a) >= 0.0
  {
  }

  lemma CreditMonotone(p: Policy, a: int, b: int)
    requires p.Valid() && a <= b
    ensures p.Credit(a) <= p.Credit(b)
  {
    CreditSplits(p, a, b - a);
    CreditNonNegative(p, b - a);
  }

  // ---------------------------------------------------------------- the rule

  datatype Request = Request(at: int, accepted: bool)

  type History = seq<Request>

  ghost predicate Ordered(h: History) {
    forall i, j :: 0 <= i <= j < |h| ==> h[i].at <= h[j].at
  }

  function Accepted(h: History): nat {
    if h == [] then 0
    else Accepted(h[..|h| - 1]) + if h[|h| - 1].accepted then 1 else 0
  }

  /** The window from request `i` up to `now` can take one more. */
  ghost predicate HasRoom(p: Policy, h: History, i: nat, now: int)
    requires i < |h|
  {
    Accepted(h[i..]) as real + 1.0 <= p.burst + p.Credit(now - h[i].at)
  }

  /** No window from an earlier request up to `now` has its whole allowance spent. */
  ghost predicate Admissible(p: Policy, h: History, now: int) {
    forall i :: 0 <= i < |h| ==> HasRoom(p, h, i, now)
  }

  /** Request `j` got the answer the window rule gives after the requests before it. */
  ghost predicate AnsweredExactly(p: Policy, h: History, j: nat)
    requires j < |h|
  {
    h[j].accepted <==> Admissible(p, h[..j], h[j].at)
  }

  ghost predicate Exact(p: Policy, h: History) {
    forall j :: 0 <= j < |h| ==> AnsweredExactly(p, h, j)
  }

  // ---------------------------------------------------------------- the bucket

  function Min(x: real, y: real): real {
    if x <= y then x else y
  }

  /** Tokens on hand when a request arrives at `now`, after the requests `h`. */
  ghost function Before(p: Policy, h: History, now: int): real {
    if h == [] then p.burst
    else Min(p.burst, Level(p, h) + p.Credit(now - h[|h| - 1].at))
  }

  /** Tokens left after the last request of `h`. */
  ghost function Level(p: Policy, h: History): real
    requires h != []
    decreases |h|, 0
  {
    var last := h[|h| - 1];
    var prev := h[..|h| - 1];
    var before := if prev == [] then p.burst
                  else Min(p.burst, Level(p, prev) + p.Credit(last.at - prev[|prev| - 1].at));
    before - if last.accepted then 1.0 else 0.0
  }

  /** What the window opened by request `i` still allows at the last request. */
  ghost function Slack(p: Policy, h: History, i: nat): real
    requires i < |h|
  {
    p.burst + p.Credit(h[|h| - 1].at - h[i].at) - Accepted(h[i..]) as real
  }

  lemma SlackStep(p: Policy, h: History, r: Request, i: nat)
    requires i < |h|
    ensures Slack(p, h + [r], i) ==
            Slack(p, h, i) + p.Credit(r.at - h[|h| - 1].at) - if r.accepted then 1.0 else 0.0
  {
    var last := h[|h| - 1].at;
    assert (h + [r])[i..] == h[i..] + [r];
    assert (h[i..] + [r])[..|h[i..] + [r]| - 1] == h[i..];
    CreditSplits(p, r.at - last, last - h[i].at);
  }

  lemma NewestSlack(p: Policy, h: History, r: Request)
    ensures Slack(p, h + [r], |h|) == p.burst - if r.accepted then 1.0 else 0.0
  {
    var h' := h + [r];
    assert h'[|h|..] == [r];
    assert [r][..0] == [];
    assert Accepted([r]) == if r.accepted then 1 else 0;
    assert p.Credit(0) == 0.0;
  }

  lemma LevelStep(p: Policy, h: History, r: Request)
    ensures Level(p, h + [r]) == Before(p, h, r.at) - if r.accepted then 1.0 else 0.0
  {
    assert (h + [r])[..|h|] == h;
  }

  /** The token level never exceeds what any window still allows ... */
  lemma {:induction false} LevelWithinEveryWindow(p: Policy, h: History, i: nat)
    requires i < |h|
    ensures Level(p, h) <= Slack(p, h, i)
    decreases |h|
  {
    var n := |h| - 1;
    assert h == h[..n] + [h[n]];
    LevelStep(p, h[..n], h[n]);
    if i == n {
      NewestSlack(p, h[..n], h[n]);
    } else {
      LevelWithinEveryWindow(p, h[..n], i);
      SlackStep(p, h[..n], h[n], i);
    }
  }

  /** ... and equals what the tightest one allows. */
  lemma {:induction false} LevelMeetsAWindow(p: Policy, h: History) returns (k: nat)
    requires h != []
    ensures k < |h| && Level(p, h) == Slack(p, h, k)
    decreases |h|
  {
    var n := |h| - 1;
    var prev, r := h[..n], h[n];
    assert h == prev + [r];
    LevelStep(p, prev, r);
    NewestSlack(p, prev, r);
    k := n;
    if prev != [] && Before(p, prev, r.at) != p.burst {
      k := LevelMeetsAWindow(p, prev);
      SlackStep(p, prev, r, k);
    }
  }

  lemma SlackAt(p: Policy, h: History, now: int, i: nat)
    requires i < |h|
    ensures p.burst + p.Credit(now - h[i].at) - Accepted(h[i..]) as real
         == Slack(p, h, i) + p.Credit(now - h[|h| - 1].at)
  {
    CreditSplits(p, now - h[|h| - 1].at, h[|h| - 1].at - h[i].at);
  }

  /** A token is on hand exactly when the window rule admits the request. */
  lemma TokenOnHandIffAdmissible(p: Policy, h: History, now: int)
    requires p.Valid()
    ensures Before(p, h, now) >= 1.0 <==> Admissible(p, h, now)
  {
    if h != [] {
      forall i | 0 <= i < |h| && Before(p, h, now) >= 1.0
        ensures HasRoom(p, h, i, now)
      {
        LevelWithinEveryWindow(p, h, i);
        SlackAt(p, h, now, i);
      }
      var k := LevelMeetsAWindow(p, h);
      SlackAt(p, h, now, k);
      if Admissible(p, h, now) {
        assert HasRoom(p, h, k, now);
      }
    }
  }

  /** Appending the answer the rule gives keeps every answer exact. */
  lemma ExactExtends(p: Policy, h: History, r: Request)
    requires Exact(p, h) && Ordered(h) && (h != [] ==> h[|h| - 1].at <= r.at)
    requires r.accepted <==> Admissible(p, h, r.at)
    ensures Ordered(h + [r]) && Exact(p, h + [r])
  {
    assert (h + [r])[..|h|] == h;
    forall j | 0 <= j <= |h|
      ensures AnsweredExactly(p, h + [r], j)
    {
      assert (h + [r])[..j] == h[..j];
      assert j < |h| ==> AnsweredExactly(p, h, j);
    }
  }

  /** What `h` becomes when a request at `now` is answered by the rule. */
  ghost function Answered(p: Policy, h: History, now: int): History {
    h + [Request(now, Admissible(p, h, now))]
  }

  ghost predicate Tracked(p: Policy, h: History, tokens: real, lastFill: int) {
    h != [] && Ordered(h) && Exact(p, h) && lastFill == h[|h| - 1].at && tokens == Level(p, h)
  }

  lemma TakeIsExact(p: Policy, h: History, tokens: real, lastFill: int, now: int)
    requires p.Valid() && Tracked(p, h, tokens, lastFill) && lastFill <= now
    ensures var t := Min(p.burst, tokens + p.Credit(now - lastFill));
            && (t >= 1.0 <==> Admissible(p, h, now))
            && Tracked(p, Answered(p, h, now), if t >= 1.0 then t - 1.0 else t, now)
  {
    TokenOnHandIffAdmissible(p, h, now);
    var r := Request(now, Admissible(p, h, now));
    ExactExtends(p, h, r);
    LevelStep(p, h, r);
  }

  lemma FirstRequestIsExact(p: Policy, now: int)
    requires p.Valid()
    ensures Admissible(p, [], now)
    ensures Tracked(p, Answered(p, [], now), p.burst - 1.0, now)
  {
    var r := Request(now, true);
    ExactExtends(p, [], r);
    LevelStep(p, [], r);
  }

  // ---------------------------------------------------------------- whole runs

  ghost predicate SameTimes(h: History, g: History) {
    |h| == |g| && forall i :: 0 <= i < |h| ==> h[i].at == g[i].at
  }

  lemma ExactPrefix(p: Policy, h: History, n: nat)
    requires Exact(p, h) && n <= |h|
    ensures Exact(p, h[..n])
  {
    forall j | 0 <= j < n
      ensures AnsweredExactly(p, h[..n], j)
    {
      assert h[..n][..j] == h[..j];
      assert AnsweredExactly(p, h, j);
    }
  }

  /** The request times alone determine every answer. */
  lemma {:induction false} AnswersDetermined(p: Policy, h: History, g: History)
    requires Exact(p, h) && Exact(p, g) && SameTimes(h, g)
    ensures h == g
    decreases |h|
  {
    if h != [] {
      var n := |h| - 1;
      ExactPrefix(p, h, n);
      ExactPrefix(p, g, n);
      AnswersDetermined(p, h[..n], g[..n]);
      assert AnsweredExactly(p, h, n) && AnsweredExactly(p, g, n);
      assert h == h[..n] + [h[n]] && g == g[..n] + [g[n]];
    }
  }

  /** No stretch of any run lets through more than the burst plus what refilled in it. */
  lemma {:induction false} NoWindowOverspent(p: Policy, h: History, i: nat, j: nat)
    requires p.Valid() && Ordered(h) && Exact(p, h) && i <= j < |h|
    ensures Accepted(h[i..j + 1]) as real <= p.burst + p.Credit(h[j].at - h[i].at)
    decreases j
  {
    AcceptedStep(h, i, j);
    if h[j].accepted {
      AcceptedWithinWindow(p, h, i, j);
    } else if i < j {
      NoWindowOverspent(p, h, i, j - 1);
      CreditMonotone(p, h[j - 1].at - h[i].at, h[j].at - h[i].at);
    } else {
      CreditNonNegative(p, 0);
    }
  }

  lemma AcceptedStep(h: History, i: nat, j: nat)
    requires i <= j < |h|
    ensures Accepted(h[i..j + 1]) == Accepted(h[i..j]) + if h[j].accepted then 1 else 0
    ensures i == j ==> Accepted(h[i..j]) == 0
  {
    assert h[i..j + 1][..j - i] == h[i..j];
  }

  lemma AcceptedWithinWindow(p: Policy, h: History, i: nat, j: nat)
    requires p.Valid() && Exact(p, h) && i <= j < |h| && h[j].accepted && h[i].at <= h[j].at
    ensures Accepted(h[i..j]) as real + 1.0 <= p.burst + p.Credit(h[j].at - h[i].at)
  {
    assert AnsweredExactly(p, h, j);
    assert h[..j][i..] == h[i..j];
    CreditNonNegative(p, h[j].at - h[i].at);
    if i < j {
      assert HasRoom(p, h[..j], i, h[j].at);
    }
  }

  // ---------------------------------------------------------------- in whole numbers

  /** A limiter made for `burst` requests per `per` nanoseconds refills in proportion. */
  lemma CreditInProportion(burst: int, per: int, ns: int)
    requires burst >= 1 && per > 0
    ensures PolicyOf(burst, per).Credit(ns) * per as real == burst as real * ns as real
  {
    var p := PolicyOf(burst, per);
    assert Seconds(per) * NANOS_PER_SECOND == per as real && Seconds(ns) * NANOS_PER_SECOND == ns as real;
    calc {
      p.Credit(ns) * per as real;
      (Seconds(ns) * p.rate) * (Seconds(per) * NANOS_PER_SECOND);
      { Regroup(Seconds(ns), p.rate, Seconds(per), NANOS_PER_SECOND); }
      (Seconds(per) * p.rate) * (Seconds(ns) * NANOS_PER_SECOND);
      burst as real * ns as real;
    }
  }

  lemma Regroup(a: real, b: real, c: real, d: real)
    ensures (a * b) * (c * d) == (c * b) * (a * d)
  {
  }

  lemma Scaled(x: real, y: real, k: real)
    requires k > 0.0
    ensures x <= y <==> x * k <= y * k
  {
  }

  /** What a number of requests may be, in whole numbers. */
  lemma WithinAllowance(burst: int, per: int, ns: int, n: int)
    requires burst >= 1 && per > 0
    ensures var p := PolicyOf(burst, per);
            n as real <= p.burst + p.Credit(ns) <==> n * per <= burst * per + burst * ns
  {
    var p := PolicyOf(burst, per);
    CreditInProportion(burst, per, ns);
    Scaled(n as real, p.burst + p.Credit(ns), per as real);
    assert (p.burst + p.Credit(ns)) * per as real == p.burst * per as real + p.Credit(ns) * per as real;
    WholeProducts(n, per);
    WholeProducts(burst, per);
    WholeProducts(burst, ns);
  }

  lemma WholeProducts(a: int, b: int)
    ensures a as real * b as real == (a * b) as real
  {
  }

  /** The window rule in the numbers the limiter was made with: no stretch of time reaching up to
      the new request has seen so many requests that one more would pass `burst`, and `burst` more
      for every `per` of its length. */
  lemma AdmissibleInWholes(burst: int, per: int, h: History, now: int)
    requires burst >= 1 && per > 0
    ensures Admissible(PolicyOf(burst, per), h, now) <==>
              forall i :: 0 <= i < |h| ==> (Accepted(h[i..]) + 1) * per <= burst * per + burst * (now - h[i].at)
  {
    hide PolicyOf, Accepted;
    var p := PolicyOf(burst, per);
    forall i | 0 <= i < |h|
      ensures HasRoom(p, h, i, now) <==> (Accepted(h[i..]) + 1) * per <= burst * per + burst * (now - h[i].at)
    {
      WithinAllowance(burst, per, now - h[i].at, Accepted(h[i..]) + 1);
    }
  }

  /** So over every stretch of a run at most `burst` requests are accepted, and `burst` more for
      every `per` it lasts. */
  lemma AcceptedInWholes(burst: int, per: int, h: History, i: nat, j: nat)
    requires burst >= 1 && per > 0 && i <= j < |h|
    requires Ordered(h) && Exact(PolicyOf(burst, per), h)
    ensures Accepted(h[i..j + 1]) * per <= burst * per + burst * (h[j].at - h[i].at)
  {
    hide PolicyOf, Accepted, Exact;
    NoWindowOverspent(PolicyOf(burst, per), h, i, j);
    WithinAllowance(burst, per, h[j].at - h[i].at, Accepted(h[i..j + 1]));
  }

  /** At one instant nothing refills. */
  lemma AdmissibleAtOnce(burst: int, per: int, h: History, now: int)
    requires burst >= 1 && per > 0 && forall i :: 0 <= i < |h| ==> h[i].at == now
    ensures Admissible(PolicyOf(burst, per), h, now) <==>
              forall i :: 0 <= i < |h| ==> Accepted(h[i..]) < burst
  {
    hide PolicyOf, Accepted, Admissible;
    AdmissibleInWholes(burst, per, h, now);
    forall i | 0 <= i < |h|
      ensures (Accepted(h[i..]) + 1) * per <= burst * per + burst * (now - h[i].at) <==> Accepted(h[i..]) < burst
    {
      Cancels(Accepted(h[i..]) + 1, burst, per);
      assert burst * (now - h[i].at) == 0;
    }
  }

  lemma Cancels(a: int, b: int, k: int)
    requires k > 0
    ensures a * k <= b * k <==> a <= b
  {
    Scaled(a as real, b as real, k as real);
    WholeProducts(a, k);
    WholeProducts(b, k);
  }

  /** Of the requests a new key makes at one instant exactly the first `burst` are accepted. */
  lemma {:induction false} BurstAtOnce(burst: int, per: int, h: History, k: nat)
    requires burst >= 1 && per > 0 && k < |h|
    requires Exact(PolicyOf(burst, per), h) && forall i :: 0 <= i < |h| ==> h[i].at == h[0].at
    ensures h[k].accepted <==> k < burst
    decreases k
  {
    hide PolicyOf, Accepted, Admissible;
    forall j | 0 <= j < k
      ensures h[j].accepted <==> j < burst
    {
      BurstAtOnce(burst, per, h, j);
    }
    assert AnsweredExactly(PolicyOf(burst, per), h, k);
    var prev := h[..k];
    AdmissibleAtOnce(burst, per, prev, h[k].at);
    AcceptedFrom(prev, if k < burst then k else burst);
    assert k > 0 ==> prev[0..] == prev;
  }

  /** The first `m` are accepted and no other. */
  lemma {:induction false} AcceptedFrom(h: History, m: nat)
    requires m <= |h| && forall k :: 0 <= k < |h| ==> (h[k].accepted <==> k < m)
    ensures Accepted(h) == m && forall i :: 0 <= i < |h| ==> Accepted(h[i..]) <= m
    decreases |h|
  {
    if h != [] {
      var n := |h| - 1;
      var prev := h[..n];
      AcceptedFrom(prev, if m <= n then m else n);
      forall i | 0 <= i < |h|
        ensures Accepted(h[i..]) <= m
      {
        assert h[i..][..|h[i..]| - 1] == prev[i..];
        assert i == n ==> prev[i..] == [];
      }
    }
  }

  // ---------------------------------------------------------------- the limiter

  class Bucket {
    var tokens: real
    var lastFill: int

    /** A new key's bucket is full less the request that created it. */
    constructor (p: Policy, now: int)
      requires p.Valid()
      ensures Tracked(p, Answered(p, [], now), tokens, lastFill) && lastFill == now
      ensures Admissible(p, [], now)
    {
      tokens, lastFill := p.burst - 1.0, now;
      new;
      FirstRequestIsExact(p, now);
    }

    method Take(p: Policy, now: int, ghost past: History) returns (ok: bool)
      requires p.Valid() && Tracked(p, past, tokens, lastFill) && lastFill <= now
      modifies this
      ensures Tracked(p, Answered(p, past, now), tokens, lastFill) && lastFill == now
      ensures ok <==> Admissible(p, past, now)
    {
      TakeIsExact(p, past, tokens, lastFill, now);
      var elapsed := now - lastFill;
      tokens := tokens + p.Credit(elapsed);
      if tokens > p.burst {
        tokens := p.burst;
      }
      lastFill := now;
      if tokens < 1.0 {
        return false;
      }
      tokens := tokens - 1.0;
      return true;
    }
  }

  ghost predicate Apart(buckets: map<string, Bucket>) {
    forall k, l :: k in buckets && l in buckets && k != l ==> buckets[k] != buckets[l]
  }

  lemma StillApart(buckets: map<string, Bucket>, key: string, b: Bucket)
    requires Apart(buckets) && key !in buckets && b !in buckets.Values
    ensures Apart(buckets[key := b])
  {
  }

  lemma OthersDiffer(buckets: map<string, Bucket>, key: string)
    requires Apart(buckets) && key in buckets
    ensures forall k :: k in buckets && k != key ==> buckets[k] != buckets[key]
  {
  }

  /** The in-memory limiter. `history` is every request answered so far, by key; `clock` is
      the last reading of the process clock, which never runs backwards. */
  class RateLimiter {
    const policy: Policy
    var buckets: map<string, Bucket>
    ghost var history: map<string, History>
    ghost var clock: int

    ghost predicate Valid()
      reads this, buckets.Values
    {
      && policy.Valid()
      && history.Keys == buckets.Keys
      && Apart(buckets)
      && (forall k :: k in buckets ==> Holds(buckets[k], history[k]))
    }

    ghost predicate Holds(b: Bucket, h: History)
      reads this, b
    {
      Tracked(policy, h, b.tokens, b.lastFill) && b.lastFill <= clock
    }

    ghost function Past(key: string): History
      reads this
    {
      if key in history then history[key] else []
    }

    constructor (burst: int, per: int, ghost start: int)
      requires burst >= 1 && per > 0
      ensures Valid() && policy == PolicyOf(burst, per)
      ensures policy.burst == burst as real && policy.Credit(per) == burst as real
      ensures buckets == map[] && history == map[] && clock == start
    {
      policy := PolicyOf(burst, per);
      buckets := map[];
      history, clock := map[], start;
    }

    method Allow(key: string, now: int) returns (ok: bool)
      requires Valid() && clock <= now
      modifies this, buckets.Values
      ensures Valid() && clock == now
      ensures fresh(buckets.Values - old(buckets.Values))
      ensures ok <==> Admissible(policy, old(Past(key)), now)
      ensures history == old(history)[key := Answered(policy, old(Past(key)), now)]
      ensures forall k :: k in old(buckets) ==> k in buckets && buckets[k] == old(buckets[k])
      ensures forall k :: k in old(buckets) && k != key ==> unchanged(buckets[k])
    {
      ghost var past := Past(key);
      hide Tracked, Admissible, Answered, Apart;
      var b;
      if key !in buckets {
        b := new Bucket(policy, now);
        StillApart(buckets, key, b);
        buckets := buckets[key := b];
        ok := true;
      } else {
        b := buckets[key];
        assert Holds(b, past);
        OthersDiffer(buckets, key);
        ok := b.Take(policy, now, past);
      }
      assert Tracked(policy, Answered(policy, past, now), b.tokens, b.lastFill) && b.lastFill <= now;
      clock, history := now, history[key := Answered(policy, past, now)];
      assert Holds(b, history[key]);
      forall k | k in buckets && k != key
        ensures Holds(buckets[k], history[k])
      {
        assert old(Holds(buckets[k], history[k]));
        assert unchanged(buckets[k]);
      }
    }
  }
}
