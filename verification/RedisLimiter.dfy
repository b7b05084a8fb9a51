/** The limiter shared through Redis: one script call per request, each replica supplying its
    own clock, the key expiring on its own. Its answers are those of the token bucket on the
    clock that only ever advances by the forward steps of the supplied readings. */
module RedisLimiter {
  import opened Wrappers
  import opened TokenBucket

  // ---------------------------------------------------------------- the script

  datatype Entry = Entry(tokens: real, ts: int)

  datatype Reply = Reply(entry: Entry, allowed: bool)

  function Elapsed(from: int, now: int): int {
    if now <= from then 0 else now - from
  }

  /** One atomic run of the script against the stored hash, if there is one. */
  function Script(p: Policy, data: Option<Entry>, now: int): Reply {
    var tokens := if data.Some? then data.value.tokens else p.burst;
    var ts := if data.Some? then data.value.ts else now;
    var filled := Min(p.burst, tokens + p.Credit(Elapsed(ts, now)));
    if filled >= 1.0 then Reply(Entry(filled - 1.0, now), true) else Reply(Entry(filled, now), false)
  }

  /** Time to live set by every call, in nanoseconds: ceil(burst / rate) + 1 seconds. */
  function TimeToLive(p: Policy): int
    requires p.Valid()
  {
    (Ceil(p.burst / p.rate) + 1) * 1_000_000_000
  }

  function Ceil(x: real): int {
    -((-x).Floor)
  }

  /** A call's supplied clock, and whether the key had gone by the time it ran. */
  datatype Call = Call(now: int, expired: bool)

  function Seen(stored: Option<Entry>, c: Call): Option<Entry> {
    if c.expired then None else stored
  }

  /** The hash left by a sequence of calls on a key that did not exist before them. */
  function Stored(p: Policy, calls: seq<Call>): Option<Entry> {
    if calls == [] then None
    else
      var c := calls[|calls| - 1];
      Some(Script(p, Seen(Stored(p, calls[..|calls| - 1]), c), c.now).entry)
  }

  /** The first reading plus every forward step since. */
  function VirtualNow(calls: seq<Call>): int
    requires calls != []
  {
    var n := |calls| - 1;
    if n == 0 then calls[0].now
    else VirtualNow(calls[..n]) + Elapsed(calls[n - 1].now, calls[n].now)
  }

  /** The answers given, each dated by the virtual clock. */
  function Log(p: Policy, calls: seq<Call>): (h: History)
    ensures |h| == |calls|
  {
    if calls == [] then []
    else
      var prev, c := calls[..|calls| - 1], calls[|calls| - 1];
      Log(p, prev) + [Request(VirtualNow(calls), Script(p, Seen(Stored(p, prev), c), c.now).allowed)]
  }

  /** Redis may drop the key only once its time to live has run out. */
  ghost predicate ExpiresInTime(p: Policy, calls: seq<Call>, k: nat)
    requires p.Valid() && k < |calls|
  {
    k > 0 && calls[k].expired ==> calls[k].now - calls[k - 1].now >= TimeToLive(p)
  }

  ghost predicate Legal(p: Policy, calls: seq<Call>)
    requires p.Valid()
  {
    forall k :: 0 <= k < |calls| ==> ExpiresInTime(p, calls, k)
  }

  // ---------------------------------------------------------------- expiry

  /** Losing the key changes nothing, now or later, exactly when the bucket had refilled. */
  lemma ExpiryUnobservableIff(p: Policy, e: Entry, now: int)
    requires p.Valid()
    ensures Script(p, None, now) == Script(p, Some(e), now)
       <==> e.tokens + p.Credit(Elapsed(e.ts, now)) >= p.burst
  {
    assert p.Credit(0) == 0.0;
    assert Script(p, None, now) == Reply(Entry(p.burst - 1.0, now), true);
  }

  /** The time to live is long enough to refill an empty bucket. */
  lemma RefillsWithinTimeToLive(p: Policy, ns: int)
    requires p.Valid() && ns >= TimeToLive(p)
    ensures p.Credit(ns) >= p.burst
  {
    CreditMonotone(p, TimeToLive(p), ns);
    var s := Ceil(p.burst / p.rate) + 1;
    assert Seconds(s * 1_000_000_000) == s as real;
    assert s as real >= p.burst / p.rate;
    MulMonotone(p.burst / p.rate, s as real, p.rate);
    assert (p.burst / p.rate) * p.rate == p.burst;
  }

  /** It is that time in whole seconds, rounded up, and one second more. */
  lemma TimeToLiveInWholes(burst: int, per: int)
    requires burst >= 1 && per > 0
    ensures TimeToLive(PolicyOf(burst, per)) == ((per + 999_999_999) / 1_000_000_000 + 1) * 1_000_000_000
  {
    hide PolicyOf;
    var p := PolicyOf(burst, per);
    DivBack(p.rate, Seconds(per));
    assert Seconds(per) * p.rate == p.burst;
    assert p.burst / p.rate == Seconds(per);
    WholeSeconds(per);
    CeilIs(Seconds(per), (per + 999_999_999) / 1_000_000_000);
  }

  lemma CeilIs(x: real, c: int)
    requires (c - 1) as real < x <= c as real
    ensures Ceil(x) == c
  {
    var f := (-x).Floor;
    assert f as real <= -x < (f + 1) as real;
  }

  lemma WholeSeconds(per: int)
    ensures var c := (per + 999_999_999) / 1_000_000_000; (c - 1) as real < Seconds(per) <= c as real
  {
    var c := (per + 999_999_999) / 1_000_000_000;
    assert (c - 1) * 1_000_000_000 < per <= c * 1_000_000_000;
  }

  lemma DivBack(r: real, x: real)
    requires r > 0.0
    ensures (x * r) / r == x
  {
  }

  lemma MulMonotone(x: real, y: real, r: real)
    requires x <= y && r >= 0.0
    ensures x * r <= y * r
  {
  }

  lemma ExpiryHarmless(p: Policy, e: Entry, c: Call)
    requires p.Valid() && e.tokens >= 0.0
    requires c.expired ==> c.now - e.ts >= TimeToLive(p)
    ensures Script(p, Seen(Some(e), c), c.now) == Script(p, Some(e), c.now)
  {
    if c.expired {
      ExpiryUnobservableIff(p, e, c.now);
      TimeToLivePositive(p);
      RefillsWithinTimeToLive(p, c.now - e.ts);
    }
  }

  lemma TimeToLivePositive(p: Policy)
    requires p.Valid()
    ensures TimeToLive(p) > 0
  {
    DivPositive(p.burst, p.rate);
  }

  // ---------------------------------------------------------------- refinement

  ghost predicate Follows(p: Policy, calls: seq<Call>)
    requires calls != []
  {
    var s := Stored(p, calls);
    && s.Some? && s.value.tokens >= 0.0
    && s.value.ts == calls[|calls| - 1].now
    && Tracked(p, Log(p, calls), s.value.tokens, VirtualNow(calls))
  }

  lemma FirstCallFollows(p: Policy, calls: seq<Call>)
    requires p.Valid() && |calls| == 1
    ensures Follows(p, calls)
  {
    var c := calls[0];
    assert calls[..0] == [];
    assert Seen(None, c) == None;
    assert p.Credit(0) == 0.0;
    FirstRequestIsExact(p, c.now);
    assert Log(p, calls) == Answered(p, [], c.now);
  }

  lemma NextCallFollows(p: Policy, calls: seq<Call>)
    requires p.Valid() && |calls| > 1 && Follows(p, calls[..|calls| - 1])
    requires ExpiresInTime(p, calls, |calls| - 1)
    ensures Follows(p, calls)
  {
    hide Tracked, Admissible, TimeToLive, Seconds;
    var n := |calls| - 1;
    var prev, c := calls[..n], calls[n];
    var e := Stored(p, prev).value;
    assert prev[n - 1] == calls[n - 1];
    ExpiryHarmless(p, e, c);
    TakeIsExact(p, Log(p, prev), e.tokens, VirtualNow(prev), VirtualNow(calls));
    CreditNonNegative(p, Elapsed(e.ts, c.now));
  }

  /** Whatever the clocks do, and however often the key expires in time, every answer is the
      one the window rule gives on the virtual clock. */
  lemma {:induction false} EveryAnswerExact(p: Policy, calls: seq<Call>)
    requires p.Valid() && Legal(p, calls)
    ensures Ordered(Log(p, calls)) && Exact(p, Log(p, calls))
    ensures calls != [] ==> Follows(p, calls)
    decreases |calls|
  {
    if |calls| == 1 {
      FirstCallFollows(p, calls);
    } else if |calls| > 1 {
      var n := |calls| - 1;
      LegalPrefix(p, calls, n);
      EveryAnswerExact(p, calls[..n]);
      assert ExpiresInTime(p, calls, n);
      NextCallFollows(p, calls);
    }
  }

  lemma LegalPrefix(p: Policy, calls: seq<Call>, n: nat)
    requires p.Valid() && Legal(p, calls) && n <= |calls|
    ensures Legal(p, calls[..n])
  {
    forall k | 0 <= k < n
      ensures ExpiresInTime(p, calls[..n], k)
    {
      assert ExpiresInTime(p, calls, k);
    }
  }

  /** Call `k`'s reading lies before the one before it. */
  ghost predicate RunsBack(calls: seq<Call>, k: nat)
    requires 0 < k < |calls|
  {
    calls[k].now < calls[k - 1].now
  }

  /** No reading from call `i` to call `j` runs back. */
  ghost predicate ForwardOver(calls: seq<Call>, i: nat, j: nat)
    requires j < |calls|
  {
    forall k :: i < k <= j ==> !RunsBack(calls, k)
  }

  ghost predicate NeverBack(calls: seq<Call>) {
    calls != [] ==> ForwardOver(calls, 0, |calls| - 1)
  }

  lemma NeverBackPrefix(calls: seq<Call>)
    requires calls != [] && NeverBack(calls)
    ensures NeverBack(calls[..|calls| - 1])
  {
    var prev := calls[..|calls| - 1];
    forall k | 0 < k < |prev|
      ensures !RunsBack(prev, k)
    {
      assert !RunsBack(calls, k);
    }
  }

  lemma {:induction false} MonotoneClockIsVirtual(p: Policy, calls: seq<Call>)
    requires NeverBack(calls)
    ensures forall k :: 0 <= k < |calls| ==> Log(p, calls)[k].at == calls[k].now
    decreases |calls|
  {
    if calls != [] {
      var n := |calls| - 1;
      NeverBackPrefix(calls);
      MonotoneClockIsVirtual(p, calls[..n]);
      VirtualIsLast(calls);
    }
  }

  lemma {:induction false} VirtualIsLast(calls: seq<Call>)
    requires calls != [] && NeverBack(calls)
    ensures VirtualNow(calls) == calls[|calls| - 1].now
    decreases |calls|
  {
    var n := |calls| - 1;
    if n > 0 {
      NeverBackPrefix(calls);
      VirtualIsLast(calls[..n]);
      assert !RunsBack(calls, n);
    }
  }

  /** Under one clock that never runs back, the script answers every request as the
      in-memory limiter does (whose histories are exact), expiry included. */
  lemma {:induction false} AgreesWithInMemory(p: Policy, calls: seq<Call>, h: History)
    requires p.Valid() && Legal(p, calls) && NeverBack(calls)
    requires Exact(p, h) && |h| == |calls|
    requires forall k :: 0 <= k < |h| ==> h[k].at == calls[k].now
    ensures Log(p, calls) == h
  {
    EveryAnswerExact(p, calls);
    MonotoneClockIsVirtual(p, calls);
    AnswersDetermined(p, Log(p, calls), h);
  }

  // ---------------------------------------------------------------- skewed clocks

  /** Sum of the forward clock steps between calls `i` and `j`. */
  function ForwardTime(calls: seq<Call>, i: nat, j: nat): nat
    requires i <= j < |calls|
    decreases j
  {
    if i == j then 0 else ForwardTime(calls, i, j - 1) + Elapsed(calls[j - 1].now, calls[j].now)
  }

  lemma {:induction false} VirtualAdvance(calls: seq<Call>, i: nat, j: nat)
    requires i <= j < |calls|
    ensures VirtualNow(calls[..j + 1]) - VirtualNow(calls[..i + 1]) == ForwardTime(calls, i, j)
    decreases j
  {
    if i < j {
      VirtualAdvance(calls, i, j - 1);
      assert calls[..j + 1][..j] == calls[..j];
    }
  }

  lemma {:induction false} LogAt(p: Policy, calls: seq<Call>, k: nat)
    requires k < |calls|
    ensures Log(p, calls)[k].at == VirtualNow(calls[..k + 1])
    decreases |calls|
  {
    var n := |calls| - 1;
    if n > 0 {
      LogAt(p, calls[..n], if k < n then k else n - 1);
    }
    if k < n {
      assert calls[..n][..k + 1] == calls[..k + 1];
    } else {
      assert calls[..k + 1] == calls;
    }
  }

  /** Clocks that disagree can buy no more than their forward steps. */
  lemma SkewBound(p: Policy, calls: seq<Call>, i: nat, j: nat)
    requires p.Valid() && Legal(p, calls) && i <= j < |calls|
    ensures Accepted(Log(p, calls)[i..j + 1]) as real <= p.burst + p.Credit(ForwardTime(calls, i, j))
  {
    EveryAnswerExact(p, calls);
    LogAt(p, calls, i);
    LogAt(p, calls, j);
    VirtualAdvance(calls, i, j);
    NoWindowOverspent(p, Log(p, calls), i, j);
  }

  /** Two replicas whose clocks stay `TimeToLive` apart, taking turns. */
  function TakingTurns(p: Policy, n: nat): (calls: seq<Call>)
    requires p.Valid()
    ensures |calls| == 2 * n
    ensures forall k :: 0 <= k < |calls| ==> 0 <= calls[k].now <= TimeToLive(p) && !calls[k].expired
  {
    TimeToLivePositive(p);
    if n == 0 then []
    else TakingTurns(p, n - 1) + [Call(0, false)] + [Call(TimeToLive(p), false)]
  }

  lemma NeverExpiredIsLegal(p: Policy, calls: seq<Call>)
    requires p.Valid() && forall k :: 0 <= k < |calls| ==> !calls[k].expired
    ensures Legal(p, calls)
  {
  }

  lemma FullAfterTimeToLive(p: Policy, e: Entry)
    requires p.Valid() && e.tokens >= 0.0 && e.ts == 0
    ensures Script(p, Some(e), TimeToLive(p)).allowed
  {
    TimeToLivePositive(p);
    RefillsWithinTimeToLive(p, TimeToLive(p));
  }

  lemma OneMoreCall(p: Policy, calls: seq<Call>, now: int)
    ensures var c := Call(now, false);
            && Accepted(Log(p, calls + [c])) >= Accepted(Log(p, calls))
            && (Script(p, Stored(p, calls), now).allowed ==>
                  Accepted(Log(p, calls + [c])) == Accepted(Log(p, calls)) + 1)
  {
    var longer := calls + [Call(now, false)];
    assert longer[..|calls|] == calls;
    AcceptedGrows(Log(p, calls), Request(VirtualNow(longer), Script(p, Stored(p, calls), now).allowed));
  }

  /** Elapsed time alone bounds nothing: with every reading inside one fixed interval, any
      number of requests gets through. */
  lemma {:induction false} ElapsedTimeBoundsNothing(p: Policy, n: nat)
    requires p.Valid()
    ensures Legal(p, TakingTurns(p, n))
    ensures Accepted(Log(p, TakingTurns(p, n))) >= n
    decreases n
  {
    hide Tracked, Exact, Ordered, Script, Log, Accepted, TimeToLive, Legal, VirtualNow;
    NeverExpiredIsLegal(p, TakingTurns(p, n));
    if n > 0 {
      var base := TakingTurns(p, n - 1);
      var mid := base + [Call(0, false)];
      ElapsedTimeBoundsNothing(p, n - 1);
      OneMoreCall(p, base, 0);
      NeverExpiredIsLegal(p, mid);
      EveryAnswerExact(p, mid);
      FullAfterTimeToLive(p, Stored(p, mid).value);
      OneMoreCall(p, mid, TimeToLive(p));
    }
  }

  lemma AcceptedGrows(h: History, r: Request)
    ensures Accepted(h + [r]) == Accepted(h) + if r.accepted then 1 else 0
  {
    assert (h + [r])[..|h|] == h;
  }

  // ---------------------------------------------------------------- two kinds of clock

  /** Redis expires keys by its own clock, which never runs back, whatever the callers' clocks say. */
  ghost predicate ServerExpires(p: Policy, calls: seq<Call>, server: seq<int>)
    requires p.Valid()
  {
    && |server| == |calls|
    && forall k :: 0 < k < |calls| ==> ServerStep(p, calls, server, k)
  }

  ghost predicate ServerStep(p: Policy, calls: seq<Call>, server: seq<int>, k: nat)
    requires p.Valid() && 0 < k < |calls| == |server|
  {
    server[k - 1] <= server[k] && (calls[k].expired ==> server[k] - server[k - 1] >= TimeToLive(p))
  }

  lemma {:induction false} LogAnswer(p: Policy, calls: seq<Call>, k: nat)
    requires k < |calls|
    ensures Log(p, calls)[k].accepted == Script(p, Seen(Stored(p, calls[..k]), calls[k]), calls[k].now).allowed
    decreases |calls|
  {
    hide Script, Stored;
    var n := |calls| - 1;
    if k < n {
      LogAnswer(p, calls[..n], k);
      assert calls[..n][..k] == calls[..k];
    }
  }

  ghost function Held(p: Policy, calls: seq<Call>, k: nat): real
    requires k < |calls|
  {
    assert calls[..k + 1] != [];
    Stored(p, calls[..k + 1]).value.tokens
  }

  lemma HeldAfter(p: Policy, calls: seq<Call>, k: nat)
    requires k < |calls|
    ensures var r := Script(p, Seen(Stored(p, calls[..k]), calls[k]), calls[k].now);
            Held(p, calls, k) == r.entry.tokens && Stored(p, calls[..k + 1]) == Some(r.entry)
  {
    assert calls[..k + 1][..k] == calls[..k];
  }

  lemma ScriptGives(p: Policy, data: Option<Entry>, now: int)
    requires p.Valid() && (data.Some? ==> data.value.tokens >= 0.0)
    ensures var r := Script(p, data, now); var one := if r.allowed then 1.0 else 0.0;
            && r.entry.ts == now && r.entry.tokens >= 0.0 && one + r.entry.tokens <= p.burst
            && (data.Some? ==> one + r.entry.tokens <= data.value.tokens + p.Credit(Elapsed(data.value.ts, now)))
  {
    if data.Some? {
      CreditNonNegative(p, Elapsed(data.value.ts, now));
    }
  }

  lemma {:induction false} HeldNonNegative(p: Policy, calls: seq<Call>, k: nat)
    requires p.Valid() && k < |calls|
    ensures Held(p, calls, k) >= 0.0 && Stored(p, calls[..k + 1]).value.ts == calls[k].now
    decreases k
  {
    hide Script, Stored;
    HeldAfter(p, calls, k);
    if k > 0 {
      HeldNonNegative(p, calls, k - 1);
      HeldAfter(p, calls, k - 1);
    } else {
      NothingStored(p, calls);
    }
    ScriptGives(p, Seen(Stored(p, calls[..k]), calls[k]), calls[k].now);
  }

  lemma NothingStored(p: Policy, calls: seq<Call>)
    ensures Stored(p, calls[..0]) == None
  {
  }

  /** One call spends what was held and what either clock has refilled since. */
  lemma CallSpends(p: Policy, calls: seq<Call>, server: seq<int>, k: nat)
    requires p.Valid() && 0 < k < |calls| == |server| && ServerStep(p, calls, server, k)
    ensures (if Log(p, calls)[k].accepted then 1.0 else 0.0) + Held(p, calls, k) <=
            Held(p, calls, k - 1) + p.Credit(Elapsed(calls[k - 1].now, calls[k].now))
            + p.Credit(server[k] - server[k - 1])
  {
    hide Script, Stored, Log, TimeToLive, Seconds;
    LogAnswer(p, calls, k);
    HeldAfter(p, calls, k);
    HeldAfter(p, calls, k - 1);
    HeldNonNegative(p, calls, k - 1);
    ScriptGives(p, Seen(Stored(p, calls[..k]), calls[k]), calls[k].now);
    CreditNonNegative(p, server[k] - server[k - 1]);
    CreditNonNegative(p, Elapsed(calls[k - 1].now, calls[k].now));
    if calls[k].expired {
      RefillsWithinTimeToLive(p, server[k] - server[k - 1]);
    }
  }

  lemma FirstSpends(p: Policy, calls: seq<Call>, k: nat)
    requires p.Valid() && k < |calls|
    ensures (if Log(p, calls)[k].accepted then 1.0 else 0.0) + Held(p, calls, k) <= p.burst
  {
    hide Script, Stored, Log;
    LogAnswer(p, calls, k);
    HeldAfter(p, calls, k);
    if k > 0 {
      HeldAfter(p, calls, k - 1);
      HeldNonNegative(p, calls, k - 1);
    } else {
      NothingStored(p, calls);
    }
    ScriptGives(p, Seen(Stored(p, calls[..k]), calls[k]), calls[k].now);
  }

  lemma {:induction false} StretchSpends(p: Policy, calls: seq<Call>, server: seq<int>, i: nat, j: nat)
    requires p.Valid() && ServerExpires(p, calls, server) && i <= j < |calls|
    ensures Accepted(Log(p, calls)[i..j + 1]) as real + Held(p, calls, j) <=
            p.burst + p.Credit(ForwardTime(calls, i, j)) + p.Credit(server[j] - server[i])
    decreases j
  {
    hide Script, Stored, Held, ServerStep, Policy.Credit, Elapsed;
    var h := Log(p, calls);
    AcceptedGrows(h[i..j], h[j]);
    assert h[i..j + 1] == h[i..j] + [h[j]];
    if i == j {
      FirstSpends(p, calls, j);
      CreditSplits(p, 0, 0);
    } else {
      StretchSpends(p, calls, server, i, j - 1);
      CallSpends(p, calls, server, j);
      CreditSplits(p, ForwardTime(calls, i, j - 1), Elapsed(calls[j - 1].now, calls[j].now));
      CreditSplits(p, server[j - 1] - server[i], server[j] - server[j - 1]);
    }
  }

  /** However the callers' clocks disagree, and wherever keys expire by the server's clock, a stretch
      of calls accepts at most burst plus the refill of its forward clock movements and of the time
      that passed on the server. */
  lemma SkewAndExpiryBound(p: Policy, calls: seq<Call>, server: seq<int>, i: nat, j: nat)
    requires p.Valid() && ServerExpires(p, calls, server) && i <= j < |calls|
    ensures Accepted(Log(p, calls)[i..j + 1]) as real <=
            p.burst + p.Credit(ForwardTime(calls, i, j)) + p.Credit(server[j] - server[i])
  {
    StretchSpends(p, calls, server, i, j);
    HeldNonNegative(p, calls, j);
  }

  // ---------------------------------------------------------------- elapsed time

  ghost predicate RunsAhead(calls: seq<Call>, k: nat)
    requires 0 < k < |calls|
  {
    calls[k - 1].now < calls[k].now
  }

  ghost predicate BackwardOver(calls: seq<Call>, i: nat, j: nat)
    requires j < |calls|
  {
    forall k :: i < k <= j ==> !RunsAhead(calls, k)
  }

  /** Forward steps add up to the time elapsed when there are no others, and to more otherwise. */
  lemma {:induction false} ForwardTimeIs(calls: seq<Call>, i: nat, j: nat)
    requires i <= j < |calls|
    ensures ForwardTime(calls, i, j) >= calls[j].now - calls[i].now
    ensures ForwardTime(calls, i, j) == calls[j].now - calls[i].now <==> ForwardOver(calls, i, j)
    ensures ForwardTime(calls, i, j) == 0 <==> BackwardOver(calls, i, j)
    decreases j
  {
    if i < j {
      ForwardTimeIs(calls, i, j - 1);
      assert ForwardOver(calls, i, j) <==> ForwardOver(calls, i, j - 1) && !RunsBack(calls, j);
      assert BackwardOver(calls, i, j) <==> BackwardOver(calls, i, j - 1) && !RunsAhead(calls, j);
    }
  }

  /** What burst and elapsed time allow between two calls. */
  ghost predicate ElapsedBound(p: Policy, calls: seq<Call>, a: nat, b: nat)
    requires p.Valid() && a <= b < |calls|
  {
    Accepted(Log(p, calls)[a..b + 1]) as real <= p.burst + p.Credit(calls[b].now - calls[a].now)
  }

  const SHORTEST_LIFE: int := 2_000_000_000

  /** No key lives for less than two seconds, whatever the policy. */
  lemma ShortestLife(p: Policy)
    requires p.Valid()
    ensures TimeToLive(p) >= SHORTEST_LIFE
  {
    DivPositive(p.burst, p.rate);
  }

  ghost predicate ExpiresLate(calls: seq<Call>) {
    forall k :: 0 < k < |calls| && calls[k].expired ==> calls[k].now - calls[k - 1].now >= SHORTEST_LIFE
  }

  /** Expiry as some policy allows it is expiry after the shortest life. */
  lemma LegalForSomeIff(calls: seq<Call>)
    ensures (exists p: Policy :: p.Valid() && Legal(p, calls)) <==> ExpiresLate(calls)
  {
    if p: Policy :| p.Valid() && Legal(p, calls) {
      ShortestLife(p);
      forall k | 0 < k < |calls| && calls[k].expired
        ensures calls[k].now - calls[k - 1].now >= SHORTEST_LIFE
      {
        assert ExpiresInTime(p, calls, k);
      }
    }
    if ExpiresLate(calls) {
      FastIsLegal(calls);
    }
  }

  /** One token in store, two for each nanosecond. */
  const FAST := Policy(1.0, 2_000_000_000.0)

  lemma FastIsLegal(calls: seq<Call>)
    requires ExpiresLate(calls)
    ensures FAST.Valid() && Legal(FAST, calls)
  {
    assert FAST.burst / FAST.rate <= 1.0;
    assert TimeToLive(FAST) == SHORTEST_LIFE;
  }

  /** Over a stretch of calls the plain bound of burst and elapsed time holds, for every policy
      and between any two calls, exactly when no reading in it runs back. */
  lemma ElapsedTimeBoundsIff(calls: seq<Call>, i: nat, j: nat)
    requires i <= j < |calls| && ExpiresLate(calls)
    ensures (forall p: Policy, a, b :: p.Valid() && Legal(p, calls) && i <= a <= b <= j ==>
               ElapsedBound(p, calls, a, b))
       <==> ForwardOver(calls, i, j)
  {
    hide ElapsedBound, Legal, TimeToLive, Policy.Valid;
    if ForwardOver(calls, i, j) {
      forall p: Policy, a, b | p.Valid() && Legal(p, calls) && i <= a <= b <= j
        ensures ElapsedBound(p, calls, a, b)
      {
        assert ForwardOver(calls, a, b);
        ForwardHolds(p, calls, a, b);
      }
    } else {
      var k :| i < k <= j && RunsBack(calls, k);
      var p := BackwardBreaks(calls, k);
      assert !ElapsedBound(p, calls, k - 1, k);
    }
  }

  lemma ForwardHolds(p: Policy, calls: seq<Call>, a: nat, b: nat)
    requires p.Valid() && Legal(p, calls) && a <= b < |calls| && ForwardOver(calls, a, b)
    ensures ElapsedBound(p, calls, a, b)
  {
    hide Log, Accepted, Legal, ForwardTime;
    SkewBound(p, calls, a, b);
    ForwardTimeIs(calls, a, b);
  }

  lemma BackwardBreaks(calls: seq<Call>, k: nat) returns (p: Policy)
    requires ExpiresLate(calls) && 0 < k < |calls| && RunsBack(calls, k)
    ensures p.Valid() && Legal(p, calls) && !ElapsedBound(p, calls, k - 1, k)
  {
    hide Log, Accepted, Legal;
    p := FAST;
    FastIsLegal(calls);
    CreditMonotone(p, calls[k].now - calls[k - 1].now, -1);
    assert p.Credit(-1) == -2.0;
  }

  /** The same when time that ran back counts as none. */
  ghost predicate ForwardElapsedBound(p: Policy, calls: seq<Call>, a: nat, b: nat)
    requires p.Valid() && a <= b < |calls|
  {
    Accepted(Log(p, calls)[a..b + 1]) as real <= p.burst + p.Credit(Elapsed(calls[a].now, calls[b].now))
  }

  /** On a bucket that never expires, this bound holds, for every policy and between any two
      calls, exactly when the readings never move both ways. */
  lemma ForwardElapsedBoundsIff(calls: seq<Call>)
    requires calls != [] && forall k :: 0 <= k < |calls| ==> !calls[k].expired
    ensures (forall p: Policy, a, b :: p.Valid() && 0 <= a <= b < |calls| ==> ForwardElapsedBound(p, calls, a, b))
       <==> ForwardOver(calls, 0, |calls| - 1) || BackwardOver(calls, 0, |calls| - 1)
  {
    hide ForwardElapsedBound;
    var n := |calls| - 1;
    if ForwardOver(calls, 0, n) || BackwardOver(calls, 0, n) {
      forall p: Policy, a, b | p.Valid() && 0 <= a <= b <= n
        ensures ForwardElapsedBound(p, calls, a, b)
      {
        assert ForwardOver(calls, a, b) || BackwardOver(calls, a, b);
        OneWayHolds(p, calls, a, b);
      }
    } else {
      var m := BothWays(calls);
      TurningBreaks(calls, m);
    }
  }

  lemma OneWayHolds(p: Policy, calls: seq<Call>, a: nat, b: nat)
    requires p.Valid() && a <= b < |calls| && forall k :: 0 <= k < |calls| ==> !calls[k].expired
    requires ForwardOver(calls, a, b) || BackwardOver(calls, a, b)
    ensures ForwardElapsedBound(p, calls, a, b)
  {
    hide Log, Accepted, Legal, ForwardTime;
    NeverExpiredIsLegal(p, calls);
    SkewBound(p, calls, a, b);
    ForwardTimeIs(calls, a, b);
  }

  /** A call by which the readings have moved both ways. */
  lemma BothWays(calls: seq<Call>) returns (m: nat)
    requires calls != [] && !ForwardOver(calls, 0, |calls| - 1) && !BackwardOver(calls, 0, |calls| - 1)
    ensures 0 < m < |calls| && ForwardTime(calls, 0, m) > Elapsed(calls[0].now, calls[m].now)
  {
    var f :| 0 < f <= |calls| - 1 && RunsAhead(calls, f);
    var b :| 0 < b <= |calls| - 1 && RunsBack(calls, b);
    hide ForwardTime;
    m := if f < b then b else f;
    ForwardTimeIs(calls, 0, m);
  }

  /** One token in store, and one more for the time the script sees pass up to call `m`. */
  ghost function OnePer(ns: int): (p: Policy)
    requires ns > 0
    ensures p.Valid() && p.burst == 1.0 && p.Credit(ns) == 1.0
  {
    DivPositive(1.0, Seconds(ns));
    assert Seconds(ns) * (1.0 / Seconds(ns)) == 1.0;
    Policy(1.0, 1.0 / Seconds(ns))
  }

  lemma TurningBreaks(calls: seq<Call>, m: nat)
    requires forall k :: 0 <= k < |calls| ==> !calls[k].expired
    requires 0 < m < |calls| && ForwardTime(calls, 0, m) > Elapsed(calls[0].now, calls[m].now)
    ensures var p := OnePer(ForwardTime(calls, 0, m));
            p.Valid() && !ForwardElapsedBound(p, calls, 0, m)
  {
    hide Log, Accepted, Script, Exact, Ordered, OnePer, Seconds, ForwardTime;
    var ns := ForwardTime(calls, 0, m);
    var p := OnePer(ns);
    TwoAccepted(p, calls, m);
    LessCredit(p, Elapsed(calls[0].now, calls[m].now), ns);
  }

  lemma LessCredit(p: Policy, a: int, b: int)
    requires p.Valid() && a < b
    ensures p.Credit(a) < p.Credit(b)
  {
    CreditSplits(p, a, b - a);
    assert Seconds(b - a) > 0.0;
    assert Seconds(b - a) * p.rate > 0.0;
  }

  /** With one token in store the first call gets it, and another is accepted by the time a
      token has come back. */
  lemma TwoAccepted(p: Policy, calls: seq<Call>, m: nat)
    requires p.Valid() && p.burst == 1.0 && forall k :: 0 <= k < |calls| ==> !calls[k].expired
    requires 0 < m < |calls| && p.Credit(ForwardTime(calls, 0, m)) >= 1.0
    ensures Accepted(Log(p, calls)[0..m + 1]) >= 2
  {
    hide Log, Script;
    NeverExpiredIsLegal(p, calls);
    EveryAnswerExact(p, calls);
    LogAt(p, calls, 0);
    LogAt(p, calls, m);
    VirtualAdvance(calls, 0, m);
    var h := Log(p, calls);
    SecondToken(p, h, m);
  }

  lemma {:induction false} AcceptedSplits(h: History, i: nat, j: nat)
    requires i <= j <= |h|
    ensures Accepted(h[..j]) == Accepted(h[..i]) + Accepted(h[i..j])
    decreases j
  {
    if i == j {
      assert h[i..j] == [];
    } else {
      AcceptedSplits(h, i, j - 1);
      assert h[..j][..j - 1] == h[..j - 1] && h[i..j][..j - 1 - i] == h[i..j - 1];
    }
  }

  lemma SecondToken(p: Policy, h: History, m: nat)
    requires p.Valid() && p.burst == 1.0 && Exact(p, h) && Ordered(h)
    requires 0 < m < |h| && p.Credit(h[m].at - h[0].at) >= 1.0
    ensures Accepted(h[0..m + 1]) >= 2
  {
    hide Accepted, Exact;
    FirstCounts(p, h);
    AcceptedSplits(h, 1, m);
    AcceptedStep(h, 0, m);
    assert h[0..m] == h[..m];
    if Accepted(h[..m]) == 1 {
      forall i | 0 <= i < m
        ensures HasRoom(p, h[..m], i, h[m].at)
      {
        assert h[..m][i..] == h[i..m];
        if i > 0 {
          AcceptedSplits(h, 1, i);
          AcceptedSplits(h, i, m);
          assert Accepted(h[i..m]) == 0;
          CreditNonNegative(p, h[m].at - h[i].at);
        } else {
          assert h[0..m] == h[..m];
        }
      }
      AnswerAt(p, h, m);
    }
  }

  lemma FirstCounts(p: Policy, h: History)
    requires Exact(p, h) && h != []
    ensures Accepted(h[..1]) == 1
  {
    assert AnsweredExactly(p, h, 0);
    assert h[..1] == [h[0]] && [h[0]][..0] == [];
  }

  lemma AnswerAt(p: Policy, h: History, m: nat)
    requires Exact(p, h) && m < |h|
    ensures h[m].accepted <==> Admissible(p, h[..m], h[m].at)
  {
    assert AnsweredExactly(p, h, m);
  }

  // ---------------------------------------------------------------- keys

  function FullKey(prefix: string, key: string): string {
    "krate:ratelimit:" + prefix + ":" + key
  }

  /** Two limiters on one server can share a bucket exactly when one prefix, closed by its
      colon, begins the other. */
  lemma PrefixesCollideIff(p: string, q: string)
    ensures (exists k, l :: FullKey(p, k) == FullKey(q, l)) <==> p + ":" <= q + ":" || q + ":" <= p + ":"
  {
    var head := "krate:ratelimit:";
    if p + ":" <= q + ":" {
      FullKeyJoin(p, (q + ":")[|p| + 1..], q, "");
    } else if q + ":" <= p + ":" {
      FullKeyJoin(p, "", q, (p + ":")[|q| + 1..]);
    }
    forall k, l | FullKey(p, k) == FullKey(q, l)
      ensures p + ":" <= q + ":" || q + ":" <= p + ":"
    {
      var s := FullKey(p, k);
      assert s[|head|..] == p + ":" + k;
      assert s[|head|..] == q + ":" + l;
      assert (p + ":" + k)[..|p| + 1] == p + ":";
      assert (q + ":" + l)[..|q| + 1] == q + ":";
      if |p| <= |q| {
        assert (q + ":" + l)[..|p| + 1] == (q + ":")[..|p| + 1];
      } else {
        assert (p + ":" + k)[..|q| + 1] == (p + ":")[..|q| + 1];
      }
    }
  }

  /** Within one prefix two keys share a bucket only if they are the same. */
  lemma KeysShareIff(p: string, k: string, l: string)
    ensures FullKey(p, k) == FullKey(p, l) <==> k == l
  {
    var head := "krate:ratelimit:" + p + ":";
    assert FullKey(p, k)[|head|..] == k && FullKey(p, l)[|head|..] == l;
  }

  lemma FullKeyJoin(p: string, k: string, q: string, l: string)
    requires p + ":" + k == q + ":" + l
    ensures FullKey(p, k) == FullKey(q, l)
  {
    var head := "krate:ratelimit:";
    assert FullKey(p, k) == head + (p + ":" + k);
    assert FullKey(q, l) == head + (q + ":" + l);
  }

  // ---------------------------------------------------------------- the limiter

  /** The Redis server's hashes, and every script call run on each key so far. */
  class Server {
    var hashes: map<string, Entry>
    ghost var calls: map<string, seq<Call>>

    constructor ()
      ensures hashes == map[] && calls == map[]
    {
      hashes, calls := map[], map[];
    }

    ghost function Past(full: string): seq<Call>
      reads this
    {
      if full in calls then calls[full] else []
    }

    function Get(full: string): Option<Entry>
      reads this
    {
      if full in hashes then Some(hashes[full]) else None
    }
  }

  class RedisLimiter {
    const server: Server
    const prefix: string
    const policy: Policy

    constructor (server: Server, prefix: string, burst: int, per: int)
      requires burst >= 1 && per > 0
      ensures this.server == server && this.prefix == prefix && policy == PolicyOf(burst, per)
      ensures policy.burst == burst as real && policy.Credit(per) == burst as real
    {
      this.server, this.prefix, policy := server, prefix, PolicyOf(burst, per);
    }

    /** A call that fails lets the request through, whether the script never ran or ran and only
        its reply was lost; in the second case the bucket has moved all the same. */
    method Allow(key: string, now: int, runs: bool, answered: bool, expired: bool) returns (ok: bool)
      requires policy.Valid()
      requires server.Get(FullKey(prefix, key)) == Stored(policy, server.Past(FullKey(prefix, key)))
      modifies server
      ensures !runs || !answered ==> ok
      ensures !runs ==> server.hashes == old(server.hashes) && server.calls == old(server.calls)
      ensures runs && (expired || old(server.Get(FullKey(prefix, key))).None?) ==>
                server.Get(FullKey(prefix, key)) == Some(Entry(policy.burst - 1.0, now)) && ok
      ensures var full := FullKey(prefix, key);
              var past := old(server.Past(full));
              var calls := past + [Call(now, expired)];
              runs ==>
                && server.calls == old(server.calls)[full := calls]
                && (forall k :: k != full ==> server.Get(k) == old(server.Get(k)))
                && server.Get(full) == Stored(policy, calls)
                && exists verdict :: (answered ==> ok == verdict)
                     && Log(policy, calls) == Log(policy, past) + [Request(VirtualNow(calls), verdict)]
                     && (Legal(policy, calls) ==>
                           (verdict <==> Admissible(policy, Log(policy, past), VirtualNow(calls))))
    {
      hide Script, Log, Stored, VirtualNow, FullKey, Admissible, Legal;
      if !runs {
        return true;
      }
      var full := FullKey(prefix, key);
      ghost var past := server.Past(full);
      CallAnswers(policy, past, Call(now, expired));
      FullBucketAnswers(policy, now);
      var reply := Script(policy, Seen(server.Get(full), Call(now, expired)), now);
      server.hashes := server.hashes[full := reply.entry];
      server.calls := server.calls[full := past + [Call(now, expired)]];
      ok := !answered || reply.allowed;
    }
  }

  /** A key that does not exist, or has expired, is a full bucket. */
  lemma FullBucketAnswers(p: Policy, now: int)
    requires p.Valid()
    ensures Script(p, None, now) == Reply(Entry(p.burst - 1.0, now), true)
  {
    assert p.Credit(0) == 0.0;
  }

  /** What one more call leaves and answers. */
  lemma CallAnswers(p: Policy, past: seq<Call>, c: Call)
    requires p.Valid()
    ensures var calls := past + [c]; var r := Script(p, Seen(Stored(p, past), c), c.now);
            && Stored(p, calls) == Some(r.entry)
            && Log(p, calls) == Log(p, past) + [Request(VirtualNow(calls), r.allowed)]
            && (Legal(p, calls) ==> (r.allowed <==> Admissible(p, Log(p, past), VirtualNow(calls))))
  {
    hide Script, VirtualNow, Legal, Admissible;
    var calls := past + [c];
    assert calls[..|past|] == past;
    if Legal(p, calls) {
      EveryAnswerExact(p, calls);
      LastAnswer(p, Log(p, past), Log(p, calls)[|past|]);
    }
  }

  lemma LastAnswer(p: Policy, h: History, r: Request)
    requires Exact(p, h + [r])
    ensures r.accepted <==> Admissible(p, h, r.at)
  {
    assert AnsweredExactly(p, h + [r], |h|);
    assert (h + [r])[..|h|] == h;
  }
}
