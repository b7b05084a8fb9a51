/** Login handlers running at once against the lockout shared through Redis. Checking takes two
    commands, between which any other handler's commands may run; the window is inclusive. */
module RedisHandlers {
  import opened Wrappers
  import opened Runs
  import opened SlidingWindow
  import H = LoginHandlers
  import RedisLockout

  /** `kept` are the scores in the username's sorted set. `waiting` are the handlers that have
      dropped old failures and not counted yet, `passed` those let through and not finished.
      `slips` are the times at which a handler was let through unchecked, `since` those of them
      since the last reset. */
  datatype State = State(
    log: seq<H.Event>, kept: seq<int>, waiting: set<int>, passed: set<int>, clock: int,
    slips: seq<int>, since: seq<int>)

  /** `read` is the clock reading behind a cutoff and `at` the one a failure is recorded under;
      either may be older than the command that carries it, or come from a clock that lags behind.
      A check whose command fails, or gets no reply, lets the handler through: a `Slip`. A record or
      a reset that never reaches the server is an `Abandon`. */
  datatype Step =
    | Drop(handler: int, read: int, now: int)
    | Count(handler: int, now: int)
    | Slip(handler: int, now: int)
    | Reject(handler: int, at: int, now: int)
    | Accept(handler: int, now: int)
    | Abandon(handler: int)
    | Expire(now: int)

  /** What scores at or after the cutoff. */
  function From(times: seq<int>, cutoff: int): seq<int> {
    After(times, cutoff - 1)
  }

  predicate AllOld(c: H.Config, s: State, now: int) {
    forall t :: t in H.SinceCleared(s.log) ==> now - t >= c.window + RedisLockout.MINUTE
  }

  function Next(c: H.Config, s: State, step: Step): Option<State> {
    match step
    case Drop(h, read, now) =>
      if now < s.clock || read > now || h in s.waiting || h in s.passed then None
      else Some(s.(kept := From(s.kept, read - c.window), waiting := s.waiting + {h}, clock := now))
    case Count(h, now) =>
      if now < s.clock || h !in s.waiting then None
      else if |s.kept| >= c.maxFailures then Some(s.(waiting := s.waiting - {h}, clock := now))
      else if h in s.passed || |s.passed + {h}| > c.overlap then None
      else Some(s.(waiting := s.waiting - {h}, passed := s.passed + {h}, clock := now))
    case Slip(h, now) =>
      if now < s.clock || h in s.passed || |s.passed + {h}| > c.overlap then None
      else
        Some(s.(waiting := s.waiting - {h}, passed := s.passed + {h}, clock := now, slips := s.slips + [now],
                since := s.since + [now]))
    case Reject(h, at, now) =>
      if now < s.clock || at > now || h !in s.passed then None
      else Some(s.(log := s.log + [H.Failed(at)], kept := s.kept + [at], passed := s.passed - {h}, clock := now))
    case Accept(h, now) =>
      if now < s.clock || h !in s.passed then None
      else Some(s.(log := s.log + [H.Cleared(now)], kept := [], passed := s.passed - {h}, clock := now, since := []))
    case Abandon(h) =>
      if h !in s.passed && h !in s.waiting then None
      else Some(s.(passed := s.passed - {h}, waiting := s.waiting - {h}))
    case Expire(now) =>
      if now < s.clock || !AllOld(c, s, now) then None else Some(s.(kept := [], clock := now))
  }

  /** The key may expire once the newest failure since the last reset is a window and a minute old, at
      whatever moment after that, and any handler may give up wherever it is. */
  lemma MayExpire(c: H.Config, s: State, h: int, now: int, times: seq<int>)
    requires times == H.SinceCleared(s.log)
    ensures Next(c, s, Expire(now)).Some? <==>
              s.clock <= now && forall t :: t in times ==> now - t >= c.window + 60_000_000_000
    ensures Next(c, s, Expire(now)).Some? ==> Next(c, s, Expire(now)).value == s.(kept := [], clock := now)
    ensures h in s.passed || h in s.waiting ==>
              Next(c, s, Abandon(h)) == Some(s.(passed := s.passed - {h}, waiting := s.waiting - {h}))
  {
  }

  function By(c: H.Config): (State, Step) -> Option<State> {
    (s, step) => Next(c, s, step)
  }

  function Start(clock: int): State {
    State([], [], {}, {}, clock, [], [])
  }

  // ---------------------------------------------------------------- the set and the history

  ghost predicate SameAfter(s: State, cutoff: int) {
    After(s.kept, cutoff) == After(H.SinceCleared(s.log), cutoff)
  }

  /** The set and the failures since the last reset look alike through every window to come. */
  ghost predicate Covers(c: H.Config, s: State) {
    forall cutoff :: cutoff >= s.clock - c.window - 1 ==> SameAfter(s, cutoff)
  }

  lemma StepCovers(c: H.Config, s: State, step: Step)
    requires c.window > 0 && Covers(c, s) && Next(c, s, step).Some?
    ensures Covers(c, Next(c, s, step).value)
  {
    hide After, H.SinceCleared;
    var t := Next(c, s, step).value;
    forall cutoff | cutoff >= t.clock - c.window - 1
      ensures SameAfter(t, cutoff)
    {
      assert SameAfter(s, cutoff);
      match step {
        case Drop(_, read, _) => AfterTwice(s.kept, read - c.window - 1, cutoff);
        case Reject(_, at, _) =>
          AfterAppend(s.kept, at, cutoff);
          LogAppend(s.log, H.Failed(at));
          AfterAppend(H.SinceCleared(s.log), at, cutoff);
        case Accept(_, now) => LogAppend(s.log, H.Cleared(now));
        case Expire(now) => NoneAfter(H.SinceCleared(s.log), cutoff); NoneAfter([], cutoff);
        case _ =>
      }
    }
  }

  lemma LogAppend(log: seq<H.Event>, e: H.Event)
    ensures H.SinceCleared(log + [e]) == if e.Cleared? then [] else H.SinceCleared(log) + [e.at]
  {
    assert (log + [e])[..|log|] == log;
  }

  lemma {:induction false} NoneAfter(times: seq<int>, cutoff: int)
    requires forall t :: t in times ==> t <= cutoff
    ensures After(times, cutoff) == []
    decreases |times|
  {
    if times != [] {
      var n := |times| - 1;
      assert times[n] in times;
      forall t | t in times[..n]
        ensures t <= cutoff
      {
        assert t in times;
      }
      NoneAfter(times[..n], cutoff);
    }
  }

  // ---------------------------------------------------------------- the bound

  /** The budget of the in-memory handlers, and one more for every slip. */
  ghost predicate WithinBudget(c: H.Config, s: State, cutoff: int) {
    var k := c.maxFailures + c.overlap - 2;
    && H.Recent(s.log, cutoff) + |s.passed| <= k + 1 + |After(s.since, cutoff)|
    && H.Failures(s.log, cutoff) - H.Recent(s.log, cutoff) <=
       H.Clears(s.log, cutoff) * k + |After(s.slips, cutoff)| - |After(s.since, cutoff)|
  }

  ghost predicate Past(s: State) {
    forall e :: e in s.log ==> e.at <= s.clock
  }

  ghost predicate Bounded(c: H.Config, s: State) {
    && Past(s) && |s.passed| <= c.overlap
    && forall cutoff :: cutoff >= s.clock - c.window - 1 ==> WithinBudget(c, s, cutoff)
  }

  lemma PastNone(log: seq<H.Event>, cutoff: int)
    requires forall e :: e in log ==> e.at <= cutoff
    ensures H.Recent(log, cutoff) == 0 && H.Failures(log, cutoff) == 0
  {
    H.NothingAfter(log, cutoff);
    SinceClearedWithin(log, cutoff);
    NoneAfter(H.SinceCleared(log), cutoff);
  }

  lemma {:induction false} SinceClearedWithin(log: seq<H.Event>, cutoff: int)
    requires forall e :: e in log ==> e.at <= cutoff
    ensures forall t :: t in H.SinceCleared(log) ==> t <= cutoff
    decreases |log|
  {
    if log != [] {
      SinceClearedWithin(log[..|log| - 1], cutoff);
    }
  }

  /** A handler that counts too few to be locked out finds too few in the window. */
  lemma CountPasses(c: H.Config, s: State, now: int, cutoff: int)
    requires Covers(c, s) && s.clock <= now && |s.kept| < c.maxFailures && cutoff >= now - c.window - 1
    ensures H.Recent(s.log, cutoff) < c.maxFailures
  {
    assert SameAfter(s, cutoff);
  }

  lemma SlipBudget(c: H.Config, s: State, h: int, now: int, cutoff: int)
    requires H.Sensible(c) && Bounded(c, s) && Next(c, s, Slip(h, now)).Some? && cutoff >= now - c.window - 1
    ensures WithinBudget(c, Next(c, s, Slip(h, now)).value, cutoff)
  {
    hide H.Recent, H.Failures, H.Clears, After;
    assert WithinBudget(c, s, cutoff);
    AfterAppend(s.slips, now, cutoff);
    AfterAppend(s.since, now, cutoff);
    if now <= cutoff {
      PastNone(s.log, cutoff);
    }
  }

  lemma CountBudget(c: H.Config, s: State, h: int, now: int, cutoff: int)
    requires H.Sensible(c) && Covers(c, s) && Bounded(c, s) && Next(c, s, Count(h, now)).Some?
    requires cutoff >= now - c.window - 1
    ensures WithinBudget(c, Next(c, s, Count(h, now)).value, cutoff)
  {
    hide H.Recent, H.Failures, H.Clears, After, Covers;
    assert WithinBudget(c, s, cutoff);
    if |s.kept| < c.maxFailures {
      CountPasses(c, s, now, cutoff);
    }
  }

  lemma RejectBudget(c: H.Config, s: State, h: int, at: int, now: int, cutoff: int)
    requires H.Sensible(c) && Bounded(c, s) && Next(c, s, Reject(h, at, now)).Some? && cutoff >= now - c.window - 1
    ensures WithinBudget(c, Next(c, s, Reject(h, at, now)).value, cutoff)
  {
    hide H.Recent, H.Failures, H.Clears, After;
    assert WithinBudget(c, s, cutoff);
    H.LogGrows(s.log, H.Failed(at), cutoff);
  }

  /** What a successful login buys back is what its window held, slips since the last one included. */
  lemma AcceptBudget(c: H.Config, s: State, h: int, now: int, cutoff: int)
    requires H.Sensible(c) && Bounded(c, s) && Next(c, s, Accept(h, now)).Some? && cutoff >= now - c.window - 1
    ensures WithinBudget(c, Next(c, s, Accept(h, now)).value, cutoff)
  {
    hide H.Recent, H.Failures, H.Clears, After;
    assert WithinBudget(c, s, cutoff);
    H.LogGrows(s.log, H.Cleared(now), cutoff);
    NothingSince(cutoff);
    var k := c.maxFailures + c.overlap - 2;
    if now > cutoff {
      assert (H.Clears(s.log, cutoff) + 1) * k == H.Clears(s.log, cutoff) * k + k;
    } else {
      PastNone(s.log, cutoff);
      assert H.Clears(s.log, cutoff) * k >= 0;
    }
  }

  lemma NothingSince(cutoff: int)
    ensures After([], cutoff) == []
  {
  }

  lemma StepBounded(c: H.Config, s: State, step: Step)
    requires H.Sensible(c) && Covers(c, s) && Bounded(c, s) && Next(c, s, step).Some?
    ensures Bounded(c, Next(c, s, step).value)
  {
    hide H.Recent, H.Failures, H.Clears, Covers, After, WithinBudget;
    var t := Next(c, s, step).value;
    forall cutoff | cutoff >= t.clock - c.window - 1
      ensures WithinBudget(c, t, cutoff)
    {
      assert WithinBudget(c, s, cutoff);
      match step {
        case Slip(h, now) => SlipBudget(c, s, h, now, cutoff);
        case Count(h, now) => CountBudget(c, s, h, now, cutoff);
        case Reject(h, at, now) => RejectBudget(c, s, h, at, now, cutoff);
        case Accept(h, now) => AcceptBudget(c, s, h, now, cutoff);
        case _ => FewerPassed(c, s, t, cutoff);
      }
    }
  }

  lemma FewerPassed(c: H.Config, s: State, t: State, cutoff: int)
    requires WithinBudget(c, s, cutoff) && t.passed <= s.passed
    requires t.log == s.log && t.slips == s.slips && t.since == s.since
    ensures WithinBudget(c, t, cutoff)
  {
    assert s.passed == t.passed + (s.passed - t.passed);
  }

  lemma {:induction false} RunBounded(c: H.Config, s: State, steps: seq<Step>)
    requires H.Sensible(c) && Covers(c, s) && Bounded(c, s) && Run(By(c), s, steps).Some?
    ensures Bounded(c, Run(By(c), s, steps).value)
    decreases |steps|
  {
    hide Bounded, Covers, Next;
    if steps != [] {
      StepCovers(c, s, steps[0]);
      StepBounded(c, s, steps[0]);
      RunBounded(c, Next(c, s, steps[0]).value, steps[1..]);
    }
  }

  /** Failures at or after the cutoff. */
  function FailuresFrom(log: seq<H.Event>, cutoff: int): nat {
    if log == [] then 0
    else
      var e := log[|log| - 1];
      FailuresFrom(log[..|log| - 1], cutoff) + if e.Failed? && e.at >= cutoff then 1 else 0
  }

  function ClearsFrom(log: seq<H.Event>, cutoff: int): nat {
    if log == [] then 0
    else
      var e := log[|log| - 1];
      ClearsFrom(log[..|log| - 1], cutoff) + if e.Cleared? && e.at >= cutoff then 1 else 0
  }

  lemma {:induction false} InclusiveCounts(log: seq<H.Event>, cutoff: int)
    ensures FailuresFrom(log, cutoff) == H.Failures(log, cutoff - 1)
    ensures ClearsFrom(log, cutoff) == H.Clears(log, cutoff - 1)
    decreases |log|
  {
    if log != [] {
      InclusiveCounts(log[..|log| - 1], cutoff);
    }
  }

  /** However handlers' commands interleave, and wherever the key expires, an inclusive trailing
      window records no more wrong passwords than over the in-memory lockout, and one more for
      every handler let through unchecked in it. */
  lemma SharedGuessBound(c: H.Config, start: int, steps: seq<Step>, cutoff: int)
    requires H.Sensible(c) && Run(By(c), Start(start), steps).Some?
    requires cutoff >= Run(By(c), Start(start), steps).value.clock - c.window
    ensures var s := Run(By(c), Start(start), steps).value;
            FailuresFrom(s.log, cutoff) <= H.Budget(c, ClearsFrom(s.log, cutoff)) + |From(s.slips, cutoff)|
  {
    RunBounded(c, Start(start), steps);
    var s := Run(By(c), Start(start), steps).value;
    InclusiveCounts(s.log, cutoff);
    assert WithinBudget(c, s, cutoff - 1);
  }

  // ---------------------------------------------------------------- the bound is reached

  /** The inclusive window, as the in-memory handlers would see it: one instant longer. */
  function Longer(c: H.Config): H.Config {
    c.(window := c.window + 1)
  }

  ghost function Seen(s: State): H.State {
    H.State(s.log, s.passed, s.clock)
  }

  /** The two commands of each check one right after the other. */
  function ExpandStep(step: H.Step): seq<Step> {
    match step
    case Check(h, now) => [Drop(h, now, now)] + [Count(h, now)]
    case Reject(h, now) => [Reject(h, now, now)]
    case Accept(h, now) => [Accept(h, now)]
    case Abandon(h) => [Abandon(h)]
  }

  function Expand(steps: seq<H.Step>): seq<Step> {
    if steps == [] then [] else ExpandStep(steps[0]) + Expand(steps[1..])
  }

  /** A check that is not interrupted decides as the in-memory one with the longer window does. */
  lemma CheckIsShared(c: H.Config, s: State, h: int, now: int) returns (t: State)
    requires c.window > 0 && Covers(c, s) && s.waiting == {} && H.Next(Longer(c), Seen(s), H.Check(h, now)).Some?
    ensures Leads(By(c), s, [Drop(h, now, now)] + [Count(h, now)], t)
    ensures Covers(c, t) && t.waiting == {} && t.slips == s.slips
    ensures Seen(t) == H.Next(Longer(c), Seen(s), H.Check(h, now)).value
  {
    hide Covers, Leads, H.Next, Next;
    CountsAlike(c, s, h, now);
    var mid := Next(c, s, Drop(h, now, now)).value;
    StepCovers(c, s, Drop(h, now, now));
    t := Next(c, mid, Count(h, now)).value;
    StepCovers(c, mid, Count(h, now));
    OneStep(By(c), s, Drop(h, now, now), mid);
    OneStep(By(c), mid, Count(h, now), t);
    Chain(By(c), s, [Drop(h, now, now)], mid, [Count(h, now)], t);
  }

  lemma StepIsShared(c: H.Config, s: State, step: H.Step) returns (t: State)
    requires c.window > 0 && Covers(c, s) && s.waiting == {} && H.Next(Longer(c), Seen(s), step).Some?
    ensures Leads(By(c), s, ExpandStep(step), t) && Covers(c, t) && t.waiting == {} && t.slips == s.slips
    ensures Seen(t) == H.Next(Longer(c), Seen(s), step).value
  {
    hide Covers, Leads, H.Recent, H.SinceCleared;
    if step.Check? {
      t := CheckIsShared(c, s, step.handler, step.now);
    } else {
      var same := ExpandStep(step)[0];
      t := Next(c, s, same).value;
      StepCovers(c, s, same);
      OneStep(By(c), s, same, t);
      assert s.waiting - {step.handler} == {};
    }
  }

  /** So every run of those is a run here. */
  lemma {:induction false} EveryRunIsShared(c: H.Config, s: State, steps: seq<H.Step>) returns (t: State)
    requires c.window > 0 && Covers(c, s) && s.waiting == {} && Run(H.By(Longer(c)), Seen(s), steps).Some?
    ensures Leads(By(c), s, Expand(steps), t) && t.waiting == {} && t.slips == s.slips
    ensures Seen(t) == Run(H.By(Longer(c)), Seen(s), steps).value
    decreases |steps|
  {
    hide Covers, Leads, ExpandStep, H.Next;
    if steps == [] {
      t := s;
      NoStep(By(c), s);
    } else {
      var next := StepIsShared(c, s, steps[0]);
      t := EveryRunIsShared(c, next, steps[1..]);
      Chain(By(c), s, ExpandStep(steps[0]), next, Expand(steps[1..]), t);
    }
  }

  lemma CountsAlike(c: H.Config, s: State, h: int, now: int)
    requires c.window > 0 && Covers(c, s) && s.waiting == {} && H.Next(Longer(c), Seen(s), H.Check(h, now)).Some?
    ensures Next(c, s, Drop(h, now, now)).Some?
    ensures var mid := Next(c, s, Drop(h, now, now)).value;
            && Next(c, mid, Count(h, now)).Some?
            && var next := Next(c, mid, Count(h, now)).value;
               next.waiting == {} && next.slips == s.slips &&
                 Seen(next) == H.Next(Longer(c), Seen(s), H.Check(h, now)).value
  {
    assert SameAfter(s, now - c.window - 1);
    assert {h} - {h} == {};
  }

  /** `n` handlers one after the other, each let through unchecked and wrong. */
  function Outage(n: nat): seq<Step> {
    if n == 0 then [] else ([Slip(0, 0)] + [Reject(0, 0, 0)]) + Outage(n - 1)
  }

  lemma {:induction false} OutageLeads(c: H.Config, s: State, n: nat) returns (t: State)
    requires H.Sensible(c) && s.clock == 0 && s.passed == {}
    ensures Leads(By(c), s, Outage(n), t) && t.clock == 0
    ensures FailuresFrom(t.log, -c.window) == FailuresFrom(s.log, -c.window) + n
    ensures ClearsFrom(t.log, -c.window) == ClearsFrom(s.log, -c.window)
    ensures |From(t.slips, -c.window)| == |From(s.slips, -c.window)| + n
    decreases n
  {
    hide Leads, FailuresFrom, ClearsFrom, Next, From;
    t := s;
    NoStep(By(c), s);
    if n > 0 {
      var next := SlipAndReject(c, s);
      t := OutageLeads(c, next, n - 1);
      Chain(By(c), s, [Slip(0, 0)] + [Reject(0, 0, 0)], next, Outage(n - 1), t);
    }
  }

  lemma SlipAndReject(c: H.Config, s: State) returns (t: State)
    requires H.Sensible(c) && s.clock == 0 && s.passed == {}
    ensures Leads(By(c), s, [Slip(0, 0)] + [Reject(0, 0, 0)], t) && t.clock == 0 && t.passed == {}
    ensures FailuresFrom(t.log, -c.window) == FailuresFrom(s.log, -c.window) + 1
    ensures ClearsFrom(t.log, -c.window) == ClearsFrom(s.log, -c.window)
    ensures |From(t.slips, -c.window)| == |From(s.slips, -c.window)| + 1
  {
    hide Leads, FailuresFrom, ClearsFrom;
    var mid := Next(c, s, Slip(0, 0)).value;
    OneStep(By(c), s, Slip(0, 0), mid);
    t := Next(c, mid, Reject(0, 0, 0)).value;
    OneStep(By(c), mid, Reject(0, 0, 0), t);
    assert mid.passed - {0} == {};
    Chain(By(c), s, [Slip(0, 0)], mid, [Reject(0, 0, 0)], t);
    OneMore(s.log, -c.window);
    AfterAppend(s.slips, 0, -c.window - 1);
  }

  lemma OneMore(log: seq<H.Event>, cutoff: int)
    requires cutoff <= 0
    ensures FailuresFrom(log + [H.Failed(0)], cutoff) == FailuresFrom(log, cutoff) + 1
    ensures ClearsFrom(log + [H.Failed(0)], cutoff) == ClearsFrom(log, cutoff)
  {
    assert (log + [H.Failed(0)])[..|log|] == log;
  }

  /** For every limit, overlap, number of successful logins and number of handlers let through
      unchecked, some run over the shared lockout records as many failures as the bound allows. */
  lemma SharedBudgetIsReached(c: H.Config, r: nat, n: nat)
    requires H.Sensible(c)
    ensures exists steps, s :: Leads(By(c), Start(0), steps, s) && s.clock == 0
              && ClearsFrom(s.log, -c.window) == r && |From(s.slips, -c.window)| == n
              && FailuresFrom(s.log, -c.window) == H.Budget(c, r) + n
  {
    hide H.Budget, H.Failures, H.Clears, Run, FailuresFrom, ClearsFrom;
    H.BudgetIsReached(Longer(c), r);
    var steps, u :| Leads(H.By(Longer(c)), H.Start(0), steps, u) && u.clock == 0 && u.passed == {}
                 && H.Clears(u.log, -c.window - 1) == r && H.Failures(u.log, -c.window - 1) == H.Budget(Longer(c), r);
    var t := EveryRunIsShared(c, Start(0), steps);
    InclusiveCounts(t.log, -c.window);
    SameBudget(c, r);
    var v := OutageLeads(c, t, n);
    Chain(By(c), Start(0), Expand(steps), t, Outage(n), v);
  }

  lemma SameBudget(c: H.Config, r: nat)
    ensures H.Budget(Longer(c), r) == H.Budget(c, r)
  {
  }
}
