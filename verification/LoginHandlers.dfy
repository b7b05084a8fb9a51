/** Login handlers running at once. Each checks the lockout, verifies the password, then
    records the failure or resets the history: three separate steps, between which any other
    handler may run. */
module LoginHandlers {
  import opened Wrappers
  import opened Runs
  import opened SlidingWindow

  /** `overlap` handlers at most are between their check and their record at any time. */
  datatype Config = Config(maxFailures: int, window: int, overlap: nat)

  ghost predicate Sensible(c: Config) {
    c.maxFailures >= 1 && c.overlap >= 1 && c.window > 0
  }

  /** What the lockout was told about one username. */
  datatype Event = Failed(at: int) | Cleared(at: int)

  function SinceCleared(log: seq<Event>): seq<int> {
    if log == [] then []
    else
      var e := log[|log| - 1];
      if e.Cleared? then [] else SinceCleared(log[..|log| - 1]) + [e.at]
  }

  function Failures(log: seq<Event>, cutoff: int): nat {
    if log == [] then 0
    else
      var e := log[|log| - 1];
      Failures(log[..|log| - 1], cutoff) + if e.Failed? && e.at > cutoff then 1 else 0
  }

  function Clears(log: seq<Event>, cutoff: int): nat {
    if log == [] then 0
    else
      var e := log[|log| - 1];
      Clears(log[..|log| - 1], cutoff) + if e.Cleared? && e.at > cutoff then 1 else 0
  }

  function Recent(log: seq<Event>, cutoff: int): nat {
    |After(SinceCleared(log), cutoff)|
  }

  /** `passed` are the handlers let through the check that have not finished. */
  datatype State = State(log: seq<Event>, passed: set<int>, clock: int)

  datatype Step =
    | Check(handler: int, now: int)
    | Reject(handler: int, now: int)
    | Accept(handler: int, now: int)
    | Abandon(handler: int)

  /** The state after one step, if the step can happen. */
  function Next(c: Config, s: State, step: Step): Option<State> {
    match step
    case Check(h, now) =>
      if now < s.clock || h in s.passed then None
      else if Recent(s.log, now - c.window) >= c.maxFailures then Some(s.(clock := now))
      else if |s.passed + {h}| > c.overlap then None
      else Some(s.(passed := s.passed + {h}, clock := now))
    case Reject(h, now) =>
      if now < s.clock || h !in s.passed then None
      else Some(State(s.log + [Failed(now)], s.passed - {h}, now))
    case Accept(h, now) =>
      if now < s.clock || h !in s.passed then None
      else Some(State(s.log + [Cleared(now)], s.passed - {h}, now))
    case Abandon(h) =>
      if h !in s.passed then None else Some(s.(passed := s.passed - {h}))
  }

  function By(c: Config): (State, Step) -> Option<State> {
    (s, step) => Next(c, s, step)
  }

  function Start(clock: int): State {
    State([], {}, clock)
  }

  // ---------------------------------------------------------------- the bound

  /** Most failures a trailing window can hold when it also holds `clears` successful logins. */
  function Budget(c: Config, clears: nat): int {
    clears * (c.maxFailures + c.overlap - 2) + c.maxFailures + c.overlap - 1
  }

  ghost predicate WithinBudget(c: Config, s: State, cutoff: int) {
    && Recent(s.log, cutoff) + |s.passed| <= c.maxFailures + c.overlap - 1
    && Failures(s.log, cutoff) - Recent(s.log, cutoff) <= Clears(s.log, cutoff) * (c.maxFailures + c.overlap - 2)
  }

  ghost predicate Past(s: State) {
    forall e :: e in s.log ==> e.at <= s.clock
  }

  ghost predicate Bounded(c: Config, s: State) {
    && Past(s)
    && forall cutoff :: cutoff >= s.clock - c.window ==> WithinBudget(c, s, cutoff)
  }

  lemma LogGrows(log: seq<Event>, e: Event, cutoff: int)
    ensures Failures(log + [e], cutoff) == Failures(log, cutoff) + if e.Failed? && e.at > cutoff then 1 else 0
    ensures Clears(log + [e], cutoff) == Clears(log, cutoff) + if e.Cleared? && e.at > cutoff then 1 else 0
    ensures Recent(log + [e], cutoff) ==
            if e.Cleared? then 0 else Recent(log, cutoff) + if e.at > cutoff then 1 else 0
  {
    assert (log + [e])[..|log|] == log;
    AfterAppend(SinceCleared(log), e.at, cutoff);
  }

  lemma {:induction false} NothingAfter(log: seq<Event>, cutoff: int)
    requires forall e :: e in log ==> e.at <= cutoff
    ensures Failures(log, cutoff) == 0
    decreases |log|
  {
    if log != [] {
      NothingAfter(log[..|log| - 1], cutoff);
    }
  }

  lemma CheckStaysBounded(c: Config, s: State, h: int, now: int, cutoff: int)
    requires Sensible(c) && Bounded(c, s) && Next(c, s, Check(h, now)).Some?
    requires cutoff >= now - c.window
    ensures WithinBudget(c, Next(c, s, Check(h, now)).value, cutoff)
  {
    hide Recent, Failures, Clears;
    assert WithinBudget(c, s, cutoff);
    if Recent(s.log, now - c.window) < c.maxFailures {
      RecentShrinks(s.log, now - c.window, cutoff);
    }
  }

  lemma RecentShrinks(log: seq<Event>, early: int, late: int)
    requires early <= late
    ensures Recent(log, late) <= Recent(log, early)
  {
    AfterShrinks(SinceCleared(log), early, late);
  }

  lemma RejectStaysBounded(c: Config, s: State, h: int, now: int, cutoff: int)
    requires Sensible(c) && Bounded(c, s) && h in s.passed && s.clock <= now
    requires cutoff >= now - c.window
    ensures WithinBudget(c, State(s.log + [Failed(now)], s.passed - {h}, now), cutoff)
  {
    hide Recent, Failures, Clears;
    assert WithinBudget(c, s, cutoff);
    LogGrows(s.log, Failed(now), cutoff);
  }

  lemma AcceptStaysBounded(c: Config, s: State, h: int, now: int, cutoff: int)
    requires Sensible(c) && Bounded(c, s) && h in s.passed && s.clock <= now
    requires cutoff >= now - c.window
    ensures WithinBudget(c, State(s.log + [Cleared(now)], s.passed - {h}, now), cutoff)
  {
    hide Recent, Failures, Clears;
    assert WithinBudget(c, s, cutoff);
    LogGrows(s.log, Cleared(now), cutoff);
    var k := c.maxFailures + c.overlap - 2;
    if now > cutoff {
      assert (Clears(s.log, cutoff) + 1) * k == Clears(s.log, cutoff) * k + k;
    } else {
      NothingAfter(s.log, cutoff);
      assert Clears(s.log, cutoff) * k >= 0;
    }
  }

  /** Every step keeps every window to come within budget. */
  lemma StepStaysBounded(c: Config, s: State, step: Step)
    requires Sensible(c) && Bounded(c, s) && Next(c, s, step).Some?
    ensures Bounded(c, Next(c, s, step).value)
  {
    hide WithinBudget, Recent;
    var s' := Next(c, s, step).value;
    forall cutoff | cutoff >= s'.clock - c.window
      ensures WithinBudget(c, s', cutoff)
    {
      assert WithinBudget(c, s, cutoff);
      match step
      case Check(h, now) => CheckStaysBounded(c, s, h, now, cutoff);
      case Reject(h, now) => RejectStaysBounded(c, s, h, now, cutoff);
      case Accept(h, now) => AcceptStaysBounded(c, s, h, now, cutoff);
      case Abandon(h) => AbandonStaysBounded(c, s, h, cutoff);
    }
  }

  lemma AbandonStaysBounded(c: Config, s: State, h: int, cutoff: int)
    requires WithinBudget(c, s, cutoff) && h in s.passed
    ensures WithinBudget(c, s.(passed := s.passed - {h}), cutoff)
  {
  }

  lemma {:induction false} RunStaysBounded(c: Config, s: State, steps: seq<Step>)
    requires Sensible(c) && Bounded(c, s) && Run(By(c), s, steps).Some?
    ensures Bounded(c, Run(By(c), s, steps).value)
    decreases |steps|
  {
    if steps != [] {
      StepStaysBounded(c, s, steps[0]);
      RunStaysBounded(c, Next(c, s, steps[0]).value, steps[1..]);
    }
  }

  /** However the handlers interleave, no trailing window records more wrong passwords than the
      limit, plus one for each further handler at work, plus what the successful logins inside
      the window bought back. */
  lemma GuessBound(c: Config, start: int, steps: seq<Step>, cutoff: int)
    requires Sensible(c) && Run(By(c), Start(start), steps).Some?
    requires cutoff >= Run(By(c), Start(start), steps).value.clock - c.window
    ensures var log := Run(By(c), Start(start), steps).value.log;
            Failures(log, cutoff) <= Budget(c, Clears(log, cutoff))
  {
    RunStaysBounded(c, Start(start), steps);
    assert WithinBudget(c, Run(By(c), Start(start), steps).value, cutoff);
  }

  // ---------------------------------------------------------------- the bound is reached

  /** `n` wrong passwords at time 0. */
  function Wrong(log: seq<Event>, n: nat): seq<Event> {
    if n == 0 then log else Wrong(log, n - 1) + [Failed(0)]
  }

  lemma {:induction false} WrongCounts(log: seq<Event>, n: nat, cutoff: int)
    requires cutoff < 0
    ensures Recent(Wrong(log, n), cutoff) == Recent(log, cutoff) + n
    ensures Failures(Wrong(log, n), cutoff) == Failures(log, cutoff) + n
    ensures Clears(Wrong(log, n), cutoff) == Clears(log, cutoff)
    decreases n
  {
    hide Recent, Failures, Clears;
    if n > 0 {
      WrongCounts(log, n - 1, cutoff);
      LogGrows(Wrong(log, n - 1), Failed(0), cutoff);
    }
  }

  function Upto(n: nat): (s: set<int>)
    ensures |s| == n && forall i :: i in s <==> 0 <= i < n
  {
    if n == 0 then {} else Upto(n - 1) + {n - 1}
  }

  /** `n` logins one after the other, all wrong. */
  function OneByOne(n: nat): seq<Step> {
    if n == 0 then [] else OneByOne(n - 1) + ([Check(0, 0)] + [Reject(0, 0)])
  }

  /** Handlers 0 to n-1 all pass the check. */
  function AllPass(n: nat): seq<Step> {
    if n == 0 then [] else AllPass(n - 1) + [Check(n - 1, 0)]
  }

  /** Handlers n-1 down to `keep` then record their failures. */
  function AllReject(keep: nat, n: nat): seq<Step>
    requires keep <= n
    decreases n - keep
  {
    if n == keep then [] else AllReject(keep + 1, n) + [Reject(keep, 0)]
  }

  lemma PassLeads(c: Config, log: seq<Event>, n: nat)
    requires Sensible(c) && n < c.overlap && Recent(log, -c.window) < c.maxFailures
    ensures Leads(By(c), State(log, Upto(n), 0), [Check(n, 0)], State(log, Upto(n + 1), 0))
  {
    hide Recent;
    OneStep(By(c), State(log, Upto(n), 0), Check(n, 0), State(log, Upto(n + 1), 0));
  }

  lemma RejectLeads(c: Config, log: seq<Event>, n: nat)
    ensures Leads(By(c), State(log, Upto(n + 1), 0), [Reject(n, 0)], State(log + [Failed(0)], Upto(n), 0))
  {
    assert Upto(n + 1) - {n} == Upto(n);
    OneStep(By(c), State(log, Upto(n + 1), 0), Reject(n, 0), State(log + [Failed(0)], Upto(n), 0));
  }

  lemma {:induction false} OneByOneLeads(c: Config, log: seq<Event>, n: nat)
    requires Sensible(c) && Recent(log, -c.window) == 0 && n < c.maxFailures
    ensures Leads(By(c), State(log, Upto(0), 0), OneByOne(n), State(Wrong(log, n), Upto(0), 0))
    decreases n
  {
    hide Leads, Recent, Upto;
    if n == 0 {
      NoStep(By(c), State(log, Upto(0), 0));
    } else {
      OneByOneLeads(c, log, n - 1);
      WrongCounts(log, n - 1, -c.window);
      var s := State(Wrong(log, n - 1), Upto(0), 0);
      var t := State(Wrong(log, n - 1), Upto(1), 0);
      assert Wrong(log, n) == Wrong(log, n - 1) + [Failed(0)];
      PassLeads(c, s.log, 0);
      RejectLeads(c, s.log, 0);
      Chain(By(c), s, [Check(0, 0)], t, [Reject(0, 0)], State(Wrong(log, n), Upto(0), 0));
      Chain(By(c), State(log, Upto(0), 0), OneByOne(n - 1), s, [Check(0, 0)] + [Reject(0, 0)],
            State(Wrong(log, n), Upto(0), 0));
    }
  }

  lemma {:induction false} AllPassLeads(c: Config, log: seq<Event>, n: nat)
    requires Sensible(c) && n <= c.overlap && Recent(log, -c.window) < c.maxFailures
    ensures Leads(By(c), State(log, Upto(0), 0), AllPass(n), State(log, Upto(n), 0))
    decreases n
  {
    hide Leads, Recent;
    if n == 0 {
      NoStep(By(c), State(log, Upto(0), 0));
    } else {
      AllPassLeads(c, log, n - 1);
      PassLeads(c, log, n - 1);
      Chain(By(c), State(log, Upto(0), 0), AllPass(n - 1), State(log, Upto(n - 1), 0), [Check(n - 1, 0)],
            State(log, Upto(n), 0));
    }
  }

  lemma {:induction false} AllRejectLeads(c: Config, log: seq<Event>, keep: nat, n: nat)
    requires keep <= n
    ensures Leads(By(c), State(log, Upto(n), 0), AllReject(keep, n), State(Wrong(log, n - keep), Upto(keep), 0))
    decreases n - keep
  {
    hide Leads;
    if n == keep {
      NoStep(By(c), State(log, Upto(n), 0));
    } else {
      AllRejectLeads(c, log, keep + 1, n);
      var s := State(Wrong(log, n - keep - 1), Upto(keep + 1), 0);
      RejectLeads(c, s.log, keep);
      Chain(By(c), State(log, Upto(n), 0), AllReject(keep + 1, n), s, [Reject(keep, 0)],
            State(Wrong(log, n - keep), Upto(keep), 0));
    }
  }

  /** One round: all but one of the tries one by one, then every handler at once; `keep` of
      them are left unfinished. */
  function Round(c: Config, keep: nat): seq<Step>
    requires Sensible(c) && keep <= c.overlap
  {
    OneByOne(c.maxFailures - 1) + AllPass(c.overlap) + AllReject(keep, c.overlap)
  }

  function RoundLog(c: Config, log: seq<Event>, keep: nat): seq<Event>
    requires Sensible(c) && keep <= c.overlap
  {
    Wrong(Wrong(log, c.maxFailures - 1), c.overlap - keep)
  }

  lemma RoundLeads(c: Config, log: seq<Event>, keep: nat)
    requires Sensible(c) && keep <= c.overlap && Recent(log, -c.window) == 0
    ensures Leads(By(c), State(log, Upto(0), 0), Round(c, keep), State(RoundLog(c, log, keep), Upto(keep), 0))
  {
    hide Leads, Recent, OneByOne, AllPass, AllReject, Wrong;
    var s0 := State(log, Upto(0), 0);
    var once := Wrong(log, c.maxFailures - 1);
    OneByOneLeads(c, log, c.maxFailures - 1);
    WrongCounts(log, c.maxFailures - 1, -c.window);
    AllPassLeads(c, once, c.overlap);
    Chain(By(c), s0, OneByOne(c.maxFailures - 1), State(once, Upto(0), 0), AllPass(c.overlap),
          State(once, Upto(c.overlap), 0));
    AllRejectLeads(c, once, keep, c.overlap);
    Chain(By(c), s0, OneByOne(c.maxFailures - 1) + AllPass(c.overlap), State(once, Upto(c.overlap), 0),
          AllReject(keep, c.overlap), State(RoundLog(c, log, keep), Upto(keep), 0));
  }

  /** `r` rounds, each ended by a successful login. */
  function Rounds(c: Config, r: nat): seq<Step>
    requires Sensible(c)
  {
    if r == 0 then [] else Rounds(c, r - 1) + (Round(c, 1) + [Accept(0, 0)])
  }

  function RoundsLog(c: Config, r: nat): seq<Event>
    requires Sensible(c)
  {
    if r == 0 then [] else RoundLog(c, RoundsLog(c, r - 1), 1) + [Cleared(0)]
  }

  lemma {:induction false} RoundsCount(c: Config, r: nat)
    requires Sensible(c)
    ensures Recent(RoundsLog(c, r), -c.window) == 0
    ensures Failures(RoundsLog(c, r), -c.window) == r * (c.maxFailures + c.overlap - 2)
    ensures Clears(RoundsLog(c, r), -c.window) == r
    decreases r
  {
    hide Recent, Failures, Clears, Wrong;
    if r == 0 {
      NothingLogged(-c.window);
    } else {
      RoundsCount(c, r - 1);
      var log := RoundsLog(c, r - 1);
      WrongCounts(log, c.maxFailures - 1, -c.window);
      WrongCounts(Wrong(log, c.maxFailures - 1), c.overlap - 1, -c.window);
      LogGrows(RoundLog(c, log, 1), Cleared(0), -c.window);
      OneMoreTime(r, c.maxFailures + c.overlap - 2);
    }
  }

  lemma NothingLogged(cutoff: int)
    ensures Recent([], cutoff) == Failures([], cutoff) == Clears([], cutoff) == 0
  {
  }

  lemma OneMoreTime(r: int, k: int)
    ensures r * k == (r - 1) * k + k
  {
  }

  lemma AcceptLeads(c: Config, log: seq<Event>)
    ensures Leads(By(c), State(log, Upto(1), 0), [Accept(0, 0)], State(log + [Cleared(0)], Upto(0), 0))
  {
    assert Upto(1) - {0} == Upto(0);
    OneStep(By(c), State(log, Upto(1), 0), Accept(0, 0), State(log + [Cleared(0)], Upto(0), 0));
  }

  lemma {:induction false} RoundsLead(c: Config, r: nat)
    requires Sensible(c)
    ensures Leads(By(c), State([], Upto(0), 0), Rounds(c, r), State(RoundsLog(c, r), Upto(0), 0))
    decreases r
  {
    hide Leads, Recent, Round, RoundLog;
    if r == 0 {
      NoStep(By(c), State([], Upto(0), 0));
    } else {
      RoundsLead(c, r - 1);
      RoundsCount(c, r - 1);
      var log := RoundsLog(c, r - 1);
      RoundLeads(c, log, 1);
      AcceptLeads(c, RoundLog(c, log, 1));
      var end := State(RoundsLog(c, r), Upto(0), 0);
      Chain(By(c), State(log, Upto(0), 0), Round(c, 1), State(RoundLog(c, log, 1), Upto(1), 0), [Accept(0, 0)], end);
      Chain(By(c), State([], Upto(0), 0), Rounds(c, r - 1), State(log, Upto(0), 0), Round(c, 1) + [Accept(0, 0)], end);
    }
  }

  /** For every limit, overlap and number of successful logins there is a run that spends the
      whole budget. */
  lemma BudgetIsReached(c: Config, r: nat)
    requires Sensible(c)
    ensures exists steps, s :: Leads(By(c), Start(0), steps, s) && s.clock == 0 && s.passed == {}
                            && Clears(s.log, -c.window) == r && Failures(s.log, -c.window) == Budget(c, r)
  {
    hide Leads, Recent, Failures, Clears;
    var log := RoundsLog(c, r);
    RoundsLead(c, r);
    RoundsCount(c, r);
    RoundLeads(c, log, 0);
    var end := State(RoundLog(c, log, 0), Upto(0), 0);
    assert Start(0) == State([], Upto(0), 0);
    Chain(By(c), Start(0), Rounds(c, r), State(log, Upto(0), 0), Round(c, 0), end);
    WrongCounts(log, c.maxFailures - 1, -c.window);
    WrongCounts(Wrong(log, c.maxFailures - 1), c.overlap, -c.window);
  }
}
