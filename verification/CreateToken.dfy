/** The login endpoint: one handler run from start to finish, against the in-memory lockout. */
module CreateToken {
  import opened Wrappers
  import opened Runs
  import opened SlidingWindow
  import opened MemoryLockout
  import opened LoginHandlers

  datatype User = User(id: int, passwordHash: string)

  datatype Token = Token(userId: int, tokenLabel: string)

  datatype Request = Request(username: string, password: string, tokenLabel: string)

  datatype Reply = TooManyRequests | Unauthorized | InternalError | Created(token: string)

  /** The clock as the check, the prune before recording and the recording read it. */
  datatype Readings = Readings(check: int, prune: int, record: int)

  /** `tokens` is keyed by token hash. `logs` is what the lockout was told, by username. */
  class Server {
    const lockout: LoginLockout
    const checkPassword: (string, string) -> bool
    const hashToken: string -> string
    var users: map<string, User>
    var tokens: map<string, Token>
    ghost var logs: map<string, seq<Event>>

    constructor (lockout: LoginLockout, checkPassword: (string, string) -> bool, hashToken: string -> string,
                 users: map<string, User>)
      requires lockout.Valid() && lockout.history == map[]
      ensures Valid() && this.lockout == lockout && logs == map[] && tokens == map[] && this.users == users
      ensures this.checkPassword == checkPassword && this.hashToken == hashToken
    {
      this.lockout, this.checkPassword, this.hashToken := lockout, checkPassword, hashToken;
      this.users, tokens, logs := users, map[], map[];
    }

    ghost function Log(username: string): seq<Event>
      reads this`logs
    {
      if username in logs then logs[username] else []
    }

    ghost predicate Knows(username: string)
      reads this`logs, lockout
    {
      lockout.Past(username) == SinceCleared(Log(username))
    }

    ghost predicate Valid()
      reads this`logs, lockout
    {
      lockout.Valid() && forall u :: Knows(u)
    }

    /** The concurrent model's view of a username no handler is working on. */
    ghost function Idle(username: string): State
      reads this`logs, lockout
    {
      State(Log(username), {}, lockout.clock)
    }

    function PasswordOk(req: Request, found: bool): bool
      reads this
    {
      found && req.username in users && checkPassword(users[req.username].passwordHash, req.password)
    }

    /** The limits of this lockout, for one handler at a time. */
    ghost function Alone(): Config
      reads this
    {
      Config(lockout.maxFailures, lockout.window, 1)
    }

    /** Check, verify, record: the part of the handler that other handlers interleave with. */
    method Verify(req: Request, t: Readings, found: bool) returns (verdict: Verdict)
      requires Valid() && lockout.clock <= t.check <= t.prune <= t.record
      modifies this`logs, lockout
      ensures Valid()
      ensures verdict.Blocked?
         <==> Recent(old(Log(req.username)), t.check - lockout.window) >= lockout.maxFailures
      ensures !verdict.Blocked? ==> (verdict.Right? <==> PasswordOk(req, found))
      ensures logs == match verdict
                      case Blocked => old(logs)
                      case Wrong => old(logs)[req.username := old(Log(req.username)) + [Failed(t.record)]]
                      case Right => old(logs)[req.username := old(Log(req.username)) + [Cleared(t.check)]]
      ensures Leads(By(Alone()), old(Idle(req.username)), Taken(verdict, t), Idle(req.username))
    {
      hide Valid, Recent, Leads;
      ghost var before := Idle(req.username);
      var locked := Blocks(req.username, t.check);
      if locked {
        OneStep(By(Alone()), before, Check(0, t.check), Idle(req.username));
        return Blocked;
      }
      if !PasswordOk(req, found) {
        Failure(req.username, t.prune, t.record);
        AloneLeads(Alone(), before, Check(0, t.check), Reject(0, t.record), Idle(req.username));
        return Wrong;
      }
      Success(req.username);
      AloneLeads(Alone(), before, Check(0, t.check), Accept(0, t.check), Idle(req.username));
      return Right;
    }

    method Blocks(username: string, now: int) returns (locked: bool)
      requires Valid() && lockout.clock <= now
      modifies lockout
      ensures Valid() && lockout.clock == now
      ensures locked <==> Recent(Log(username), now - lockout.window) >= lockout.maxFailures
    {
      hide SinceCleared, After, LoginLockout.Valid;
      assert Knows(username);
      locked := lockout.Locked(username, now);
      forall u
        ensures Knows(u)
      {
        assert old(Knows(u));
      }
    }

    method Failure(username: string, pruned: int, now: int)
      requires Valid() && lockout.clock <= pruned <= now
      modifies this`logs, lockout
      ensures Valid() && lockout.clock == now
      ensures logs == old(logs)[username := old(Log(username)) + [Failed(now)]]
    {
      hide SinceCleared, After, LoginLockout.Valid;
      assert Knows(username);
      var _ := lockout.RecordFailure(username, pruned, now);
      SinceClearedGrows(Log(username), Failed(now));
      logs := logs[username := Log(username) + [Failed(now)]];
      forall u
        ensures Knows(u)
      {
        assert old(Knows(u));
      }
    }

    method Success(username: string)
      requires Valid()
      modifies this`logs, lockout
      ensures Valid() && lockout.clock == old(lockout.clock)
      ensures logs == old(logs)[username := old(Log(username)) + [Cleared(lockout.clock)]]
    {
      hide SinceCleared, After, LoginLockout.Valid;
      lockout.Reset(username);
      SinceClearedGrows(Log(username), Cleared(lockout.clock));
      logs := logs[username := Log(username) + [Cleared(lockout.clock)]];
      forall u
        ensures Knows(u)
      {
        assert old(Knows(u));
      }
    }

    /** `found` is false when the user lookup fails for any reason, `drawn` is the new token if
        one could be drawn. Each reply has its exact condition, and what the lockout is told and what
        the token table gains follow from it. A handler running on its own takes the steps of the
        concurrent model. */
    method HandleCreateToken(req: Request, t: Readings, found: bool, drawn: Option<string>) returns (reply: Reply)
      requires Valid() && lockout.clock <= t.check <= t.prune <= t.record
      modifies this, lockout
      ensures Valid() && users == old(users)
      ensures var spent := Recent(old(Log(req.username)), t.check - lockout.window) >= lockout.maxFailures;
              var right := found && req.username in old(users)
                           && checkPassword(old(users)[req.username].passwordHash, req.password);
              && (reply.TooManyRequests? <==> spent)
              && (reply.Unauthorized? <==> !spent && !right)
              && (reply.InternalError? <==>
                    !spent && right && (drawn.None? || hashToken(drawn.value) in old(tokens)))
              && (reply.Created? <==> !spent && right && drawn.Some? && hashToken(drawn.value) !in old(tokens))
      ensures logs == match reply
                      case TooManyRequests => old(logs)
                      case Unauthorized => old(logs)[req.username := old(Log(req.username)) + [Failed(t.record)]]
                      case _ => old(logs)[req.username := old(Log(req.username)) + [Cleared(t.check)]]
      ensures reply.Created? ==>
                && Some(reply.token) == drawn
                && tokens == old(tokens)[hashToken(reply.token) :=
                     Token(users[req.username].id, if req.tokenLabel == "" then "cli" else req.tokenLabel)]
      ensures !reply.Created? ==> tokens == old(tokens)
      ensures exists v ::
                && Answers(v, reply)
                && Leads(By(Alone()), old(Idle(req.username)), Taken(v, t), Idle(req.username))
    {
      hide Leads, Valid, Recent;
      var verdict := Verify(req, t, found);
      match verdict {
        case Blocked => return TooManyRequests;
        case Wrong => return Unauthorized;
        case Right =>
      }
      if drawn.None? || hashToken(drawn.value) in tokens {
        return InternalError;
      }
      var tokenLabel := if req.tokenLabel == "" then "cli" else req.tokenLabel;
      tokens := tokens[hashToken(drawn.value) := Token(users[req.username].id, tokenLabel)];
      return Created(drawn.value);
    }
  }

  datatype Verdict = Blocked | Wrong | Right

  ghost predicate Answers(v: Verdict, reply: Reply) {
    match v
    case Blocked => reply.TooManyRequests?
    case Wrong => reply.Unauthorized?
    case Right => reply.InternalError? || reply.Created?
  }

  /** The steps of the concurrent model behind a verdict. */
  ghost function Taken(v: Verdict, t: Readings): seq<Step> {
    match v
    case Blocked => [Check(0, t.check)]
    case Wrong => [Check(0, t.check), Reject(0, t.record)]
    case Right => [Check(0, t.check), Accept(0, t.check)]
  }

  lemma SinceClearedGrows(log: seq<Event>, e: Event)
    ensures SinceCleared(log + [e]) == if e.Cleared? then [] else SinceCleared(log) + [e.at]
  {
    assert (log + [e])[..|log|] == log;
  }

  lemma AloneLeads(c: Config, s: State, check: Step, last: Step, t: State)
    requires c.overlap >= 1 && s.passed == {} && check.Check? && s.clock <= check.now
    requires Recent(s.log, check.now - c.window) < c.maxFailures
    requires last == Reject(check.handler, t.clock) || last == Accept(check.handler, t.clock)
    requires check.now <= t.clock && t.passed == {}
    requires t.log == s.log + [if last.Reject? then Failed(t.clock) else Cleared(t.clock)]
    ensures Leads(By(c), s, [check, last], t)
  {
    hide Recent, Leads;
    var mid := s.(passed := {check.handler}, clock := check.now);
    assert s.passed + {check.handler} == {check.handler};
    assert mid.passed - {check.handler} == {};
    OneStep(By(c), s, check, mid);
    OneStep(By(c), mid, last, t);
    Chain(By(c), s, [check], mid, [last], t);
    assert [check] + [last] == [check, last];
  }
}
