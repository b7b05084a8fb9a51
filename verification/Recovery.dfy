/** Password-reset and email-verification tokens: what every run of the account transactions
    allows, however confirmations interleave and wherever they stop. */
module Recovery {
  import opened Wrappers
  import Metadata

  datatype User = User(password: string, verified: bool)

  datatype Reset = Reset(user: int, expires: int, used: bool)

  datatype Pending = Pending(user: int, expires: int)

  datatype Accounts = Accounts(users: map<int, User>, resets: map<string, Reset>, pending: map<string, Pending>)

  const NOBODY := Accounts(map[], map[], map[])

  datatype Act =
    | SignUp(user: int, password: string)
    | IssueReset(token: string, user: int, expires: int)
    | IssueCheck(token: string, user: int, expires: int)
    | UseReset(token: string, now: int)
    | UseCheck(token: string, now: int)
    | SetPassword(user: int, password: string)

  /** `who` is the user concerned, None when the transaction is refused. */
  datatype Performed = Performed(accounts: Accounts, who: Option<int>)

  const SECOND: int := 1_000_000_000

  /** Expiry times are stored in whole seconds. */
  predicate Expired(expires: int, now: int) {
    now > expires * 1_000_000_000
  }

  function Perform(a: Accounts, act: Act): Performed {
    match act
    case SignUp(user, password) =>
      if user in a.users then Performed(a, None)
      else Performed(a.(users := a.users[user := User(password, false)]), Some(user))
    case IssueReset(token, user, expires) =>
      if token in a.resets || user !in a.users then Performed(a, None)
      else Performed(a.(resets := a.resets[token := Reset(user, Metadata.Stamp(expires), false)]), Some(user))
    case IssueCheck(token, user, expires) =>
      if token in a.pending || user !in a.users then Performed(a, None)
      else Performed(a.(pending := a.pending[token := Pending(user, Metadata.Stamp(expires))]), Some(user))
    case UseReset(token, now) =>
      if token !in a.resets || a.resets[token].used || Expired(a.resets[token].expires, now) then Performed(a, None)
      else Performed(a.(resets := a.resets[token := a.resets[token].(used := true)]), Some(a.resets[token].user))
    case UseCheck(token, now) =>
      if token !in a.pending || Expired(a.pending[token].expires, now) then Performed(a, None)
      else
        var user := a.pending[token].user;
        var users := if user in a.users then a.users[user := a.users[user].(verified := true)] else a.users;
        Performed(Accounts(users, a.resets, a.pending - {token}), Some(user))
    case SetPassword(user, password) =>
      if user !in a.users then Performed(a, Some(user))
      else Performed(a.(users := a.users[user := a.users[user].(password := password)]), Some(user))
  }

  function After(acts: seq<Act>): Accounts {
    if acts == [] then NOBODY else Perform(After(acts[..|acts| - 1]), acts[|acts| - 1]).accounts
  }

  // ---------------------------------------------------------------- reading the log

  function Who(acts: seq<Act>, i: nat): Option<int>
    requires i < |acts|
  {
    Perform(After(acts[..i]), acts[i]).who
  }

  ghost predicate ResetIssued(acts: seq<Act>, i: nat, token: string) {
    i < |acts| && acts[i].IssueReset? && acts[i].token == token && Who(acts, i).Some?
  }

  ghost predicate ResetUsed(acts: seq<Act>, i: nat, token: string) {
    i < |acts| && acts[i].UseReset? && acts[i].token == token && Who(acts, i).Some?
  }

  ghost predicate CheckIssued(acts: seq<Act>, i: nat, token: string) {
    i < |acts| && acts[i].IssueCheck? && acts[i].token == token && Who(acts, i).Some?
  }

  ghost predicate CheckUsed(acts: seq<Act>, i: nat, token: string) {
    i < |acts| && acts[i].UseCheck? && acts[i].token == token && Who(acts, i).Some?
  }

  lemma SameBefore(acts: seq<Act>, n: nat, i: nat)
    requires i < n <= |acts|
    ensures acts[..n][i] == acts[i] && Who(acts[..n], i) == Who(acts, i)
  {
    assert acts[..n][..i] == acts[..i];
  }

  predicate FromIssue(row: Reset, act: Act) {
    act.IssueReset? && row.user == act.user && row.expires == Metadata.Stamp(act.expires)
  }

  ghost predicate ResetRowIs(acts: seq<Act>, token: string) {
    var a := After(acts);
    && (token in a.resets <==> exists i: nat :: ResetIssued(acts, i, token))
    && (forall i: nat :: ResetIssued(acts, i, token) ==>
          FromIssue(a.resets[token], acts[i]))
    && (token in a.resets ==> (a.resets[token].used <==> exists i: nat :: ResetUsed(acts, i, token)))
    && (token !in a.resets ==> forall i: nat :: !ResetUsed(acts, i, token))
  }

  lemma ResetShorter(acts: seq<Act>, token: string)
    requires acts != []
    ensures var n := |acts| - 1;
            forall i: nat :: i != n ==> (ResetIssued(acts, i, token) <==> ResetIssued(acts[..n], i, token))
    ensures var n := |acts| - 1;
            forall i: nat :: i != n ==> (ResetUsed(acts, i, token) <==> ResetUsed(acts[..n], i, token))
  {
    var n := |acts| - 1;
    forall i: nat | i < n
      ensures acts[..n][i] == acts[i] && Who(acts[..n], i) == Who(acts, i)
    {
      SameBefore(acts, n, i);
    }
  }

  lemma {:induction false} ResetRow(acts: seq<Act>, token: string)
    ensures ResetRowIs(acts, token)
    decreases |acts|
  {
    if acts != [] {
      var n := |acts| - 1;
      ResetRow(acts[..n], token);
      ResetShorter(acts, token);
      ResetRowStep(acts, token);
    }
  }

  lemma ResetRowStep(acts: seq<Act>, token: string)
    requires acts != [] && ResetRowIs(acts[..|acts| - 1], token)
    requires forall i: nat :: i != |acts| - 1 ==>
               (ResetIssued(acts, i, token) <==> ResetIssued(acts[..|acts| - 1], i, token))
    requires forall i: nat :: i != |acts| - 1 ==>
               (ResetUsed(acts, i, token) <==> ResetUsed(acts[..|acts| - 1], i, token))
    ensures ResetRowIs(acts, token)
  {
    hide After, Perform, Who, Metadata.Stamp;
    var n := |acts| - 1;
    LastOnReset(acts, token);
    forall i: nat | ResetIssued(acts, i, token)
      ensures token in After(acts).resets && FromIssue(After(acts).resets[token], acts[i])
    {
      assert i < n ==> acts[..n][i] == acts[i] && ResetIssued(acts[..n], i, token);
    }
    if token in After(acts[..n]).resets {
      var i: nat :| ResetIssued(acts[..n], i, token);
      assert ResetIssued(acts, i, token);
      assert ResetUsed(acts, n, token) ||
             forall j: nat :: ResetUsed(acts, j, token) <==> ResetUsed(acts[..n], j, token);
    } else {
      assert forall j: nat :: !ResetUsed(acts[..n], j, token) && !ResetIssued(acts[..n], j, token);
      assert forall j: nat :: !ResetUsed(acts, j, token);
      assert ResetIssued(acts, n, token) || forall j: nat :: !ResetIssued(acts, j, token);
    }
  }

  /** What one transaction does to a reset token. */
  lemma ActOnReset(a: Accounts, act: Act, token: string)
    ensures var b := Perform(a, act).accounts; var works := Perform(a, act).who.Some?;
            && (act.IssueReset? && act.token == token && works ==>
                  token !in a.resets && token in b.resets
                  && b.resets[token] == Reset(act.user, Metadata.Stamp(act.expires), false))
            && (act.UseReset? && act.token == token && works ==>
                  token in a.resets && token in b.resets && !a.resets[token].used
                  && b.resets[token] == a.resets[token].(used := true))
            && (!((act.IssueReset? || act.UseReset?) && act.token == token && works) ==> SameReset(a, b, token))
  {
    hide Metadata.Stamp;
  }

  /** What the last transaction did to a reset token. */
  lemma LastOnReset(acts: seq<Act>, token: string)
    requires acts != []
    ensures var n := |acts| - 1; var before, after := After(acts[..n]), After(acts);
            && !ResetIssued(acts[..n], n, token) && !ResetUsed(acts[..n], n, token)
            && !(ResetIssued(acts, n, token) && ResetUsed(acts, n, token))
            && (ResetIssued(acts, n, token) ==>
                  token !in before.resets && token in after.resets
                  && after.resets[token] == Reset(acts[n].user, Metadata.Stamp(acts[n].expires), false))
            && (ResetUsed(acts, n, token) ==>
                  token in before.resets && token in after.resets && !before.resets[token].used
                  && after.resets[token] == before.resets[token].(used := true))
            && (!ResetIssued(acts, n, token) && !ResetUsed(acts, n, token) ==> SameReset(before, after, token))
  {
    hide Perform, Metadata.Stamp, SameReset;
    ActOnReset(After(acts[..|acts| - 1]), acts[|acts| - 1], token);
  }

  ghost predicate SameReset(a: Accounts, b: Accounts, token: string) {
    (token in a.resets <==> token in b.resets) && (token in a.resets ==> a.resets[token] == b.resets[token])
  }

  /** A reset token works exactly when it was issued, to that user, is not past its expiry, which
      counts up to the last whole second, and never worked before. */
  lemma ResetWorksIff(acts: seq<Act>, token: string, now: int, user: int)
    ensures Perform(After(acts), UseReset(token, now)).who == Some(user) <==>
            && (exists i: nat ::
                  && ResetIssued(acts, i, token) && acts[i].user == user
                  && now <= acts[i].expires - acts[i].expires % SECOND)
            && (forall i: nat :: !ResetUsed(acts, i, token))
  {
    hide After;
    ResetRow(acts, token);
    WholeSecond();
  }

  lemma WholeSecond()
    ensures forall expires, now :: Expired(Metadata.Stamp(expires), now) <==> now > expires - expires % SECOND
  {
  }

  lemma {:induction false} KnownIff(acts: seq<Act>, user: int)
    ensures user in After(acts).users <==> exists i: nat :: i < |acts| && acts[i].SignUp? && acts[i].user == user
    decreases |acts|
  {
    if acts != [] {
      var n := |acts| - 1;
      KnownIff(acts[..n], user);
      UserStays(After(acts[..n]), acts[n], user);
      assert acts == acts[..n] + [acts[n]];
      if user in After(acts[..n]).users {
        var i: nat :| i < n && acts[..n][i].SignUp? && acts[..n][i].user == user;
        assert acts[i].SignUp? && acts[i].user == user;
      }
    }
  }

  lemma UserStays(a: Accounts, act: Act, user: int)
    ensures user in Perform(a, act).accounts.users <==> user in a.users || (act.SignUp? && act.user == user)
  {
    hide Metadata.Stamp;
  }

  /** A reset token is issued to any account there is, unless the same token was issued before. */
  lemma ResetIssueIff(acts: seq<Act>, token: string, user: int, expires: int)
    ensures Perform(After(acts), IssueReset(token, user, expires)).who ==
            if (exists i: nat :: i < |acts| && acts[i].SignUp? && acts[i].user == user)
               && (forall i: nat :: !ResetIssued(acts, i, token))
            then Some(user) else None
  {
    hide After;
    KnownIff(acts, user);
    ResetRow(acts, token);
  }

  /** Someone signed up as `user` before, and `password` is what they, or the last to set it since,
      chose. */
  ghost predicate ChoseLast(acts: seq<Act>, i: nat, user: int) {
    && i < |acts|
    && (acts[i].SignUp? || acts[i].SetPassword?) && acts[i].user == user
    && (acts[i].SignUp? <==> forall j: nat :: j < i ==> !(acts[j].SignUp? && acts[j].user == user))
    && forall j: nat :: i < j < |acts| ==> !(acts[j].SetPassword? && acts[j].user == user)
  }

  /** A password is the one set last, or the one signed up with. */
  lemma {:induction false} PasswordIsLast(acts: seq<Act>, i: nat, user: int)
    requires ChoseLast(acts, i, user)
    ensures user in After(acts).users && After(acts).users[user].password == acts[i].password
    decreases |acts|
  {
    var n := |acts| - 1;
    KnownIff(acts[..n], user);
    if i == n {
      if acts[i].SetPassword? {
        var j: nat :| j < i && acts[j].SignUp? && acts[j].user == user;
        assert acts[..n][j] == acts[j];
      }
    } else {
      assert ChoseLast(acts[..n], i, user);
      PasswordIsLast(acts[..n], i, user);
      OnlySettingChangesPasswords(After(acts[..n]), acts[n], user);
    }
  }

  /** No reset token works twice in any run. */
  lemma ResetWorksOnce(acts: seq<Act>, i: nat, j: nat, token: string)
    requires ResetUsed(acts, i, token) && ResetUsed(acts, j, token)
    ensures i == j
  {
    hide After;
    if i != j {
      var first, second := if i < j then i else j, if i < j then j else i;
      SameBefore(acts, second, first);
      assert ResetUsed(acts[..second], first, token);
      ResetWorksIff(acts[..second], token, acts[second].now, Who(acts, second).value);
    }
  }

  /** A password changes only by being set, and only for the account named. */
  lemma OnlySettingChangesPasswords(a: Accounts, act: Act, user: int)
    requires user in a.users
    ensures var b := Perform(a, act).accounts;
            && user in b.users
            && b.users[user].password ==
               if act.SetPassword? && act.user == user then act.password else a.users[user].password
  {
  }

  // ---------------------------------------------------------------- email verification

  /** Issued, and not used since. */
  ghost predicate CheckOpen(acts: seq<Act>, i: nat, token: string) {
    CheckIssued(acts, i, token) && forall j: nat :: CheckUsed(acts, j, token) ==> j < i
  }

  predicate FromCheck(row: Pending, act: Act) {
    act.IssueCheck? && row == Pending(act.user, Metadata.Stamp(act.expires))
  }

  ghost predicate CheckRowIs(acts: seq<Act>, token: string) {
    var a := After(acts);
    && (token in a.pending <==> exists i: nat :: CheckOpen(acts, i, token))
    && (forall i: nat :: CheckOpen(acts, i, token) ==> token in a.pending && FromCheck(a.pending[token], acts[i]))
  }

  lemma CheckShorter(acts: seq<Act>, token: string)
    requires acts != []
    ensures var n := |acts| - 1;
            forall i: nat :: i != n ==> (CheckIssued(acts, i, token) <==> CheckIssued(acts[..n], i, token))
    ensures var n := |acts| - 1;
            forall i: nat :: i != n ==> (CheckUsed(acts, i, token) <==> CheckUsed(acts[..n], i, token))
  {
    var n := |acts| - 1;
    forall i: nat | i < n
      ensures acts[..n][i] == acts[i] && Who(acts[..n], i) == Who(acts, i)
    {
      SameBefore(acts, n, i);
    }
  }

  lemma OpenShorter(acts: seq<Act>, token: string)
    requires acts != []
    ensures var n := |acts| - 1;
            forall i: nat :: i != n ==>
              (CheckOpen(acts, i, token) <==> CheckOpen(acts[..n], i, token) && !CheckUsed(acts, n, token))
  {
    hide Who;
    CheckShorter(acts, token);
    var n := |acts| - 1;
    forall i: nat | i != n
      ensures CheckOpen(acts, i, token) <==> CheckOpen(acts[..n], i, token) && !CheckUsed(acts, n, token)
    {
      if CheckOpen(acts, i, token) {
        assert forall j: nat :: CheckUsed(acts[..n], j, token) ==> CheckUsed(acts, j, token);
      }
    }
  }

  /** What one transaction does to a verification token. */
  lemma ActOnCheck(a: Accounts, act: Act, token: string)
    ensures var b := Perform(a, act).accounts; var works := Perform(a, act).who.Some?;
            && (act.IssueCheck? && act.token == token && works ==>
                  token !in a.pending && token in b.pending && FromCheck(b.pending[token], act))
            && (act.UseCheck? && act.token == token && works ==> token in a.pending && token !in b.pending)
            && (!((act.IssueCheck? || act.UseCheck?) && act.token == token && works) ==>
                  (token in a.pending <==> token in b.pending)
                  && (token in a.pending ==> b.pending[token] == a.pending[token]))
  {
    hide Metadata.Stamp;
  }

  lemma LastOnCheck(acts: seq<Act>, token: string)
    requires acts != []
    ensures var n := |acts| - 1; var before, after := After(acts[..n]), After(acts);
            && !CheckIssued(acts[..n], n, token)
            && !(CheckIssued(acts, n, token) && CheckUsed(acts, n, token))
            && (CheckIssued(acts, n, token) ==>
                  token !in before.pending && token in after.pending && FromCheck(after.pending[token], acts[n]))
            && (CheckUsed(acts, n, token) ==> token in before.pending && token !in after.pending)
            && (!CheckIssued(acts, n, token) && !CheckUsed(acts, n, token) ==>
                  (token in before.pending <==> token in after.pending)
                  && (token in before.pending ==> after.pending[token] == before.pending[token]))
  {
    hide Perform, FromCheck;
    ActOnCheck(After(acts[..|acts| - 1]), acts[|acts| - 1], token);
  }

  lemma {:induction false} CheckRow(acts: seq<Act>, token: string)
    ensures CheckRowIs(acts, token)
    decreases |acts|
  {
    if acts != [] {
      CheckRow(acts[..|acts| - 1], token);
      CheckRowStep(acts, token);
    }
  }

  lemma CheckRowStep(acts: seq<Act>, token: string)
    requires acts != [] && CheckRowIs(acts[..|acts| - 1], token)
    ensures CheckRowIs(acts, token)
  {
    hide After, Perform, Who, Metadata.Stamp, CheckUsed;
    var n := |acts| - 1;
    LastOnCheck(acts, token);
    OpenShorter(acts, token);
    CheckShorter(acts, token);
    if CheckIssued(acts, n, token) {
      assert forall j: nat :: CheckUsed(acts, j, token) ==> j < n by { UsedInRange(acts, token); }
      assert CheckOpen(acts, n, token);
    }
    forall i: nat | CheckOpen(acts, i, token)
      ensures token in After(acts).pending && FromCheck(After(acts).pending[token], acts[i])
    {
      assert i < n ==> CheckOpen(acts[..n], i, token) && acts[..n][i] == acts[i];
    }
    if token in After(acts).pending && !CheckIssued(acts, n, token) {
      var i: nat :| CheckOpen(acts[..n], i, token);
      assert CheckOpen(acts, i, token);
    }
  }

  lemma UsedInRange(acts: seq<Act>, token: string)
    requires acts != [] && !CheckUsed(acts, |acts| - 1, token)
    ensures forall j: nat :: CheckUsed(acts, j, token) ==> j < |acts| - 1
  {
  }

  /** A verification token works exactly when it was issued, to that user, is not past its expiry, up
      to the last whole second, and has not worked since. */
  lemma CheckWorksIff(acts: seq<Act>, token: string, now: int, user: int)
    ensures Perform(After(acts), UseCheck(token, now)).who == Some(user) <==>
            exists i: nat ::
              && CheckOpen(acts, i, token) && acts[i].user == user
              && now <= acts[i].expires - acts[i].expires % SECOND
  {
    hide After, CheckOpen;
    CheckRow(acts, token);
    WholeSecond();
    forall i: nat | CheckOpen(acts, i, token)
      ensures CheckIssued(acts, i, token)
    {
      OpenIsIssued(acts, i, token);
    }
  }

  /** A verification token is issued to any account there is, unless the same token is still open. */
  lemma CheckIssueIff(acts: seq<Act>, token: string, user: int, expires: int)
    ensures Perform(After(acts), IssueCheck(token, user, expires)).who ==
            if (exists i: nat :: i < |acts| && acts[i].SignUp? && acts[i].user == user)
               && (forall i: nat :: !CheckOpen(acts, i, token))
            then Some(user) else None
  {
    hide After, CheckOpen;
    KnownIff(acts, user);
    CheckRow(acts, token);
  }

  lemma OpenIsIssued(acts: seq<Act>, i: nat, token: string)
    requires CheckOpen(acts, i, token)
    ensures CheckIssued(acts, i, token)
  {
  }

  ghost predicate Verifies(acts: seq<Act>, i: nat, user: int) {
    i < |acts| && acts[i].UseCheck? && Who(acts, i) == Some(user)
  }

  /** Tokens belong to accounts that exist. */
  lemma {:induction false} OwnersExist(acts: seq<Act>, token: string)
    ensures token in After(acts).pending ==> After(acts).pending[token].user in After(acts).users
    decreases |acts|
  {
    if acts != [] {
      OwnersExist(acts[..|acts| - 1], token);
    }
  }

  lemma LastOnUser(acts: seq<Act>, user: int)
    requires acts != []
    ensures var n := |acts| - 1; var before, after := After(acts[..n]), After(acts);
            && (user in before.users ==>
                  && user in after.users
                  && (after.users[user].verified <==> before.users[user].verified || Verifies(acts, n, user)))
            && (user !in before.users && user in after.users ==> !after.users[user].verified)
            && (Verifies(acts, n, user) ==> user in before.users)
  {
    hide Metadata.Stamp;
    var n := |acts| - 1;
    if acts[n].UseCheck? {
      OwnersExist(acts[..n], acts[n].token);
    }
  }

  /** An address counts as verified exactly when some verification token of that account worked;
      so it never turns back. */
  lemma {:induction false} VerifiedIff(acts: seq<Act>, user: int)
    ensures user in After(acts).users && After(acts).users[user].verified <==> exists i: nat :: Verifies(acts, i, user)
    decreases |acts|
  {
    hide After, Perform, Who;
    if acts == [] {
      NobodyYet(user);
    } else {
      var n := |acts| - 1;
      VerifiedIff(acts[..n], user);
      LastOnUser(acts, user);
      forall i: nat | i < n
        ensures Verifies(acts, i, user) <==> Verifies(acts[..n], i, user)
      {
        SameBefore(acts, n, i);
      }
      if user in After(acts[..n]).users && After(acts[..n]).users[user].verified {
        var i: nat :| Verifies(acts[..n], i, user);
        assert Verifies(acts, i, user);
      }
    }
  }

  lemma NobodyYet(user: int)
    ensures user !in After([]).users
  {
  }

  // ---------------------------------------------------------------- resetting passwords

  /** A confirmation first uses the token, in one transaction, and then sets the password, in
      another; it may stop in between. */
  datatype Stage =
    | Asked(token: string, password: string)
    | Holding(user: int, password: string)
    | Changed(user: int)
    | GaveUp(user: int)
    | Turned

  datatype State = State(acts: seq<Act>, stages: map<int, Stage>)

  datatype Move =
    | Ask(id: int, token: string, password: string)
    | Spend(id: int, now: int)
    | Change(id: int)
    | Quit(id: int)
    | Other(act: Act)

  function Next(s: State, m: Move): Option<State> {
    match m
    case Ask(id, token, password) =>
      if id in s.stages then None else Some(s.(stages := s.stages[id := Asked(token, password)]))
    case Spend(id, now) =>
      if id !in s.stages || !s.stages[id].Asked? then None
      else
        var act := UseReset(s.stages[id].token, now);
        var who := Perform(After(s.acts), act).who;
        Some(State(s.acts + [act],
                   s.stages[id := if who.None? then Turned else Holding(who.value, s.stages[id].password)]))
    case Change(id) =>
      if id !in s.stages || !s.stages[id].Holding? then None
      else Some(State(s.acts + [SetPassword(s.stages[id].user, s.stages[id].password)],
                      s.stages[id := Changed(s.stages[id].user)]))
    case Quit(id) =>
      if id !in s.stages then None
      else if s.stages[id].Asked? then Some(s.(stages := s.stages[id := Turned]))
      else if s.stages[id].Holding? then Some(s.(stages := s.stages[id := GaveUp(s.stages[id].user)]))
      else None
    case Other(act) =>
      if act.UseReset? || act.SetPassword? then None else Some(s.(acts := s.acts + [act]))
  }

  function Moves(s: State, moves: seq<Move>): Option<State>
    decreases |moves|
  {
    if moves == [] then Some(s)
    else
      var t := Next(s, moves[0]);
      if t.None? then None else Moves(t.value, moves[1..])
  }

  /** Reset tokens of the user that worked. */
  function Spent(acts: seq<Act>, user: int): nat {
    if acts == [] then 0
    else
      var n := |acts| - 1;
      Spent(acts[..n], user) + if acts[n].UseReset? && Who(acts, n) == Some(user) then 1 else 0
  }

  /** Times the user's password was set. */
  function Sets(acts: seq<Act>, user: int): nat {
    if acts == [] then 0
    else
      var n := |acts| - 1;
      Sets(acts[..n], user) + if acts[n].SetPassword? && acts[n].user == user then 1 else 0
  }

  predicate Spender(stage: Stage, user: int) {
    (stage.Holding? || stage.Changed? || stage.GaveUp?) && stage.user == user
  }

  ghost function Spenders(s: State, user: int): set<int> {
    set id | id in s.stages && Spender(s.stages[id], user)
  }

  ghost function Changers(s: State, user: int): set<int> {
    set id | id in s.stages && s.stages[id] == Changed(user)
  }

  ghost predicate Balanced(s: State, user: int) {
    Spent(s.acts, user) == |Spenders(s, user)| && Sets(s.acts, user) == |Changers(s, user)|
  }

  lemma OneMoreAct(acts: seq<Act>, act: Act, user: int)
    ensures Spent(acts + [act], user) ==
            Spent(acts, user) + if act.UseReset? && Perform(After(acts), act).who == Some(user) then 1 else 0
    ensures Sets(acts + [act], user) == Sets(acts, user) + if act.SetPassword? && act.user == user then 1 else 0
  {
    assert (acts + [act])[..|acts|] == acts;
  }

  lemma MovedStage(s: State, t: State, id: int, stage: Stage, user: int)
    requires t.stages == s.stages[id := stage]
    requires id in s.stages && Spender(s.stages[id], user) ==> Spender(stage, user)
    requires id in s.stages ==> !s.stages[id].Changed?
    ensures |Spenders(t, user)| == |Spenders(s, user)| +
              if Spender(stage, user) && !(id in s.stages && Spender(s.stages[id], user)) then 1 else 0
    ensures |Changers(t, user)| == |Changers(s, user)| + if stage == Changed(user) then 1 else 0
  {
    assert Spenders(t, user) == if Spender(stage, user) then Spenders(s, user) + {id} else Spenders(s, user);
    assert Changers(t, user) == if stage == Changed(user) then Changers(s, user) + {id} else Changers(s, user);
  }

  lemma StepBalanced(s: State, m: Move, user: int)
    requires Balanced(s, user) && Next(s, m).Some?
    ensures Balanced(Next(s, m).value, user)
  {
    hide Perform, After, Spent, Sets, Spenders, Changers;
    var t := Next(s, m).value;
    if t.acts != s.acts {
      OneMoreAct(s.acts, t.acts[|s.acts|], user);
      assert t.acts == s.acts + [t.acts[|s.acts|]];
    }
    if m.Other? {
      SameStages(s, t, user);
    } else {
      MovedStage(s, t, m.id, t.stages[m.id], user);
    }
  }

  lemma SameStages(s: State, t: State, user: int)
    requires t.stages == s.stages
    ensures Spenders(t, user) == Spenders(s, user) && Changers(t, user) == Changers(s, user)
  {
  }

  lemma {:induction false} RunBalanced(s: State, moves: seq<Move>, user: int)
    requires Balanced(s, user) && Moves(s, moves).Some?
    ensures Balanced(Moves(s, moves).value, user)
    decreases |moves|
  {
    hide Balanced, Next;
    if moves != [] {
      StepBalanced(s, moves[0], user);
      RunBalanced(Next(s, moves[0]).value, moves[1..], user);
    }
  }

  /** In every run a user's password is set at most as often as that user's reset tokens worked,
      and short of that exactly by the confirmations that hold a used token or gave up with it. */
  lemma NoChangeWithoutToken(moves: seq<Move>, user: int)
    requires Moves(State([], map[]), moves).Some?
    ensures var s := Moves(State([], map[]), moves).value;
            && Sets(s.acts, user) <= Spent(s.acts, user)
            && Spent(s.acts, user) - Sets(s.acts, user) == |Spenders(s, user) - Changers(s, user)|
  {
    var start := State([], map[]);
    assert Spenders(start, user) == {} && Changers(start, user) == {};
    RunBalanced(start, moves, user);
    var s := Moves(start, moves).value;
    forall id | id in Changers(s, user)
      ensures id in Spenders(s, user)
    {
    }
    assert Spenders(s, user) == Changers(s, user) + (Spenders(s, user) - Changers(s, user));
  }

  /** A confirmation that is not stopped, of a token that works, sets its owner's password to the one
      asked for; of one that does not, it changes nothing. */
  lemma ConfirmRuns(s: State, id: int, token: string, password: string, now: int)
    requires id !in s.stages
    ensures var who := Perform(After(s.acts), UseReset(token, now)).who;
            var moves := [Ask(id, token, password), Spend(id, now)] + if who.Some? then [Change(id)] else [];
            var t := Moves(s, moves);
            && t.Some?
            && t.value.acts == s.acts + [UseReset(token, now)] +
                 (if who.Some? then [SetPassword(who.value, password)] else [])
            && t.value.stages == s.stages[id := if who.Some? then Changed(who.value) else Turned]
  {
    hide Perform, After;
    var who := Perform(After(s.acts), UseReset(token, now)).who;
    var change := if who.Some? then [Change(id)] else [];
    var moves := [Ask(id, token, password), Spend(id, now)] + change;
    var s1 := Next(s, moves[0]).value;
    var s2 := Next(s1, moves[1]).value;
    assert moves[1..][1..] == change && moves[1..][0] == moves[1];
    assert Moves(s1, moves[1..]) == Moves(s2, change);
    if who.Some? {
      assert change[1..] == [];
      assert Moves(s2, change) == Next(s2, Change(id));
    }
  }

  // ---------------------------------------------------------------- the account tables

  class AccountStore {
    var users: map<int, User>
    var resets: map<string, Reset>
    var pending: map<string, Pending>

    function Value(): Accounts
      reads this
    {
      Accounts(users, resets, pending)
    }

    constructor ()
      ensures Value() == NOBODY
    {
      users, resets, pending := map[], map[], map[];
    }

    method CreatePasswordReset(user: int, token: string, expires: int) returns (ok: bool)
      modifies this`resets
      ensures Value() == old(Perform(Value(), IssueReset(token, user, expires))).accounts
      ensures ok == old(Perform(Value(), IssueReset(token, user, expires))).who.Some?
    {
      if token in resets || user !in users {
        return false;
      }
      resets := resets[token := Reset(user, Metadata.Stamp(expires), false)];
      return true;
    }

    method CreateEmailVerification(user: int, token: string, expires: int) returns (ok: bool)
      modifies this`pending
      ensures Value() == old(Perform(Value(), IssueCheck(token, user, expires))).accounts
      ensures ok == old(Perform(Value(), IssueCheck(token, user, expires))).who.Some?
    {
      if token in pending || user !in users {
        return false;
      }
      pending := pending[token := Pending(user, Metadata.Stamp(expires))];
      return true;
    }

    method ConsumePasswordReset(token: string, now: int) returns (who: Option<int>)
      modifies this`resets
      ensures Value() == old(Perform(Value(), UseReset(token, now))).accounts
      ensures who == old(Perform(Value(), UseReset(token, now))).who
      ensures who == if token in old(resets) && !old(resets)[token].used && now <= old(resets)[token].expires * SECOND
                     then Some(old(resets)[token].user) else None
    {
      if token !in resets {
        return None;
      }
      var row := resets[token];
      if row.used {
        return None;
      }
      if Expired(row.expires, now) {
        return None;
      }
      resets := resets[token := row.(used := true)];
      return Some(row.user);
    }

    method ConsumeEmailVerification(token: string, now: int) returns (who: Option<int>)
      modifies this`pending, this`users
      ensures Value() == old(Perform(Value(), UseCheck(token, now))).accounts
      ensures who == old(Perform(Value(), UseCheck(token, now))).who
      ensures who == if token in old(pending) && now <= old(pending)[token].expires * SECOND
                     then Some(old(pending)[token].user) else None
    {
      if token !in pending {
        return None;
      }
      var row := pending[token];
      if Expired(row.expires, now) {
        return None;
      }
      pending := pending - {token};
      if row.user in users {
        users := users[row.user := users[row.user].(verified := true)];
      }
      return Some(row.user);
    }

    method UpdatePassword(user: int, password: string)
      modifies this`users
      ensures Value() == old(Perform(Value(), SetPassword(user, password))).accounts
    {
      if user in users {
        users := users[user := users[user].(password := password)];
      }
    }

    /** Uses the token and, if it works, sets its owner's password. */
    method ConfirmPasswordReset(token: string, password: string, now: int) returns (ok: bool)
      modifies this`resets, this`users
      ensures var used := old(Perform(Value(), UseReset(token, now)));
              && ok == used.who.Some?
              && Value() == if ok then Perform(used.accounts, SetPassword(used.who.value, password)).accounts
                            else old(Value())
    {
      var who := ConsumePasswordReset(token, now);
      if who.None? {
        return false;
      }
      UpdatePassword(who.value, password);
      return true;
    }
  }
}
