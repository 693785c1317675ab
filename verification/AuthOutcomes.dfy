/**
 * What the calls on accounts and sessions answer, what each of them writes, and
 * what a caller may rely on in the calls that follow.
 */
module AuthOutcomes {
  import opened Common
  import opened AuthModel
  import opened AuthFamilies
  import opened AuthTheorems
  import opened AuthLockout

  // ----- sessions ----------------------------------------------------------

  lemma HashFinds(tokens: seq<Token>, i: nat, hash: string)
    requires DistinctHashes(tokens) && i < |tokens| && tokens[i].hash == hash
    ensures FindByHash(tokens, hash) == Some(i)
  {
  }

  /** The new row is live and holds the given hash, owner and device, for one lifetime from `at` on. */
  predicate Issued(cfg: Settings, token: Token, raw: string, user: nat, client: Client, at: int) {
    && token.hash == cfg.hash(raw)
    && token.user == user && token.client == client
    && token.expires == at + cfg.lifetime
    && !token.revoked && token.rotatedAt == None
  }

  /** A successful refresh spends the token presented, answers its replacement and touches nothing else. */
  lemma RefreshAnswersReplacement(cfg: Settings, ops: seq<Op>, op: Op)
    requires op.Refresh? && Step(cfg, Run(cfg, EMPTY, ops), op).1.Rotated?
    ensures var s := Run(cfg, EMPTY, ops);
            var (after, r) := Step(cfg, s, op);
            && r.parent < |s.tokens| && r.child == |s.tokens| && |after.tokens| == |s.tokens| + 1
            && (var spent, issued := s.tokens[r.parent], after.tokens[r.child];
                && spent.hash == cfg.hash(op.raw) && !spent.revoked && op.now < spent.expires
                && after.tokens[r.parent] == spent.(revoked := true, rotatedAt := Some(op.now))
                && Issued(cfg, issued, op.newRaw, spent.user, spent.client, op.now)
                && issued.parent == Some(r.parent) && issued.family == spent.family)
            && (forall i :: 0 <= i < |s.tokens| && i != r.parent ==> after.tokens[i] == s.tokens[i])
            && after.users == s.users && after.events == s.events
  {
    ReachableInv(cfg, ops);
  }

  /** What was answered can be presented next: after any further run the replacement is rotated in its turn
      exactly when nothing ended the session, it has not expired and the next hash is unused. */
  lemma ReplacementIsRotatable(cfg: Settings, earlier: seq<Op>, op: Op, later: seq<Op>, now: int, newRaw: string)
    requires op.Refresh? && Step(cfg, Run(cfg, EMPTY, earlier), op).1.Rotated?
    ensures var (after, r) := Step(cfg, Run(cfg, EMPTY, earlier), op);
            var s := Run(cfg, after, later);
            var next := RefreshStep(cfg, s, op.newRaw, now, newRaw).1;
            && r.child < |after.tokens|
            && (next.Rotated? <==>
                  && SessionLeftAlone(cfg, after, later, r.child)
                  && now < op.now + cfg.lifetime
                  && FindByHash(s.tokens, cfg.hash(newRaw)).None?)
            && (next.Rotated? ==> next.parent == r.child)
  {
    RefreshAnswersReplacement(cfg, earlier, op);
    ReachableInv(cfg, earlier);
    StepKeeps(cfg, Run(cfg, EMPTY, earlier), op);
    var (after, r) := Step(cfg, Run(cfg, EMPTY, earlier), op);
    IssuedIsRotatable(cfg, after, r.child, later, op.newRaw, now, newRaw);
  }

  lemma IssuedIsRotatable(cfg: Settings, s: State, i: nat, later: seq<Op>, raw: string, now: int, newRaw: string)
    requires Inv(cfg, s) && i < |s.tokens| && !s.tokens[i].revoked && s.tokens[i].hash == cfg.hash(raw)
    ensures var after := Run(cfg, s, later);
            var r := RefreshStep(cfg, after, raw, now, newRaw).1;
            && (r.Rotated? <==>
                  && SessionLeftAlone(cfg, s, later, i)
                  && now < s.tokens[i].expires
                  && FindByHash(after.tokens, cfg.hash(newRaw)).None?)
            && (r.Rotated? ==> r.parent == i)
  {
    RotationSurvivesLockout(cfg, s, later, i, raw, now, newRaw);
    SessionSurvivesIff(cfg, s, later, i);
    RunKeeps(cfg, s, later);
    HashFinds(Run(cfg, s, later).tokens, i, cfg.hash(raw));
  }

  /** Every answer of a refresh, by the token presented; an answer of no use leaves all tables alone
      unless the token was found revoked or expired. */
  lemma RefreshAnswers(cfg: Settings, ops: seq<Op>, op: Op, i: nat)
    requires op.Refresh?
    ensures var s := Run(cfg, EMPTY, ops);
            var (after, r) := Step(cfg, s, op);
            && (i < |s.tokens| && s.tokens[i].hash == cfg.hash(op.raw) ==>
                  var token := s.tokens[i];
                  && (r == TokenReuseDetected <==> token.revoked)
                  && (r == InvalidRefreshToken <==> !token.revoked && token.expires <= op.now)
                  && (r == InvalidRefreshToken ==>
                        after == s.(tokens := s.tokens[i := token.(revoked := true, rotatedAt := Some(op.now))]))
                  && (r == IntegrityError <==>
                        !token.revoked && op.now < token.expires && FindByHash(s.tokens, cfg.hash(op.newRaw)).Some?)
                  && (r == IntegrityError ==> after == s)
                  && (r.Rotated? <==>
                        !token.revoked && op.now < token.expires && FindByHash(s.tokens, cfg.hash(op.newRaw)).None?))
            && ((forall k :: 0 <= k < |s.tokens| ==> s.tokens[k].hash != cfg.hash(op.raw)) ==>
                  r == InvalidRefreshToken && after == s)
  {
    ReachableInv(cfg, ops);
    var s := Run(cfg, EMPTY, ops);
    if i < |s.tokens| && s.tokens[i].hash == cfg.hash(op.raw) { HashFinds(s.tokens, i, cfg.hash(op.raw)); }
  }

  /** A successful login opens a family with one token, which it answers, and clears counter and lock. */
  lemma LoginAnswersSession(cfg: Settings, ops: seq<Op>, op: Op)
    requires op.Login? && Step(cfg, Run(cfg, EMPTY, ops), op).1.LoggedIn?
    ensures var s := Run(cfg, EMPTY, ops);
            var (after, r) := Step(cfg, s, op);
            && r.user < |s.users| && r.token == |s.tokens| && |after.tokens| == |s.tokens| + 1
            && after.tokens[..r.token] == s.tokens
            && Issued(cfg, after.tokens[r.token], op.newRaw, r.user, op.client, op.issuedAt)
            && after.tokens[r.token].parent.None? && after.tokens[r.token].family == r.token
            && after.users ==
               s.users[r.user := s.users[r.user].(failed := 0, lockedUntil := None, lastLogin := Some(op.now))]
            && after.events == s.events + [Event(LoginEvent, r.user, op.client, op.now)]
  {
    ReachableInv(cfg, ops);
  }

  /** The token a login answers can be rotated, after any run that does not end the session, until it expires. */
  lemma LoginSessionIsRotatable(cfg: Settings, earlier: seq<Op>, op: Op, later: seq<Op>, now: int, newRaw: string)
    requires op.Login? && Step(cfg, Run(cfg, EMPTY, earlier), op).1.LoggedIn?
    ensures var (after, r) := Step(cfg, Run(cfg, EMPTY, earlier), op);
            var s := Run(cfg, after, later);
            var next := RefreshStep(cfg, s, op.newRaw, now, newRaw).1;
            && r.token < |after.tokens|
            && (next.Rotated? <==>
                  && SessionLeftAlone(cfg, after, later, r.token)
                  && now < op.issuedAt + cfg.lifetime
                  && FindByHash(s.tokens, cfg.hash(newRaw)).None?)
            && (next.Rotated? ==> next.parent == r.token)
  {
    LoginAnswersSession(cfg, earlier, op);
    ReachableInv(cfg, earlier);
    StepKeeps(cfg, Run(cfg, EMPTY, earlier), op);
    var (after, r) := Step(cfg, Run(cfg, EMPTY, earlier), op);
    IssuedIsRotatable(cfg, after, r.token, later, op.newRaw, now, newRaw);
  }

  predicate UnderLock(user: User, now: int) {
    user.lockedUntil.Some? && now < user.lockedUntil.value
  }

  /** Failures a login has to count on, a lock that ran out having wiped them. */
  function Counted(user: User): nat {
    if user.lockedUntil.Some? then 0 else user.failed
  }

  /** Exactly when each refusal of a login is answered; an unknown address is one of wrong credentials. */
  lemma LoginRefusals(cfg: Settings, ops: seq<Op>, op: Op, u: nat)
    requires op.Login?
    ensures var s := Run(cfg, EMPTY, ops);
            var r := Step(cfg, s, op).1;
            && (FindByEmail(cfg, s.users, op.email).None? ==> r == InvalidCredentials)
            && (FindByEmail(cfg, s.users, op.email) == Some(u) ==>
                  var user := s.users[u];
                  var right, locked := op.password == user.password, UnderLock(user, op.now);
                  var limit := Counted(user) + 1 >= cfg.maxFailed;
                  && (r == InvalidCredentials <==> !right && (locked || !limit))
                  && (r == AccountInactive <==> right && !locked && user.status != Active)
                  && (r == IntegrityError <==>
                        right && !locked && user.status == Active && FindByHash(s.tokens, cfg.hash(op.newRaw)).Some?)
                  && (r.AccountLocked? <==> (right && locked) || (!right && !locked && limit))
                  && (r.AccountLocked? ==> r.until == if right then user.lockedUntil.value else op.now + cfg.lockout))
  {
    ReachableInv(cfg, ops);
  }

  /** A refused login commits nothing, unless a wrong password meets an account not under lock: then the
      failure is counted and, at the limit, the account locked from now on. */
  lemma RefusedLoginCommits(cfg: Settings, s: State, op: Op, u: nat)
    requires op.Login?
    ensures var (after, r) := Step(cfg, s, op);
            && (FindByEmail(cfg, s.users, op.email).None? ==> after == s)
            && (FindByEmail(cfg, s.users, op.email) == Some(u) ==>
                  var user := s.users[u];
                  var right, locked := op.password == user.password, UnderLock(user, op.now);
                  var limit := Counted(user) + 1 >= cfg.maxFailed;
                  && (!r.LoggedIn? && (right || locked) ==> after == s)
                  && (!right && !locked ==>
                        after == s.(
                          users := s.users[u := user.(failed := Counted(user) + 1,
                                                      lockedUntil := if limit then Some(op.now + cfg.lockout) else None)],
                          events := if limit then s.events + [Event(LockoutEvent, u, op.client, op.now)] else s.events)))
  {
  }

  // ----- the event log -----------------------------------------------------

  /** What the log must say about one call, told from the tables it finds. */
  function Owed(cfg: Settings, s: State, op: Op): seq<Event> {
    match op
    case Login(email, password, client, now, _, newRaw) =>
      (match FindByEmail(cfg, s.users, email)
       case None => []
       case Some(u) =>
         var user := s.users[u];
         if UnderLock(user, now) then []
         else if password != user.password then
           if Counted(user) + 1 >= cfg.maxFailed then [Event(LockoutEvent, u, client, now)] else []
         else if user.status == Active && FindByHash(s.tokens, cfg.hash(newRaw)).None? then
           [Event(LoginEvent, u, client, now)]
         else [])
    case Refresh(raw, now, _) =>
      (match FindByHash(s.tokens, cfg.hash(raw))
       case None => []
       case Some(i) =>
         if s.tokens[i].revoked then [Event(TokenReuseEvent, s.tokens[i].user, s.tokens[i].client, now)] else [])
    case Logout(raw, client, _, loggedAt) =>
      (match FindByHash(s.tokens, cfg.hash(raw))
       case None => []
       case Some(i) => if s.tokens[i].revoked then [] else [Event(LogoutEvent, s.tokens[i].user, client, loggedAt)])
    case _ => []
  }

  function OwedByRun(cfg: Settings, s: State, ops: seq<Op>): seq<Event>
    decreases |ops|
  {
    if ops == [] then [] else Owed(cfg, s, ops[0]) + OwedByRun(cfg, Step(cfg, s, ops[0]).0, ops[1..])
  }

  lemma StepLogsWhatItOwes(cfg: Settings, s: State, op: Op)
    requires Inv(cfg, s)
    ensures Step(cfg, s, op).0.events == s.events + Owed(cfg, s, op)
  {
  }

  lemma Regroup(a: seq<Event>, b: seq<Event>, c: seq<Event>)
    ensures (a + b) + c == a + (b + c)
  {
  }

  lemma {:induction false} RunLogsWhatItOwes(cfg: Settings, s: State, ops: seq<Op>)
    requires Inv(cfg, s)
    ensures Run(cfg, s, ops).events == s.events + OwedByRun(cfg, s, ops)
    decreases |ops|
  {
    if ops != [] {
      var next := Step(cfg, s, ops[0]).0;
      StepKeeps(cfg, s, ops[0]);
      StepLogsWhatItOwes(cfg, s, ops[0]);
      RunLogsWhatItOwes(cfg, next, ops[1..]);
      Regroup(s.events, Owed(cfg, s, ops[0]), OwedByRun(cfg, next, ops[1..]));
    }
  }

  /** The whole log of every run: successful logins, lockouts, reuses and logouts that ended a session, each
      once, in order, with its user, device and time, and nothing else. */
  lemma LogIsExact(cfg: Settings, ops: seq<Op>)
    ensures Run(cfg, EMPTY, ops).events == OwedByRun(cfg, EMPTY, ops)
  {
    ReachableInv(cfg, []);
    RunLogsWhatItOwes(cfg, EMPTY, ops);
  }

  /** A logout of a stored token is answered as known; only a live one is revoked and logged. */
  lemma LogoutAnswers(cfg: Settings, ops: seq<Op>, op: Op, i: nat)
    requires op.Logout?
    ensures var s := Run(cfg, EMPTY, ops);
            var (after, r) := Step(cfg, s, op);
            && (i < |s.tokens| && s.tokens[i].hash == cfg.hash(op.raw) ==>
                  && r == LoggedOut(true)
                  && (if s.tokens[i].revoked then after == s
                      else after == s.(
                        tokens := s.tokens[i := s.tokens[i].(revoked := true, rotatedAt := Some(op.now))],
                        events := s.events + [Event(LogoutEvent, s.tokens[i].user, op.client, op.loggedAt)])))
            && ((forall k :: 0 <= k < |s.tokens| ==> s.tokens[k].hash != cfg.hash(op.raw)) ==>
                  r == LoggedOut(false) && after == s)
  {
    ReachableInv(cfg, ops);
    var s := Run(cfg, EMPTY, ops);
    if i < |s.tokens| && s.tokens[i].hash == cfg.hash(op.raw) { HashFinds(s.tokens, i, cfg.hash(op.raw)); }
  }

  /** The call presents a live token of the user for logout. */
  predicate LogsOut(cfg: Settings, s: State, op: Op, u: nat) {
    && op.Logout?
    && exists i ::
         0 <= i < |s.tokens| && s.tokens[i].hash == cfg.hash(op.raw) && !s.tokens[i].revoked && s.tokens[i].user == u
  }

  function Logouts(cfg: Settings, s: State, ops: seq<Op>, u: nat): nat
    decreases |ops|
  {
    if ops == [] then 0 else Bit(LogsOut(cfg, s, ops[0], u)) + Logouts(cfg, Step(cfg, s, ops[0]).0, ops[1..], u)
  }

  lemma StepCountsLogout(cfg: Settings, s: State, op: Op, u: nat)
    requires Inv(cfg, s)
    ensures Count(Step(cfg, s, op).0.events, EventOf(LogoutEvent, u)) ==
            Count(s.events, EventOf(LogoutEvent, u)) + Bit(LogsOut(cfg, s, op, u))
  {
    StepLogsWhatItOwes(cfg, s, op);
    var owed := Owed(cfg, s, op);
    if op.Logout? && FindByHash(s.tokens, cfg.hash(op.raw)).Some? {
      var i := FindByHash(s.tokens, cfg.hash(op.raw)).value;
      forall k | 0 <= k < |s.tokens| && s.tokens[k].hash == cfg.hash(op.raw) ensures k == i {}
    }
    if owed == [] {
      assert s.events + owed == s.events;
    } else {
      assert owed == [owed[0]];
      CountAppend(s.events, owed[0], EventOf(LogoutEvent, u));
    }
  }

  /** Per user and run, LOGOUT events are exactly the logouts that ended a session. */
  lemma {:induction false} LogoutEventsCountLogouts(cfg: Settings, s: State, ops: seq<Op>, u: nat)
    requires Inv(cfg, s)
    ensures Count(Run(cfg, s, ops).events, EventOf(LogoutEvent, u)) ==
            Count(s.events, EventOf(LogoutEvent, u)) + Logouts(cfg, s, ops, u)
    decreases |ops|
  {
    if ops != [] {
      StepKeeps(cfg, s, ops[0]);
      StepCountsLogout(cfg, s, ops[0], u);
      LogoutEventsCountLogouts(cfg, Step(cfg, s, ops[0]).0, ops[1..], u);
    }
  }

  // ----- accounts ----------------------------------------------------------

  /** A new account is refused exactly when its username is taken; it holds what was sent, is enabled, and is
      active when an administrator creates it but invited, as a viewer, after sign-up. */
  lemma AccountIsCreated(cfg: Settings, s: State, op: Op)
    requires op.CreateUser? || op.SignUp?
    ensures var (after, r) := Step(cfg, s, op);
            if exists i :: 0 <= i < |s.users| && s.users[i].username == op.username then
              r == UsernameTaken && after == s
            else
              && r == Saved(|s.users|) && |after.users| == |s.users| + 1 && after.users[..|s.users|] == s.users
              && after.tokens == s.tokens && after.events == s.events
              && (var user := after.users[|s.users|];
                  && user.username == op.username && user.email == op.email && user.password == op.password
                  && user.status == (if op.CreateUser? then Active else Invited)
                  && user.profile == (if op.CreateUser? then op.profile else map["role" := "VIEWER"])
                  && user.isActive && user.failed == 0 && user.lockedUntil.None? && user.lastLogin.None?)
  {
  }

  /** Whoever is created by an administrator under a new address can log in with it, in whatever case, and the
      password given; whoever signed up is told the account is inactive. */
  lemma NewAccountLogsIn(cfg: Settings, earlier: seq<Op>, create: Op, login: Op)
    requires create.CreateUser? || create.SignUp?
    requires Step(cfg, Run(cfg, EMPTY, earlier), create).1.Saved?
    requires forall user :: user in Run(cfg, EMPTY, earlier).users ==> cfg.fold(user.email) != cfg.fold(create.email)
    requires login.Login? && cfg.fold(login.email) == cfg.fold(create.email) && login.password == create.password
    requires FindByHash(Run(cfg, EMPTY, earlier).tokens, cfg.hash(login.newRaw)).None?
    ensures var (s, r) := Step(cfg, Run(cfg, EMPTY, earlier), create);
            Step(cfg, s, login).1 == if create.CreateUser? then LoggedIn(r.id, |s.tokens|) else AccountInactive
  {
    var before := Run(cfg, EMPTY, earlier);
    AccountIsCreated(cfg, before, create);
    var (s, r) := Step(cfg, before, create);
    assert s.users[..|s.users| - 1] == before.users;
    assert MatchesEmail(cfg, s.users[r.id], login.email);
    assert FindByEmail(cfg, s.users, login.email) == Some(r.id);
  }

  predicate DistinctUsernames(users: seq<User>) {
    forall i, j :: 0 <= i < j < |users| ==> users[i].username != users[j].username
  }

  /** Neither username nor address nor password of an account ever changes. */
  lemma StepKeepsCredentials(cfg: Settings, s: State, op: Op)
    ensures var after := Step(cfg, s, op).0;
            && |s.users| <= |after.users|
            && (forall u :: 0 <= u < |s.users| ==>
                  && after.users[u].username == s.users[u].username
                  && after.users[u].email == s.users[u].email
                  && after.users[u].password == s.users[u].password)
  {
  }

  lemma StepKeepsUsernamesDistinct(cfg: Settings, s: State, op: Op)
    requires DistinctUsernames(s.users)
    ensures DistinctUsernames(Step(cfg, s, op).0.users)
  {
    StepKeepsCredentials(cfg, s, op);
    if op.CreateUser? || op.SignUp? { AccountIsCreated(cfg, s, op); }
  }

  lemma {:induction false} CredentialsNeverChange(cfg: Settings, s: State, ops: seq<Op>, u: nat)
    requires u < |s.users|
    ensures var after := Run(cfg, s, ops);
            && u < |after.users|
            && after.users[u].username == s.users[u].username
            && after.users[u].email == s.users[u].email
            && after.users[u].password == s.users[u].password
    decreases |ops|
  {
    if ops != [] {
      StepKeepsCredentials(cfg, s, ops[0]);
      CredentialsNeverChange(cfg, Step(cfg, s, ops[0]).0, ops[1..], u);
    }
  }

  lemma {:induction false} RunKeepsUsernamesDistinct(cfg: Settings, s: State, ops: seq<Op>)
    requires DistinctUsernames(s.users)
    ensures DistinctUsernames(Run(cfg, s, ops).users)
    decreases |ops|
  {
    if ops != [] {
      StepKeepsUsernamesDistinct(cfg, s, ops[0]);
      RunKeepsUsernamesDistinct(cfg, Step(cfg, s, ops[0]).0, ops[1..]);
    }
  }

  /** No two accounts of a run share a username. */
  lemma UsernamesStayDistinct(cfg: Settings, ops: seq<Op>)
    ensures DistinctUsernames(Run(cfg, EMPTY, ops).users)
  {
    RunKeepsUsernamesDistinct(cfg, EMPTY, ops);
  }

  // ----- status and profile ------------------------------------------------

  /** The statuses an administrator may give, by the one the account has. */
  predicate MayBecome(was: Status, target: Status) {
    || (target == Active && (was == Invited || was == Suspended))
    || (target == Suspended && (was == Active || was == Invited))
  }

  /** Every answer of a status call, in the order the refusals are looked for. */
  lemma SetStatusAnswers(cfg: Settings, s: State, op: Op)
    requires op.SetStatus?
    ensures var (after, r) := Step(cfg, s, op);
            && (r == SelfStatusChange <==> op.newStatus != Invited && op.actor == Some(op.id))
            && (r == UserNotFound <==> op.newStatus != Invited && op.actor != Some(op.id) && op.id >= |s.users|)
            && (r == Saved(op.id) <==>
                  op.actor != Some(op.id) && op.id < |s.users| && MayBecome(s.users[op.id].status, op.newStatus))
            && (r in {SelfStatusChange, UserNotFound, Saved(op.id), InvalidTransition})
            && (r != Saved(op.id) ==> after == s)
  {
  }

  lemma DeactivateAnswers(cfg: Settings, s: State, op: Op)
    requires op.Deactivate?
    ensures var (after, r) := Step(cfg, s, op);
            && (r == SelfStatusChange <==> op.actor == Some(op.id))
            && (r == UserNotFound <==> op.actor != Some(op.id) && op.id >= |s.users|)
            && (r == Saved(op.id) <==> op.actor != Some(op.id) && op.id < |s.users|)
            && (r != Saved(op.id) ==> after == s)
  {
  }

  datatype Standing = Standing(status: Status, enabled: bool)

  /** How a call changes the standing of account `u`: a deactivation suspends and disables, an activation
      enables, a suspension leaves the flag alone. */
  function Restated(was: Standing, op: Op, u: nat): Standing {
    match op
    case Deactivate(id, actor, _) => if id == u && actor != Some(u) then Standing(Suspended, false) else was
    case SetStatus(id, target, actor, _) =>
      if id == u && actor != Some(u) && MayBecome(was.status, target)
      then Standing(target, target == Active || was.enabled) else was
    case _ => was
  }

  function StandingAfter(was: Standing, ops: seq<Op>, u: nat): Standing
    decreases |ops|
  {
    if ops == [] then was else StandingAfter(Restated(was, ops[0], u), ops[1..], u)
  }

  lemma StepRestates(cfg: Settings, s: State, op: Op, u: nat)
    requires u < |s.users|
    ensures var after := Step(cfg, s, op).0.users;
            u < |after| &&
            Standing(after[u].status, after[u].isActive) == Restated(Standing(s.users[u].status, s.users[u].isActive), op, u)
  {
  }

  /** In every run an account's status and flag follow from the deactivations and status calls alone. */
  lemma {:induction false} StandingIsReplayed(cfg: Settings, s: State, ops: seq<Op>, u: nat)
    requires u < |s.users|
    ensures var after := Run(cfg, s, ops).users;
            u < |after| &&
            Standing(after[u].status, after[u].isActive) ==
            StandingAfter(Standing(s.users[u].status, s.users[u].isActive), ops, u)
    decreases |ops|
  {
    if ops != [] {
      StepRestates(cfg, s, ops[0], u);
      StandingIsReplayed(cfg, Step(cfg, s, ops[0]).0, ops[1..], u);
    }
  }

  /** Activation clears the failure count and the lock, so the right password works at once. */
  lemma ActivationUnlocks(cfg: Settings, earlier: seq<Op>, op: Op, login: Op)
    requires op.SetStatus? && op.newStatus == Active && Step(cfg, Run(cfg, EMPTY, earlier), op).1.Saved?
    requires login.Login? && FindByEmail(cfg, Run(cfg, EMPTY, earlier).users, login.email) == Some(op.id)
    requires login.password == Run(cfg, EMPTY, earlier).users[op.id].password
    requires FindByHash(Run(cfg, EMPTY, earlier).tokens, cfg.hash(login.newRaw)).None?
    ensures var s := Step(cfg, Run(cfg, EMPTY, earlier), op).0;
            && op.id < |s.users| && s.users[op.id].failed == 0 && s.users[op.id].lockedUntil.None?
            && Step(cfg, s, login).1 == LoggedIn(op.id, |s.tokens|)
  {
    var before := Run(cfg, EMPTY, earlier);
    var s := Step(cfg, before, op).0;
    SameEmailsSameLookup(cfg, before.users, s.users, login.email);
  }

  const FIELDS := {"role", "first_name", "last_name", "organization"}

  /** A profile field as the run leaves it: the last value an update supplied for it, if it may be updated. */
  function LastWritten(was: Option<string>, ops: seq<Op>, u: nat, field: string): Option<string>
    decreases |ops|
  {
    if ops == [] then was
    else
      var now := if ops[0].UpdateUser? && ops[0].id == u && field in FIELDS && field in ops[0].data
                 then Some(ops[0].data[field]) else was;
      LastWritten(now, ops[1..], u, field)
  }

  function Field(user: User, field: string): Option<string> {
    if field in user.profile then Some(user.profile[field]) else None
  }

  lemma UpdatableAreFields(field: string)
    ensures field in UPDATABLE_FIELDS <==> field in FIELDS
  {
    assert UPDATABLE_FIELDS == ["role", "first_name", "last_name", "organization"];
  }

  lemma StepWritesField(cfg: Settings, s: State, op: Op, u: nat, field: string)
    requires u < |s.users|
    ensures u < |Step(cfg, s, op).0.users|
    ensures Field(Step(cfg, s, op).0.users[u], field) ==
            if op.UpdateUser? && op.id == u && field in FIELDS && field in op.data then Some(op.data[field])
            else Field(s.users[u], field)
    ensures op.UpdateUser? ==> Step(cfg, s, op).1 == if op.id < |s.users| then Saved(op.id) else UserNotFound
  {
    UpdatableAreFields(field);
  }

  /** In every run each profile field holds the last value written to it. */
  lemma {:induction false} FieldIsLastWritten(cfg: Settings, s: State, ops: seq<Op>, u: nat, field: string)
    requires u < |s.users|
    ensures u < |Run(cfg, s, ops).users|
    ensures Field(Run(cfg, s, ops).users[u], field) == LastWritten(Field(s.users[u], field), ops, u, field)
    decreases |ops|
  {
    if ops != [] {
      StepWritesField(cfg, s, ops[0], u, field);
      FieldIsLastWritten(cfg, Step(cfg, s, ops[0]).0, ops[1..], u, field);
    }
  }
}
