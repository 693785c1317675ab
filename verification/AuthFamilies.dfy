/**
 * What every run of the three services keeps: each token family is one chain
 * with at most one live token, that token's owner is active, and the token
 * table, the user table and the event log agree with each other.
 */
module AuthFamilies {
  import opened Common
  import opened AuthModel

  // ----- the token table ---------------------------------------------------

  /** Token `i` was issued by rotating its parent, the token just before it in its family. */
  ghost predicate LinkedToParent(cfg: Settings, tokens: seq<Token>, i: nat)
    requires i < |tokens| && tokens[i].parent.Some?
  {
    var p := tokens[i].parent.value;
    && p < i
    && tokens[p].family == tokens[i].family
    && tokens[p].user == tokens[i].user
    && tokens[p].client == tokens[i].client
    && tokens[p].rotatedAt.Some?
    && tokens[p].rotatedAt.value < tokens[p].expires
    && tokens[i].expires == tokens[p].rotatedAt.value + cfg.lifetime
    && forall k :: p < k < i ==> tokens[k].family != tokens[i].family
  }

  ghost predicate TokenShape(cfg: Settings, tokens: seq<Token>, i: nat)
    requires i < |tokens|
  {
    var token := tokens[i];
    && (token.revoked <==> token.rotatedAt.Some?)
    && token.family <= i
    && tokens[token.family].family == token.family
    && tokens[token.family].user == token.user
    && tokens[token.family].client == token.client
    && (token.parent.None? <==> token.family == i)
    && (token.parent.Some? ==> LinkedToParent(cfg, tokens, i))
  }

  ghost predicate Chains(cfg: Settings, tokens: seq<Token>) {
    && (forall i :: 0 <= i < |tokens| ==> TokenShape(cfg, tokens, i))
    && (forall i, j :: 0 <= i < j < |tokens| && tokens[i].family == tokens[j].family ==> tokens[i].revoked)
  }

  ghost predicate DistinctHashes(tokens: seq<Token>) {
    forall i, j :: 0 <= i < j < |tokens| ==> tokens[i].hash != tokens[j].hash
  }

  /** The row is unchanged, or was live and has been revoked. */
  ghost predicate SameOrRevoked(before: Token, after: Token) {
    || after == before
    || (!before.revoked && after.rotatedAt.Some? && after == Revoked(before, after.rotatedAt.value))
  }

  ghost predicate OnlyRevokes(before: seq<Token>, after: seq<Token>) {
    && |before| == |after|
    && forall i :: 0 <= i < |before| ==> SameOrRevoked(before[i], after[i])
  }

  lemma RevocationKeepsChains(cfg: Settings, before: seq<Token>, after: seq<Token>)
    requires Chains(cfg, before) && DistinctHashes(before) && OnlyRevokes(before, after)
    ensures Chains(cfg, after) && DistinctHashes(after)
  {
    forall i | 0 <= i < |after| ensures TokenShape(cfg, after, i) {
      assert TokenShape(cfg, before, i);
      if after[i].parent.Some? {
        var p := after[i].parent.value;
        assert before[p].rotatedAt.Some? && TokenShape(cfg, before, p);
        assert after[p] == before[p];
        assert LinkedToParent(cfg, after, i);
      }
    }
  }

  lemma NewFamilyKeepsChains(cfg: Settings, tokens: seq<Token>, token: Token)
    requires Chains(cfg, tokens) && DistinctHashes(tokens)
    requires FindByHash(tokens, token.hash).None?
    requires token.family == |tokens| && token.parent.None? && !token.revoked && token.rotatedAt.None?
    ensures Chains(cfg, tokens + [token]) && DistinctHashes(tokens + [token])
  {
    var after := tokens + [token];
    forall i | 0 <= i < |after| ensures TokenShape(cfg, after, i) {
      if i < |tokens| {
        assert TokenShape(cfg, tokens, i);
        if after[i].parent.Some? { assert LinkedToParent(cfg, after, i); }
      }
    }
    forall i | 0 <= i < |tokens| ensures after[i].family != token.family {
      assert TokenShape(cfg, tokens, i);
    }
  }

  /** The heart of rotation: spending the one live token and appending its child. */
  lemma RotationKeepsChains(cfg: Settings, tokens: seq<Token>, i: nat, now: int, raw: string)
    requires Chains(cfg, tokens) && DistinctHashes(tokens)
    requires i < |tokens| && !tokens[i].revoked && now < tokens[i].expires
    requires FindByHash(tokens, cfg.hash(raw)).None?
    ensures var spent := tokens[i := Revoked(tokens[i], now)];
            var after := spent + [NewToken(cfg, spent, tokens[i].user, now, Some(i), tokens[i].client, raw)];
            Chains(cfg, after) && DistinctHashes(after)
  {
    var spent := tokens[i := Revoked(tokens[i], now)];
    RevocationKeepsChains(cfg, tokens, spent);
    var token := NewToken(cfg, spent, tokens[i].user, now, Some(i), tokens[i].client, raw);
    var after := spent + [token];
    assert TokenShape(cfg, tokens, i) && TokenShape(cfg, spent, i);
    assert after[|spent|] == token && after[i] == spent[i];
    assert LinkedToParent(cfg, after, |spent|);
    forall k | 0 <= k < |after| ensures TokenShape(cfg, after, k) {
      if k < |spent| {
        assert TokenShape(cfg, spent, k);
        if after[k].parent.Some? { assert LinkedToParent(cfg, after, k); }
      }
    }
  }

  // ----- users and the event log -------------------------------------------

  /** A live token's owner may log in, though rotation never looks at the owner. */
  ghost predicate OwnersActive(s: State) {
    && (forall i :: 0 <= i < |s.tokens| ==>
          && s.tokens[i].user < |s.users|
          && (!s.tokens[i].revoked ==> s.users[s.tokens[i].user].status == Active))
    && (forall u :: 0 <= u < |s.users| ==> s.users[u].isActive || s.users[u].status == Suspended)
  }

  /** The failures after which the account is locked. */
  function Limit(cfg: Settings): (n: nat)
    ensures n >= 1 && n >= cfg.maxFailed
  {
    if cfg.maxFailed > 1 then cfg.maxFailed else 1
  }

  ghost predicate CounterShape(cfg: Settings, user: User) {
    user.failed <= Limit(cfg) && (user.failed == Limit(cfg) <==> user.lockedUntil.Some?)
  }

  /** Time of the user's last event of the given kind. */
  function LastAt(events: seq<Event>, kind: Kind, user: nat): Option<int> {
    if events == [] then None
    else
      var last := events[|events| - 1];
      if last.kind == kind && last.user == user then Some(last.at)
      else LastAt(events[..|events| - 1], kind, user)
  }

  lemma LastAtAppend(events: seq<Event>, event: Event, kind: Kind, user: nat)
    ensures LastAt(events + [event], kind, user) ==
            if event.kind == kind && event.user == user then Some(event.at) else LastAt(events, kind, user)
  {
    assert (events + [event])[..|events|] == events;
  }

  lemma {:induction false} NoEventsYet(events: seq<Event>, kind: Kind, user: nat)
    requires forall i :: 0 <= i < |events| ==> events[i].user != user
    ensures LastAt(events, kind, user).None?
  {
    if events != [] { NoEventsYet(events[..|events| - 1], kind, user); }
  }

  /** The lock and the login stamp of a user are what the event log last said. */
  ghost predicate LoggedUser(cfg: Settings, s: State, u: nat)
    requires u < |s.users|
  {
    && s.users[u].lastLogin == LastAt(s.events, LoginEvent, u)
    && (s.users[u].lockedUntil.Some? ==>
          LastAt(s.events, LockoutEvent, u) == Some(s.users[u].lockedUntil.value - cfg.lockout))
  }

  ghost predicate UsersLogged(cfg: Settings, s: State) {
    && (forall i :: 0 <= i < |s.events| ==> s.events[i].user < |s.users|)
    && (forall u :: 0 <= u < |s.users| ==> CounterShape(cfg, s.users[u]) && LoggedUser(cfg, s, u))
    && (forall u, v :: 0 <= u < v < |s.users| ==> s.users[u].username != s.users[v].username)
  }

  /** Owner and device of each family, in the order the families began. */
  function FamilyOwners(tokens: seq<Token>): seq<(nat, Client)> {
    if tokens == [] then []
    else
      var last := tokens[|tokens| - 1];
      FamilyOwners(tokens[..|tokens| - 1]) + if last.parent.None? then [(last.user, last.client)] else []
  }

  /** User and device of each LOGIN event, in log order. */
  function LoginOwners(events: seq<Event>): seq<(nat, Client)> {
    if events == [] then []
    else
      var last := events[|events| - 1];
      LoginOwners(events[..|events| - 1]) + if last.kind.LoginEvent? then [(last.user, last.client)] else []
  }

  lemma FamilyOwnersAppend(tokens: seq<Token>, token: Token)
    ensures FamilyOwners(tokens + [token]) ==
            FamilyOwners(tokens) + if token.parent.None? then [(token.user, token.client)] else []
  {
    assert (tokens + [token])[..|tokens|] == tokens;
  }

  lemma LoginOwnersAppend(events: seq<Event>, event: Event)
    ensures LoginOwners(events + [event]) ==
            LoginOwners(events) + if event.kind.LoginEvent? then [(event.user, event.client)] else []
  {
    assert (events + [event])[..|events|] == events;
  }

  lemma {:induction false} RevocationKeepsOwners(before: seq<Token>, after: seq<Token>)
    requires OnlyRevokes(before, after)
    ensures FamilyOwners(after) == FamilyOwners(before)
  {
    if before != [] {
      RevocationKeepsOwners(before[..|before| - 1], after[..|before| - 1]);
    }
  }

  // ----- the joint invariant -----------------------------------------------

  ghost predicate Inv(cfg: Settings, s: State) {
    && Chains(cfg, s.tokens)
    && DistinctHashes(s.tokens)
    && OwnersActive(s)
    && UsersLogged(cfg, s)
    && FamilyOwners(s.tokens) == LoginOwners(s.events)
  }

  /** A step that revokes tokens and logs nothing. */
  lemma RevocationKeeps(cfg: Settings, s: State, after: State)
    requires Inv(cfg, s) && OnlyRevokes(s.tokens, after.tokens)
    requires after.users == s.users && after.events == s.events
    ensures Inv(cfg, after)
  {
    RevocationKeepsChains(cfg, s.tokens, after.tokens);
    RevocationKeepsOwners(s.tokens, after.tokens);
    forall u | 0 <= u < |s.users| ensures LoggedUser(cfg, after, u) {
      assert LoggedUser(cfg, s, u);
    }
  }

  lemma RotatedKeeps(cfg: Settings, s: State, i: nat, now: int, newRaw: string, after: State)
    requires Inv(cfg, s)
    requires i < |s.tokens| && !s.tokens[i].revoked && now < s.tokens[i].expires
    requires FindByHash(s.tokens, cfg.hash(newRaw)).None?
    requires after.users == s.users && after.events == s.events
    requires var spent := s.tokens[i := Revoked(s.tokens[i], now)];
             after.tokens == spent + [NewToken(cfg, spent, s.tokens[i].user, now, Some(i), s.tokens[i].client, newRaw)]
    ensures Inv(cfg, after)
  {
    var spent := s.tokens[i := Revoked(s.tokens[i], now)];
    RotationKeepsChains(cfg, s.tokens, i, now, newRaw);
    RevocationKeepsOwners(s.tokens, spent);
    FamilyOwnersAppend(spent, after.tokens[|spent|]);
    forall u | 0 <= u < |s.users| ensures LoggedUser(cfg, after, u) {
      assert LoggedUser(cfg, s, u);
    }
  }

  /** Appending an event that is neither a login nor a lockout disturbs nothing. */
  lemma EventKeepsLog(cfg: Settings, s: State, after: State)
    requires UsersLogged(cfg, s) && after.users == s.users
    requires |after.events| == |s.events| + 1 && after.events[..|s.events|] == s.events
    requires var e := after.events[|s.events|]; e.user < |s.users| && (e.kind.LogoutEvent? || e.kind.TokenReuseEvent?)
    ensures UsersLogged(cfg, after)
    ensures LoginOwners(after.events) == LoginOwners(s.events)
  {
    var e := after.events[|s.events|];
    assert after.events == s.events + [e];
    LoginOwnersAppend(s.events, e);
    forall u | 0 <= u < |s.users| ensures LoggedUser(cfg, after, u) && CounterShape(cfg, after.users[u]) {
      assert LoggedUser(cfg, s, u) && CounterShape(cfg, s.users[u]);
      LastAtAppend(s.events, e, LoginEvent, u);
      LastAtAppend(s.events, e, LockoutEvent, u);
    }
  }

  lemma FamilyRevocation(tokens: seq<Token>, family: nat, now: int)
    ensures OnlyRevokes(tokens, RevokeFamily(tokens, family, now))
  {
  }

  lemma UserRevocation(tokens: seq<Token>, user: nat, now: int)
    ensures OnlyRevokes(tokens, RevokeUser(tokens, user, now))
  {
  }

  /** Revoking tokens and logging it as a logout or a reuse. */
  lemma LoggedRevocationKeeps(cfg: Settings, s: State, tokens: seq<Token>, event: Event)
    requires Inv(cfg, s) && OnlyRevokes(s.tokens, tokens)
    requires event.user < |s.users| && (event.kind.LogoutEvent? || event.kind.TokenReuseEvent?)
    ensures Inv(cfg, s.(tokens := tokens, events := s.events + [event]))
  {
    var revoked := s.(tokens := tokens);
    RevocationKeeps(cfg, s, revoked);
    EventKeepsLog(cfg, revoked, s.(tokens := tokens, events := s.events + [event]));
  }

  lemma RefreshKeeps(cfg: Settings, s: State, raw: string, now: int, newRaw: string)
    requires Inv(cfg, s)
    ensures Inv(cfg, RefreshStep(cfg, s, raw, now, newRaw).0)
  {
    var found := FindByHash(s.tokens, cfg.hash(raw));
    if found.Some? {
      var i, current := found.value, s.tokens[found.value];
      assert current.user < |s.users|;
      if current.revoked {
        FamilyRevocation(s.tokens, current.family, now);
        LoggedRevocationKeeps(cfg, s, RevokeFamily(s.tokens, current.family, now),
                              Event(TokenReuseEvent, current.user, current.client, now));
      } else if current.expires <= now {
        RevocationKeeps(cfg, s, s.(tokens := s.tokens[i := Revoked(current, now)]));
      } else if FindByHash(s.tokens, cfg.hash(newRaw)).None? {
        RotatedKeeps(cfg, s, i, now, newRaw, RefreshStep(cfg, s, raw, now, newRaw).0);
      }
    }
  }

  lemma LogoutKeeps(cfg: Settings, s: State, raw: string, client: Client, now: int, loggedAt: int)
    requires Inv(cfg, s)
    ensures Inv(cfg, LogoutStep(cfg, s, raw, client, now, loggedAt).0)
  {
    var found := FindByHash(s.tokens, cfg.hash(raw));
    if found.Some? && !s.tokens[found.value].revoked {
      var token := s.tokens[found.value];
      LoggedRevocationKeeps(cfg, s, s.tokens[found.value := Revoked(token, now)],
                            Event(LogoutEvent, token.user, client, loggedAt));
    }
  }

  /** A login or lockout event appended together with the matching user row. */
  lemma StampKeepsLog(cfg: Settings, s: State, after: State, u: nat, event: Event)
    requires UsersLogged(cfg, s) && u < |s.users|
    requires event.user == u && (event.kind.LoginEvent? || event.kind.LockoutEvent?)
    requires after.events == s.events + [event]
    requires |after.users| == |s.users| && after.users == s.users[u := after.users[u]]
    requires after.users[u].username == s.users[u].username
    requires CounterShape(cfg, after.users[u])
    requires event.kind.LoginEvent? ==> after.users[u].lastLogin == Some(event.at) && after.users[u].lockedUntil.None?
    requires event.kind.LockoutEvent? ==>
      after.users[u].lastLogin == s.users[u].lastLogin && after.users[u].lockedUntil == Some(event.at + cfg.lockout)
    ensures UsersLogged(cfg, after)
  {
    forall v | 0 <= v < |s.users| ensures LoggedUser(cfg, after, v) && CounterShape(cfg, after.users[v]) {
      assert LoggedUser(cfg, s, v) && CounterShape(cfg, s.users[v]);
      LastAtAppend(s.events, event, LoginEvent, v);
      LastAtAppend(s.events, event, LockoutEvent, v);
    }
  }

  lemma FailedLoginKeeps(cfg: Settings, s: State, u: nat, client: Client, now: int)
    requires Inv(cfg, s) && u < |s.users|
    ensures Inv(cfg, FailedLogin(cfg, s, u, client, now).0)
  {
    var (after, r) := FailedLogin(cfg, s, u, client, now);
    assert CounterShape(cfg, s.users[u]);
    if r.AccountLocked? {
      var event := Event(LockoutEvent, u, client, now);
      StampKeepsLog(cfg, s, after, u, event);
      LoginOwnersAppend(s.events, event);
    } else if after != s {
      UserRowKeepsLog(cfg, s, after, u);
    }
  }

  /** Rewriting a user row without a new lock or login stamp. */
  lemma UserRowKeepsLog(cfg: Settings, s: State, after: State, u: nat)
    requires UsersLogged(cfg, s) && u < |s.users| && after.events == s.events
    requires |after.users| == |s.users| && after.users == s.users[u := after.users[u]]
    requires after.users[u].username == s.users[u].username
    requires after.users[u].lastLogin == s.users[u].lastLogin
    requires CounterShape(cfg, after.users[u])
    requires after.users[u].lockedUntil.None? || after.users[u].lockedUntil == s.users[u].lockedUntil
    ensures UsersLogged(cfg, after)
  {
    forall v | 0 <= v < |s.users| ensures LoggedUser(cfg, after, v) && CounterShape(cfg, after.users[v]) {
      assert LoggedUser(cfg, s, v) && CounterShape(cfg, s.users[v]);
    }
  }

  lemma LoggedInKeeps(cfg: Settings, s: State, u: nat, client: Client, now: int, issuedAt: int, newRaw: string)
    requires Inv(cfg, s) && u < |s.users| && s.users[u].isActive && s.users[u].status == Active
    requires FindByHash(s.tokens, cfg.hash(newRaw)).None?
    ensures var token := NewToken(cfg, s.tokens, u, issuedAt, None, client, newRaw);
            var user := s.users[u].(failed := 0, lockedUntil := None, lastLogin := Some(now));
            Inv(cfg, State(s.users[u := user], s.tokens + [token], s.events + [Event(LoginEvent, u, client, now)]))
  {
    var token := NewToken(cfg, s.tokens, u, issuedAt, None, client, newRaw);
    var user := s.users[u].(failed := 0, lockedUntil := None, lastLogin := Some(now));
    var event := Event(LoginEvent, u, client, now);
    NewFamilyKeepsChains(cfg, s.tokens, token);
    FamilyOwnersAppend(s.tokens, token);
    LoginOwnersAppend(s.events, event);
    StampKeepsLog(cfg, s, State(s.users[u := user], s.tokens + [token], s.events + [event]), u, event);
  }

  lemma LoginKeeps(cfg: Settings, s: State, email: string, password: string, client: Client,
                   now: int, issuedAt: int, newRaw: string)
    requires Inv(cfg, s)
    ensures Inv(cfg, LoginStep(cfg, s, email, password, client, now, issuedAt, newRaw).0)
  {
    var (after, r) := LoginStep(cfg, s, email, password, client, now, issuedAt, newRaw);
    var found := FindByEmail(cfg, s.users, email);
    if r.LoggedIn? {
      LoggedInKeeps(cfg, s, found.value, client, now, issuedAt, newRaw);
    } else if found.Some? && password != s.users[found.value].password {
      FailedLoginKeeps(cfg, s, found.value, client, now);
    }
  }

  lemma CreateKeeps(cfg: Settings, s: State, user: User)
    requires Inv(cfg, s)
    requires user.failed == 0 && user.lockedUntil.None? && user.lastLogin.None? && user.isActive
    ensures Inv(cfg, CreateStep(s, user).0)
  {
    var after := CreateStep(s, user).0;
    if after != s {
      NoEventsYet(s.events, LoginEvent, |s.users|);
      forall v | 0 <= v < |after.users| ensures LoggedUser(cfg, after, v) && CounterShape(cfg, after.users[v]) {
        if v < |s.users| { assert LoggedUser(cfg, s, v) && CounterShape(cfg, s.users[v]); }
      }
    }
  }

  /** Replacing a user row, and revoking that user's tokens unless the row stays active. */
  lemma UserChangeKeeps(cfg: Settings, s: State, id: nat, user: User, tokens: seq<Token>)
    requires Inv(cfg, s) && id < |s.users| && OnlyRevokes(s.tokens, tokens)
    requires CounterShape(cfg, user) && user.username == s.users[id].username && user.lastLogin == s.users[id].lastLogin
    requires user.lockedUntil.None? || user.lockedUntil == s.users[id].lockedUntil
    requires user.isActive || user.status == Suspended
    requires user.status == s.users[id].status || user.status == Active ||
             forall i :: 0 <= i < |tokens| && tokens[i].user == id ==> tokens[i].revoked
    ensures Inv(cfg, s.(users := s.users[id := user], tokens := tokens))
  {
    RevocationKeepsChains(cfg, s.tokens, tokens);
    RevocationKeepsOwners(s.tokens, tokens);
    UserRowKeepsLog(cfg, s, s.(users := s.users[id := user], tokens := tokens), id);
  }

  lemma AdminKeeps(cfg: Settings, s: State, op: Op)
    requires Inv(cfg, s) && (op.UpdateUser? || op.Deactivate? || op.SetStatus?)
    ensures Inv(cfg, Step(cfg, s, op).0)
  {
    var (after, r) := Step(cfg, s, op);
    if r.Saved? {
      assert CounterShape(cfg, s.users[op.id]);
      if !op.UpdateUser? { UserRevocation(s.tokens, op.id, op.now); }
      UserChangeKeeps(cfg, s, op.id, after.users[op.id], after.tokens);
    }
  }

  lemma StepKeeps(cfg: Settings, s: State, op: Op)
    requires Inv(cfg, s)
    ensures Inv(cfg, Step(cfg, s, op).0)
  {
    match op
    case Login(email, password, client, now, issuedAt, newRaw) =>
      LoginKeeps(cfg, s, email, password, client, now, issuedAt, newRaw);
    case Refresh(raw, now, newRaw) => RefreshKeeps(cfg, s, raw, now, newRaw);
    case Logout(raw, client, now, loggedAt) => LogoutKeeps(cfg, s, raw, client, now, loggedAt);
    case CreateUser(username, email, password, profile) =>
      CreateKeeps(cfg, s, NewUser(username, email, password, Active, profile));
    case SignUp(username, email, password) =>
      CreateKeeps(cfg, s, NewUser(username, email, password, Invited, map["role" := "VIEWER"]));
    case UpdateUser(_, _) => AdminKeeps(cfg, s, op);
    case Deactivate(_, _, _) => AdminKeeps(cfg, s, op);
    case SetStatus(_, _, _, _) => AdminKeeps(cfg, s, op);
  }

  lemma {:induction false} RunKeeps(cfg: Settings, s: State, ops: seq<Op>)
    requires Inv(cfg, s)
    ensures Inv(cfg, Run(cfg, s, ops))
    decreases |ops|
  {
    if ops != [] {
      StepKeeps(cfg, s, ops[0]);
      RunKeeps(cfg, Step(cfg, s, ops[0]).0, ops[1..]);
    }
  }
}
