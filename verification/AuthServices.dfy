/**
 * The three services over one shared store.  Every method is one database
 * transaction: it changes rows one by one, rolls back when an insert breaks the
 * unique token hash, and otherwise commits before it reports an error.
 */
module AuthServices {
  import opened Common
  import opened AuthModel

  predicate Live(token: Token) {
    !token.revoked
  }

  /** Revoking exactly the live rows that meet a condition lowers the live count by their number. */
  lemma {:induction false} LiveCountFalls(before: seq<Token>, after: seq<Token>, p: Token -> bool)
    requires |before| == |after|
    requires forall i :: 0 <= i < |before| ==> p(before[i]) ==> Live(before[i])
    requires forall i :: 0 <= i < |before| ==> (Live(after[i]) <==> Live(before[i]) && !p(before[i]))
    ensures Count(after, Live) + Count(before, p) == Count(before, Live)
  {
    if before != [] {
      var last := |before| - 1;
      LiveCountFalls(before[..last], after[..last], p);
    }
  }

  /** The tables, with the repository operations the services use. */
  class AuthStore {
    var users: seq<User>
    var tokens: seq<Token>
    var events: seq<Event>

    ghost function Contents(): State
      reads this
    {
      State(users, tokens, events)
    }

    constructor ()
      ensures Contents() == EMPTY
    {
      users, tokens, events := [], [], [];
    }

    /** Savepoint of the enclosing transaction. */
    method Begin() returns (saved: State)
      ensures saved == Contents()
    {
      saved := State(users, tokens, events);
    }

    method Rollback(saved: State)
      modifies this
      ensures Contents() == saved
    {
      users, tokens, events := saved.users, saved.tokens, saved.events;
    }

    method SaveUser(id: nat, user: User)
      requires id < |users|
      modifies this`users
      ensures users == old(users)[id := user]
    {
      users := users[id := user];
    }

    method RevokeToken(id: nat, now: int)
      requires id < |tokens|
      modifies this`tokens
      ensures tokens == old(tokens)[id := Revoked(old(tokens)[id], now)]
    {
      tokens := tokens[id := tokens[id].(revoked := true, rotatedAt := Some(now))];
    }

    /** Afterwards no token of the family is live; answers how many were, and every row that
        was not live in the family, revocation stamps included, is as before. */
    method RevokeTokenFamily(family: nat, now: int) returns (updated: nat)
      modifies this`tokens
      ensures |tokens| == |old(tokens)|
      ensures forall i :: 0 <= i < |tokens| ==>
        var was := old(tokens)[i];
        if was.family == family && !was.revoked then tokens[i] == was.(revoked := true, rotatedAt := Some(now))
        else tokens[i] == was
      ensures forall i :: 0 <= i < |tokens| && tokens[i].family == family ==> tokens[i].revoked
      ensures Count(tokens, Live) == Count(old(tokens), Live) - updated
    {
      var chosen := (token: Token) => token.family == family && !token.revoked;
      updated := Count(tokens, chosen);
      LiveCountFalls(tokens, RevokeFamily(tokens, family, now), chosen);
      tokens := RevokeFamily(tokens, family, now);
    }

    /** The same for all tokens of a user, in whatever family. */
    method RevokeAllForUser(user: nat, now: int) returns (updated: nat)
      modifies this`tokens
      ensures |tokens| == |old(tokens)|
      ensures forall i :: 0 <= i < |tokens| ==>
        var was := old(tokens)[i];
        if was.user == user && !was.revoked then tokens[i] == was.(revoked := true, rotatedAt := Some(now))
        else tokens[i] == was
      ensures forall i :: 0 <= i < |tokens| && tokens[i].user == user ==> tokens[i].revoked
      ensures Count(tokens, Live) == Count(old(tokens), Live) - updated
    {
      var chosen := (token: Token) => token.user == user && !token.revoked;
      updated := Count(tokens, chosen);
      LiveCountFalls(tokens, RevokeUser(tokens, user, now), chosen);
      tokens := RevokeUser(tokens, user, now);
    }

    /** Insert a token unless its hash is already stored. */
    method CreateToken(token: Token) returns (ok: bool)
      modifies this`tokens
      ensures ok == FindByHash(old(tokens), token.hash).None?
      ensures tokens == if ok then old(tokens) + [token] else old(tokens)
    {
      ok := FindByHash(tokens, token.hash).None?;
      if ok {
        tokens := tokens + [token];
      }
    }

    method CreateEvent(kind: Kind, user: nat, client: Client, at: int)
      modifies this`events
      ensures events == old(events) + [Event(kind, user, client, at)]
    {
      events := events + [Event(kind, user, client, at)];
    }
  }

  class RefreshTokenService {
    const cfg: Settings
    const db: AuthStore

    constructor (cfg: Settings, db: AuthStore)
      ensures this.cfg == cfg && this.db == db
    {
      this.cfg, this.db := cfg, db;
    }

    /** Insert the next token of `parent`'s family, or the first of a new one. */
    method IssueToken(user: nat, now: int, parent: Option<nat>, client: Client, raw: string)
      returns (issued: Option<nat>)
      requires parent.Some? ==> parent.value < |db.tokens|
      modifies db`tokens
      ensures issued.Some? <==> FindByHash(old(db.tokens), cfg.hash(raw)).None?
      ensures issued.Some? ==>
        issued.value == |old(db.tokens)| &&
        db.tokens == old(db.tokens) + [NewToken(cfg, old(db.tokens), user, now, parent, client, raw)]
    {
      var hash := cfg.hash(raw);
      var expires := now + cfg.lifetime;
      var family := if parent.Some? then db.tokens[parent.value].family else |db.tokens|;
      var id := |db.tokens|;
      var ok := db.CreateToken(Token(user, hash, family, parent, expires, false, None, client));
      issued := if ok then Some(id) else None;
    }

    method Rotate(raw: string, now: int, newRaw: string) returns (r: Outcome)
      modifies db
      ensures (db.Contents(), r) == RefreshStep(cfg, old(db.Contents()), raw, now, newRaw)
    {
      var saved := db.Begin();
      var found := FindByHash(db.tokens, cfg.hash(raw));
      if found.None? {
        return InvalidRefreshToken;
      }
      var current := db.tokens[found.value];
      if current.revoked {
        var _ := db.RevokeTokenFamily(current.family, now);
        assert db.tokens == RevokeFamily(saved.tokens, current.family, now);
        db.CreateEvent(TokenReuseEvent, current.user, current.client, now);
        r := TokenReuseDetected;
      } else if current.expires <= now {
        db.RevokeToken(found.value, now);
        r := InvalidRefreshToken;
      } else {
        db.RevokeToken(found.value, now);
        assert forall i :: 0 <= i < |db.tokens| ==> db.tokens[i].hash == saved.tokens[i].hash;
        SameHashesSameLookup(saved.tokens, db.tokens, cfg.hash(newRaw));
        var issued := IssueToken(current.user, now, found, current.client, newRaw);
        if issued.None? {
          db.Rollback(saved);
          r := IntegrityError;
        } else {
          r := Rotated(found.value, issued.value);
        }
      }
    }

    /** Revoke one token; answers its owner and whether it was revoked already. */
    method Revoke(raw: string, now: int) returns (r: Option<(nat, bool)>)
      modifies db`tokens
      ensures r.None? <==> FindByHash(old(db.tokens), cfg.hash(raw)).None?
      ensures r.None? ==> db.tokens == old(db.tokens)
      ensures r.Some? ==>
        var i := FindByHash(old(db.tokens), cfg.hash(raw)).value;
        var token := old(db.tokens)[i];
        && r.value == (token.user, token.revoked)
        && db.tokens == if token.revoked then old(db.tokens) else old(db.tokens)[i := Revoked(token, now)]
    {
      var found := FindByHash(db.tokens, cfg.hash(raw));
      if found.None? {
        return None;
      }
      var current := db.tokens[found.value];
      if !current.revoked {
        db.RevokeToken(found.value, now);
      }
      r := Some((current.user, current.revoked));
    }
  }

  lemma {:induction false} SameHashesSameLookup(a: seq<Token>, b: seq<Token>, hash: string)
    requires |a| == |b|
    requires forall i :: 0 <= i < |a| ==> a[i].hash == b[i].hash
    ensures FindByHash(a, hash) == FindByHash(b, hash)
  {
    if a != [] && a[|a| - 1].hash != hash {
      SameHashesSameLookup(a[..|a| - 1], b[..|b| - 1], hash);
    }
  }

  class AuthenticationService {
    const cfg: Settings
    const db: AuthStore
    const refreshTokens: RefreshTokenService

    constructor (cfg: Settings, db: AuthStore)
      ensures Valid() && this.cfg == cfg && this.db == db
    {
      this.cfg, this.db := cfg, db;
      refreshTokens := new RefreshTokenService(cfg, db);
    }

    ghost predicate Valid() {
      refreshTokens.db == db && refreshTokens.cfg == cfg
    }

    method Login(email: string, password: string, client: Client, now: int, issuedAt: int, newRaw: string)
      returns (r: Outcome)
      requires Valid()
      modifies db
      ensures (db.Contents(), r) ==
              LoginStep(cfg, old(db.Contents()), email, password, client, now, issuedAt, newRaw)
    {
      var saved := db.Begin();
      var found := FindByEmail(cfg, db.users, email);
      if found.None? {
        return InvalidCredentials;
      }
      var u := found.value;
      var user := db.users[u];
      var passwordIsValid := user.password == password;
      if user.lockedUntil.Some? && user.lockedUntil.value <= now {
        user := user.(lockedUntil := None, failed := 0);
      }
      if !passwordIsValid {
        r := HandleFailedLogin(u, user, now, client);
      } else if user.lockedUntil.Some? && user.lockedUntil.value > now {
        r := AccountLocked(user.lockedUntil.value);
      } else if !user.isActive || user.status != Active {
        r := AccountInactive;
      } else {
        user := user.(failed := 0, lockedUntil := None, lastLogin := Some(now));
        db.SaveUser(u, user);
        db.CreateEvent(LoginEvent, u, client, now);
        var issued := refreshTokens.IssueToken(u, issuedAt, None, client, newRaw);
        if issued.None? {
          db.Rollback(saved);
          r := IntegrityError;
        } else {
          r := LoggedIn(u, issued.value);
        }
      }
    }

    /** `user` is the row as login holds it, with an expired lock already forgotten. */
    method HandleFailedLogin(u: nat, user: User, now: int, client: Client) returns (r: Outcome)
      requires u < |db.users| && user == Unlocked(db.users[u], now)
      modifies db
      ensures (db.Contents(), r) == FailedLogin(cfg, old(db.Contents()), u, client, now)
    {
      if user.lockedUntil.Some? && user.lockedUntil.value > now {
        return InvalidCredentials;
      }
      var counted := user.(failed := user.failed + 1);
      if counted.failed >= cfg.maxFailed {
        counted := counted.(lockedUntil := Some(now + cfg.lockout));
        db.SaveUser(u, counted);
        db.CreateEvent(LockoutEvent, u, client, now);
        return AccountLocked(now + cfg.lockout);
      }
      db.SaveUser(u, counted);
      r := InvalidCredentials;
    }

    method Refresh(raw: string, now: int, newRaw: string) returns (r: Outcome)
      requires Valid()
      modifies db
      ensures (db.Contents(), r) == RefreshStep(cfg, old(db.Contents()), raw, now, newRaw)
    {
      r := refreshTokens.Rotate(raw, now, newRaw);
    }

    method Logout(raw: string, client: Client, now: int, loggedAt: int) returns (r: Outcome)
      requires Valid()
      modifies db
      ensures (db.Contents(), r) == LogoutStep(cfg, old(db.Contents()), raw, client, now, loggedAt)
    {
      var revoked := refreshTokens.Revoke(raw, now);
      if revoked.None? {
        return LoggedOut(false);
      }
      var (user, wasAlreadyRevoked) := revoked.value;
      if !wasAlreadyRevoked {
        db.CreateEvent(LogoutEvent, user, client, loggedAt);
      }
      r := LoggedOut(true);
    }
  }

  lemma MergedStep(profile: map<string, string>, data: map<string, string>, fields: seq<string>, i: nat)
    requires i < |fields|
    ensures Merged(profile, data, fields[..i + 1]) ==
            if fields[i] in data then Merged(profile, data, fields[..i])[fields[i] := data[fields[i]]]
            else Merged(profile, data, fields[..i])
  {
    assert fields[..i + 1] == fields[..i] + [fields[i]];
  }

  class UserAdminService {
    const db: AuthStore

    constructor (db: AuthStore)
      ensures this.db == db
    {
      this.db := db;
    }

    method CreateUser(username: string, email: string, password: string, profile: map<string, string>)
      returns (r: Outcome)
      modifies db
      ensures (db.Contents(), r) ==
              CreateStep(old(db.Contents()), NewUser(username, email, password, Active, profile))
    {
      if UsernameUsed(db.users, username) {
        return UsernameTaken;
      }
      var id := |db.users|;
      db.users := db.users + [User(username, email, password, Active, true, 0, None, None, profile)];
      r := Saved(id);
    }

    method UpdateUser(id: nat, data: map<string, string>) returns (r: Outcome)
      modifies db
      ensures (db.Contents(), r) == UpdateStep(old(db.Contents()), id, data)
    {
      if id >= |db.users| {
        return UserNotFound;
      }
      var profile := db.users[id].profile;
      ghost var before := profile;
      for i := 0 to |UPDATABLE_FIELDS|
        invariant db.Contents() == old(db.Contents())
        invariant profile == Merged(before, data, UPDATABLE_FIELDS[..i])
      {
        MergedStep(before, data, UPDATABLE_FIELDS, i);
        var field := UPDATABLE_FIELDS[i];
        if field in data {
          profile := profile[field := data[field]];
        }
      }
      assert UPDATABLE_FIELDS[..|UPDATABLE_FIELDS|] == UPDATABLE_FIELDS;
      db.SaveUser(id, db.users[id].(profile := profile));
      r := Saved(id);
    }

    method Deactivate(id: nat, actor: Option<nat>, now: int) returns (r: Outcome)
      modifies db
      ensures (db.Contents(), r) == DeactivateStep(old(db.Contents()), id, actor, now)
    {
      if actor.Some? && actor.value == id {
        return SelfStatusChange;
      }
      if id >= |db.users| {
        return UserNotFound;
      }
      var user := db.users[id].(status := Suspended);
      user := user.(isActive := false);
      var _ := db.RevokeAllForUser(id, now);
      assert db.tokens == RevokeUser(old(db.tokens), id, now);
      db.SaveUser(id, user);
      r := Saved(id);
    }

    method SetStatus(id: nat, newStatus: Status, actor: Option<nat>, now: int) returns (r: Outcome)
      modifies db
      ensures (db.Contents(), r) == SetStatusStep(old(db.Contents()), id, newStatus, actor, now)
    {
      var allowed := map[Active := {Invited, Suspended}, Suspended := {Active, Invited}];
      if newStatus !in allowed {
        return InvalidTransition;
      }
      if actor.Some? && actor.value == id {
        return SelfStatusChange;
      }
      if id >= |db.users| {
        return UserNotFound;
      }
      var user := db.users[id];
      if user.status !in allowed[newStatus] {
        return InvalidTransition;
      }
      user := user.(status := newStatus);
      if newStatus == Active {
        user := user.(isActive := true);
        user := user.(failed := 0);
        user := user.(lockedUntil := None);
      } else if newStatus == Suspended {
        var _ := db.RevokeAllForUser(id, now);
        assert db.tokens == RevokeUser(old(db.tokens), id, now);
      }
      db.SaveUser(id, user);
      r := Saved(id);
    }
  }
}
