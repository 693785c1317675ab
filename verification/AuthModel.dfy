/**
 * The account tables (users, refresh tokens, security events) and what each
 * transaction of the three authentication services does to them.
 *
 * A row's primary key is its position in the table.  A new token family is
 * named by its first token, which makes the generated family id fresh.
 */
module AuthModel {
  import opened Common

  datatype Status = Active | Suspended | Invited

  /** The address and device string stored with tokens and events. */
  datatype Client = Client(ip: Option<string>, agent: string)

  datatype User = User(
    username: string,
    email: string,
    password: string,
    status: Status,
    isActive: bool,
    failed: nat,
    lockedUntil: Option<int>,
    lastLogin: Option<int>,
    profile: map<string, string>)

  datatype Token = Token(
    user: nat,
    hash: string,
    family: nat,
    parent: Option<nat>,
    expires: int,
    revoked: bool,
    rotatedAt: Option<int>,
    client: Client)

  datatype Kind = LoginEvent | LogoutEvent | LockoutEvent | TokenReuseEvent

  datatype Event = Event(kind: Kind, user: nat, client: Client, at: int)

  datatype State = State(users: seq<User>, tokens: seq<Token>, events: seq<Event>)

  const EMPTY := State([], [], [])

  /** Deployment settings; hashing and case folding are arbitrary functions. */
  datatype Settings = Settings(
    maxFailed: int,
    lockout: int,
    lifetime: int,
    hash: string -> string,
    fold: string -> string)

  const UPDATABLE_FIELDS: seq<string> := ["role", "first_name", "last_name", "organization"]

  /** One service call, with the clock readings and random values it draws. */
  datatype Op =
    | Login(email: string, password: string, client: Client, now: int, issuedAt: int, newRaw: string)
    | Refresh(raw: string, now: int, newRaw: string)
    | Logout(raw: string, client: Client, now: int, loggedAt: int)
    | CreateUser(username: string, email: string, password: string, profile: map<string, string>)
    | SignUp(username: string, email: string, password: string)
    | UpdateUser(id: nat, data: map<string, string>)
    | Deactivate(id: nat, actor: Option<nat>, now: int)
    | SetStatus(id: nat, newStatus: Status, actor: Option<nat>, now: int)

  datatype Outcome =
    | LoggedIn(user: nat, token: nat)
    | Rotated(parent: nat, child: nat)
    | LoggedOut(known: bool)
    | Saved(id: nat)
    | InvalidCredentials
    | AccountLocked(until: int)
    | AccountInactive
    | InvalidRefreshToken
    | TokenReuseDetected
    | UsernameTaken
    | UserNotFound
    | InvalidTransition
    | SelfStatusChange
    | IntegrityError

  // ----- lookups -----------------------------------------------------------

  predicate MatchesEmail(cfg: Settings, user: User, email: string) {
    cfg.fold(user.email) == cfg.fold(email)
  }

  /** The lowest-keyed user whose email matches case-insensitively. */
  function FindByEmail(cfg: Settings, users: seq<User>, email: string): (found: Option<nat>)
    ensures found.Some? ==> found.value < |users| && MatchesEmail(cfg, users[found.value], email)
    ensures found.Some? ==> forall i :: 0 <= i < found.value ==> !MatchesEmail(cfg, users[i], email)
    ensures found.None? ==> forall i :: 0 <= i < |users| ==> !MatchesEmail(cfg, users[i], email)
  {
    if users == [] then None
    else
      var last := |users| - 1;
      var earlier := FindByEmail(cfg, users[..last], email);
      if earlier.Some? then earlier
      else if MatchesEmail(cfg, users[last], email) then Some(last)
      else None
  }

  function FindByHash(tokens: seq<Token>, hash: string): (found: Option<nat>)
    ensures found.Some? ==> found.value < |tokens| && tokens[found.value].hash == hash
    ensures found.None? ==> forall i :: 0 <= i < |tokens| ==> tokens[i].hash != hash
  {
    if tokens == [] then None
    else
      var last := |tokens| - 1;
      if tokens[last].hash == hash then Some(last) else FindByHash(tokens[..last], hash)
  }

  predicate UsernameUsed(users: seq<User>, username: string) {
    exists i :: 0 <= i < |users| && users[i].username == username
  }

  // ----- refresh tokens ----------------------------------------------------

  function Revoked(token: Token, now: int): Token {
    token.(revoked := true, rotatedAt := Some(now))
  }

  /** Revoke every unrevoked token of a family; other rows keep their stamps. */
  function RevokeFamily(tokens: seq<Token>, family: nat, now: int): (after: seq<Token>) {
    seq(|tokens|, i requires 0 <= i < |tokens| =>
      if tokens[i].family == family && !tokens[i].revoked then Revoked(tokens[i], now) else tokens[i])
  }

  /** Revoke every unrevoked token of a user. */
  function RevokeUser(tokens: seq<Token>, user: nat, now: int): (after: seq<Token>) {
    seq(|tokens|, i requires 0 <= i < |tokens| =>
      if tokens[i].user == user && !tokens[i].revoked then Revoked(tokens[i], now) else tokens[i])
  }

  /** The row `_issue` would insert: the first of a family, or a child of `parent`. */
  function NewToken(cfg: Settings, tokens: seq<Token>, user: nat, now: int, parent: Option<nat>,
                    client: Client, raw: string): Token
    requires parent.Some? ==> parent.value < |tokens|
  {
    Token(
      user,
      cfg.hash(raw),
      if parent.Some? then tokens[parent.value].family else |tokens|,
      parent,
      now + cfg.lifetime,
      false,
      None,
      client)
  }

  /** Rotation commits its revocations even when the call then fails. */
  function RefreshStep(cfg: Settings, s: State, raw: string, now: int, newRaw: string): (State, Outcome) {
    match FindByHash(s.tokens, cfg.hash(raw))
    case None => (s, InvalidRefreshToken)
    case Some(i) =>
      var current := s.tokens[i];
      if current.revoked then
        (s.(tokens := RevokeFamily(s.tokens, current.family, now),
            events := s.events + [Event(TokenReuseEvent, current.user, current.client, now)]),
         TokenReuseDetected)
      else
        var spent := s.tokens[i := Revoked(current, now)];
        if current.expires <= now then
          (s.(tokens := spent), InvalidRefreshToken)
        else if FindByHash(s.tokens, cfg.hash(newRaw)).Some? then
          (s, IntegrityError)
        else
          (s.(tokens := spent + [NewToken(cfg, spent, current.user, now, Some(i), current.client, newRaw)]),
           Rotated(i, |s.tokens|))
  }

  function LogoutStep(cfg: Settings, s: State, raw: string, client: Client, now: int, loggedAt: int): (State, Outcome) {
    match FindByHash(s.tokens, cfg.hash(raw))
    case None => (s, LoggedOut(false))
    case Some(i) =>
      if s.tokens[i].revoked then (s, LoggedOut(true))
      else
        (s.(tokens := s.tokens[i := Revoked(s.tokens[i], now)],
            events := s.events + [Event(LogoutEvent, s.tokens[i].user, client, loggedAt)]),
         LoggedOut(true))
  }

  // ----- login and lockout -------------------------------------------------

  predicate LockedAt(user: User, now: int) {
    user.lockedUntil.Some? && now < user.lockedUntil.value
  }

  /** The account as `login` sees it in memory: an expired lock is forgotten. */
  function Unlocked(user: User, now: int): User {
    if user.lockedUntil.Some? && !LockedAt(user, now)
    then user.(lockedUntil := None, failed := 0)
    else user
  }

  function FailedLogin(cfg: Settings, s: State, u: nat, client: Client, now: int): (State, Outcome)
    requires u < |s.users|
  {
    var user := Unlocked(s.users[u], now);
    if LockedAt(user, now) then (s, InvalidCredentials)
    else
      var failed := user.failed + 1;
      if failed >= cfg.maxFailed then
        (s.(users := s.users[u := user.(failed := failed, lockedUntil := Some(now + cfg.lockout))],
            events := s.events + [Event(LockoutEvent, u, client, now)]),
         AccountLocked(now + cfg.lockout))
      else
        (s.(users := s.users[u := user.(failed := failed)]), InvalidCredentials)
  }

  /** Failed counters are committed; a lock seen to be expired is forgotten on
      disk only by a counted failure or by a successful login. */
  function LoginStep(cfg: Settings, s: State, email: string, password: string, client: Client,
                     now: int, issuedAt: int, newRaw: string): (State, Outcome)
  {
    match FindByEmail(cfg, s.users, email)
    case None => (s, InvalidCredentials)
    case Some(u) =>
      var user := Unlocked(s.users[u], now);
      if password != user.password then FailedLogin(cfg, s, u, client, now)
      else if LockedAt(user, now) then (s, AccountLocked(user.lockedUntil.value))
      else if !user.isActive || user.status != Active then (s, AccountInactive)
      else if FindByHash(s.tokens, cfg.hash(newRaw)).Some? then (s, IntegrityError)
      else
        (State(
           s.users[u := user.(failed := 0, lockedUntil := None, lastLogin := Some(now))],
           s.tokens + [NewToken(cfg, s.tokens, u, issuedAt, None, client, newRaw)],
           s.events + [Event(LoginEvent, u, client, now)]),
         LoggedIn(u, |s.tokens|))
  }

  // ----- administration ----------------------------------------------------

  function NewUser(username: string, email: string, password: string, status: Status, profile: map<string, string>): User {
    User(username, email, password, status, true, 0, None, None, profile)
  }

  function CreateStep(s: State, user: User): (State, Outcome) {
    if UsernameUsed(s.users, user.username) then (s, UsernameTaken)
    else (s.(users := s.users + [user]), Saved(|s.users|))
  }

  /** Only the listed fields of the request reach the row. */
  function Merged(profile: map<string, string>, data: map<string, string>, fields: seq<string>): map<string, string> {
    profile + (map k | k in data && k in fields :: data[k])
  }

  function UpdateStep(s: State, id: nat, data: map<string, string>): (State, Outcome) {
    if id >= |s.users| then (s, UserNotFound)
    else
      (s.(users := s.users[id := s.users[id].(profile := Merged(s.users[id].profile, data, UPDATABLE_FIELDS))]), Saved(id))
  }

  function DeactivateStep(s: State, id: nat, actor: Option<nat>, now: int): (State, Outcome) {
    if actor == Some(id) then (s, SelfStatusChange)
    else if id >= |s.users| then (s, UserNotFound)
    else
      (s.(users := s.users[id := s.users[id].(status := Suspended, isActive := false)],
          tokens := RevokeUser(s.tokens, id, now)),
       Saved(id))
  }

  /** The statuses from which `target` may be entered; `Invited` is never a target. */
  function AllowedSources(target: Status): set<Status> {
    match target
    case Active => {Invited, Suspended}
    case Suspended => {Active, Invited}
    case Invited => {}
  }

  function SetStatusStep(s: State, id: nat, target: Status, actor: Option<nat>, now: int): (State, Outcome) {
    if AllowedSources(target) == {} then (s, InvalidTransition)
    else if actor == Some(id) then (s, SelfStatusChange)
    else if id >= |s.users| then (s, UserNotFound)
    else if s.users[id].status !in AllowedSources(target) then (s, InvalidTransition)
    else if target == Active then
      (s.(users := s.users[id := s.users[id].(status := Active, isActive := true, failed := 0, lockedUntil := None)]),
       Saved(id))
    else
      (s.(users := s.users[id := s.users[id].(status := target)], tokens := RevokeUser(s.tokens, id, now)),
       Saved(id))
  }

  // ----- runs --------------------------------------------------------------

  function Step(cfg: Settings, s: State, op: Op): (State, Outcome) {
    match op
    case Login(email, password, client, now, issuedAt, newRaw) =>
      LoginStep(cfg, s, email, password, client, now, issuedAt, newRaw)
    case Refresh(raw, now, newRaw) => RefreshStep(cfg, s, raw, now, newRaw)
    case Logout(raw, client, now, loggedAt) => LogoutStep(cfg, s, raw, client, now, loggedAt)
    case CreateUser(username, email, password, profile) =>
      CreateStep(s, NewUser(username, email, password, Active, profile))
    case SignUp(username, email, password) =>
      CreateStep(s, NewUser(username, email, password, Invited, map["role" := "VIEWER"]))
    case UpdateUser(id, data) => UpdateStep(s, id, data)
    case Deactivate(id, actor, now) => DeactivateStep(s, id, actor, now)
    case SetStatus(id, newStatus, actor, now) => SetStatusStep(s, id, newStatus, actor, now)
  }

  /** The state after serving the calls in order. */
  function Run(cfg: Settings, s: State, ops: seq<Op>): State
    decreases |ops|
  {
    if ops == [] then s else Run(cfg, Step(cfg, s, ops[0]).0, ops[1..])
  }

  /** What each call of the run answered. */
  function Outcomes(cfg: Settings, s: State, ops: seq<Op>): (rs: seq<Outcome>)
    ensures |rs| == |ops|
    decreases |ops|
  {
    if ops == [] then []
    else
      var (next, r) := Step(cfg, s, ops[0]);
      [r] + Outcomes(cfg, next, ops[1..])
  }

  /** Every clock reading of the call is at or after `t`, in the order taken. */
  predicate ReadsAfter(op: Op, t: int) {
    match op
    case Login(_, _, _, now, issuedAt, _) => t <= now <= issuedAt
    case Refresh(_, now, _) => t <= now
    case Logout(_, _, now, loggedAt) => t <= now <= loggedAt
    case Deactivate(_, _, now) => t <= now
    case SetStatus(_, _, _, now) => t <= now
    case _ => true
  }

  /** The latest reading of the call, or `t` for a call that reads no clock. */
  function LastReading(op: Op, t: int): int {
    match op
    case Login(_, _, _, _, issuedAt, _) => issuedAt
    case Refresh(_, now, _) => now
    case Logout(_, _, _, loggedAt) => loggedAt
    case Deactivate(_, _, now) => now
    case SetStatus(_, _, _, now) => now
    case _ => t
  }

  /** The clock never goes back during the run, starts at `a` and stays within `b`. */
  predicate ClockedWithin(ops: seq<Op>, a: int, b: int)
    decreases |ops|
  {
    a <= b &&
    (ops != [] ==>
       ReadsAfter(ops[0], a) && ClockedWithin(ops[1..], LastReading(ops[0], a), b))
  }
}
