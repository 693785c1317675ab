/**
 * Pending registrations: a cache of records with deadlines, the codes mailed
 * out, and the accounts that exist.  Time is counted in microseconds, so the
 * truncation of a remaining lifetime to whole seconds matters.
 */
module SignupModel {
  import opened Common

  const SECOND: int := 1_000_000

  /** Settings; normalising an address and hashing a code or a password are arbitrary functions. */
  datatype Settings = Settings(
    ttl: int,
    cooldown: int,
    maxAttempts: int,
    maxResends: int,
    normalise: string -> string,
    hashOtp: string -> string,
    hashPassword: string -> string)

  datatype Record = Record(
    username: string,
    email: string,
    passwordHash: string,
    otpHash: string,
    attempts: int,
    resends: int,
    createdAt: int,
    lastSentAt: int,
    expiresAt: int)

  /** A cached record, readable strictly before its deadline. */
  datatype Entry = Entry(record: Record, deadline: int)

  datatype Mail = Mail(email: string, username: string, otp: string, at: int)

  datatype Account = Account(username: string, email: string, passwordHash: string)

  datatype State = State(cache: map<string, Entry>, mails: seq<Mail>, accounts: seq<Account>)

  const EMPTY := State(map[], [], [])

  /** One call, with the clock reading and the code it draws; `Provision` is an account
      created by an administrator meanwhile. */
  datatype Op =
    | Start(username: string, email: string, password: string, otp: string, now: int)
    | Verify(email: string, otp: string, now: int)
    | Resend(email: string, otp: string, now: int)
    | Provision(account: Account)

  datatype Outcome =
    | Started(expiresIn: int, resendIn: int)
    | Verified(account: nat)
    | NotFound
    | InvalidOtp
    | TooManyAttempts
    | Throttled(retryAfter: int)
    | ResendsExhausted
    | UsernameTaken
    | Provisioned

  /** Conversion of a duration to whole seconds, toward zero. */
  function WholeSeconds(duration: int): int {
    if duration >= 0 then duration / SECOND else -((-duration) / SECOND)
  }

  /** The cache timeout of a record: at least one second. */
  function Timeout(record: Record, now: int): int {
    var seconds := WholeSeconds(record.expiresAt - now);
    if seconds < 1 then 1 else seconds
  }

  function Stored(cache: map<string, Entry>, record: Record, now: int): map<string, Entry> {
    cache[record.email := Entry(record, now + Timeout(record, now) * SECOND)]
  }

  function Lookup(cache: map<string, Entry>, email: string, now: int): Option<Record> {
    if email in cache && now < cache[email].deadline then Some(cache[email].record) else None
  }

  predicate UsernameUsed(accounts: seq<Account>, username: string) {
    exists i :: 0 <= i < |accounts| && accounts[i].username == username
  }

  function StartedAnswer(cfg: Settings): Outcome {
    Started(WholeSeconds(cfg.ttl), WholeSeconds(cfg.cooldown))
  }

  function NewRecord(cfg: Settings, op: Op): Record
    requires op.Start?
  {
    Record(op.username, cfg.normalise(op.email), cfg.hashPassword(op.password), cfg.hashOtp(op.otp),
           0, 0, op.now, op.now, op.now + cfg.ttl)
  }

  function StartStep(cfg: Settings, s: State, op: Op): (State, Outcome)
    requires op.Start?
  {
    var record := NewRecord(cfg, op);
    (State(Stored(s.cache, record, op.now),
           s.mails + [Mail(record.email, record.username, op.otp, op.now)],
           s.accounts),
     StartedAnswer(cfg))
  }

  function VerifyStep(cfg: Settings, s: State, op: Op): (State, Outcome)
    requires op.Verify?
  {
    var email := cfg.normalise(op.email);
    match Lookup(s.cache, email, op.now)
    case None => (s, NotFound)
    case Some(record) =>
      var dropped := s.(cache := s.cache - {email});
      if record.attempts >= cfg.maxAttempts then (dropped, TooManyAttempts)
      else if record.otpHash != cfg.hashOtp(op.otp) then
        var counted := record.(attempts := record.attempts + 1);
        if counted.attempts >= cfg.maxAttempts then (dropped, TooManyAttempts)
        else (s.(cache := Stored(s.cache, counted, op.now)), InvalidOtp)
      else if UsernameUsed(s.accounts, record.username) then (dropped, UsernameTaken)
      else
        (dropped.(accounts := s.accounts + [Account(record.username, record.email, record.passwordHash)]),
         Verified(|s.accounts|))
  }

  function ResendStep(cfg: Settings, s: State, op: Op): (State, Outcome)
    requires op.Resend?
  {
    match Lookup(s.cache, cfg.normalise(op.email), op.now)
    case None => (s, NotFound)
    case Some(record) =>
      var elapsed := op.now - record.lastSentAt;
      if elapsed < cfg.cooldown then (s, Throttled(WholeSeconds(cfg.cooldown - elapsed)))
      else if record.resends >= cfg.maxResends then (s, ResendsExhausted)
      else
        var renewed := record.(otpHash := cfg.hashOtp(op.otp), attempts := 0, resends := record.resends + 1,
                               lastSentAt := op.now, expiresAt := op.now + cfg.ttl);
        (s.(cache := Stored(s.cache, renewed, op.now),
            mails := s.mails + [Mail(renewed.email, renewed.username, op.otp, op.now)]),
         StartedAnswer(cfg))
  }

  function Step(cfg: Settings, s: State, op: Op): (State, Outcome) {
    match op
    case Start(_, _, _, _, _) => StartStep(cfg, s, op)
    case Verify(_, _, _) => VerifyStep(cfg, s, op)
    case Resend(_, _, _) => ResendStep(cfg, s, op)
    case Provision(account) =>
      if UsernameUsed(s.accounts, account.username) then (s, UsernameTaken)
      else (s.(accounts := s.accounts + [account]), Provisioned)
  }

  function Run(cfg: Settings, s: State, ops: seq<Op>): State
    decreases |ops|
  {
    if ops == [] then s else Run(cfg, Step(cfg, s, ops[0]).0, ops[1..])
  }
}
