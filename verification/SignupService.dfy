/** The sign-up service over its cache: one method per public call. */
module SignupService {
  import opened Common
  import opened SignupModel

  class Service {
    const cfg: Settings
    var cache: map<string, Entry>
    var mails: seq<Mail>
    var accounts: seq<Account>

    ghost function Contents(): State
      reads this
    {
      State(cache, mails, accounts)
    }

    /** A record is cached under its own address. */
    ghost predicate Valid()
      reads this
    {
      forall key :: key in cache ==> cache[key].record.email == key
    }

    constructor (cfg: Settings)
      ensures Valid() && this.cfg == cfg && Contents() == EMPTY
    {
      this.cfg := cfg;
      cache, mails, accounts := map[], [], [];
    }

    /** Cache the record until its expiry, in whole seconds but for at least one. */
    method Store(record: Record, now: int)
      modifies this`cache
      ensures cache == Stored(old(cache), record, now)
    {
      var timeout := WholeSeconds(record.expiresAt - now);
      if timeout < 1 {
        timeout := 1;
      }
      cache := cache[record.email := Entry(record, now + timeout * SECOND)];
    }

    method Deliver(record: Record, otp: string, now: int)
      modifies this`mails
      ensures mails == old(mails) + [Mail(record.email, record.username, otp, now)]
    {
      mails := mails + [Mail(record.email, record.username, otp, now)];
    }

    method Start(username: string, email: string, password: string, otp: string, now: int) returns (r: Outcome)
      requires Valid()
      modifies this
      ensures Valid()
      ensures (Contents(), r) == StartStep(cfg, old(Contents()), Op.Start(username, email, password, otp, now))
    {
      var key := cfg.normalise(email);
      var expiresAt := now + cfg.ttl;
      var record := Record(username, key, cfg.hashPassword(password), cfg.hashOtp(otp), 0, 0, now, now, expiresAt);
      Store(record, now);
      Deliver(record, otp, now);
      r := Started(WholeSeconds(cfg.ttl), WholeSeconds(cfg.cooldown));
    }

    method Verify(email: string, otp: string, now: int) returns (r: Outcome)
      requires Valid()
      modifies this
      ensures Valid()
      ensures (Contents(), r) == VerifyStep(cfg, old(Contents()), Op.Verify(email, otp, now))
    {
      var key := cfg.normalise(email);
      var cached := Lookup(cache, key, now);
      if cached.None? {
        return NotFound;
      }
      var record := cached.value;
      if record.attempts >= cfg.maxAttempts {
        cache := cache - {key};
        return TooManyAttempts;
      }
      if record.otpHash != cfg.hashOtp(otp) {
        record := record.(attempts := record.attempts + 1);
        if record.attempts >= cfg.maxAttempts {
          cache := cache - {key};
          return TooManyAttempts;
        }
        Store(record, now);
        return InvalidOtp;
      }
      r := Persist(record);
      if r.Verified? {
        cache := cache - {key};
      }
    }

    /** Create the account, or give up on the registration when the username is taken. */
    method Persist(record: Record) returns (r: Outcome)
      modifies this`cache, this`accounts
      ensures old(UsernameUsed(accounts, record.username)) ==>
        r == UsernameTaken && accounts == old(accounts) && cache == old(cache) - {record.email}
      ensures !old(UsernameUsed(accounts, record.username)) ==>
        && r == Verified(|old(accounts)|)
        && accounts == old(accounts) + [Account(record.username, record.email, record.passwordHash)]
        && cache == old(cache)
    {
      if UsernameUsed(accounts, record.username) {
        cache := cache - {record.email};
        return UsernameTaken;
      }
      r := Verified(|accounts|);
      accounts := accounts + [Account(record.username, record.email, record.passwordHash)];
    }

    method Resend(email: string, otp: string, now: int) returns (r: Outcome)
      requires Valid()
      modifies this
      ensures Valid()
      ensures (Contents(), r) == ResendStep(cfg, old(Contents()), Op.Resend(email, otp, now))
    {
      var cached := Lookup(cache, cfg.normalise(email), now);
      if cached.None? {
        return NotFound;
      }
      var record := cached.value;
      var elapsed := now - record.lastSentAt;
      if elapsed < cfg.cooldown {
        return Throttled(WholeSeconds(cfg.cooldown - elapsed));
      }
      if record.resends >= cfg.maxResends {
        return ResendsExhausted;
      }
      record := record.(otpHash := cfg.hashOtp(otp));
      record := record.(attempts := 0);
      record := record.(resends := record.resends + 1);
      record := record.(lastSentAt := now);
      record := record.(expiresAt := now + cfg.ttl);
      Store(record, now);
      Deliver(record, otp, now);
      r := Started(WholeSeconds(cfg.ttl), WholeSeconds(cfg.cooldown));
    }
  }
}
