/**
 * What sign-up calls answer, and what the person signing up may rely on: the
 * code last mailed yields the account asked for, whatever happens to other
 * registrations meanwhile.
 */
module SignupOutcomes {
  import opened Common
  import opened SignupModel
  import opened SignupTheorems

  /** `seconds` is the duration cut to whole seconds, toward zero. */
  predicate Truncates(seconds: int, duration: int) {
    if duration >= 0 then seconds * SECOND <= duration < (seconds + 1) * SECOND
    else (seconds - 1) * SECOND < duration <= seconds * SECOND
  }

  lemma WholeSecondsTruncates(duration: int)
    ensures Truncates(WholeSeconds(duration), duration)
  {
    var d := if duration >= 0 then duration else -duration;
    assert d == d / SECOND * SECOND + d % SECOND;
  }

  /** A start is always answered with the two durations of the settings in whole seconds, lifetime first; it
      mails the code, and the record it leaves has used up no attempt and no resend. */
  lemma StartAnswers(cfg: Settings, s: State, op: Op)
    requires op.Start?
    ensures var (after, r) := Step(cfg, s, op);
            var email := cfg.normalise(op.email);
            && r.Started? && Truncates(r.expiresIn, cfg.ttl) && Truncates(r.resendIn, cfg.cooldown)
            && after.mails == s.mails + [Mail(email, op.username, op.otp, op.now)]
            && after.accounts == s.accounts
            && after.cache.Keys == s.cache.Keys + {email}
            && after.cache[email].record ==
               Record(op.username, email, cfg.hashPassword(op.password), cfg.hashOtp(op.otp), 0, 0, op.now, op.now, op.now + cfg.ttl)
            && after.cache[email].deadline == op.now + (if r.expiresIn >= 1 then r.expiresIn else 1) * SECOND
            && (forall key :: key in s.cache && key != email ==> after.cache[key] == s.cache[key])
  {
    WholeSecondsTruncates(cfg.ttl);
    WholeSecondsTruncates(cfg.cooldown);
  }

  /** Every answer of a resend; a refused one changes nothing, an accepted one replaces the code, forgets the
      wrong attempts, counts the resend and mails the new code. */
  lemma ResendAnswers(cfg: Settings, ops: seq<Op>, op: Op)
    requires op.Resend?
    ensures var s := Run(cfg, EMPTY, ops);
            var (after, r) := Step(cfg, s, op);
            var email := cfg.normalise(op.email);
            && after.accounts == s.accounts
            && (r == NotFound <==> !(email in s.cache && op.now < s.cache[email].deadline))
            && (!r.Started? ==> after == s)
            && (r != NotFound ==>
                  var record := s.cache[email].record;
                  var early := op.now < record.lastSentAt + cfg.cooldown;
                  && (r.Throttled? <==> early)
                  && (r.Throttled? ==> Truncates(r.retryAfter, record.lastSentAt + cfg.cooldown - op.now))
                  && (r == ResendsExhausted <==> !early && record.resends >= cfg.maxResends)
                  && (r.Started? <==> !early && record.resends < cfg.maxResends)
                  && (r.Started? ==>
                        && Truncates(r.expiresIn, cfg.ttl) && Truncates(r.resendIn, cfg.cooldown)
                        && after.mails == s.mails + [Mail(email, record.username, op.otp, op.now)]
                        && after.cache.Keys == s.cache.Keys
                        && (forall key :: key in s.cache && key != email ==> after.cache[key] == s.cache[key])
                        && after.cache[email].record ==
                           record.(otpHash := cfg.hashOtp(op.otp), attempts := 0, resends := record.resends + 1,
                                   lastSentAt := op.now, expiresAt := op.now + cfg.ttl)
                        && after.cache[email].deadline ==
                           op.now + (if r.expiresIn >= 1 then r.expiresIn else 1) * SECOND))
  {
    var s := Run(cfg, EMPTY, ops);
    RunKeeps(cfg, EMPTY, ops);
    WholeSecondsTruncates(cfg.ttl);
    WholeSecondsTruncates(cfg.cooldown);
    if cfg.normalise(op.email) in s.cache {
      assert EntryOk(cfg, s, cfg.normalise(op.email));
      WholeSecondsTruncates(s.cache[cfg.normalise(op.email)].record.lastSentAt + cfg.cooldown - op.now);
    }
  }

  /** No call of the run names the address. */
  predicate LeavesAlone(cfg: Settings, ops: seq<Op>, email: string) {
    forall k :: 0 <= k < |ops| ==> ops[k].Provision? || cfg.normalise(ops[k].email) != email
  }

  lemma StepLeavesEntry(cfg: Settings, s: State, op: Op, email: string)
    requires Inv(cfg, s) && email in s.cache && LeavesAlone(cfg, [op], email)
    ensures email in Step(cfg, s, op).0.cache && Step(cfg, s, op).0.cache[email] == s.cache[email]
  {
    assert [op][0] == op;
    if !op.Provision? && cfg.normalise(op.email) in s.cache { assert EntryOk(cfg, s, cfg.normalise(op.email)); }
  }

  /** Calls about other addresses never touch a registration. */
  lemma {:induction false} RegistrationStands(cfg: Settings, s: State, ops: seq<Op>, email: string)
    requires Inv(cfg, s) && email in s.cache && LeavesAlone(cfg, ops, email)
    ensures email in Run(cfg, s, ops).cache && Run(cfg, s, ops).cache[email] == s.cache[email]
    decreases |ops|
  {
    if ops != [] {
      assert [ops[0]][0] == ops[0];
      StepKeeps(cfg, s, ops[0]);
      StepLeavesEntry(cfg, s, ops[0], email);
      RegistrationStands(cfg, Step(cfg, s, ops[0]).0, ops[1..], email);
    }
  }

  /** Signing up works: after a start, in whatever run of calls about other addresses, the code mailed gets
      the account asked for exactly when it comes before the advertised life is over (a second at least),
      attempts are allowed at all, and nobody took the username. */
  lemma StartThenVerify(cfg: Settings, earlier: seq<Op>, start: Op, others: seq<Op>, op: Op)
    requires start.Start? && op.Verify? && op.otp == start.otp
    requires cfg.normalise(op.email) == cfg.normalise(start.email)
    requires LeavesAlone(cfg, others, cfg.normalise(start.email))
    ensures var (started, r) := Step(cfg, Run(cfg, EMPTY, earlier), start);
            var s := Run(cfg, started, others);
            var (after, answer) := Step(cfg, s, op);
            && r.Started?
            && (answer.Verified? <==>
                  && op.now < start.now + (if r.expiresIn >= 1 then r.expiresIn else 1) * SECOND
                  && cfg.maxAttempts >= 1
                  && !UsernameUsed(s.accounts, start.username))
            && (answer.Verified? ==>
                  after.accounts == s.accounts + [Account(start.username, cfg.normalise(start.email), cfg.hashPassword(start.password))])
  {
    var before := Run(cfg, EMPTY, earlier);
    var started := Step(cfg, before, start).0;
    RunKeeps(cfg, EMPTY, earlier);
    StepKeeps(cfg, before, start);
    StartAnswers(cfg, before, start);
    RegistrationStands(cfg, started, others, cfg.normalise(start.email));
    VerifiedIff(cfg, Run(cfg, started, others), op);
  }

  /** In every run an account is created for an address exactly when the code last mailed to it is returned
      while the registration is cached, attempts are allowed, and the username of its last start is free. */
  lemma AccountCreatedIff(cfg: Settings, ops: seq<Op>, op: Op)
    requires op.Verify?
    ensures var s := Run(cfg, EMPTY, ops);
            var email := cfg.normalise(op.email);
            var mail, start := LastMail(s.mails, email), LastStart(cfg, ops, email);
            Step(cfg, s, op).1.Verified? <==>
              && email in s.cache && op.now < s.cache[email].deadline
              && cfg.maxAttempts >= 1
              && mail.Some? && cfg.hashOtp(mail.value.otp) == cfg.hashOtp(op.otp)
              && start.Some? && !UsernameUsed(s.accounts, start.value.username)
  {
    var s := Run(cfg, EMPTY, ops);
    RunKeeps(cfg, EMPTY, ops);
    RunFromLastStart(cfg, [], EMPTY, ops);
    assert [] + ops == ops;
    if cfg.normalise(op.email) in s.cache { assert EntryOk(cfg, s, cfg.normalise(op.email)); }
    VerifiedIff(cfg, s, op);
  }
}
