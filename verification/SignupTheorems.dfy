/**
 * What a pending registration guarantees over whole runs: how many wrong codes
 * are ever evaluated, how long a code can be redeemed, how often mail is sent,
 * and what a created account proves.
 */
module SignupTheorems {
  import opened Common
  import opened SignupModel

  // ----- the stored records ------------------------------------------------

  /** Wrong codes after which a registration is dropped. */
  function AttemptCap(cfg: Settings): (n: nat)
    ensures n >= 1 && n >= cfg.maxAttempts
  {
    if cfg.maxAttempts > 1 then cfg.maxAttempts else 1
  }

  function ResendCap(cfg: Settings): (n: nat)
    ensures n >= cfg.maxResends
  {
    if cfg.maxResends > 0 then cfg.maxResends else 0
  }

  /** The nominal life of a code; the cache never keeps a record for less than a second. */
  function CodeLife(cfg: Settings): (d: int)
    ensures d >= cfg.ttl && d >= SECOND
  {
    if cfg.ttl > SECOND then cfg.ttl else SECOND
  }

  function LastMail(mails: seq<Mail>, email: string): Option<Mail> {
    if mails == [] then None
    else if mails[|mails| - 1].email == email then Some(mails[|mails| - 1])
    else LastMail(mails[..|mails| - 1], email)
  }

  lemma LastMailAppend(mails: seq<Mail>, mail: Mail, email: string)
    ensures LastMail(mails + [mail], email) == if mail.email == email then Some(mail) else LastMail(mails, email)
  {
    assert (mails + [mail])[..|mails|] == mails;
  }

  /** Counters within their caps, the deadline near the expiry, the code the one last mailed. */
  ghost predicate EntryOk(cfg: Settings, s: State, email: string)
    requires email in s.cache
  {
    var r, deadline := s.cache[email].record, s.cache[email].deadline;
    && r.email == email
    && 0 <= r.attempts < AttemptCap(cfg)
    && 0 <= r.resends <= ResendCap(cfg)
    && r.expiresAt == r.lastSentAt + cfg.ttl
    && r.expiresAt - SECOND < deadline <= r.lastSentAt + CodeLife(cfg) + r.attempts * SECOND
    && LastMail(s.mails, email).Some?
    && (var m := LastMail(s.mails, email).value;
        cfg.hashOtp(m.otp) == r.otpHash && m.at == r.lastSentAt && m.username == r.username)
  }

  ghost predicate Inv(cfg: Settings, s: State) {
    forall email :: email in s.cache ==> EntryOk(cfg, s, email)
  }

  lemma TimeoutBounds(record: Record, now: int)
    ensures var deadline := now + Timeout(record, now) * SECOND;
            && record.expiresAt - SECOND < deadline
            && now + SECOND <= deadline
            && (record.expiresAt - now >= SECOND ==> deadline <= record.expiresAt)
            && (record.expiresAt - now < SECOND ==> deadline == now + SECOND)
  {
  }

  lemma SendKeeps(cfg: Settings, s: State, after: State, record: Record, otp: string, now: int)
    requires Inv(cfg, s)
    requires record.attempts == 0 && 0 <= record.resends <= ResendCap(cfg)
    requires record.otpHash == cfg.hashOtp(otp) && record.lastSentAt == now && record.expiresAt == now + cfg.ttl
    requires after.cache == Stored(s.cache, record, now)
    requires after.mails == s.mails + [Mail(record.email, record.username, otp, now)]
    ensures Inv(cfg, after)
  {
    TimeoutBounds(record, now);
    forall email | email in after.cache ensures EntryOk(cfg, after, email) {
      LastMailAppend(s.mails, Mail(record.email, record.username, otp, now), email);
      if email != record.email { assert EntryOk(cfg, s, email); }
    }
  }

  lemma VerifyKeeps(cfg: Settings, s: State, op: Op)
    requires Inv(cfg, s) && op.Verify?
    ensures Inv(cfg, Step(cfg, s, op).0)
  {
    var (after, r) := Step(cfg, s, op);
    var email := cfg.normalise(op.email);
    if email in s.cache {
      assert EntryOk(cfg, s, email);
      TimeoutBounds(s.cache[email].record, op.now);
    }
    forall e | e in after.cache ensures EntryOk(cfg, after, e) {
      assert EntryOk(cfg, s, e);
    }
  }

  lemma StepKeeps(cfg: Settings, s: State, op: Op)
    requires Inv(cfg, s)
    ensures Inv(cfg, Step(cfg, s, op).0)
  {
    var (after, r) := Step(cfg, s, op);
    match op
    case Start(_, _, _, otp, now) => SendKeeps(cfg, s, after, NewRecord(cfg, op), otp, now);
    case Verify(_, _, _) => VerifyKeeps(cfg, s, op);
    case Resend(address, otp, now) =>
      var email := cfg.normalise(address);
      if r.Started? {
        assert EntryOk(cfg, s, email);
        SendKeeps(cfg, s, after, after.cache[email].record, otp, now);
      }
    case Provision(_) =>
      forall e | e in after.cache ensures EntryOk(cfg, after, e) { assert EntryOk(cfg, s, e); }
  }

  lemma {:induction false} RunKeeps(cfg: Settings, s: State, ops: seq<Op>)
    requires Inv(cfg, s)
    ensures Inv(cfg, Run(cfg, s, ops))
    decreases |ops|
  {
    if ops != [] {
      StepKeeps(cfg, s, ops[0]);
      RunKeeps(cfg, Step(cfg, s, ops[0]).0, ops[1..]);
    }
  }

  /** The attempts guard at the head of `verify` fires on a stored record only under a
      setting that allows no attempt at all. */
  lemma GuardTakenIff(cfg: Settings, ops: seq<Op>, email: string, now: int)
    ensures var found := Lookup(Run(cfg, EMPTY, ops).cache, email, now);
            found.Some? ==> (found.value.attempts >= cfg.maxAttempts <==> cfg.maxAttempts <= 0)
  {
    RunKeeps(cfg, EMPTY, ops);
    var s := Run(cfg, EMPTY, ops);
    if email in s.cache { assert EntryOk(cfg, s, email); }
  }

  // ----- wrong codes -------------------------------------------------------

  /** A wrong code for the address is compared with the stored one. */
  predicate WrongCode(cfg: Settings, s: State, op: Op, email: string) {
    && op.Verify? && cfg.normalise(op.email) == email
    && (var found := Lookup(s.cache, email, op.now);
        found.Some? && found.value.attempts < cfg.maxAttempts && found.value.otpHash != cfg.hashOtp(op.otp))
  }

  function WrongCodes(cfg: Settings, s: State, ops: seq<Op>, email: string): nat
    decreases |ops|
  {
    if ops == [] then 0
    else Bit(WrongCode(cfg, s, ops[0], email)) + WrongCodes(cfg, Step(cfg, s, ops[0]).0, ops[1..], email)
  }

  predicate Starts(cfg: Settings, op: Op, email: string) {
    op.Start? && cfg.normalise(op.email) == email
  }

  ghost predicate NoStart(cfg: Settings, ops: seq<Op>, email: string) {
    forall k :: 0 <= k < |ops| ==> !Starts(cfg, ops[k], email)
  }

  /** Wrong codes the pending registration can still absorb. */
  function Potential(cfg: Settings, s: State, email: string): int {
    if email !in s.cache then 0
    else
      var r := s.cache[email].record;
      (ResendCap(cfg) - r.resends) * (AttemptCap(cfg) - 1) + (AttemptCap(cfg) - r.attempts)
  }

  lemma PotentialNonNegative(cfg: Settings, s: State, email: string)
    requires Inv(cfg, s)
    ensures Potential(cfg, s, email) >= 0
  {
    if email in s.cache {
      assert EntryOk(cfg, s, email);
      var m, k: nat := ResendCap(cfg) - s.cache[email].record.resends, AttemptCap(cfg) - 1;
      assert m * k >= 0;
    }
  }

  lemma StepSpendsPotential(cfg: Settings, s: State, op: Op, email: string)
    requires Inv(cfg, s) && !Starts(cfg, op, email)
    ensures Potential(cfg, Step(cfg, s, op).0, email) + Bit(WrongCode(cfg, s, op, email)) <= Potential(cfg, s, email)
  {
    var (after, r) := Step(cfg, s, op);
    PotentialNonNegative(cfg, s, email);
    if email in s.cache {
      assert EntryOk(cfg, s, email);
      var record := s.cache[email].record;
      var k := AttemptCap(cfg) - 1;
      if email in after.cache && after.cache[email].record != record {
        if op.Resend? {
          assert (ResendCap(cfg) - record.resends - 1) * k == (ResendCap(cfg) - record.resends) * k - k;
        }
      } else if email !in after.cache && WrongCode(cfg, s, op, email) {
        var m: nat := ResendCap(cfg) - record.resends;
        assert m * k >= 0;
      }
    }
  }

  lemma {:induction false} WrongCodesWithinPotential(cfg: Settings, s: State, ops: seq<Op>, email: string)
    requires Inv(cfg, s) && NoStart(cfg, ops, email)
    ensures WrongCodes(cfg, s, ops, email) <= Potential(cfg, s, email)
    decreases |ops|
  {
    if ops == [] {
      PotentialNonNegative(cfg, s, email);
    } else {
      StepKeeps(cfg, s, ops[0]);
      StepSpendsPotential(cfg, s, ops[0], email);
      WrongCodesWithinPotential(cfg, Step(cfg, s, ops[0]).0, ops[1..], email);
    }
  }

  /** Between a start for an address and the next, at most (R + 1)(A - 1) + 1 wrong codes are evaluated. */
  lemma WrongCodesPerStart(cfg: Settings, earlier: seq<Op>, start: Op, ops: seq<Op>, email: string)
    requires Starts(cfg, start, email) && NoStart(cfg, ops, email)
    ensures WrongCodes(cfg, Step(cfg, Run(cfg, EMPTY, earlier), start).0, ops, email)
            <= (ResendCap(cfg) + 1) * (AttemptCap(cfg) - 1) + 1
  {
    var s := Run(cfg, EMPTY, earlier);
    RunKeeps(cfg, EMPTY, earlier);
    StepKeeps(cfg, s, start);
    WrongCodesWithinPotential(cfg, Step(cfg, s, start).0, ops, email);
    var m, k := ResendCap(cfg), AttemptCap(cfg) - 1;
    assert (m + 1) * k == m * k + k;
  }

  // ----- the bound on wrong codes is met -----------------------------------

  /** `n` wrong codes at one instant. */
  function Burst(n: nat, t: int): (ops: seq<Op>)
    ensures |ops| == n && forall k :: 0 <= k < n ==> ops[k] == Verify("e", "1", t)
  {
    seq(n, _ => Verify("e", "1", t))
  }

  /** Use up all attempts but one, ask for a new code after the cooldown, and so on. */
  function Exhaust(cfg: Settings, resends: nat, t: int): (ops: seq<Op>)
    ensures forall k :: 0 <= k < |ops| ==> !ops[k].Start?
    decreases resends
  {
    if resends == 0 then Burst(AttemptCap(cfg), t)
    else
      Round(cfg, t) + Exhaust(cfg, resends - 1, t + cfg.cooldown)
  }

  /** A code was sent at `t`, `wrong` wrong ones were tried since, and `left` resends remain. */
  ghost predicate Tried(cfg: Settings, s: State, t: int, wrong: nat, left: nat) {
    var key := cfg.normalise("e");
    key in s.cache &&
    var r := s.cache[key].record;
    && r.email == key
    && r.attempts == wrong
    && r.resends == ResendCap(cfg) - left
    && r.lastSentAt == t
    && r.expiresAt == t + cfg.ttl
    && r.otpHash == cfg.hashOtp("0")
    && s.cache[key].deadline == t + WholeSeconds(cfg.ttl) * SECOND
  }

  /** Settings under which a resend can follow in time. */
  ghost predicate Generous(cfg: Settings) {
    && cfg.maxAttempts >= 1 && cfg.maxResends >= 0 && cfg.ttl >= SECOND
    && 0 <= cfg.cooldown < WholeSeconds(cfg.ttl) * SECOND
    && cfg.hashOtp("0") != cfg.hashOtp("1")
  }

  lemma {:induction false} RunConcat(cfg: Settings, s: State, a: seq<Op>, b: seq<Op>, email: string)
    ensures Run(cfg, s, a + b) == Run(cfg, Run(cfg, s, a), b)
    ensures WrongCodes(cfg, s, a + b, email) == WrongCodes(cfg, s, a, email) + WrongCodes(cfg, Run(cfg, s, a), b, email)
    decreases |a|
  {
    if a == [] {
      assert a + b == b;
    } else {
      assert (a + b)[1..] == a[1..] + b;
      RunConcat(cfg, Step(cfg, s, a[0]).0, a[1..], b, email);
    }
  }

  lemma {:induction false} BurstCounts(cfg: Settings, s: State, t: int, wrong: nat, left: nat, n: nat)
    requires Generous(cfg) && left <= ResendCap(cfg) && Tried(cfg, s, t, wrong, left)
    requires wrong + n <= cfg.maxAttempts
    ensures WrongCodes(cfg, s, Burst(n, t), cfg.normalise("e")) == n
    ensures wrong + n < cfg.maxAttempts ==> Tried(cfg, Run(cfg, s, Burst(n, t)), t, wrong + n, left)
    decreases n
  {
    if n > 0 {
      var op := Verify("e", "1", t);
      var next := Step(cfg, s, op).0;
      assert Burst(n, t)[1..] == Burst(n - 1, t);
      if wrong + 1 < cfg.maxAttempts {
        BurstCounts(cfg, next, t, wrong + 1, left, n - 1);
      }
    }
  }

  lemma ResendRenews(cfg: Settings, s: State, t: int, wrong: nat, left: nat)
    requires Generous(cfg) && 1 <= left <= ResendCap(cfg) && Tried(cfg, s, t, wrong, left)
    ensures var op := Resend("e", "0", t + cfg.cooldown);
            Tried(cfg, Step(cfg, s, op).0, t + cfg.cooldown, 0, left - 1) && !WrongCode(cfg, s, op, cfg.normalise("e"))
  {
  }

  /** One round: all attempts of a code but one, then a new code. */
  function Round(cfg: Settings, t: int): seq<Op> {
    Burst(AttemptCap(cfg) - 1, t) + [Resend("e", "0", t + cfg.cooldown)]
  }

  function AfterRound(cfg: Settings, s: State, t: int): State {
    Run(cfg, s, Round(cfg, t))
  }

  lemma RoundRenews(cfg: Settings, s: State, t: int, left: nat)
    requires Generous(cfg) && 1 <= left <= ResendCap(cfg) && Tried(cfg, s, t, 0, left)
    ensures Tried(cfg, AfterRound(cfg, s, t), t + cfg.cooldown, 0, left - 1)
    ensures WrongCodes(cfg, s, Round(cfg, t), cfg.normalise("e")) == AttemptCap(cfg) - 1
  {
    var key, k := cfg.normalise("e"), AttemptCap(cfg) - 1;
    var burst, resend := Burst(k, t), Resend("e", "0", t + cfg.cooldown);
    BurstCounts(cfg, s, t, 0, left, k);
    var tried := Run(cfg, s, burst);
    ResendRenews(cfg, tried, t, k, left);
    RunConcat(cfg, s, burst, [resend], key);
    var renewed := Step(cfg, tried, resend).0;
    assert Run(cfg, tried, [resend]) == Run(cfg, renewed, []);
    assert WrongCodes(cfg, tried, [resend], key) == Bit(WrongCode(cfg, tried, resend, key)) + WrongCodes(cfg, renewed, [], key);
  }

  lemma RoundThenMore(cfg: Settings, s: State, t: int, left: nat, more: seq<Op>)
    requires Generous(cfg) && 1 <= left <= ResendCap(cfg) && Tried(cfg, s, t, 0, left)
    ensures Tried(cfg, AfterRound(cfg, s, t), t + cfg.cooldown, 0, left - 1)
    ensures WrongCodes(cfg, s, Round(cfg, t) + more, cfg.normalise("e")) ==
            AttemptCap(cfg) - 1 + WrongCodes(cfg, AfterRound(cfg, s, t), more, cfg.normalise("e"))
  {
    RoundRenews(cfg, s, t, left);
    RunConcat(cfg, s, Round(cfg, t), more, cfg.normalise("e"));
  }

  /** After a code sent at `t`, with `left` resends remaining, the calls evaluate `m` wrong codes. */
  ghost predicate Evaluates(cfg: Settings, t: int, left: nat, ops: seq<Op>, m: nat) {
    forall s :: Tried(cfg, s, t, 0, left) ==> WrongCodes(cfg, s, ops, cfg.normalise("e")) == m
  }

  lemma RoundEvaluates(cfg: Settings, t: int, left: nat, more: seq<Op>, m: nat)
    requires Generous(cfg) && 1 <= left <= ResendCap(cfg)
    requires Evaluates(cfg, t + cfg.cooldown, left - 1, more, m)
    ensures Evaluates(cfg, t, left, Round(cfg, t) + more, AttemptCap(cfg) - 1 + m)
  {
    forall s | Tried(cfg, s, t, 0, left)
      ensures WrongCodes(cfg, s, Round(cfg, t) + more, cfg.normalise("e")) == AttemptCap(cfg) - 1 + m
    {
      RoundThenMore(cfg, s, t, left, more);
    }
  }

  lemma LastCodeEvaluates(cfg: Settings, t: int)
    requires Generous(cfg)
    ensures Evaluates(cfg, t, 0, Burst(AttemptCap(cfg), t), AttemptCap(cfg))
  {
    forall s | Tried(cfg, s, t, 0, 0)
      ensures WrongCodes(cfg, s, Burst(AttemptCap(cfg), t), cfg.normalise("e")) == AttemptCap(cfg)
    {
      BurstCounts(cfg, s, t, 0, 0, AttemptCap(cfg));
    }
  }

  lemma {:induction false} ExhaustCounts(cfg: Settings, t: int, left: nat, k: nat)
    requires Generous(cfg) && left <= ResendCap(cfg) && k == AttemptCap(cfg) - 1
    ensures Evaluates(cfg, t, left, Exhaust(cfg, left, t), Repeated(k, left) + k + 1)
    decreases left
  {
    if left == 0 {
      LastCodeEvaluates(cfg, t);
    } else {
      ExhaustCounts(cfg, t + cfg.cooldown, left - 1, k);
      RoundEvaluates(cfg, t, left, Exhaust(cfg, left - 1, t + cfg.cooldown), Repeated(k, left - 1) + k + 1);
    }
  }

  /** The bound of WrongCodesPerStart is reached under every workable setting. */
  lemma WrongCodeBoundIsMet(cfg: Settings)
    requires Generous(cfg)
    ensures var started := Step(cfg, EMPTY, Start("u", "e", "p", "0", 0)).0;
            var ops := Exhaust(cfg, ResendCap(cfg), 0);
            && NoStart(cfg, ops, cfg.normalise("e"))
            && WrongCodes(cfg, started, ops, cfg.normalise("e")) == (ResendCap(cfg) + 1) * (AttemptCap(cfg) - 1) + 1
  {
    var m, k := ResendCap(cfg), AttemptCap(cfg) - 1;
    ExhaustCounts(cfg, 0, m, k);
    RepeatedIsProduct(k, m);
    assert Tried(cfg, Step(cfg, EMPTY, Start("u", "e", "p", "0", 0)).0, 0, 0, m);
    assert (m + 1) * k == m * k + k;
  }

  // ----- how long a code lives ---------------------------------------------

  /** The call presents the right code for a registration that is still pending. */
  predicate Redeems(cfg: Settings, s: State, op: Op) {
    op.Verify? &&
    var found := Lookup(s.cache, cfg.normalise(op.email), op.now);
    found.Some? && found.value.attempts < cfg.maxAttempts && found.value.otpHash == cfg.hashOtp(op.otp)
  }

  /** A redeemed code is the last one mailed to the address, and is redeemed before its
      send time plus its life plus one second per further attempt allowed. */
  lemma RedeemedInTime(cfg: Settings, ops: seq<Op>, op: Op)
    requires Redeems(cfg, Run(cfg, EMPTY, ops), op)
    ensures var s := Run(cfg, EMPTY, ops);
            var email := cfg.normalise(op.email);
            var mail := LastMail(s.mails, email);
            && mail.Some?
            && cfg.hashOtp(mail.value.otp) == cfg.hashOtp(op.otp)
            && op.now < mail.value.at + CodeLife(cfg) + s.cache[email].record.attempts * SECOND
            && op.now < mail.value.at + CodeLife(cfg) + (AttemptCap(cfg) - 1) * SECOND
  {
    var s := Run(cfg, EMPTY, ops);
    RunKeeps(cfg, EMPTY, ops);
    assert EntryOk(cfg, s, cfg.normalise(op.email));
  }

  /** The cache deadline of every record lies less than a second before its expiry and at most one
      second per wrong code after it, counting a lifetime below one second as one second. */
  lemma DeadlineNearExpiry(cfg: Settings, ops: seq<Op>, email: string)
    requires email in Run(cfg, EMPTY, ops).cache
    ensures var entry := Run(cfg, EMPTY, ops).cache[email];
            && entry.record.expiresAt - SECOND < entry.deadline
            && entry.deadline <= entry.record.expiresAt + (CodeLife(cfg) - cfg.ttl) + entry.record.attempts * SECOND
  {
    RunKeeps(cfg, EMPTY, ops);
    assert EntryOk(cfg, Run(cfg, EMPTY, ops), email);
  }

  /** A call that is answered with an account comes before the recorded expiry of the code. */
  ghost predicate OnTime(cfg: Settings, ops: seq<Op>, op: Op) {
    var s := Run(cfg, EMPTY, ops);
    op.Verify? && Step(cfg, s, op).1.Verified? ==> op.now < s.cache[cfg.normalise(op.email)].record.expiresAt
  }

  /** Every answer of a verification, by the record it finds; the right code yields an account, and at most
      the username can stand in its way. */
  lemma VerifyAnswers(cfg: Settings, ops: seq<Op>, op: Op)
    requires op.Verify?
    ensures var s := Run(cfg, EMPTY, ops);
            var (after, r) := Step(cfg, s, op);
            var email := cfg.normalise(op.email);
            && after.mails == s.mails
            && (r == NotFound <==> !(email in s.cache && op.now < s.cache[email].deadline))
            && (r == NotFound ==> after == s)
            && (r != NotFound ==>
                  var record := s.cache[email].record;
                  var right := record.otpHash == cfg.hashOtp(op.otp);
                  var taken := exists i :: 0 <= i < |s.accounts| && s.accounts[i].username == record.username;
                  && (r.Verified? <==> cfg.maxAttempts >= 1 && right && !taken)
                  && (r == UsernameTaken <==> cfg.maxAttempts >= 1 && right && taken)
                  && (r == InvalidOtp <==> !right && record.attempts + 1 < cfg.maxAttempts)
                  && (r == TooManyAttempts <==> cfg.maxAttempts <= 0 || (!right && record.attempts + 1 >= cfg.maxAttempts))
                  && after.cache.Keys == (if r == InvalidOtp then s.cache.Keys else s.cache.Keys - {email})
                  && (forall key :: key in after.cache && key != email ==> after.cache[key] == s.cache[key])
                  && (r == InvalidOtp ==> after.cache[email].record == record.(attempts := record.attempts + 1))
                  && (r.Verified? ==>
                        && r == Verified(|s.accounts|)
                        && after.accounts == s.accounts + [Account(record.username, email, record.passwordHash)])
                  && (!r.Verified? ==> after.accounts == s.accounts))
  {
    var s := Run(cfg, EMPTY, ops);
    RunKeeps(cfg, EMPTY, ops);
    if cfg.normalise(op.email) in s.cache { assert EntryOk(cfg, s, cfg.normalise(op.email)); }
    assert forall name :: UsernameUsed(s.accounts, name) <==> exists i :: 0 <= i < |s.accounts| && s.accounts[i].username == name;
  }

  /** A verification is answered with an account exactly when it redeems the pending code and the username is free. */
  lemma VerifiedIff(cfg: Settings, s: State, op: Op)
    requires op.Verify?
    ensures Step(cfg, s, op).1.Verified? <==>
            Redeems(cfg, s, op) && !UsernameUsed(s.accounts, s.cache[cfg.normalise(op.email)].record.username)
    ensures Step(cfg, s, op).1 == UsernameTaken <==>
            Redeems(cfg, s, op) && UsernameUsed(s.accounts, s.cache[cfg.normalise(op.email)].record.username)
  {
  }

  /** A wrong code in the last moment renews the record for a full second, so the right
      code is then accepted at its expiry. */
  lemma LateRedemption(cfg: Settings)
    requires cfg.ttl >= SECOND && cfg.ttl % SECOND == 0 && cfg.maxAttempts >= 2
    requires cfg.hashOtp("0") != cfg.hashOtp("1")
    ensures var ops := [Start("u", "e", "p", "0", 0), Verify("e", "1", cfg.ttl - 1)];
            !OnTime(cfg, ops, Verify("e", "0", cfg.ttl))
  {
    var start, wrong := Start("u", "e", "p", "0", 0), Verify("e", "1", cfg.ttl - 1);
    var s1 := Step(cfg, EMPTY, start).0;
    var s2 := Step(cfg, s1, wrong).0;
    assert cfg.ttl / SECOND * SECOND == cfg.ttl;
    assert [start, wrong][1..] == [wrong];
    assert Run(cfg, s1, [wrong]) == Run(cfg, s2, []);
    assert Run(cfg, EMPTY, [start, wrong]) == s2;
  }

  /** A lifetime below one second is cached for a full second, so a code sent at 0 is redeemed late at once. */
  lemma ShortLifeRedeemedLate(cfg: Settings)
    requires cfg.ttl < SECOND && cfg.ttl % SECOND == 0 && cfg.maxAttempts >= 1
    ensures !OnTime(cfg, [Start("u", "e", "p", "0", 0)], Verify("e", "0", 0))
  {
    var start := Start("u", "e", "p", "0", 0);
    assert [start][1..] == [];
    assert Run(cfg, EMPTY, [start]) == Run(cfg, Step(cfg, EMPTY, start).0, []);
  }

  /** The settings, of any whole-second lifetime, under which no run redeems a code at or after its
      expiry: no code is accepted at all, or the first wrong one drops a registration of at least a second. */
  lemma CodesExpireOnTimeIff(cfg: Settings)
    requires cfg.ttl % SECOND == 0
    requires cfg.hashOtp("0") != cfg.hashOtp("1")
    ensures (forall ops, op :: OnTime(cfg, ops, op)) <==>
            cfg.maxAttempts <= 0 || (cfg.ttl >= SECOND && cfg.maxAttempts == 1)
  {
    if cfg.maxAttempts <= 0 || (cfg.ttl >= SECOND && cfg.maxAttempts == 1) {
      forall ops, op ensures OnTime(cfg, ops, op) {
        if op.Verify? && Step(cfg, Run(cfg, EMPTY, ops), op).1.Verified? {
          RunKeeps(cfg, EMPTY, ops);
          assert EntryOk(cfg, Run(cfg, EMPTY, ops), cfg.normalise(op.email));
        }
      }
    } else if cfg.ttl < SECOND {
      ShortLifeRedeemedLate(cfg);
    } else {
      LateRedemption(cfg);
    }
  }

  /** The call writes the record of the address to the cache: it sends a code or counts a wrong one. */
  predicate Stores(cfg: Settings, s: State, op: Op, email: string) {
    !op.Provision? && cfg.normalise(op.email) == email &&
    var r := Step(cfg, s, op).1;
    r.Started? || r.InvalidOtp?
  }

  /** Position of the last call of the run that wrote the record of the address. */
  function LastStore(cfg: Settings, ops: seq<Op>, email: string): (k: Option<nat>)
    ensures k.Some? ==> k.value < |ops| && Stores(cfg, Run(cfg, EMPTY, ops[..k.value]), ops[k.value], email)
  {
    if ops == [] then None
    else
      var last := |ops| - 1;
      if Stores(cfg, Run(cfg, EMPTY, ops[..last]), ops[last], email) then Some(last)
      else
        var k := LastStore(cfg, ops[..last], email);
        if k.Some? then assert ops[..last][..k.value] == ops[..k.value]; k else None
  }

  lemma RunLast(cfg: Settings, ops: seq<Op>)
    requires ops != []
    ensures Run(cfg, EMPTY, ops) == Step(cfg, Run(cfg, EMPTY, ops[..|ops| - 1]), ops[|ops| - 1]).0
  {
    var last := |ops| - 1;
    var before := Run(cfg, EMPTY, ops[..last]);
    assert ops == ops[..last] + [ops[last]];
    RunConcat(cfg, EMPTY, ops[..last], [ops[last]], "");
    assert [ops[last]][1..] == [];
    assert Run(cfg, before, [ops[last]]) == Run(cfg, Step(cfg, before, ops[last]).0, []);
  }

  /** An entry was written by the call, or stood there before it. */
  lemma StoreWritesEntry(cfg: Settings, s: State, op: Op, email: string)
    requires Inv(cfg, s) && email in Step(cfg, s, op).0.cache
    ensures var entry := Step(cfg, s, op).0.cache[email];
            if Stores(cfg, s, op, email) then
              && entry.deadline == op.now + Timeout(entry.record, op.now) * SECOND
              && (if op.Verify? then WrongCode(cfg, s, op, email) else entry.record.expiresAt - op.now == cfg.ttl)
            else email in s.cache && entry == s.cache[email]
  {
    if !op.Provision? && cfg.normalise(op.email) in s.cache { assert EntryOk(cfg, s, cfg.normalise(op.email)); }
  }

  /** Every entry is the one its last writer left. */
  lemma {:induction false} EntryIsLastStored(cfg: Settings, ops: seq<Op>, email: string)
    requires email in Run(cfg, EMPTY, ops).cache
    ensures var k := LastStore(cfg, ops, email);
            var entry := Run(cfg, EMPTY, ops).cache[email];
            && k.Some?
            && var op := ops[k.value];
               && entry.deadline == op.now + Timeout(entry.record, op.now) * SECOND
               && (if op.Verify? then WrongCode(cfg, Run(cfg, EMPTY, ops[..k.value]), op, email)
                   else entry.record.expiresAt - op.now == cfg.ttl)
    decreases |ops|
  {
    if ops != [] {
      var last := |ops| - 1;
      var before := Run(cfg, EMPTY, ops[..last]);
      RunKeeps(cfg, EMPTY, ops[..last]);
      RunLast(cfg, ops);
      StoreWritesEntry(cfg, before, ops[last], email);
      if !Stores(cfg, before, ops[last], email) {
        EntryIsLastStored(cfg, ops[..last], email);
        var k := LastStore(cfg, ops[..last], email).value;
        assert ops[..last][..k] == ops[..k];
      }
    }
  }

  /** Some call would get an account for the pending code of the address at or after its expiry. */
  ghost predicate LateCodeAccepted(cfg: Settings, ops: seq<Op>, email: string) {
    exists op :: !OnTime(cfg, ops, op) && cfg.normalise(op.email) == email
  }

  /** A code is accepted late exactly when codes are accepted at all, its record is kept past its expiry and the
      username is still free. */
  lemma LateIffKeptPastExpiry(cfg: Settings, ops: seq<Op>, email: string, address: string)
    requires email in Run(cfg, EMPTY, ops).cache && cfg.normalise(address) == email
    ensures var entry := Run(cfg, EMPTY, ops).cache[email];
            LateCodeAccepted(cfg, ops, email) <==>
              && cfg.maxAttempts >= 1 && entry.record.expiresAt < entry.deadline
              && !UsernameUsed(Run(cfg, EMPTY, ops).accounts, entry.record.username)
  {
    var s := Run(cfg, EMPTY, ops);
    RunKeeps(cfg, EMPTY, ops);
    assert EntryOk(cfg, s, email);
    var late := Verify(address, LastMail(s.mails, email).value.otp, s.cache[email].deadline - 1);
    VerifiedIff(cfg, s, late);
    if cfg.maxAttempts >= 1 && s.cache[email].record.expiresAt < s.cache[email].deadline
      && !UsernameUsed(s.accounts, s.cache[email].record.username)
    {
      assert !OnTime(cfg, ops, late);
    }
  }

  /** After any run: the pending code of an address, its username being free, is accepted late exactly when
      its record was last written with less than a second left, which under a lifetime of at least a second
      only a wrong code can do. */
  lemma LateOnlyAfterLastMomentStore(cfg: Settings, ops: seq<Op>, email: string)
    requires email in Run(cfg, EMPTY, ops).cache
    ensures var k := LastStore(cfg, ops, email);
            && k.Some?
            && var s := Run(cfg, EMPTY, ops);
               var left := s.cache[email].record.expiresAt - ops[k.value].now;
               && (LateCodeAccepted(cfg, ops, email) <==>
                     cfg.maxAttempts >= 1 && left < SECOND && !UsernameUsed(s.accounts, s.cache[email].record.username))
               && (cfg.ttl >= SECOND && left < SECOND ==>
                     ops[k.value].Verify? && WrongCode(cfg, Run(cfg, EMPTY, ops[..k.value]), ops[k.value], email))
  {
    EntryIsLastStored(cfg, ops, email);
    var op := ops[LastStore(cfg, ops, email).value];
    var entry := Run(cfg, EMPTY, ops).cache[email];
    LateIffKeptPastExpiry(cfg, ops, email, op.email);
    TimeoutBounds(entry.record, op.now);
  }

  // ----- mail --------------------------------------------------------------

  /** Send times of the mails the run addresses to `email`. */
  function Sends(cfg: Settings, s: State, ops: seq<Op>, email: string): seq<int>
    decreases |ops|
  {
    if ops == [] then []
    else
      var next := Step(cfg, s, ops[0]).0;
      SentTo(next.mails, |s.mails|, email) + Sends(cfg, next, ops[1..], email)
  }

  /** Times of the mails to `email` from position `from` of the outbox on. */
  function SentTo(mails: seq<Mail>, from: nat, email: string): seq<int>
    decreases |mails| - from
  {
    if from >= |mails| then []
    else (if mails[from].email == email then [mails[from].at] else []) + SentTo(mails, from + 1, email)
  }

  /** Each time lies at least `gap` after the one before, the first after `previous`. */
  ghost predicate Spaced(previous: int, times: seq<int>, gap: int)
    decreases |times|
  {
    times != [] ==> previous + gap <= times[0] && Spaced(times[0], times[1..], gap)
  }

  /** What one call without a start may send: nothing, or one mail that uses up a resend. */
  lemma StepSends(cfg: Settings, s: State, op: Op, email: string)
    requires Inv(cfg, s) && !Starts(cfg, op, email)
    ensures var after := Step(cfg, s, op).0;
            var sent := SentTo(after.mails, |s.mails|, email);
            && (email !in s.cache ==> email !in after.cache)
            && (if sent == [] then
                  email in after.cache ==>
                    && email in s.cache
                    && after.cache[email].record.lastSentAt == s.cache[email].record.lastSentAt
                    && after.cache[email].record.resends == s.cache[email].record.resends
                else
                  && email in s.cache && email in after.cache
                  && sent == [after.cache[email].record.lastSentAt]
                  && s.cache[email].record.lastSentAt + cfg.cooldown <= after.cache[email].record.lastSentAt
                  && after.cache[email].record.resends == s.cache[email].record.resends + 1)
  {
    var after := Step(cfg, s, op).0;
    if op.Resend? || op.Verify? {
      if cfg.normalise(op.email) in s.cache { assert EntryOk(cfg, s, cfg.normalise(op.email)); }
    }
    if |after.mails| == |s.mails| + 1 {
      assert SentTo(after.mails, |s.mails| + 1, email) == [];
    }
  }

  lemma {:induction false} RunSends(cfg: Settings, s: State, ops: seq<Op>, email: string)
    requires Inv(cfg, s) && NoStart(cfg, ops, email)
    ensures email !in s.cache ==> Sends(cfg, s, ops, email) == []
    ensures email in s.cache ==>
      && Spaced(s.cache[email].record.lastSentAt, Sends(cfg, s, ops, email), cfg.cooldown)
      && |Sends(cfg, s, ops, email)| <= ResendCap(cfg) - s.cache[email].record.resends
    decreases |ops|
  {
    if email in s.cache { assert EntryOk(cfg, s, email); }
    if ops != [] {
      var next := Step(cfg, s, ops[0]).0;
      StepKeeps(cfg, s, ops[0]);
      StepSends(cfg, s, ops[0], email);
      RunSends(cfg, next, ops[1..], email);
      var sent := SentTo(next.mails, |s.mails|, email);
      if sent == [] {
        assert sent + Sends(cfg, next, ops[1..], email) == Sends(cfg, next, ops[1..], email);
      } else {
        assert (sent + Sends(cfg, next, ops[1..], email))[1..] == Sends(cfg, next, ops[1..], email);
      }
    }
  }

  /** After a start, codes go out at least one cooldown apart and at most R more of them. */
  lemma SendsPerStart(cfg: Settings, earlier: seq<Op>, start: Op, ops: seq<Op>, email: string)
    requires Starts(cfg, start, email) && NoStart(cfg, ops, email)
    ensures var sends := Sends(cfg, Step(cfg, Run(cfg, EMPTY, earlier), start).0, ops, email);
            Spaced(start.now, sends, cfg.cooldown) && |sends| <= ResendCap(cfg)
  {
    var s := Run(cfg, EMPTY, earlier);
    RunKeeps(cfg, EMPTY, earlier);
    StepKeeps(cfg, s, start);
    RunSends(cfg, Step(cfg, s, start).0, ops, email);
  }

  /** The advertised wait is the time left to the cooldown, short by less than a second. */
  lemma RetryAfterRoundsDown(cfg: Settings, s: State, op: Op)
    requires op.Resend? && Step(cfg, s, op).1.Throttled?
    ensures var r := s.cache[cfg.normalise(op.email)].record;
            var wait := Step(cfg, s, op).1.retryAfter;
            op.now + wait * SECOND <= r.lastSentAt + cfg.cooldown < op.now + (wait + 1) * SECOND
  {
    var r := s.cache[cfg.normalise(op.email)].record;
    var left := cfg.cooldown - (op.now - r.lastSentAt);
    assert left == left / SECOND * SECOND + left % SECOND;
  }

  /** The same resend, tried again after exactly the advertised wait. */
  function AfterAdvertisedWait(cfg: Settings, s: State, op: Op): Op
    requires op.Resend? && Step(cfg, s, op).1.Throttled?
  {
    op.(now := op.now + Step(cfg, s, op).1.retryAfter * SECOND)
  }

  /** Who waits exactly as long as advertised is refused again if and only if the registration is
      then still cached and the time left to the cooldown was not a whole number of seconds. */
  lemma AdvertisedWaitRefusedIff(cfg: Settings, s: State, op: Op)
    requires op.Resend? && Step(cfg, s, op).1.Throttled?
    ensures var later := AfterAdvertisedWait(cfg, s, op);
            var r := s.cache[cfg.normalise(op.email)].record;
            Step(cfg, s, op).0 == s &&
            (Step(cfg, s, later).1.Throttled? <==>
               && Lookup(s.cache, cfg.normalise(op.email), later.now).Some?
               && (r.lastSentAt + cfg.cooldown - op.now) % SECOND != 0)
  {
    RetryAfterRoundsDown(cfg, s, op);
    var left := s.cache[cfg.normalise(op.email)].record.lastSentAt + cfg.cooldown - op.now;
    assert left == left / SECOND * SECOND + left % SECOND;
  }

  /** Under every cooldown that fits a code's life: sign up at 0, ask for a new code at any `t` within the
      cooldown that is not a whole number of seconds before its end, wait as advertised, and be refused. */
  lemma AdvertisedWaitFallsShort(cfg: Settings, t: int)
    requires 0 <= t < cfg.cooldown <= WholeSeconds(cfg.ttl) * SECOND && (cfg.cooldown - t) % SECOND != 0
    ensures var s := Run(cfg, EMPTY, [Start("u", "e", "p", "0", 0)]);
            var op := Resend("e", "1", t);
            && Step(cfg, s, op).1.Throttled?
            && Step(cfg, s, op).0 == s
            && Step(cfg, s, AfterAdvertisedWait(cfg, s, op)).1.Throttled?
  {
    var start, op := Start("u", "e", "p", "0", 0), Resend("e", "1", t);
    var s := Step(cfg, EMPTY, start).0;
    assert [start][1..] == [];
    assert Run(cfg, EMPTY, [start]) == Run(cfg, s, []);
    AdvertisedWaitRefusedIff(cfg, s, op);
    RetryAfterRoundsDown(cfg, s, op);
  }

  // ----- what an account proves --------------------------------------------

  /** The last start of the run for the address. */
  function LastStart(cfg: Settings, ops: seq<Op>, email: string): (found: Option<Op>)
    ensures found.Some? ==> Starts(cfg, found.value, email)
  {
    if ops == [] then None
    else if Starts(cfg, ops[|ops| - 1], email) then Some(ops[|ops| - 1])
    else LastStart(cfg, ops[..|ops| - 1], email)
  }

  /** Every pending record holds the credentials of the last start for its address. */
  ghost predicate FromLastStart(cfg: Settings, done: seq<Op>, s: State) {
    forall email :: email in s.cache ==>
      var start := LastStart(cfg, done, email);
      var r := s.cache[email].record;
      && start.Some?
      && r.username == start.value.username
      && r.passwordHash == cfg.hashPassword(start.value.password)
      && r.createdAt == start.value.now
      && r.email == email
  }

  /** The credentials of a record. */
  function Credentials(r: Record): (string, string, string, int) {
    (r.email, r.username, r.passwordHash, r.createdAt)
  }

  /** Without a start for the address, its record can only go away or keep its credentials. */
  lemma CredentialsKept(cfg: Settings, s: State, op: Op, email: string)
    requires forall e :: e in s.cache ==> s.cache[e].record.email == e
    requires !Starts(cfg, op, email) && email in Step(cfg, s, op).0.cache
    ensures email in s.cache
    ensures Credentials(Step(cfg, s, op).0.cache[email].record) == Credentials(s.cache[email].record)
  {
  }

  lemma StepFromLastStart(cfg: Settings, done: seq<Op>, s: State, op: Op)
    requires FromLastStart(cfg, done, s)
    ensures FromLastStart(cfg, done + [op], Step(cfg, s, op).0)
  {
    assert (done + [op])[..|done|] == done;
    var after := Step(cfg, s, op).0;
    forall email | email in after.cache && !Starts(cfg, op, email)
      ensures email in s.cache && Credentials(after.cache[email].record) == Credentials(s.cache[email].record)
    {
      CredentialsKept(cfg, s, op, email);
    }
  }

  lemma {:induction false} RunFromLastStart(cfg: Settings, done: seq<Op>, s: State, ops: seq<Op>)
    requires FromLastStart(cfg, done, s)
    ensures FromLastStart(cfg, done + ops, Run(cfg, s, ops))
    decreases |ops|
  {
    if ops == [] {
      assert done + ops == done;
    } else {
      StepFromLastStart(cfg, done, s, ops[0]);
      RunFromLastStart(cfg, done + [ops[0]], Step(cfg, s, ops[0]).0, ops[1..]);
      assert done + [ops[0]] + ops[1..] == done + ops;
    }
  }

  /** Sign-up adds an account only for a call that returns the code last mailed to that
      address, and the account carries the credentials of the address's last start. */
  lemma AccountProvesAddress(cfg: Settings, ops: seq<Op>, op: Op)
    requires var s := Run(cfg, EMPTY, ops); Step(cfg, s, op).0.accounts != s.accounts && !op.Provision?
    ensures var s := Run(cfg, EMPTY, ops);
            && Redeems(cfg, s, op)
            && (var email := cfg.normalise(op.email);
                var start, mail := LastStart(cfg, ops, email), LastMail(s.mails, email);
                && start.Some? && mail.Some?
                && cfg.hashOtp(mail.value.otp) == cfg.hashOtp(op.otp)
                && mail.value.username == start.value.username
                && Step(cfg, s, op).0.accounts ==
                   s.accounts + [Account(start.value.username, email, cfg.hashPassword(start.value.password))]
                && email !in Step(cfg, s, op).0.cache)
  {
    var s := Run(cfg, EMPTY, ops);
    RunFromLastStart(cfg, [], EMPTY, ops);
    assert [] + ops == ops;
    RunKeeps(cfg, EMPTY, ops);
    assert EntryOk(cfg, s, cfg.normalise(op.email));
  }

  /** A registration that was consumed, dropped or never begun stays absent until the next start. */
  lemma {:induction false} AbsentUntilStart(cfg: Settings, s: State, ops: seq<Op>, email: string)
    requires Inv(cfg, s) && email !in s.cache && NoStart(cfg, ops, email)
    ensures email !in Run(cfg, s, ops).cache
    decreases |ops|
  {
    if ops != [] {
      StepKeeps(cfg, s, ops[0]);
      StepSends(cfg, s, ops[0], email);
      AbsentUntilStart(cfg, Step(cfg, s, ops[0]).0, ops[1..], email);
    }
  }
}
