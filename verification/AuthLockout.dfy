/**
 * Account lockout over time: how many wrong passwords can reach the failure
 * counter in a time window, and what a lockout rules out while it lasts.
 */
module AuthLockout {
  import opened Common
  import opened AuthModel
  import opened AuthFamilies
  import opened AuthTheorems

  /** A wrong password for the user that finds no lock in force, and so is counted. */
  predicate CountsFailure(cfg: Settings, s: State, op: Op, u: nat) {
    && op.Login?
    && FindByEmail(cfg, s.users, op.email) == Some(u)
    && op.password != s.users[u].password
    && !LockedAt(s.users[u], op.now)
  }

  function Failures(cfg: Settings, s: State, ops: seq<Op>, u: nat): nat
    decreases |ops|
  {
    if ops == [] then 0
    else Bit(CountsFailure(cfg, s, ops[0], u)) + Failures(cfg, Step(cfg, s, ops[0]).0, ops[1..], u)
  }

  /** The call neither logs the user in nor asks to activate the account. */
  predicate KeepsCounter(cfg: Settings, s: State, op: Op, u: nat) {
    && !(op.SetStatus? && op.id == u && op.newStatus == Active)
    && (var r := Step(cfg, s, op).1; r.LoggedIn? ==> r.user != u)
  }

  ghost predicate NoReset(cfg: Settings, s: State, ops: seq<Op>, u: nat)
    decreases |ops|
  {
    ops != [] ==> KeepsCounter(cfg, s, ops[0], u) && NoReset(cfg, Step(cfg, s, ops[0]).0, ops[1..], u)
  }

  /** Whole lock durations that fit between `t` and `b`. */
  function Windows(cfg: Settings, t: int, b: int): (n: nat)
    requires cfg.lockout > 0 && t <= b
  {
    (b - t) / cfg.lockout
  }

  lemma ScaleMonotone(k: nat, m: int, n: int)
    requires m <= n
    ensures k * m <= k * n
  {
  }

  /** Among all q with d * q <= x, the quotient is the greatest. */
  lemma QuotientIsGreatest(x: int, d: int, q: int)
    requires d > 0
    ensures d * q <= x <==> q <= x / d
  {
    var g := x / d;
    assert d * g <= x < d * g + d;
    if q <= g { ScaleMonotone(d, q, g); } else { ScaleMonotone(d, g + 1, q); }
  }

  lemma QuotientMonotone(x: int, y: int, d: int)
    requires d > 0 && x <= y
    ensures x / d <= y / d
  {
    QuotientIsGreatest(x, d, x / d);
    QuotientIsGreatest(y, d, x / d);
  }

  lemma QuotientStep(x: int, d: int)
    requires d > 0
    ensures (x + d) / d == x / d + 1
  {
    var g := x / d;
    QuotientIsGreatest(x, d, g);
    QuotientIsGreatest(x, d, g + 1);
    QuotientIsGreatest(x + d, d, g + 1);
    QuotientIsGreatest(x + d, d, g + 2);
  }

  lemma WindowsShrink(cfg: Settings, t: int, t': int, b: int)
    requires cfg.lockout > 0 && t <= t' <= b
    ensures Windows(cfg, t', b) <= Windows(cfg, t, b)
    ensures Limit(cfg) * Windows(cfg, t', b) <= Limit(cfg) * Windows(cfg, t, b)
  {
    QuotientMonotone(b - t', b - t, cfg.lockout);
    ScaleMonotone(Limit(cfg), Windows(cfg, t', b), Windows(cfg, t, b));
  }

  lemma WindowsStep(cfg: Settings, t: int, b: int)
    requires cfg.lockout > 0 && t + cfg.lockout <= b
    ensures Windows(cfg, t, b) == Windows(cfg, t + cfg.lockout, b) + 1
    ensures Limit(cfg) * Windows(cfg, t, b) == Limit(cfg) * Windows(cfg, t + cfg.lockout, b) + Limit(cfg)
  {
    QuotientStep(b - t - cfg.lockout, cfg.lockout);
    assert b - t == b - t - cfg.lockout + cfg.lockout;
  }

  /** Counted failures still possible from time `t` to `b`. */
  function Budget(cfg: Settings, s: State, u: nat, t: int, b: int): (n: int)
    requires cfg.lockout > 0 && t <= b
  {
    var full := Limit(cfg) * Windows(cfg, t, b) + Limit(cfg);
    if u >= |s.users| then full
    else
      match s.users[u].lockedUntil
      case None => full - s.users[u].failed
      case Some(l) =>
        if l <= t then full
        else if l <= b then Limit(cfg) * Windows(cfg, l, b) + Limit(cfg)
        else 0
  }

  lemma BudgetNonNegative(cfg: Settings, s: State, u: nat, t: int, b: int)
    requires cfg.lockout > 0 && t <= b && Inv(cfg, s)
    ensures 0 <= Budget(cfg, s, u, t, b) <= Limit(cfg) * Windows(cfg, t, b) + Limit(cfg)
  {
    if u < |s.users| {
      assert CounterShape(cfg, s.users[u]);
      var lock := s.users[u].lockedUntil;
      if lock.Some? && t < lock.value <= b { WindowsShrink(cfg, t, lock.value, b); }
    }
  }

  /** Time alone never raises the budget. */
  lemma BudgetShrinks(cfg: Settings, s: State, after: State, u: nat, t: int, t': int, b: int)
    requires cfg.lockout > 0 && t <= t' <= b && Inv(cfg, s)
    requires u < |after.users|
    requires u < |s.users| ==>
      after.users[u].failed == s.users[u].failed && after.users[u].lockedUntil == s.users[u].lockedUntil
    requires u >= |s.users| ==> after.users[u].lockedUntil.None?
    ensures Budget(cfg, after, u, t', b) <= Budget(cfg, s, u, t, b)
  {
    WindowsShrink(cfg, t, t', b);
    if u < |s.users| {
      assert CounterShape(cfg, s.users[u]);
      var lock := s.users[u].lockedUntil;
      if lock.Some? {
        if t < lock.value <= t' { WindowsShrink(cfg, lock.value, t', b); }
      }
    }
  }

  /** What a counted failure does to the user's row. */
  lemma CountedFailureEffect(cfg: Settings, s: State, op: Op, u: nat)
    requires Inv(cfg, s) && CountsFailure(cfg, s, op, u)
    ensures var user, after := s.users[u], Step(cfg, s, op).0;
            var failed := if user.lockedUntil.Some? then 1 else user.failed + 1;
            && 1 <= failed <= Limit(cfg)
            && |after.users| == |s.users|
            && after.users[u].failed == failed
            && after.users[u].lockedUntil == (if failed == Limit(cfg) then Some(op.now + cfg.lockout) else None)
            && (failed == Limit(cfg) ==> after.events == s.events + [Event(LockoutEvent, u, op.client, op.now)])
  {
    assert CounterShape(cfg, s.users[u]);
  }

  lemma OtherLoginEffect(cfg: Settings, s: State, op: Op, u: nat)
    requires op.Login? && !CountsFailure(cfg, s, op, u) && KeepsCounter(cfg, s, op, u)
    ensures var after := Step(cfg, s, op).0;
            && |s.users| == |after.users|
            && (u < |s.users| ==>
                  && after.users[u].failed == s.users[u].failed
                  && after.users[u].lockedUntil == s.users[u].lockedUntil)
  {
  }

  /** A call that is no counted failure leaves the counter and the lock alone. */
  lemma OtherCallEffect(cfg: Settings, s: State, op: Op, u: nat)
    requires !CountsFailure(cfg, s, op, u) && KeepsCounter(cfg, s, op, u)
    ensures var after := Step(cfg, s, op).0;
            && |s.users| <= |after.users|
            && (u < |s.users| ==>
                  && after.users[u].failed == s.users[u].failed
                  && after.users[u].lockedUntil == s.users[u].lockedUntil)
            && (|s.users| <= u < |after.users| ==> after.users[u].failed == 0 && after.users[u].lockedUntil.None?)
  {
    if op.Login? { OtherLoginEffect(cfg, s, op, u); }
  }

  lemma FailureSpendsBudget(cfg: Settings, s: State, op: Op, u: nat, t: int, b: int)
    requires cfg.lockout > 0 && Inv(cfg, s) && CountsFailure(cfg, s, op, u)
    requires ReadsAfter(op, t) && LastReading(op, t) <= b
    ensures 1 + Budget(cfg, Step(cfg, s, op).0, u, LastReading(op, t), b) <= Budget(cfg, s, u, t, b)
  {
    var user, after, t' := s.users[u], Step(cfg, s, op).0, LastReading(op, t);
    CountedFailureEffect(cfg, s, op, u);
    WindowsShrink(cfg, t, op.now, b);
    WindowsShrink(cfg, op.now, t', b);
    if user.lockedUntil.Some? && t < user.lockedUntil.value {
      WindowsShrink(cfg, user.lockedUntil.value, op.now, b);
    }
    if after.users[u].lockedUntil.Some? && op.now + cfg.lockout <= b {
      WindowsStep(cfg, op.now, b);
      if op.now + cfg.lockout <= t' { WindowsShrink(cfg, op.now + cfg.lockout, t', b); }
    }
  }

  lemma {:induction false} FailuresWithinBudget(cfg: Settings, s: State, ops: seq<Op>, u: nat, a: int, b: int)
    requires cfg.lockout > 0 && Inv(cfg, s) && ClockedWithin(ops, a, b) && NoReset(cfg, s, ops, u)
    ensures Failures(cfg, s, ops, u) <= Budget(cfg, s, u, a, b)
    decreases |ops|
  {
    if ops == [] {
      BudgetNonNegative(cfg, s, u, a, b);
    } else {
      var op := ops[0];
      var after, t := Step(cfg, s, op).0, LastReading(op, a);
      StepKeeps(cfg, s, op);
      FailuresWithinBudget(cfg, after, ops[1..], u, t, b);
      if CountsFailure(cfg, s, op, u) {
        FailureSpendsBudget(cfg, s, op, u, a, b);
      } else {
        OtherCallEffect(cfg, s, op, u);
        if u < |after.users| { BudgetShrinks(cfg, s, after, u, a, t, b); }
        else { WindowsShrink(cfg, a, t, b); }
      }
    }
  }

  /** In a window [a, b] without a login or an activation of the user, the failures that
      reach the counter number at most Limit * (floor((b - a) / D) + 1). */
  lemma FailuresInWindow(cfg: Settings, earlier: seq<Op>, ops: seq<Op>, u: nat, a: int, b: int)
    requires cfg.lockout > 0 && ClockedWithin(ops, a, b)
    requires NoReset(cfg, Run(cfg, EMPTY, earlier), ops, u)
    ensures Failures(cfg, Run(cfg, EMPTY, earlier), ops, u) <= Limit(cfg) * ((b - a) / cfg.lockout + 1)
  {
    var s := Run(cfg, EMPTY, earlier);
    ReachableInv(cfg, earlier);
    FailuresWithinBudget(cfg, s, ops, u, a, b);
    BudgetNonNegative(cfg, s, u, a, b);
    assert Limit(cfg) * (Windows(cfg, a, b) + 1) == Limit(cfg) * Windows(cfg, a, b) + Limit(cfg);
  }

  // ----- the bound on failures is met --------------------------------------

  const DEVICE := Client(None, "")

  /** What somebody keeps trying to log in with. */
  datatype Guess = Guess(email: string, password: string)

  function Attempt(g: Guess, t: int): Op { Login(g.email, g.password, DEVICE, t, t, "") }

  function Attempts(g: Guess, n: nat, t: int): (ops: seq<Op>)
    ensures |ops| == n && forall k :: 0 <= k < n ==> ops[k] == Attempt(g, t)
  {
    seq(n, _ => Attempt(g, t))
  }

  /** All attempts at once, and again the moment each lock ends. */
  function Waves(cfg: Settings, g: Guess, n: nat, t: int): (ops: seq<Op>)
    ensures ops != [] && ops[0] == Attempt(g, t)
    decreases n
  {
    if n == 0 then Attempts(g, Limit(cfg), t)
    else Attempts(g, Limit(cfg), t) + Waves(cfg, g, n - 1, t + cfg.lockout)
  }

  /** At time `t` the attempts reach user `u`, who is not locked and has `c` failures to count. */
  ghost predicate Exposed(cfg: Settings, s: State, g: Guess, u: nat, t: int, c: nat) {
    && FindByEmail(cfg, s.users, g.email) == Some(u)
    && s.users[u].password != g.password
    && !LockedAt(s.users[u], t)
    && Unlocked(s.users[u], t).failed == c
  }

  lemma {:induction false} SameEmailsSameLookup(cfg: Settings, a: seq<User>, b: seq<User>, email: string)
    requires |a| == |b| && forall i :: 0 <= i < |a| ==> a[i].email == b[i].email
    ensures FindByEmail(cfg, a, email) == FindByEmail(cfg, b, email)
  {
    if a != [] { SameEmailsSameLookup(cfg, a[..|a| - 1], b[..|b| - 1], email); }
  }

  lemma AttemptCounts(cfg: Settings, s: State, g: Guess, u: nat, t: int, c: nat)
    requires cfg.lockout > 0 && Exposed(cfg, s, g, u, t, c) && c < Limit(cfg)
    ensures CountsFailure(cfg, s, Attempt(g, t), u) && KeepsCounter(cfg, s, Attempt(g, t), u)
    ensures var after := Step(cfg, s, Attempt(g, t)).0;
            if c + 1 < Limit(cfg) then Exposed(cfg, after, g, u, t, c + 1) else Exposed(cfg, after, g, u, t + cfg.lockout, 0)
  {
    SameEmailsSameLookup(cfg, s.users, Step(cfg, s, Attempt(g, t)).0.users, g.email);
  }

  /** From every state in which the attempts reach the user at `t`, the calls count `m` failures. */
  ghost predicate Yields(cfg: Settings, g: Guess, u: nat, t: int, ops: seq<Op>, m: nat) {
    forall s :: Exposed(cfg, s, g, u, t, 0) ==> Failures(cfg, s, ops, u) == m && NoReset(cfg, s, ops, u)
  }

  lemma {:induction false} AttemptsCount(cfg: Settings, s: State, g: Guess, u: nat, t: int, c: nat, rest: seq<Op>, m: nat)
    requires cfg.lockout > 0 && Exposed(cfg, s, g, u, t, c) && c < Limit(cfg)
    requires Yields(cfg, g, u, t + cfg.lockout, rest, m)
    ensures var ops := Attempts(g, Limit(cfg) - c, t) + rest;
            Failures(cfg, s, ops, u) == Limit(cfg) - c + m && NoReset(cfg, s, ops, u)
    decreases Limit(cfg) - c
  {
    var n := Limit(cfg) - c;
    var ops := Attempts(g, n, t) + rest;
    assert ops[0] == Attempt(g, t) && ops[1..] == Attempts(g, n - 1, t) + rest;
    AttemptCounts(cfg, s, g, u, t, c);
    if n > 1 {
      AttemptsCount(cfg, Step(cfg, s, ops[0]).0, g, u, t, c + 1, rest, m);
    } else {
      assert ops[1..] == rest;
    }
  }

  lemma WaveYields(cfg: Settings, g: Guess, u: nat, t: int, ops: seq<Op>, rest: seq<Op>, m: nat)
    requires cfg.lockout > 0 && Yields(cfg, g, u, t + cfg.lockout, rest, m)
    requires ops == Attempts(g, Limit(cfg), t) + rest
    ensures Yields(cfg, g, u, t, ops, Limit(cfg) + m)
  {
    forall s | Exposed(cfg, s, g, u, t, 0)
      ensures Failures(cfg, s, ops, u) == Limit(cfg) + m && NoReset(cfg, s, ops, u)
    {
      AttemptsCount(cfg, s, g, u, t, 0, rest, m);
    }
  }

  lemma NothingYieldsNothing(cfg: Settings, g: Guess, u: nat, t: int)
    ensures Yields(cfg, g, u, t, [], 0)
  {
  }

  lemma {:induction false} WavesCount(cfg: Settings, g: Guess, u: nat, n: nat, t: int)
    requires cfg.lockout > 0
    ensures Yields(cfg, g, u, t, Waves(cfg, g, n, t), Limit(cfg) + Repeated(Limit(cfg), n))
    decreases n
  {
    var ops, next := Waves(cfg, g, n, t), t + cfg.lockout;
    if n == 0 {
      NothingYieldsNothing(cfg, g, u, next);
      WaveYields(cfg, g, u, t, ops, [], 0);
    } else {
      WavesCount(cfg, g, u, n - 1, next);
      WaveYields(cfg, g, u, t, ops, Waves(cfg, g, n - 1, next), Repeated(Limit(cfg), n));
    }
  }

  lemma {:induction false} AttemptsClocked(g: Guess, n: nat, t: int, rest: seq<Op>, t': int, b: int)
    requires t <= t' && ClockedWithin(rest, t', b) && (rest != [] ==> rest[0].Login?)
    ensures ClockedWithin(Attempts(g, n, t) + rest, t, b)
  {
    var ops := Attempts(g, n, t) + rest;
    if n == 0 {
      assert ops == rest;
    } else {
      assert ops[0] == Attempt(g, t) && ops[1..] == Attempts(g, n - 1, t) + rest;
      AttemptsClocked(g, n - 1, t, rest, t', b);
    }
  }

  lemma {:induction false} WavesClocked(cfg: Settings, g: Guess, n: nat, t: int, b: int)
    requires cfg.lockout > 0 && t + n * cfg.lockout <= b
    ensures ClockedWithin(Waves(cfg, g, n, t), t, b)
    decreases n
  {
    ScaleMonotone(cfg.lockout, 0, n);
    if n == 0 {
      AttemptsClocked(g, Limit(cfg), t, [], t, b);
      assert Attempts(g, Limit(cfg), t) + [] == Attempts(g, Limit(cfg), t);
    } else {
      assert n * cfg.lockout == cfg.lockout + (n - 1) * cfg.lockout;
      WavesClocked(cfg, g, n - 1, t + cfg.lockout, b);
      AttemptsClocked(g, Limit(cfg), t, Waves(cfg, g, n - 1, t + cfg.lockout), t + cfg.lockout, b);
    }
  }

  /** The bound of FailuresInWindow is reached in every window, for any user not locked when it opens, by
      any wrong password sent with an address that finds the user. */
  lemma FailureBoundIsMet(cfg: Settings, s: State, g: Guess, u: nat, a: int, b: int)
    requires cfg.lockout > 0 && a <= b && Exposed(cfg, s, g, u, a, 0)
    ensures var ops := Waves(cfg, g, (b - a) / cfg.lockout, a);
            && ClockedWithin(ops, a, b)
            && NoReset(cfg, s, ops, u)
            && Failures(cfg, s, ops, u) == Limit(cfg) * ((b - a) / cfg.lockout + 1)
  {
    var n: nat := (b - a) / cfg.lockout;
    QuotientIsGreatest(b - a, cfg.lockout, n);
    WavesClocked(cfg, g, n, a, b);
    WavesCount(cfg, g, u, n, a);
    RepeatedIsProduct(Limit(cfg), n);
    assert Limit(cfg) * (n + 1) == Limit(cfg) + Limit(cfg) * n;
  }

  /** A newly created account is exposed from the start, at any time. */
  lemma NewAccountIsExposed(cfg: Settings, t: int)
    ensures Exposed(cfg, Run(cfg, EMPTY, [CreateUser("u", "e", "right", map[])]), Guess("e", "wrong"), 0, t, 0)
  {
    var create := CreateUser("u", "e", "right", map[]);
    var user := NewUser("u", "e", "right", Active, map[]);
    assert [create][1..] == [];
    assert Run(cfg, EMPTY, [create]) == Run(cfg, Step(cfg, EMPTY, create).0, []);
    assert Step(cfg, EMPTY, create).0.users == [user];
    assert FindByEmail(cfg, [user], "e") == Some(0) by { assert [user][..0] == []; }
  }

  /** In every window the bound of FailuresInWindow is reached by a run from the empty tables,
      so no smaller bound holds. */
  lemma FailureBoundIsTight(cfg: Settings, a: int, b: int)
    requires cfg.lockout > 0 && a <= b
    ensures var earlier := [CreateUser("u", "e", "right", map[])];
            var ops := Waves(cfg, Guess("e", "wrong"), (b - a) / cfg.lockout, a);
            && ClockedWithin(ops, a, b)
            && NoReset(cfg, Run(cfg, EMPTY, earlier), ops, 0)
            && Failures(cfg, Run(cfg, EMPTY, earlier), ops, 0) == Limit(cfg) * ((b - a) / cfg.lockout + 1)
  {
    NewAccountIsExposed(cfg, a);
    FailureBoundIsMet(cfg, Run(cfg, EMPTY, [CreateUser("u", "e", "right", map[])]), Guess("e", "wrong"), 0, a, b);
  }

  // ----- the quiet period --------------------------------------------------

  /** Every login attempt of the run reads a clock before `end`, and nobody activates the user. */
  ghost predicate DuringLock(ops: seq<Op>, u: nat, end: int) {
    forall k :: 0 <= k < |ops| ==>
      && (ops[k].Login? ==> ops[k].now < end)
      && !(ops[k].SetStatus? && ops[k].id == u && ops[k].newStatus == Active)
  }

  lemma {:induction false} LockHolds(cfg: Settings, s: State, ops: seq<Op>, u: nat, end: int)
    requires u < |s.users| && s.users[u].lockedUntil == Some(end) && DuringLock(ops, u, end)
    ensures var after := Run(cfg, s, ops);
            && u < |after.users|
            && after.users[u].lockedUntil == Some(end)
            && after.users[u].failed == s.users[u].failed
            && Count(after.events, EventOf(LoginEvent, u)) == Count(s.events, EventOf(LoginEvent, u))
            && Count(after.events, EventOf(LockoutEvent, u)) == Count(s.events, EventOf(LockoutEvent, u))
            && Count(after.tokens, RootOf(u)) == Count(s.tokens, RootOf(u))
    decreases |ops|
  {
    if ops != [] {
      LockHoldsOneStep(cfg, s, ops[0], u, end);
      LockHolds(cfg, Step(cfg, s, ops[0]).0, ops[1..], u, end);
    }
  }

  lemma LockHoldsOneStep(cfg: Settings, s: State, op: Op, u: nat, end: int)
    requires u < |s.users| && s.users[u].lockedUntil == Some(end) && DuringLock([op], u, end)
    ensures var after := Step(cfg, s, op).0;
            && u < |after.users|
            && after.users[u].lockedUntil == Some(end)
            && after.users[u].failed == s.users[u].failed
            && Count(after.events, EventOf(LoginEvent, u)) == Count(s.events, EventOf(LoginEvent, u))
            && Count(after.events, EventOf(LockoutEvent, u)) == Count(s.events, EventOf(LockoutEvent, u))
            && Count(after.tokens, RootOf(u)) == Count(s.tokens, RootOf(u))
  {
    assert [op][0] == op;
    LockedRowStays(cfg, s, op, u, end);
    LockedUserLogsNothing(cfg, s, op, u, end);
    NoNewFamilyWhileLocked(cfg, s, op, u, end);
  }

  lemma LockedRowStays(cfg: Settings, s: State, op: Op, u: nat, end: int)
    requires u < |s.users| && s.users[u].lockedUntil == Some(end)
    requires op.Login? ==> op.now < end
    requires !(op.SetStatus? && op.id == u && op.newStatus == Active)
    ensures var (after, r) := Step(cfg, s, op);
            && u < |after.users|
            && after.users[u].lockedUntil == Some(end)
            && after.users[u].failed == s.users[u].failed
            && (r.LoggedIn? ==> r.user != u)
  {
  }

  lemma LockedUserEvent(cfg: Settings, s: State, op: Op, u: nat, end: int)
    requires u < |s.users| && s.users[u].lockedUntil == Some(end)
    requires op.Login? ==> op.now < end
    ensures var events := Step(cfg, s, op).0.events;
            events == s.events ||
            (exists e :: events == s.events + [e] && !EventOf(LoginEvent, u)(e) && !EventOf(LockoutEvent, u)(e))
  {
    var events := Step(cfg, s, op).0.events;
    if |events| > |s.events| { assert events == s.events + [events[|s.events|]]; }
  }

  lemma LockedUserLogsNothing(cfg: Settings, s: State, op: Op, u: nat, end: int)
    requires u < |s.users| && s.users[u].lockedUntil == Some(end)
    requires op.Login? ==> op.now < end
    ensures var after := Step(cfg, s, op).0;
            && Count(after.events, EventOf(LoginEvent, u)) == Count(s.events, EventOf(LoginEvent, u))
            && Count(after.events, EventOf(LockoutEvent, u)) == Count(s.events, EventOf(LockoutEvent, u))
  {
    LockedUserEvent(cfg, s, op, u, end);
    var events := Step(cfg, s, op).0.events;
    if events != s.events {
      var e :| events == s.events + [e] && !EventOf(LoginEvent, u)(e) && !EventOf(LockoutEvent, u)(e);
      CountAppend(s.events, e, EventOf(LoginEvent, u));
      CountAppend(s.events, e, EventOf(LockoutEvent, u));
    }
  }

  lemma NoNewRootWhileLocked(cfg: Settings, s: State, op: Op, u: nat, end: int)
    requires u < |s.users| && s.users[u].lockedUntil == Some(end)
    requires op.Login? ==> op.now < end
    ensures var after := Step(cfg, s, op).0.tokens;
            forall i :: |s.tokens| <= i < |after| ==> !(after[i].user == u && after[i].parent.None?)
  {
  }

  lemma NoNewFamilyWhileLocked(cfg: Settings, s: State, op: Op, u: nat, end: int)
    requires u < |s.users| && s.users[u].lockedUntil == Some(end)
    requires op.Login? ==> op.now < end
    ensures Count(Step(cfg, s, op).0.tokens, RootOf(u)) == Count(s.tokens, RootOf(u))
  {
    var after, n := Step(cfg, s, op).0.tokens, |s.tokens|;
    StepHasTokenEffect(cfg, s, op);
    NoNewRootWhileLocked(cfg, s, op, u, end);
    if |after| == n {
      RevocationKeepsCounts(s.tokens, after, u);
    } else {
      RevocationKeepsCounts(s.tokens, after[..n], u);
      assert after == after[..n] + [after[n]];
      AppendTokenCounts(after[..n], after[n], u);
    }
  }

  /** After a LOCKOUT logged at time t no login of the user succeeds, no new lockout is
      logged and no family begins before t + D; the lock is neither extended nor lost. */
  lemma LockoutQuietPeriod(cfg: Settings, earlier: seq<Op>, op: Op, ops: seq<Op>, u: nat)
    requires var s := Run(cfg, EMPTY, earlier);
             && CountsFailure(cfg, s, op, u)
             && Step(cfg, s, op).1.AccountLocked?
             && DuringLock(ops, u, op.now + cfg.lockout)
    ensures var s := Run(cfg, EMPTY, earlier);
            var locked := Step(cfg, s, op).0;
            var after := Run(cfg, locked, ops);
            && Count(locked.events, EventOf(LockoutEvent, u)) == Count(s.events, EventOf(LockoutEvent, u)) + 1
            && Count(after.events, EventOf(LockoutEvent, u)) == Count(locked.events, EventOf(LockoutEvent, u))
            && Count(after.events, EventOf(LoginEvent, u)) == Count(s.events, EventOf(LoginEvent, u))
            && Count(after.tokens, RootOf(u)) == Count(s.tokens, RootOf(u))
            && u < |after.users| && after.users[u].lockedUntil == Some(op.now + cfg.lockout)
  {
    var s := Run(cfg, EMPTY, earlier);
    ReachableInv(cfg, earlier);
    CountedFailureEffect(cfg, s, op, u);
    var event := Event(LockoutEvent, u, op.client, op.now);
    CountAppend(s.events, event, EventOf(LockoutEvent, u));
    CountAppend(s.events, event, EventOf(LoginEvent, u));
    LockHolds(cfg, Step(cfg, s, op).0, ops, u, op.now + cfg.lockout);
  }

  /** Exactly what ends the session of the live token `i`: a refresh with a token of its family that is not
      rolled back, its own logout, or a suspension of its owner by somebody else. */
  ghost predicate EndsSession(cfg: Settings, s: State, op: Op, i: nat)
    requires i < |s.tokens|
  {
    match op
    case Refresh(raw, now, newRaw) =>
      var found := FindByHash(s.tokens, cfg.hash(raw));
      && found.Some?
      && var j := found.value;
         && s.tokens[j].family == s.tokens[i].family
         && (s.tokens[j].revoked || s.tokens[j].expires <= now || FindByHash(s.tokens, cfg.hash(newRaw)).None?)
    case Logout(raw, _, _, _) => cfg.hash(raw) == s.tokens[i].hash
    case Deactivate(id, actor, _) => id == s.tokens[i].user && actor != Some(id)
    case SetStatus(id, newStatus, actor, _) => id == s.tokens[i].user && newStatus == Suspended && actor != Some(id)
    case _ => false
  }

  lemma OnlyLiveOfFamily(cfg: Settings, tokens: seq<Token>, i: nat, j: nat)
    requires Chains(cfg, tokens) && i < |tokens| && j < |tokens|
    requires !tokens[i].revoked && !tokens[j].revoked && tokens[i].family == tokens[j].family
    ensures i == j
  {
  }

  lemma RefreshEndsSessionIff(cfg: Settings, s: State, op: Op, i: nat)
    requires Inv(cfg, s) && i < |s.tokens| && !s.tokens[i].revoked && op.Refresh?
    ensures var after := Step(cfg, s, op).0.tokens;
            i < |after| && (after[i].revoked <==> EndsSession(cfg, s, op, i))
  {
    var found := FindByHash(s.tokens, cfg.hash(op.raw));
    if found.Some? {
      var j := found.value;
      if !s.tokens[j].revoked && s.tokens[j].family == s.tokens[i].family { OnlyLiveOfFamily(cfg, s.tokens, i, j); }
    }
  }

  lemma StepEndsSessionIff(cfg: Settings, s: State, op: Op, i: nat)
    requires Inv(cfg, s) && i < |s.tokens| && !s.tokens[i].revoked
    ensures var after := Step(cfg, s, op).0.tokens;
            i < |after| && (after[i].revoked <==> EndsSession(cfg, s, op, i))
  {
    if op.Refresh? {
      RefreshEndsSessionIff(cfg, s, op, i);
    }
  }

  /** No call of the run ends the session of token `i`. */
  ghost predicate SessionLeftAlone(cfg: Settings, s: State, ops: seq<Op>, i: nat)
    requires i < |s.tokens|
    decreases |ops|
  {
    ops != [] ==>
      && !EndsSession(cfg, s, ops[0], i)
      && var next := Step(cfg, s, ops[0]).0;
         i < |next.tokens| && SessionLeftAlone(cfg, next, ops[1..], i)
  }

  lemma {:induction false} SessionSurvivesIff(cfg: Settings, s: State, ops: seq<Op>, i: nat)
    requires Inv(cfg, s) && i < |s.tokens| && !s.tokens[i].revoked
    ensures var after := Run(cfg, s, ops);
            && i < |after.tokens|
            && after.tokens[i].hash == s.tokens[i].hash && after.tokens[i].expires == s.tokens[i].expires
            && (!after.tokens[i].revoked <==> SessionLeftAlone(cfg, s, ops, i))
    decreases |ops|
  {
    RunExtends(cfg, s, ops);
    assert SameOrRevoked(s.tokens[i], Run(cfg, s, ops).tokens[i]);
    if ops != [] {
      var next := Step(cfg, s, ops[0]).0;
      StepKeeps(cfg, s, ops[0]);
      StepEndsSessionIff(cfg, s, ops[0], i);
      if next.tokens[i].revoked {
        RunExtends(cfg, next, ops[1..]);
        assert SameOrRevoked(next.tokens[i], Run(cfg, next, ops[1..]).tokens[i]);
      } else {
        SessionSurvivesIff(cfg, next, ops[1..], i);
      }
    }
  }

  /** Neither a lock nor any other user's business ends an existing session: after any run a live token
      can be rotated exactly when none of the calls that end its session was made, it has not expired,
      and the new hash is unused. */
  lemma RotationSurvivesLockout(cfg: Settings, s: State, ops: seq<Op>, i: nat, raw: string, now: int, newRaw: string)
    requires Inv(cfg, s) && i < |s.tokens| && !s.tokens[i].revoked && cfg.hash(raw) == s.tokens[i].hash
    ensures RefreshStep(cfg, Run(cfg, s, ops), raw, now, newRaw).1.Rotated? <==>
            && SessionLeftAlone(cfg, s, ops, i)
            && now < s.tokens[i].expires
            && FindByHash(Run(cfg, s, ops).tokens, cfg.hash(newRaw)).None?
  {
    var after := Run(cfg, s, ops);
    SessionSurvivesIff(cfg, s, ops, i);
    RunKeeps(cfg, s, ops);
    RefreshSucceedsIff(cfg, after, raw, now, newRaw);
    assert after.tokens[i].hash == cfg.hash(raw);
  }
}
