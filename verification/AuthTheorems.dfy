/**
 * The guarantees of the session protocol over whole runs, for any interleaving
 * of login, refresh, logout, sign-up and administration.
 */
module AuthTheorems {
  import opened Common
  import opened AuthModel
  import opened AuthFamilies

  lemma ReachableInv(cfg: Settings, ops: seq<Op>)
    ensures Inv(cfg, Run(cfg, EMPTY, ops))
  {
    RunKeeps(cfg, EMPTY, ops);
  }

  // ----- families ----------------------------------------------------------

  /** The keys of a family's tokens, oldest first. */
  function Members(tokens: seq<Token>, family: nat): (m: seq<nat>)
    ensures forall k :: 0 <= k < |m| ==> m[k] < |tokens| && tokens[m[k]].family == family
    ensures forall k, l :: 0 <= k < l < |m| ==> m[k] < m[l]
    ensures forall i :: 0 <= i < |tokens| && tokens[i].family == family ==> i in m
  {
    if tokens == [] then []
    else
      var last := |tokens| - 1;
      Members(tokens[..last], family) + if tokens[last].family == family then [last] else []
  }

  lemma MemberFollowsPrevious(cfg: Settings, tokens: seq<Token>, family: nat, k: nat)
    requires Chains(cfg, tokens) && k < |Members(tokens, family)|
    ensures var m := Members(tokens, family);
            && m[0] == family && tokens[family].parent.None?
            && (k > 0 ==> tokens[m[k]].parent == Some(m[k - 1]))
            && tokens[m[k]].user == tokens[family].user
            && tokens[m[k]].client == tokens[family].client
            && (k < |m| - 1 ==> tokens[m[k]].revoked)
  {
    var m := Members(tokens, family);
    assert TokenShape(cfg, tokens, m[0]) && TokenShape(cfg, tokens, m[k]);
    assert family in m && TokenShape(cfg, tokens, family);
    assert k < |m| - 1 ==> m[k] < m[k + 1];
    if k > 0 {
      var p := tokens[m[k]].parent.value;
      assert LinkedToParent(cfg, tokens, m[k]);
      assert p in m;
      var previous := m[k - 1];
      assert previous < m[k];
      assert !(p < previous);
    }
  }

  /** Every family is a single line from its root, each token the child of the one
      before it, all of one user and device, and only the last can be live. */
  lemma FamilyIsOneChain(cfg: Settings, ops: seq<Op>, family: nat)
    ensures var tokens := Run(cfg, EMPTY, ops).tokens;
            var m := Members(tokens, family);
            && (m != [] ==> m[0] == family && tokens[family].parent.None?)
            && (forall k :: 0 < k < |m| ==> tokens[m[k]].parent == Some(m[k - 1]))
            && (forall k :: 0 <= k < |m| ==>
                  tokens[m[k]].user == tokens[family].user && tokens[m[k]].client == tokens[family].client)
            && (forall k :: 0 <= k < |m| - 1 ==> tokens[m[k]].revoked)
  {
    ReachableInv(cfg, ops);
    var tokens := Run(cfg, EMPTY, ops).tokens;
    var m := Members(tokens, family);
    if m != [] {
      MemberFollowsPrevious(cfg, tokens, family, 0);
      forall k | 0 <= k < |m|
        ensures k > 0 ==> tokens[m[k]].parent == Some(m[k - 1])
        ensures tokens[m[k]].user == tokens[family].user && tokens[m[k]].client == tokens[family].client
        ensures k < |m| - 1 ==> tokens[m[k]].revoked
      {
        MemberFollowsPrevious(cfg, tokens, family, k);
      }
    }
  }

  lemma AtMostOneLivePerFamily(cfg: Settings, ops: seq<Op>, i: nat, j: nat)
    requires var tokens := Run(cfg, EMPTY, ops).tokens;
             && i < |tokens| && j < |tokens| && tokens[i].family == tokens[j].family
             && !tokens[i].revoked && !tokens[j].revoked
    ensures i == j
  {
    ReachableInv(cfg, ops);
  }

  lemma LiveTokenOwnerIsActive(cfg: Settings, ops: seq<Op>, i: nat)
    ensures var s := Run(cfg, EMPTY, ops);
            i < |s.tokens| && !s.tokens[i].revoked ==>
              && s.tokens[i].user < |s.users|
              && s.users[s.tokens[i].user].status == Active
              && s.users[s.tokens[i].user].isActive
  {
    ReachableInv(cfg, ops);
  }

  /** Families and LOGIN events pair up one to one, in order, by user and device. */
  lemma FamiliesMatchLogins(cfg: Settings, ops: seq<Op>)
    ensures var s := Run(cfg, EMPTY, ops); FamilyOwners(s.tokens) == LoginOwners(s.events)
  {
    ReachableInv(cfg, ops);
  }

  /** The lock and the last-login stamp can be read back from the event log. */
  lemma LogExplainsUserRow(cfg: Settings, ops: seq<Op>, u: nat)
    ensures var s := Run(cfg, EMPTY, ops);
            u < |s.users| ==>
              && s.users[u].lastLogin == LastAt(s.events, LoginEvent, u)
              && s.users[u].failed <= Limit(cfg)
              && (s.users[u].failed == Limit(cfg) <==> s.users[u].lockedUntil.Some?)
              && (s.users[u].lockedUntil.Some? ==>
                    LastAt(s.events, LockoutEvent, u) == Some(s.users[u].lockedUntil.value - cfg.lockout))
  {
    ReachableInv(cfg, ops);
    var s := Run(cfg, EMPTY, ops);
    if u < |s.users| {
      assert CounterShape(cfg, s.users[u]) && LoggedUser(cfg, s, u);
    }
  }

  // ----- rows persist ------------------------------------------------------

  /** Tokens keep their identity and stay revoked; the log only grows. */
  ghost predicate Extends(before: State, after: State) {
    && |before.tokens| <= |after.tokens|
    && |before.users| <= |after.users|
    && before.events <= after.events
    && forall i :: 0 <= i < |before.tokens| ==>
         SameOrRevoked(before.tokens[i], after.tokens[i])
  }

  lemma StepExtends(cfg: Settings, s: State, op: Op)
    ensures Extends(s, Step(cfg, s, op).0)
  {
  }

  lemma {:induction false} RunExtends(cfg: Settings, s: State, ops: seq<Op>)
    ensures Extends(s, Run(cfg, s, ops))
    decreases |ops|
  {
    if ops != [] {
      StepExtends(cfg, s, ops[0]);
      RunExtends(cfg, Step(cfg, s, ops[0]).0, ops[1..]);
    }
  }

  // ----- a family without a live token -------------------------------------

  ghost predicate FamilyDead(tokens: seq<Token>, family: nat) {
    && family < |tokens|
    && forall i :: 0 <= i < |tokens| && tokens[i].family == family ==> tokens[i].revoked
  }

  /** A refused refresh of a known token commits the death of its family, and a
      reuse is logged once, against the stored device. */
  lemma RefusedRefreshKillsFamily(cfg: Settings, s: State, raw: string, now: int, newRaw: string, i: nat)
    requires Inv(cfg, s) && i < |s.tokens| && s.tokens[i].hash == cfg.hash(raw)
    ensures var (after, r) := RefreshStep(cfg, s, raw, now, newRaw);
            && (r.TokenReuseDetected? <==> s.tokens[i].revoked)
            && (r.TokenReuseDetected? || r.InvalidRefreshToken? ==> FamilyDead(after.tokens, s.tokens[i].family))
            && (r.TokenReuseDetected? ==>
                  after.events == s.events + [Event(TokenReuseEvent, s.tokens[i].user, s.tokens[i].client, now)])
  {
    assert TokenShape(cfg, s.tokens, i);
  }

  lemma LogoutKillsFamily(cfg: Settings, s: State, raw: string, client: Client, now: int, loggedAt: int, i: nat)
    requires Inv(cfg, s) && i < |s.tokens| && s.tokens[i].hash == cfg.hash(raw) && !s.tokens[i].revoked
    ensures FamilyDead(LogoutStep(cfg, s, raw, client, now, loggedAt).0.tokens, s.tokens[i].family)
  {
    assert TokenShape(cfg, s.tokens, i);
  }

  lemma SuspensionKillsFamilies(cfg: Settings, s: State, op: Op, i: nat)
    requires Inv(cfg, s) && i < |s.tokens|
    requires op.Deactivate? || (op.SetStatus? && op.newStatus == Suspended)
    requires op.id == s.tokens[i].user && Step(cfg, s, op).1.Saved?
    ensures FamilyDead(Step(cfg, s, op).0.tokens, s.tokens[i].family)
  {
    var after := Step(cfg, s, op).0;
    assert TokenShape(cfg, s.tokens, i);
    forall j | 0 <= j < |after.tokens| && after.tokens[j].family == s.tokens[i].family
      ensures after.tokens[j].revoked
    {
      assert TokenShape(cfg, s.tokens, j);
    }
  }

  /** Only a rotation adds a token to an existing family, and it spends a live one. */
  lemma StepKeepsDead(cfg: Settings, s: State, op: Op, family: nat)
    requires Inv(cfg, s) && FamilyDead(s.tokens, family)
    ensures FamilyDead(Step(cfg, s, op).0.tokens, family)
  {
    var after := Step(cfg, s, op).0.tokens;
    StepExtends(cfg, s, op);
    NewTokenFamily(cfg, s, op);
    forall i | 0 <= i < |after| && after[i].family == family ensures after[i].revoked {
      if i < |s.tokens| { assert SameOrRevoked(s.tokens[i], after[i]); }
    }
  }

  lemma NewTokenFamily(cfg: Settings, s: State, op: Op)
    ensures var after := Step(cfg, s, op).0.tokens;
            forall i :: |s.tokens| <= i < |after| ==>
              after[i].family == |s.tokens| ||
              exists p :: 0 <= p < |s.tokens| && !s.tokens[p].revoked && s.tokens[p].family == after[i].family
  {
  }

  lemma {:induction false} DeadFamilyStaysDead(cfg: Settings, s: State, ops: seq<Op>, family: nat)
    requires Inv(cfg, s) && FamilyDead(s.tokens, family)
    ensures FamilyDead(Run(cfg, s, ops).tokens, family)
    decreases |ops|
  {
    if ops != [] {
      StepKeeps(cfg, s, ops[0]);
      StepKeepsDead(cfg, s, ops[0], family);
      DeadFamilyStaysDead(cfg, Step(cfg, s, ops[0]).0, ops[1..], family);
    }
  }

  /** Whatever happened since, presenting a token of a dead family is reported as reuse. */
  lemma DeadFamilyReportsReuse(cfg: Settings, s: State, ops: seq<Op>, i: nat, raw: string, now: int, newRaw: string)
    requires Inv(cfg, s) && i < |s.tokens| && FamilyDead(s.tokens, s.tokens[i].family)
    requires s.tokens[i].hash == cfg.hash(raw)
    ensures RefreshStep(cfg, Run(cfg, s, ops), raw, now, newRaw).1 == TokenReuseDetected
  {
    var later := Run(cfg, s, ops);
    RunKeeps(cfg, s, ops);
    RunExtends(cfg, s, ops);
    DeadFamilyStaysDead(cfg, s, ops, s.tokens[i].family);
    RefusedRefreshKillsFamily(cfg, later, raw, now, newRaw, i);
  }

  // ----- each token is rotated at most once --------------------------------

  lemma {:induction false} SpentNeverRotates(cfg: Settings, s: State, ops: seq<Op>, i: nat, k: nat)
    requires i < |s.tokens| && s.tokens[i].revoked && k < |ops|
    ensures Outcomes(cfg, s, ops)[k].Rotated? ==> Outcomes(cfg, s, ops)[k].parent != i
    decreases |ops|
  {
    StepExtends(cfg, s, ops[0]);
    if k > 0 {
      SpentNeverRotates(cfg, Step(cfg, s, ops[0]).0, ops[1..], i, k - 1);
    }
  }

  lemma {:induction false} RotatedAtMostOnce(cfg: Settings, s: State, ops: seq<Op>, j: nat, k: nat)
    requires j < k < |ops|
    requires Outcomes(cfg, s, ops)[j].Rotated? && Outcomes(cfg, s, ops)[k].Rotated?
    ensures Outcomes(cfg, s, ops)[j].parent != Outcomes(cfg, s, ops)[k].parent
    decreases |ops|
  {
    var next := Step(cfg, s, ops[0]).0;
    if j == 0 {
      SpentNeverRotates(cfg, next, ops[1..], Outcomes(cfg, s, ops)[0].parent, k - 1);
    } else {
      RotatedAtMostOnce(cfg, next, ops[1..], j - 1, k - 1);
    }
  }

  /** Exactly when a refresh succeeds: nothing about the owner is consulted. */
  lemma RefreshSucceedsIff(cfg: Settings, s: State, raw: string, now: int, newRaw: string)
    requires Inv(cfg, s)
    ensures RefreshStep(cfg, s, raw, now, newRaw).1.Rotated? <==>
            && (exists i :: 0 <= i < |s.tokens| && s.tokens[i].hash == cfg.hash(raw) &&
                            !s.tokens[i].revoked && now < s.tokens[i].expires)
            && (forall i :: 0 <= i < |s.tokens| ==> s.tokens[i].hash != cfg.hash(newRaw))
  {
    var found := FindByHash(s.tokens, cfg.hash(raw));
    if found.Some? {
      forall i | 0 <= i < |s.tokens| && s.tokens[i].hash == cfg.hash(raw) ensures i == found.value {}
    }
  }

  // ----- accounts ----------------------------------------------------------

  /** Exactly when a login succeeds in a run: right password, no lock in force, status active;
      the separate enabled flag never decides, and a taken token hash rolls the login back. */
  lemma LoginSucceedsIff(cfg: Settings, ops: seq<Op>, op: Op, u: nat)
    requires op.Login?
    ensures var s := Run(cfg, EMPTY, ops);
            (Step(cfg, s, op).1.LoggedIn? && Step(cfg, s, op).1.user == u) <==>
              && FindByEmail(cfg, s.users, op.email) == Some(u)
              && s.users[u].password == op.password
              && (s.users[u].lockedUntil.Some? ==> s.users[u].lockedUntil.value <= op.now)
              && s.users[u].status == Active
              && FindByHash(s.tokens, cfg.hash(op.newRaw)).None?
  {
    ReachableInv(cfg, ops);
  }

  /** A status changes only by an administrator acting on another account, and only along the
      allowed transitions; in particular nobody becomes invited again. */
  lemma StatusTransitions(cfg: Settings, s: State, op: Op, u: nat)
    requires u < |s.users|
    ensures var after := Step(cfg, s, op).0;
            && |s.users| <= |after.users|
            && (after.users[u].status != s.users[u].status ==>
                  && (op.SetStatus? || op.Deactivate?)
                  && op.id == u && op.actor != Some(u)
                  && after.users[u].status != Invited
                  && (after.users[u].status == Active ==> op.SetStatus? && after.users[u].isActive))
  {
  }

  /** The run asks nobody to activate the account. */
  ghost predicate NoActivation(ops: seq<Op>, u: nat) {
    forall k :: 0 <= k < |ops| ==> !(ops[k].SetStatus? && ops[k].id == u && ops[k].newStatus == Active)
  }

  /** The account is suspended, disabled and without a live token. */
  ghost predicate ShutOut(s: State, u: nat) {
    && u < |s.users| && s.users[u].status == Suspended && !s.users[u].isActive
    && forall i :: 0 <= i < |s.tokens| && s.tokens[i].user == u ==> s.tokens[i].revoked
  }

  lemma ShutOutOneStep(cfg: Settings, s: State, op: Op, u: nat)
    requires Inv(cfg, s) && ShutOut(s, u)
    requires !(op.SetStatus? && op.id == u && op.newStatus == Active)
    ensures ShutOut(Step(cfg, s, op).0, u)
  {
    var after := Step(cfg, s, op).0;
    StatusTransitions(cfg, s, op, u);
    StepExtends(cfg, s, op);
    NewTokenOwner(cfg, s, op);
    forall i | 0 <= i < |after.tokens| && after.tokens[i].user == u ensures after.tokens[i].revoked {
      if i < |s.tokens| { assert SameOrRevoked(s.tokens[i], after.tokens[i]); }
    }
  }

  /** A new token goes to a user who is active or holds a live token. */
  lemma NewTokenOwner(cfg: Settings, s: State, op: Op)
    ensures var after := Step(cfg, s, op).0.tokens;
            forall i :: |s.tokens| <= i < |after| ==>
              || (after[i].user < |s.users| && s.users[after[i].user].status == Active)
              || exists p :: 0 <= p < |s.tokens| && !s.tokens[p].revoked && s.tokens[p].user == after[i].user
  {
  }

  lemma {:induction false} RunShutOut(cfg: Settings, s: State, ops: seq<Op>, u: nat)
    requires Inv(cfg, s) && ShutOut(s, u) && NoActivation(ops, u)
    ensures ShutOut(Run(cfg, s, ops), u)
    decreases |ops|
  {
    if ops != [] {
      StepKeeps(cfg, s, ops[0]);
      ShutOutOneStep(cfg, s, ops[0], u);
      RunShutOut(cfg, Step(cfg, s, ops[0]).0, ops[1..], u);
    }
  }

  /** From its deactivation until somebody activates it, an account has no session and gets none. */
  lemma DeactivatedStaysOut(cfg: Settings, earlier: seq<Op>, deactivate: Op, later: seq<Op>)
    requires deactivate.Deactivate? && Step(cfg, Run(cfg, EMPTY, earlier), deactivate).1.Saved?
    requires NoActivation(later, deactivate.id)
    ensures ShutOut(Run(cfg, Step(cfg, Run(cfg, EMPTY, earlier), deactivate).0, later), deactivate.id)
  {
    var s := Run(cfg, EMPTY, earlier);
    ReachableInv(cfg, earlier);
    StepKeeps(cfg, s, deactivate);
    RunShutOut(cfg, Step(cfg, s, deactivate).0, later, deactivate.id);
  }

  // ----- conservation ------------------------------------------------------

  function OfUser(u: nat): Token -> bool { (t: Token) => t.user == u }
  function LiveOf(u: nat): Token -> bool { (t: Token) => t.user == u && !t.revoked }
  function RootOf(u: nat): Token -> bool { (t: Token) => t.user == u && t.parent.None? }
  function EventOf(kind: Kind, u: nat): Event -> bool { (e: Event) => e.kind == kind && e.user == u }

  /** Did this call rotate a token of the user? */
  predicate RotatesFor(cfg: Settings, s: State, op: Op, u: nat) {
    var r := Step(cfg, s, op).1;
    r.Rotated? && r.parent < |s.tokens| && s.tokens[r.parent].user == u
  }

  function Rotations(cfg: Settings, s: State, ops: seq<Op>, u: nat): nat
    decreases |ops|
  {
    if ops == [] then 0
    else Bit(RotatesFor(cfg, s, ops[0], u)) + Rotations(cfg, Step(cfg, s, ops[0]).0, ops[1..], u)
  }

  lemma {:induction false} RevocationKeepsCounts(before: seq<Token>, after: seq<Token>, u: nat)
    requires OnlyRevokes(before, after)
    ensures Count(after, OfUser(u)) == Count(before, OfUser(u))
    ensures Count(after, RootOf(u)) == Count(before, RootOf(u))
    ensures Count(after, LiveOf(u)) <= Count(before, LiveOf(u))
  {
    CountMonotone(before, after, LiveOf(u));
    CountMonotone(before, after, OfUser(u));
    CountMonotone(after, before, OfUser(u));
    CountMonotone(before, after, RootOf(u));
    CountMonotone(after, before, RootOf(u));
  }

  /** Per user: tokens, token families, live tokens plus LOGOUT events, and LOGIN events. */
  ghost predicate Balanced(s: State, u: nat, rotations: nat) {
    var logins := Count(s.events, EventOf(LoginEvent, u));
    && Count(s.tokens, OfUser(u)) == logins + rotations
    && Count(s.tokens, RootOf(u)) == logins
    && Count(s.tokens, LiveOf(u)) + Count(s.events, EventOf(LogoutEvent, u)) <= logins
  }

  lemma AppendTokenCounts(tokens: seq<Token>, token: Token, u: nat)
    ensures Count(tokens + [token], OfUser(u)) == Count(tokens, OfUser(u)) + Bit(token.user == u)
    ensures Count(tokens + [token], RootOf(u)) == Count(tokens, RootOf(u)) + Bit(token.user == u && token.parent.None?)
    ensures Count(tokens + [token], LiveOf(u)) == Count(tokens, LiveOf(u)) + Bit(token.user == u && !token.revoked)
  {
    CountAppend(tokens, token, OfUser(u));
    CountAppend(tokens, token, RootOf(u));
    CountAppend(tokens, token, LiveOf(u));
  }

  lemma AppendEventCounts(events: seq<Event>, event: Event, u: nat)
    ensures Count(events + [event], EventOf(LoginEvent, u)) ==
            Count(events, EventOf(LoginEvent, u)) + Bit(event.kind.LoginEvent? && event.user == u)
    ensures Count(events + [event], EventOf(LogoutEvent, u)) ==
            Count(events, EventOf(LogoutEvent, u)) + Bit(event.kind.LogoutEvent? && event.user == u)
  {
    CountAppend(events, event, EventOf(LoginEvent, u));
    CountAppend(events, event, EventOf(LogoutEvent, u));
  }

  /** A login appends its event together with one live root token; a failed one appends neither. */
  ghost predicate LoginEffect(s: State, after: State) {
    || (after.tokens == s.tokens && after.events == s.events)
    || (exists e ::
          after.tokens == s.tokens && after.events == s.events + [e] && e.kind != LoginEvent && e.kind != LogoutEvent)
    || (exists e, t: Token ::
          && after.tokens == s.tokens + [t] && after.events == s.events + [e]
          && e.kind == LoginEvent && e.user == t.user && t.parent.None? && !t.revoked)
  }

  lemma LoginHasEffect(cfg: Settings, s: State, op: Op)
    requires op.Login?
    ensures LoginEffect(s, Step(cfg, s, op).0)
  {
    var (after, r) := Step(cfg, s, op);
    if |after.events| > |s.events| {
      var e := after.events[|s.events|];
      assert after.events == s.events + [e];
      if r.LoggedIn? { assert after.tokens == s.tokens + [after.tokens[|s.tokens|]]; }
    }
  }

  lemma LoginEffectBalances(s: State, after: State, u: nat, n: nat)
    requires Balanced(s, u, n) && LoginEffect(s, after)
    ensures Balanced(after, u, n)
  {
    if |after.events| > |s.events| {
      AppendEventCounts(s.events, after.events[|s.events|], u);
      if |after.tokens| > |s.tokens| {
        AppendTokenCounts(s.tokens, after.tokens[|s.tokens|], u);
      }
    }
  }

  /** A step that revokes tokens, appends no token and logs no login or logout. */
  lemma RevocationBalances(s: State, after: State, u: nat, n: nat)
    requires Balanced(s, u, n) && OnlyRevokes(s.tokens, after.tokens)
    requires after.events == s.events
    ensures Balanced(after, u, n)
  {
    RevocationKeepsCounts(s.tokens, after.tokens, u);
  }

  lemma RotationBalances(cfg: Settings, s: State, op: Op, u: nat, n: nat)
    requires Balanced(s, u, n) && op.Refresh? && Step(cfg, s, op).1.Rotated?
    ensures Balanced(Step(cfg, s, op).0, u, n + Bit(RotatesFor(cfg, s, op, u)))
  {
    var (after, r) := Step(cfg, s, op);
    var i := r.parent;
    var spent := s.tokens[i := Revoked(s.tokens[i], op.now)];
    assert OnlyRevokes(s.tokens, spent);
    RevocationKeepsCounts(s.tokens, spent, u);
    CountUpdate(s.tokens, i, Revoked(s.tokens[i], op.now), LiveOf(u));
    AppendTokenCounts(spent, after.tokens[|spent|], u);
  }

  lemma ReuseBalances(s: State, family: nat, now: int, event: Event, u: nat, n: nat)
    requires Balanced(s, u, n) && event.kind.TokenReuseEvent?
    ensures Balanced(s.(tokens := RevokeFamily(s.tokens, family, now), events := s.events + [event]), u, n)
  {
    FamilyRevocation(s.tokens, family, now);
    RevocationKeepsCounts(s.tokens, RevokeFamily(s.tokens, family, now), u);
    AppendEventCounts(s.events, event, u);
  }

  lemma RefreshBalances(cfg: Settings, s: State, op: Op, u: nat, n: nat)
    requires Balanced(s, u, n) && op.Refresh?
    ensures Balanced(Step(cfg, s, op).0, u, n + Bit(RotatesFor(cfg, s, op, u)))
  {
    var r := Step(cfg, s, op).1;
    var found := FindByHash(s.tokens, cfg.hash(op.raw));
    if r.Rotated? {
      RotationBalances(cfg, s, op, u, n);
    } else if found.Some? {
      var current := s.tokens[found.value];
      if current.revoked {
        ReuseBalances(s, current.family, op.now, Event(TokenReuseEvent, current.user, current.client, op.now), u, n);
      } else {
        RevocationBalances(s, s.(tokens := s.tokens[found.value := Revoked(current, op.now)]), u, n);
      }
    }
  }

  lemma LogoutBalances(cfg: Settings, s: State, op: Op, u: nat, n: nat)
    requires Balanced(s, u, n) && op.Logout?
    ensures Balanced(Step(cfg, s, op).0, u, n)
  {
    var after := Step(cfg, s, op).0;
    if after != s {
      var i := FindByHash(s.tokens, cfg.hash(op.raw)).value;
      assert OnlyRevokes(s.tokens, after.tokens);
      RevocationKeepsCounts(s.tokens, after.tokens, u);
      CountUpdate(s.tokens, i, Revoked(s.tokens[i], op.now), LiveOf(u));
      AppendEventCounts(s.events, after.events[|s.events|], u);
    }
  }

  lemma AdminRevocation(cfg: Settings, s: State, op: Op)
    requires !op.Login? && !op.Refresh? && !op.Logout?
    ensures var after := Step(cfg, s, op).0; OnlyRevokes(s.tokens, after.tokens) && after.events == s.events
  {
  }

  lemma StepBalances(cfg: Settings, s: State, op: Op, u: nat, n: nat)
    requires Balanced(s, u, n)
    ensures Balanced(Step(cfg, s, op).0, u, n + Bit(RotatesFor(cfg, s, op, u)))
  {
    if op.Login? {
      LoginHasEffect(cfg, s, op);
      LoginEffectBalances(s, Step(cfg, s, op).0, u, n);
    } else if op.Refresh? {
      RefreshBalances(cfg, s, op, u, n);
    } else if op.Logout? {
      LogoutBalances(cfg, s, op, u, n);
    } else {
      AdminRevocation(cfg, s, op);
      RevocationBalances(s, Step(cfg, s, op).0, u, n);
    }
  }

  lemma {:induction false} RunBalances(cfg: Settings, s: State, ops: seq<Op>, u: nat, n: nat)
    requires Balanced(s, u, n)
    ensures Balanced(Run(cfg, s, ops), u, n + Rotations(cfg, s, ops, u))
    decreases |ops|
  {
    if ops != [] {
      StepBalances(cfg, s, ops[0], u, n);
      RunBalances(cfg, Step(cfg, s, ops[0]).0, ops[1..], u, n + Bit(RotatesFor(cfg, s, ops[0], u)));
    }
  }

  /** Tokens = LOGIN events + rotations, families = LOGIN events, and live tokens +
      LOGOUT events never exceed LOGIN events, for every user in every run. */
  lemma Conservation(cfg: Settings, ops: seq<Op>, u: nat)
    ensures Balanced(Run(cfg, EMPTY, ops), u, Rotations(cfg, EMPTY, ops, u))
  {
    RunBalances(cfg, EMPTY, ops, u, 0);
  }

  // ----- expiry ------------------------------------------------------------

  /** No stored token outlives one issued at `t`, and children never expire before their parents. */
  ghost predicate ExpiriesOrdered(cfg: Settings, tokens: seq<Token>, t: int) {
    && (forall i :: 0 <= i < |tokens| ==> tokens[i].expires <= t + cfg.lifetime)
    && (forall i :: 0 <= i < |tokens| && tokens[i].parent.Some? && tokens[i].parent.value < |tokens| ==>
          tokens[tokens[i].parent.value].expires <= tokens[i].expires)
  }

  ghost predicate ParentsEarlier(tokens: seq<Token>) {
    forall i :: 0 <= i < |tokens| && tokens[i].parent.Some? ==> tokens[i].parent.value < i
  }

  lemma RevokingOrdersExpiries(cfg: Settings, before: seq<Token>, after: seq<Token>, t: int, t': int)
    requires ExpiriesOrdered(cfg, before, t) && t <= t' && OnlyRevokes(before, after)
    ensures ExpiriesOrdered(cfg, after, t')
  {
  }

  lemma AppendingOrdersExpiries(cfg: Settings, before: seq<Token>, token: Token, t: int, t': int)
    requires ExpiriesOrdered(cfg, before, t) && t <= t' && ParentsEarlier(before)
    requires token.expires <= t' + cfg.lifetime
    requires token.parent.Some? ==> t + cfg.lifetime <= token.expires
    ensures ExpiriesOrdered(cfg, before + [token], t')
  {
  }

  /** What a step does to the token table: revoke, then append at most one token. */
  ghost predicate TokenEffect(cfg: Settings, before: seq<Token>, after: seq<Token>, op: Op) {
    var n := |before|;
    if |after| == n then OnlyRevokes(before, after)
    else
      && (op.Login? || op.Refresh?)
      && |after| == n + 1
      && OnlyRevokes(before, after[..n])
      && after[n].expires == LastReading(op, 0) + cfg.lifetime
  }

  lemma StepHasTokenEffect(cfg: Settings, s: State, op: Op)
    ensures TokenEffect(cfg, s.tokens, Step(cfg, s, op).0.tokens, op)
  {
  }

  lemma EffectOrdersExpiries(cfg: Settings, before: seq<Token>, after: seq<Token>, op: Op, t: int)
    requires Chains(cfg, before) && ExpiriesOrdered(cfg, before, t) && ReadsAfter(op, t)
    requires TokenEffect(cfg, before, after, op)
    ensures ExpiriesOrdered(cfg, after, LastReading(op, t))
  {
    var n := |before|;
    if |after| == n {
      RevokingOrdersExpiries(cfg, before, after, t, LastReading(op, t));
    } else {
      var spent := after[..n];
      RevokingOrdersExpiries(cfg, before, spent, t, t);
      forall i | 0 <= i < n && spent[i].parent.Some? ensures spent[i].parent.value < i {
        assert TokenShape(cfg, before, i);
      }
      AppendingOrdersExpiries(cfg, spent, after[n], t, LastReading(op, t));
      assert after == spent + [after[n]];
    }
  }

  lemma {:induction false} RunOrdersExpiries(cfg: Settings, s: State, ops: seq<Op>, a: int, b: int)
    requires Inv(cfg, s) && ExpiriesOrdered(cfg, s.tokens, a) && ClockedWithin(ops, a, b)
    ensures ExpiriesOrdered(cfg, Run(cfg, s, ops).tokens, b)
    decreases |ops|
  {
    if ops != [] {
      StepKeeps(cfg, s, ops[0]);
      StepHasTokenEffect(cfg, s, ops[0]);
      EffectOrdersExpiries(cfg, s.tokens, Step(cfg, s, ops[0]).0.tokens, ops[0], a);
      RunOrdersExpiries(cfg, Step(cfg, s, ops[0]).0, ops[1..], LastReading(ops[0], a), b);
    }
  }

  /** With a clock that never goes back, expiries do not decrease along a family. */
  lemma ExpiriesGrowAlongFamily(cfg: Settings, ops: seq<Op>, a: int, b: int, family: nat, k: nat)
    requires ClockedWithin(ops, a, b)
    ensures var tokens := Run(cfg, EMPTY, ops).tokens;
            var m := Members(tokens, family);
            0 < k < |m| ==> tokens[m[k - 1]].expires <= tokens[m[k]].expires <= b + cfg.lifetime
  {
    RunOrdersExpiries(cfg, EMPTY, ops, a, b);
    FamilyIsOneChain(cfg, ops, family);
    var tokens := Run(cfg, EMPTY, ops).tokens;
    var m := Members(tokens, family);
    if 0 < k < |m| {
      assert tokens[m[k]].parent == Some(m[k - 1]);
    }
  }
}
