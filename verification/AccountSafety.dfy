/** Safety of accounts over whole serial runs, of any length and any mix of the operations. */
module AccountSafety {
  import opened Wrappers
  import opened AuthLock
  import opened Accounts
  import opened AccountSteps
  import Text

  // ---------- One call, whichever it is ----------

  lemma OpSound(s: Db, e: Event)
    requires Inv(s)
    ensures Sound(s, e, OpEffect(s, e.now, e.op))
  {
    hide Inv, Sound, ValidateUserEffect, LoginEffect, RegisterEffect, RefreshEffect, LogoutEffect, ForgotPasswordEffect,
         ResetPasswordEffect, ChangePasswordEffect, VerifyEmailEffect, ResendVerificationEffect,
         AdminResendVerificationEffect, SendInviteEffect, ValidateInviteEffect, AcceptInviteEffect, CancelInviteEffect,
         ResendInviteEffect, DecideEffect, HardDeletePendingEffect, ProvisionEffect, UpdateStatusEffect,
         SoftDeleteEffect;
    match e.op
    case ValidateUser(_, _, _) => ValidateUserSound(s, e);
    case Login(_, _, _, _, _) => LoginSound(s, e);
    case Register(_, _, _) => RegisterSound(s, e);
    case Refresh(_, _, _) => RefreshSound(s, e);
    case Logout(_) => LogoutSound(s, e);
    case ForgotPassword(_) => ForgotPasswordSound(s, e);
    case ResetPassword(_, _) => ResetPasswordSound(s, e);
    case ChangePassword(_, _, _) => ChangePasswordSound(s, e);
    case VerifyEmail(_) => VerifyEmailSound(s, e);
    case ResendVerification(_) => ResendVerificationSound(s, e);
    case AdminResendVerification(_) => AdminResendVerificationSound(s, e);
    case SendInvite(_, _) => SendInviteSound(s, e);
    case ValidateInvite(_) => ValidateInviteSound(s, e);
    case AcceptInvite(_, _) => AcceptInviteSound(s, e);
    case CancelInvite(_) => CancelInviteSound(s, e);
    case ResendInvite(_) => ResendInviteSound(s, e);
    case Decide(_, _, _) => DecideSound(s, e);
    case HardDeletePending(_) => HardDeletePendingSound(s, e);
    case Provision(_, _, _) => ProvisionSound(s, e);
    case UpdateStatus(_, _, _) => UpdateStatusSound(s, e);
    case SoftDelete(_) => SoftDeleteSound(s, e);
  }

  lemma ApplySound(s: Db, e: Event)
    requires Inv(s)
    ensures Moves(s, e, Apply(s, e).db, Apply(s, e).outcome) && Inv(Apply(s, e).db)
    ensures Apply(s, e).db.clock == EndOf(e)
  {
    hide OpEffect, TicketsMove, InvitesMove, TicketsOk, InvitesOk, VerifiedClear, UsersOk, UserMoves;
    OpSound(s, e);
    var r := OpEffect(s, e.now, e.op);
    ClockIrrelevant(s, e, r.db, r.outcome, EndOf(e));
  }

  lemma ClockIrrelevant(s: Db, e: Event, t: Db, o: Outcome, clock: int)
    requires UsersMove(s, e, t, o)
    ensures UsersMove(s, e, t.(clock := clock), o)
  {
    forall u | u in t.users
      ensures UserMoves(s, e, t.(clock := clock), o, u)
    {
      assert UserMoves(s, e, t, o, u);
    }
  }

  // ---------- Whole runs ----------

  lemma EmptyInv()
    ensures Inv(EMPTY)
  {
  }

  /**
   In every reachable state emails are unique, each user has at most one unused reset link and at most one
   unused verification link, a verified user has none, and no two invitations share a token.
   */
  lemma {:induction false} ReachableInv(es: seq<Event>)
    ensures Inv(After(es))
    decreases |es|
  {
    hide Inv, Apply, Moves;
    if es == [] {
      EmptyInv();
    } else {
      var n := |es| - 1;
      ReachableInv(es[..n]);
      ApplySound(After(es[..n]), es[n]);
    }
  }

  /** Call i takes the state before it to the state after it, with all that any call guarantees. */
  lemma StepAt(es: seq<Event>, i: nat)
    requires i < |es|
    ensures After(es[..i + 1]) == Apply(After(es[..i]), es[i]).db
    ensures Inv(After(es[..i])) && Moves(After(es[..i]), es[i], After(es[..i + 1]), OutcomeAt(es, i))
    ensures After(es[..i + 1]).clock == EndOf(es[i])
  {
    hide Inv, Apply, Moves;
    ReachableInv(es[..i]);
    assert es[..i + 1][..i] == es[..i] && es[..i + 1][i] == es[i];
    ApplySound(After(es[..i]), es[i]);
    OutcomeIs(es, i);
  }

  lemma OutcomeIs(es: seq<Event>, i: nat)
    requires i < |es|
    ensures OutcomeAt(es, i) == Apply(After(es[..i]), es[i]).outcome
  {
  }

  // ---------- Sessions ----------

  /** The refresh token of the user's last session, unless it was ended since. */
  ghost function Session(es: seq<Event>, u: UserId): Option<string> {
    if es == [] then None
    else
      var n := |es| - 1;
      match OutcomeAt(es, n)
      case Tokens(v, jwt) => if u == v then Some(jwt) else Session(es[..n], u)
      case SessionEnded(v) => if u == v then None else Session(es[..n], u)
      case PasswordReset(v) => if u == v then None else Session(es[..n], u)
      case _ => Session(es[..n], u)
  }

  lemma AfterNothing()
    ensures After([]) == EMPTY
  {
  }

  lemma {:induction false} StoredHashIsSession(es: seq<Event>, u: UserId)
    ensures u in After(es).users ==>
      After(es).users[u].refresh == match Session(es, u) case None => None case Some(jwt) => Some(Argon2(jwt))
    ensures u >= After(es).nextUser ==> Session(es, u).None?
    decreases |es|
  {
    hide Apply, OutcomeAt, After, Inv, Moves;
    if es == [] {
      AfterNothing();
    } else {
      var n := |es| - 1;
      StoredHashIsSession(es[..n], u);
      StepAt(es, n);
      assert es[..n + 1] == es;
      SessionMoves(After(es[..n]), es[n], After(es), OutcomeAt(es, n), u);
    }
  }

  lemma SessionMoves(s: Db, e: Event, t: Db, o: Outcome, u: UserId)
    requires Inv(s) && Moves(s, e, t, o)
    ensures u in t.users && u in s.users ==> t.users[u].refresh == RefreshAfter(o, u, s.users[u].refresh)
    ensures u in t.users && u !in s.users ==> t.users[u].refresh == None && u == s.nextUser && o == Created(u)
    ensures s.nextUser <= t.nextUser
    ensures Touched(o) == Some(u) ==> u < s.nextUser
  {
    hide TicketsMove, InvitesMove, TicketsOk, InvitesOk, VerifiedClear;
    assert u in t.users ==> UserMoves(s, e, t, o, u);
  }

  /** The stored-hash check that refresh makes. */
  predicate PassesStoredCheck(user: User, token: string) {
    user.refresh.Some? && Verify(user.refresh.value, token)
  }

  /** A token passes the check exactly when it is the last one issued, with no later logout, reset or change. */
  lemma OnlyTheLastTokenPasses(es: seq<Event>, u: UserId, token: string)
    requires u in After(es).users
    ensures PassesStoredCheck(After(es).users[u], token) <==> token != "" && Session(es, u) == Some(token)
  {
    StoredHashIsSession(es, u);
  }

  // ---------- Approval ----------

  lemma ApprovalMoves(es: seq<Event>, i: nat, u: UserId)
    requires i < |es| && u in After(es[..i + 1]).users
    ensures u in After(es[..i]).users ==>
      After(es[..i + 1]).users[u].approval == ApprovalAfter(OutcomeAt(es, i), u, After(es[..i]).users[u].approval)
    ensures u !in After(es[..i]).users ==>
      && OutcomeAt(es, i) == Created(u)
      && After(es[..i + 1]).users[u].approval == if es[i].op.Provision? then APPROVED else PENDING
  {
    StepAt(es, i);
    hide Apply, OutcomeAt, After, Inv, TicketsMove, InvitesMove, OutcomeTrue;
    assert UserMoves(After(es[..i]), es[i], After(es[..i + 1]), OutcomeAt(es, i), u);
  }

  lemma DecidedWasPending(es: seq<Event>, i: nat, u: UserId, approved: bool)
    requires i < |es| && OutcomeAt(es, i) == Decided(u, approved)
    ensures u in After(es[..i]).users && After(es[..i]).users[u].approval == PENDING
  {
    StepAt(es, i);
    hide Apply, OutcomeAt, After, Inv, TicketsMove, InvitesMove, UsersMove;
  }

  /** Account identifiers are never reused: once gone, a user stays gone. */
  lemma {:induction false} GoneStaysGone(es: seq<Event>, i: nat, j: nat, u: UserId)
    requires i <= j <= |es| && u < After(es[..i]).nextUser && u !in After(es[..i]).users
    ensures u < After(es[..j]).nextUser && u !in After(es[..j]).users
    decreases j - i
  {
    hide Apply, OutcomeAt, After, Inv, Moves;
    if i < j {
      GoneStaysGone(es, i, j - 1, u);
      StepAt(es, j - 1);
      SessionMoves(After(es[..j - 1]), es[j - 1], After(es[..j]), OutcomeAt(es, j - 1), u);
    }
  }

  /** A status other than pending never changes again. */
  lemma {:induction false} DecisionIsFinal(es: seq<Event>, i: nat, j: nat, u: UserId)
    requires i <= j <= |es| && u in After(es[..i]).users && u in After(es[..j]).users
    requires After(es[..i]).users[u].approval != PENDING
    ensures After(es[..j]).users[u].approval == After(es[..i]).users[u].approval
    decreases j - i
  {
    hide After, OutcomeAt;
    if i < j {
      KnownBelowNext(es, i, u);
      if u !in After(es[..j - 1]).users {
        AbsentStaysAbsent(es, i, j - 1, j, u);
      } else {
        DecisionIsFinal(es, i, j - 1, u);
        ApprovalMoves(es, j - 1, u);
        if OutcomeAt(es, j - 1).Decided? && OutcomeAt(es, j - 1).user == u {
          DecidedWasPending(es, j - 1, u, OutcomeAt(es, j - 1).approved);
        }
      }
    }
  }

  lemma KnownBelowNext(es: seq<Event>, i: nat, u: UserId)
    requires i <= |es| && u in After(es[..i]).users
    ensures u < After(es[..i]).nextUser
  {
    ReachableInv(es[..i]);
    hide After;
  }

  lemma {:induction false} NextUserGrows(es: seq<Event>, i: nat, j: nat)
    requires i <= j <= |es|
    ensures After(es[..i]).nextUser <= After(es[..j]).nextUser
    ensures After(es[..i]).nextToken <= After(es[..j]).nextToken
    decreases j - i
  {
    hide Apply, OutcomeAt, After, Inv, Moves;
    if i < j {
      NextUserGrows(es, i, j - 1);
      StepAt(es, j - 1);
      CountersGrow(After(es[..j - 1]), es[j - 1], After(es[..j]), OutcomeAt(es, j - 1));
    }
  }

  lemma CountersGrow(s: Db, e: Event, t: Db, o: Outcome)
    requires Moves(s, e, t, o)
    ensures s.nextUser <= t.nextUser && s.nextToken <= t.nextToken
  {
    hide TicketsMove, InvitesMove, UsersMove;
  }

  lemma AbsentStaysAbsent(es: seq<Event>, i: nat, k: nat, j: nat, u: UserId)
    requires i <= k <= j <= |es| && u in After(es[..i]).users && u !in After(es[..k]).users
    ensures u !in After(es[..j]).users
  {
    hide After;
    KnownBelowNext(es, i, u);
    NextUserGrows(es, i, k);
    GoneStaysGone(es, k, j, u);
  }

  predicate Decides(o: Outcome, u: UserId) {
    o.Decided? && o.user == u
  }

  lemma OnlyPendingIsDecided(es: seq<Event>, j: nat, u: UserId)
    requires j < |es|
    requires u in After(es[..j]).users ==> After(es[..j]).users[u].approval != PENDING
    ensures !Decides(OutcomeAt(es, j), u)
  {
    hide After, OutcomeAt;
    if Decides(OutcomeAt(es, j), u) {
      DecidedWasPending(es, j, u, OutcomeAt(es, j).approved);
    }
  }

  /** No account is approved or rejected twice. */
  lemma DecidedAtMostOnce(es: seq<Event>, i: nat, j: nat, u: UserId)
    requires i < j < |es| && Decides(OutcomeAt(es, i), u)
    ensures !Decides(OutcomeAt(es, j), u)
  {
    hide After, OutcomeAt;
    DecidedWasPending(es, i, u, OutcomeAt(es, i).approved);
    if u !in After(es[..i + 1]).users {
      AbsentStaysAbsent(es, i, i + 1, j, u);
    } else if u in After(es[..j]).users {
      ApprovalMoves(es, i, u);
      DecisionIsFinal(es, i + 1, j, u);
    }
    OnlyPendingIsDecided(es, j, u);
  }

  /** Where an approval comes from: a decision, or creation by an administrator. */
  ghost predicate ApprovedBefore(es: seq<Event>, n: nat, u: UserId)
    requires n <= |es|
  {
    exists i :: 0 <= i < n && (OutcomeAt(es, i) == Decided(u, true)
                               || (es[i].op.Provision? && OutcomeAt(es, i) == Created(u)))
  }

  lemma {:induction false} ApprovalHasSource(es: seq<Event>, n: nat, u: UserId)
    requires n <= |es| && u in After(es[..n]).users && After(es[..n]).users[u].approval == APPROVED
    ensures ApprovedBefore(es, n, u)
    decreases n
  {
    if n > 0 {
      hide After, OutcomeAt;
      ApprovalMoves(es, n - 1, u);
      if u in After(es[..n - 1]).users && After(es[..n - 1]).users[u].approval == APPROVED {
        ApprovalHasSource(es, n - 1, u);
      } else {
        assert OutcomeAt(es, n - 1) == Decided(u, true)
          || (es[n - 1].op.Provision? && OutcomeAt(es, n - 1) == Created(u));
      }
    }
  }

  /** Every token pair is preceded by the user's approval. */
  lemma TokensNeedApproval(es: seq<Event>, n: nat, u: UserId, jwt: string)
    requires n < |es| && OutcomeAt(es, n) == Tokens(u, jwt)
    ensures ApprovedBefore(es, n, u)
  {
    hide After, OutcomeAt, Apply, ApprovedBefore;
    StepAt(es, n);
    TokensWereApproved(After(es[..n]), es[n], After(es[..n + 1]), OutcomeAt(es, n));
    ApprovalHasSource(es, n, u);
  }

  lemma TokensWereApproved(s: Db, e: Event, t: Db, o: Outcome)
    requires Moves(s, e, t, o) && o.Tokens?
    ensures o.user in s.users && s.users[o.user].approval == APPROVED
  {
    hide TicketsMove, InvitesMove, UsersMove;
  }

  // ---------- Links ----------

  /** A link that was issued and does not validate now never validates again. */
  ghost predicate DeadLink(table: Tickets, next: nat, raw: Token, now: int) {
    Serial(raw) < next && !Validates(table, raw, now)
  }

  lemma DeadLinkMoves(table: Tickets, next: nat, table': Tickets, next': nat, issuedTo: Option<UserId>,
                      raw: Token, now: int, later: int)
    requires TicketsMove(table, next, table', next', issuedTo) && next <= next'
    requires DeadLink(table, next, raw, now) && now <= later
    ensures DeadLink(table', next', raw, later)
  {
  }

  /** The tables of call i, its state and the times around it. */
  lemma TablesAt(es: seq<Event>, i: nat)
    requires i < |es| && Serialised(es)
    ensures var s, t, o := After(es[..i]), After(es[..i + 1]), OutcomeAt(es, i);
      && TicketsMove(s.resets, s.nextToken, t.resets, t.nextToken, ResetIssuedTo(o))
      && TicketsMove(s.verifications, s.nextToken, t.verifications, t.nextToken, VerificationIssuedTo(es[i], o))
      && InvitesMove(s.invites, s.nextToken, t.invites, t.nextToken)
      && s.nextToken <= t.nextToken && s.clock <= es[i].now <= t.clock
  {
    StepAt(es, i);
    hide Apply, OutcomeAt, After, Inv, TicketsMove, InvitesMove, UsersMove;
  }

  /** Consumed, superseded or expired: a dead reset link stays dead for the rest of the run. */
  lemma {:induction false} DeadResetLinkStaysDead(es: seq<Event>, i: nat, j: nat, raw: Token)
    requires i <= j <= |es| && Serialised(es)
    requires DeadLink(After(es[..i]).resets, After(es[..i]).nextToken, raw, After(es[..i]).clock)
    ensures DeadLink(After(es[..j]).resets, After(es[..j]).nextToken, raw, After(es[..j]).clock)
    decreases j - i
  {
    hide After, OutcomeAt, DeadLink, Serialised;
    if i < j {
      DeadResetLinkStaysDead(es, i, j - 1, raw);
      TablesAt(es, j - 1);
      var s, t := After(es[..j - 1]), After(es[..j]);
      DeadLinkMoves(s.resets, s.nextToken, t.resets, t.nextToken, ResetIssuedTo(OutcomeAt(es, j - 1)),
                    raw, s.clock, t.clock);
    }
  }

  lemma {:induction false} DeadVerificationLinkStaysDead(es: seq<Event>, i: nat, j: nat, raw: Token)
    requires i <= j <= |es| && Serialised(es)
    requires DeadLink(After(es[..i]).verifications, After(es[..i]).nextToken, raw, After(es[..i]).clock)
    ensures DeadLink(After(es[..j]).verifications, After(es[..j]).nextToken, raw, After(es[..j]).clock)
    decreases j - i
  {
    hide After, OutcomeAt, DeadLink, Serialised;
    if i < j {
      DeadVerificationLinkStaysDead(es, i, j - 1, raw);
      TablesAt(es, j - 1);
      var s, t := After(es[..j - 1]), After(es[..j]);
      DeadLinkMoves(s.verifications, s.nextToken, t.verifications, t.nextToken,
                    VerificationIssuedTo(es[j - 1], OutcomeAt(es, j - 1)), raw, s.clock, t.clock);
    }
  }

  ghost predicate NoOpenReset(s: Db, u: UserId) {
    forall k :: k in s.resets && s.resets[k].user == u ==> s.resets[k].used
  }

  /** A successful reset uses the link up and leaves the user without any usable one. */
  lemma ResetLeavesNoLink(s: Db, now: int, token: Token, password: string)
    requires Inv(s)
    requires ResetPasswordEffect(s, now, token, password).outcome.PasswordReset?
    ensures var r := ResetPasswordEffect(s, now, token, password);
      NoOpenReset(r.db, r.outcome.user) && Validates(s.resets, token, now)
  {
    hide VerifiedClear, InvitesOk, UsersOk;
  }

  /** After a reset, no reset link of that user validates until a new one is sent to that user. */
  lemma {:induction false} NoLinkUntilNewOne(es: seq<Event>, i: nat, j: nat, u: UserId)
    requires i <= j <= |es| && Serialised(es) && NoOpenReset(After(es[..i]), u)
    requires forall k :: i <= k < j ==> ResetIssuedTo(OutcomeAt(es, k)) != Some(u)
    ensures NoOpenReset(After(es[..j]), u)
    decreases j - i
  {
    hide After, OutcomeAt, Serialised, NoOpenReset;
    if i < j {
      NoLinkUntilNewOne(es, i, j - 1, u);
      TablesAt(es, j - 1);
      NoOpenResetMoves(After(es[..j - 1]), After(es[..j]), ResetIssuedTo(OutcomeAt(es, j - 1)), u);
    }
  }

  lemma NoOpenResetMoves(s: Db, t: Db, issuedTo: Option<UserId>, u: UserId)
    requires NoOpenReset(s, u) && issuedTo != Some(u)
    requires TicketsMove(s.resets, s.nextToken, t.resets, t.nextToken, issuedTo)
    ensures NoOpenReset(t, u)
  {
  }

  lemma IssuedLinkWorks(table: Tickets, users: Users, next: nat, u: UserId, expiresAt: int, raw: Token, later: int)
    requires TicketsOk(table, users, next)
    ensures var t := Issue(table, u, Sha256(Raw(next)), expiresAt);
      && (Validates(t, Raw(next), later) <==> later < expiresAt)
      && (raw != Raw(next) && Validates(t, raw, later) ==> t[Sha256(raw)].user != u)
  {
    if Sha256(raw) in table {
      assert Serial(Sha256(raw)) < next;
    }
  }

  /** A new reset link works for exactly one hour, and from then on it is the user's only one. */
  lemma NewResetLink(s: Db, now: int, email: string, u: UserId, link: Token, raw: Token, later: int)
    requires Inv(s) && ForgotPasswordEffect(s, now, email).outcome == ResetLinkSent(u, link)
    ensures var t := ForgotPasswordEffect(s, now, email).db;
      && (Validates(t.resets, link, later) <==> later < now + HOUR)
      && (raw != link && Validates(t.resets, raw, later) ==> t.resets[Sha256(raw)].user != u)
  {
    hide UserByEmail, Validates, Issue, VerifiedClear, InvitesOk, UsersOk, TicketsOk;
    IssuedLinkWorks(s.resets, s.users, s.nextToken, u, now + HOUR, raw, later);
  }

  /** A valid verification link always belongs to a user who is still unverified. */
  lemma ValidLinkMeansUnverified(es: seq<Event>, token: Token, now: int)
    requires Validates(After(es).verifications, token, now)
    ensures var u := After(es).verifications[Sha256(token)].user;
      u in After(es).users && !After(es).users[u].verified
  {
    ReachableInv(es);
    hide After;
  }

  // ---------- Invitations ----------

  ghost predicate DeadInvite(invites: Invites, next: nat, token: Token, now: int) {
    Serial(token) < next && !Acceptable(invites, token, now)
  }

  lemma DeadInviteMoves(invites: Invites, next: nat, invites': Invites, next': nat, token: Token, now: int, later: int)
    requires InvitesMove(invites, next, invites', next') && next <= next'
    requires DeadInvite(invites, next, token, now) && now <= later
    ensures DeadInvite(invites', next', token, later)
  {
    if e :| e in invites' && invites'[e].token == token && InviteOpen(invites'[e], later) {
      assert e in invites && invites[e].token == token && InviteOpen(invites[e], now);
    }
  }

  /** Accepted, cancelled, expired or replaced: such a token is never acceptable again. */
  lemma {:induction false} DeadInviteStaysDead(es: seq<Event>, i: nat, j: nat, token: Token)
    requires i <= j <= |es| && Serialised(es)
    requires DeadInvite(After(es[..i]).invites, After(es[..i]).nextToken, token, After(es[..i]).clock)
    ensures DeadInvite(After(es[..j]).invites, After(es[..j]).nextToken, token, After(es[..j]).clock)
    decreases j - i
  {
    hide After, OutcomeAt, DeadInvite, Serialised;
    if i < j {
      DeadInviteStaysDead(es, i, j - 1, token);
      TablesAt(es, j - 1);
      var s, t := After(es[..j - 1]), After(es[..j]);
      DeadInviteMoves(s.invites, s.nextToken, t.invites, t.nextToken, token, s.clock, t.clock);
    }
  }

  /** The invitation token, if any, on which an account was created. */
  function CreatedOn(e: Event, o: Outcome): Option<Token> {
    if !o.Created? then None
    else
      match e.op
      case Register(_, _, invite) => invite
      case AcceptInvite(token, _) => Some(token)
      case _ => None
  }

  lemma RegisterAsRole(s: Db, now: int, email: string, password: string, role: Role)
    ensures var r := RegisterAs(s, now, email, password, role);
      r.outcome.Created? ==> r.outcome.user in r.db.users && r.db.users[r.outcome.user].role == role
                             && r.db.users[r.outcome.user].email == email
  {
    hide UserByEmail;
  }

  /** The presented token names an open invitation of this email, for this role. */
  ghost predicate Invited(s: Db, token: Token, now: int, user: User) {
    exists e :: e in s.invites && s.invites[e].token == token && InviteOpen(s.invites[e], now)
                && s.invites[e].role == user.role && NormalEmail(e) == NormalEmail(user.email)
  }

  /** No invitation with this token is open, whatever the time. */
  ghost predicate Closed(invites: Invites, token: Token) {
    forall e :: e in invites && invites[e].token == token ==> invites[e].status != OPEN
  }

  lemma AcceptedIsClosed(s: Db, email: string, token: Token)
    requires InvitesOk(s.invites, s.nextToken) && email in s.invites && s.invites[email].token == token
    ensures Closed(SetStatus(s, email, ACCEPTED).invites, token)
  {
  }

  lemma NormalEmailIdempotent(email: string)
    ensures NormalEmail(NormalEmail(email)) == NormalEmail(email)
  {
    Text.TrimLowerIdempotent(email);
  }

  lemma RegisterOnInvite(s: Db, now: int, email: string, password: string, invite: Option<Token>)
    requires Inv(s)
    ensures var r := RegisterEffect(s, now, email, password, invite);
      r.outcome.Created? ==>
        && r.outcome.user in r.db.users
        && (invite.None? ==> r.db.users[r.outcome.user].role == MEMBER)
        && (invite.Some? ==> Invited(s, invite.value, now, r.db.users[r.outcome.user])
                             && Closed(r.db.invites, invite.value))
  {
    hide UserByEmail, InviteByToken, RegisterAs, NormalEmail, Closed, TicketsOk, VerifiedClear, UsersOk, InvitesOk;
    var r := RegisterEffect(s, now, email, password, invite);
    if r.outcome.Created? {
      NormalEmailIdempotent(email);
      RegisterAsRole(s, now, NormalEmail(email), password, MEMBER);
      if invite.Some? {
        FoundByToken(s.invites, invite.value);
        var found := InviteByToken(s.invites, invite.value).value;
        RegisterAsRole(s, now, NormalEmail(email), password, s.invites[found].role);
        AcceptedIsClosed(s, found, invite.value);
        assert Invited(s, invite.value, now, r.db.users[r.outcome.user]);
      }
    }
  }

  lemma AcceptOnInvite(s: Db, now: int, token: Token, password: string)
    requires Inv(s)
    ensures var r := AcceptInviteEffect(s, now, token, password);
      r.outcome.Created? ==>
        && r.outcome.user in r.db.users
        && Invited(s, token, now, r.db.users[r.outcome.user])
        && Closed(r.db.invites, token)
  {
    hide UserByEmail, InviteByToken, NormalEmail, Closed, TicketsOk, VerifiedClear, UsersOk, InvitesOk;
    var r := AcceptInviteEffect(s, now, token, password);
    if r.outcome.Created? {
      FoundByToken(s.invites, token);
      var found := InviteByToken(s.invites, token).value;
      AcceptedIsClosed(s, found, token);
      assert Invited(s, token, now, r.db.users[r.outcome.user]);
    }
  }

  /** Creation on a token: it was open before, it is closed afterwards. */
  lemma CreationClosesInvite(es: seq<Event>, i: nat, token: Token)
    requires i < |es| && CreatedOn(es[i], OutcomeAt(es, i)) == Some(token)
    ensures Acceptable(After(es[..i]).invites, token, es[i].now)
    ensures Closed(After(es[..i + 1]).invites, token)
  {
    StepAt(es, i);
    OutcomeIs(es, i);
    hide After, OutcomeAt, Acceptable, Closed, Invited, Inv, Moves, RegisterEffect, AcceptInviteEffect;
    var s, e := After(es[..i]), es[i];
    CreationOnToken(s, e, token);
  }

  lemma CreationOnToken(s: Db, e: Event, token: Token)
    requires Inv(s) && CreatedOn(e, Apply(s, e).outcome) == Some(token)
    ensures Acceptable(s.invites, token, e.now)
    ensures Apply(s, e).outcome.user in Apply(s, e).db.users
    ensures Invited(s, token, e.now, Apply(s, e).db.users[Apply(s, e).outcome.user])
    ensures Closed(Apply(s, e).db.invites, token)
  {
    hide Inv, RegisterEffect, AcceptInviteEffect, Acceptable, Closed, Invited;
    match e.op
    case Register(email, password, invite) =>
      RegisterOnInvite(s, e.now, email, password, invite);
      InvitedIsAcceptable(s, token, e.now, Apply(s, e).db.users[Apply(s, e).outcome.user]);
    case AcceptInvite(t, password) =>
      AcceptOnInvite(s, e.now, t, password);
      InvitedIsAcceptable(s, token, e.now, Apply(s, e).db.users[Apply(s, e).outcome.user]);
  }

  lemma InvitedIsAcceptable(s: Db, token: Token, now: int, user: User)
    requires Invited(s, token, now, user)
    ensures Acceptable(s.invites, token, now)
  {
  }

  /** Each invitation token yields at most one account. */
  lemma OneAccountPerToken(es: seq<Event>, i: nat, j: nat, token: Token)
    requires i < j < |es| && Serialised(es)
    requires CreatedOn(es[i], OutcomeAt(es, i)) == Some(token)
    ensures CreatedOn(es[j], OutcomeAt(es, j)) != Some(token)
  {
    hide After, OutcomeAt, Acceptable, Closed, Serialised;
    CreationClosesInvite(es, i, token);
    AcceptableWasIssued(es, i, token, es[i].now);
    NextUserGrows(es, i, i + 1);
    ClosedIsNotAcceptable(After(es[..i + 1]).invites, token, After(es[..i + 1]).clock);
    DeadInviteStaysDead(es, i + 1, j, token);
    if CreatedOn(es[j], OutcomeAt(es, j)) == Some(token) {
      CreationClosesInvite(es, j, token);
      TablesAt(es, j);
      LaterNotAcceptable(After(es[..j]).invites, token, After(es[..j]).clock, es[j].now);
    }
  }

  lemma ClosedIsNotAcceptable(invites: Invites, token: Token, now: int)
    requires Closed(invites, token)
    ensures !Acceptable(invites, token, now)
  {
  }

  lemma AcceptableWasIssued(es: seq<Event>, i: nat, token: Token, now: int)
    requires i <= |es| && Acceptable(After(es[..i]).invites, token, now)
    ensures Serial(token) < After(es[..i]).nextToken
  {
    ReachableInv(es[..i]);
    hide After;
  }

  lemma LaterNotAcceptable(invites: Invites, token: Token, now: int, later: int)
    requires !Acceptable(invites, token, now) && now <= later
    ensures !Acceptable(invites, token, later)
  {
    if e :| e in invites && invites[e].token == token && InviteOpen(invites[e], later) {
      assert InviteOpen(invites[e], now);
    }
  }

  /** Only an invited account starts with more than the member role. */
  lemma NonMemberNeedsInvitation(s: Db, e: Event)
    requires Inv(s) && (e.op.Register? || e.op.AcceptInvite?) && Apply(s, e).outcome.Created?
    ensures Apply(s, e).outcome.user in Apply(s, e).db.users
    ensures var user := Apply(s, e).db.users[Apply(s, e).outcome.user];
      user.role != MEMBER ==>
        exists token :: CreatedOn(e, Apply(s, e).outcome) == Some(token) && Invited(s, token, e.now, user)
  {
    hide Inv, RegisterEffect, AcceptInviteEffect, Invited, Closed;
    match e.op
    case Register(email, password, invite) => RegisterOnInvite(s, e.now, email, password, invite);
    case AcceptInvite(token, password) => AcceptOnInvite(s, e.now, token, password);
  }

  /** An invitation's role comes from the call that sent it: no other call makes one or changes its role. */
  ghost predicate RolesStay(s: Db, e: Event, r: Effect) {
    forall email :: email in r.db.invites ==>
      || (email in s.invites && r.db.invites[email].role == s.invites[email].role)
      || (e.op == SendInvite(email, r.db.invites[email].role) && r.outcome.InviteSent?)
  }

  lemma SameInvitesRolesStay(s: Db, e: Event, r: Effect)
    requires r.db.invites == s.invites
    ensures RolesStay(s, e, r)
  {
  }

  lemma RegisterRolesStay(s: Db, e: Event)
    requires e.op.Register?
    ensures RolesStay(s, e, RegisterEffect(s, e.now, e.op.email, e.op.password, e.op.invite))
  {
    hide UserByEmail, InviteByToken, NormalEmail, Issue;
    if e.op.invite.Some? {
      FoundByToken(s.invites, e.op.invite.value);
    }
  }

  lemma AcceptRolesStay(s: Db, e: Event)
    requires e.op.AcceptInvite?
    ensures RolesStay(s, e, AcceptInviteEffect(s, e.now, e.op.token, e.op.password))
  {
    hide UserByEmail, InviteByToken;
    FoundByToken(s.invites, e.op.token);
  }

  lemma InviteCallsRolesStay(s: Db, e: Event)
    requires e.op.SendInvite? || e.op.ValidateInvite? || e.op.CancelInvite? || e.op.ResendInvite?
    ensures RolesStay(s, e, OpEffect(s, e.now, e.op))
  {
    hide UserByEmail, InviteByToken;
    if e.op.ValidateInvite? {
      FoundByToken(s.invites, e.op.token);
    }
  }

  lemma OpRolesStay(s: Db, e: Event)
    ensures RolesStay(s, e, OpEffect(s, e.now, e.op))
  {
    if e.op.Register? {
      hide RolesStay, RegisterEffect;
      RegisterRolesStay(s, e);
    } else if e.op.AcceptInvite? {
      hide RolesStay, AcceptInviteEffect;
      AcceptRolesStay(s, e);
    } else if e.op.SendInvite? || e.op.ValidateInvite? || e.op.CancelInvite? || e.op.ResendInvite? {
      hide RolesStay, OpEffect;
      InviteCallsRolesStay(s, e);
    } else {
      hide RolesStay, UserByEmail, IsAccountLocked, Verify, Validates, NormalEmail, Issue, Consume, WithoutUnused,
           WithoutUser;
      SameInvitesRolesStay(s, e, OpEffect(s, e.now, e.op));
    }
  }

  lemma ApplyRolesStay(s: Db, e: Event)
    ensures RolesStay(s, e, Apply(s, e))
  {
    hide OpEffect;
    OpRolesStay(s, e);
  }

  /** An administrator sent an invitation for this role to this email before call n. */
  ghost predicate SentBefore(es: seq<Event>, n: nat, email: string, role: Role)
    requires n <= |es|
  {
    exists i :: 0 <= i < n && es[i].op == SendInvite(email, role) && OutcomeAt(es, i).InviteSent?
  }

  lemma {:induction false} InviteHasSender(es: seq<Event>, n: nat, email: string)
    requires n <= |es| && email in After(es[..n]).invites
    ensures SentBefore(es, n, email, After(es[..n]).invites[email].role)
    decreases n
  {
    assert es[..0] == [];
    AfterNothing();
    if n > 0 {
      ApplyRolesStay(After(es[..n - 1]), es[n - 1]);
      StepAt(es, n - 1);
      OutcomeIs(es, n - 1);
      hide After, OutcomeAt, Apply, Moves, Inv;
      if email in After(es[..n - 1]).invites {
        InviteHasSender(es, n - 1, email);
      }
    }
  }

  lemma InvitedEmail(s: Db, token: Token, now: int, user: User) returns (email: string)
    requires Invited(s, token, now, user)
    ensures email in s.invites && s.invites[email].role == user.role && NormalEmail(email) == NormalEmail(user.email)
  {
    email :| email in s.invites && s.invites[email].token == token && InviteOpen(s.invites[email], now)
             && s.invites[email].role == user.role && NormalEmail(email) == NormalEmail(user.email);
  }

  /** Every account above MEMBER made by registration or acceptance goes back to an administrator's call. */
  lemma NonMemberHasSender(es: seq<Event>, n: nat, u: UserId)
    requires n < |es| && (es[n].op.Register? || es[n].op.AcceptInvite?) && OutcomeAt(es, n) == Created(u)
    ensures u in After(es[..n + 1]).users
    ensures var user := After(es[..n + 1]).users[u];
      user.role != MEMBER ==>
        exists email :: NormalEmail(email) == NormalEmail(user.email) && SentBefore(es, n, email, user.role)
  {
    hide Inv, After, OutcomeAt, Apply, Moves, NormalEmail, SentBefore, Invited;
    var s := After(es[..n]);
    StepAt(es, n);
    OutcomeIs(es, n);
    NonMemberNeedsInvitation(s, es[n]);
    var user := After(es[..n + 1]).users[u];
    if user.role != MEMBER {
      var token :| Invited(s, token, es[n].now, user);
      var email := InvitedEmail(s, token, es[n].now, user);
      InviteHasSender(es, n, email);
    }
  }

  /** The mailed link can be accepted exactly when it was first sent, not resent, and for 48 hours. */
  lemma MailedLinkWorksIffFirstSent(s: Db, e: Event, link: Token, later: int)
    requires Inv(s) && Apply(s, e).outcome == InviteSent(link)
    ensures Acceptable(Apply(s, e).db.invites, link, later) <==> e.op.SendInvite? && later <= e.now + 48 * HOUR
  {
    hide Inv, SendInviteEffect, ResendInviteEffect, Acceptable;
    if e.op.SendInvite? {
      SentLinkWorks(s, e.now, e.op.email, e.op.role, link, later);
    } else {
      assert e.op.ResendInvite?;
      ResentLinkFails(s, e.now, e.op.email, link, later);
    }
  }

  lemma TwoCalls(a: Event, b: Event)
    ensures var s := Apply(EMPTY, a).db;
      && OutcomeAt([a, b], 1) == Apply(s, b).outcome && After([a, b]) == Apply(s, b).db
      && (Timely(EMPTY, a) && Timely(s, b) ==> Serialised([a, b]))
  {
    hide Apply, Timely;
    var es := [a, b];
    assert es[..0] == [] && es[..1] == [a] && [a][..0] == [];
    assert After([a]) == Apply(EMPTY, a).db;
  }

  lemma FirstInvite(now: int, email: string, role: Role)
    ensures SendInviteEffect(EMPTY, now, email, role) == Effect(
      EMPTY.(invites := map[email := Invite(role, Raw(0), OPEN, now + 48 * HOUR)], nextToken := 1), InviteSent(Raw(0)))
  {
    FoundByEmail(map[], email);
    hide UserByEmail;
  }

  lemma OneInviteInv(email: string, invite: Invite)
    requires invite.token == Raw(0)
    ensures Inv(EMPTY.(invites := map[email := invite], nextToken := 1))
  {
  }

  /** A run from the empty tables whose resent link works at no time. */
  lemma ResentLinkNeverWorks(email: string, role: Role, later: int) returns (es: seq<Event>)
    ensures es == [Event(0, SendInvite(email, role)), Event(1, ResendInvite(email))] && Serialised(es)
    ensures OutcomeAt(es, 1) == InviteSent(Raw(1)) && !Acceptable(After(es).invites, Raw(1), later)
  {
    es := [Event(0, SendInvite(email, role)), Event(1, ResendInvite(email))];
    var invite := Invite(role, Raw(0), OPEN, 48 * HOUR);
    var s := EMPTY.(invites := map[email := invite], nextToken := 1);
    FirstInvite(0, email, role);
    OneInviteInv(email, invite);
    TwoCalls(es[0], es[1]);
    hide After, OutcomeAt, Inv, SendInviteEffect, Acceptable, Serialised;
    assert Apply(EMPTY, es[0]).db == s;
    ResentLinkFails(s, 1, email, Raw(1), later);
  }

  lemma SentLinkWorks(s: Db, now: int, email: string, role: Role, link: Token, later: int)
    requires Inv(s) && SendInviteEffect(s, now, email, role).outcome == InviteSent(link)
    ensures Acceptable(SendInviteEffect(s, now, email, role).db.invites, link, later) <==> later <= now + 48 * HOUR
  {
    hide UserByEmail, TicketsOk, VerifiedClear, UsersOk;
    var t := SendInviteEffect(s, now, email, role).db;
    assert link == Raw(s.nextToken) && forall f :: f in s.invites ==> Serial(s.invites[f].token) < s.nextToken;
    if later <= now + 48 * HOUR {
      assert t.invites[email].token == link && InviteOpen(t.invites[email], later);
    }
  }

  /** The row holds the digest of the mailed token, so the mailed token finds nothing. */
  lemma ResentLinkFails(s: Db, now: int, email: string, link: Token, later: int)
    requires Inv(s) && ResendInviteEffect(s, now, email).outcome == InviteSent(link)
    ensures !Acceptable(ResendInviteEffect(s, now, email).db.invites, link, later)
  {
    hide TicketsOk, VerifiedClear, UsersOk;
    assert link == Raw(s.nextToken) && forall f :: f in s.invites ==> Serial(s.invites[f].token) < s.nextToken;
  }

  /** A cancelled or replaced token is dead at once. */
  lemma CancelledOrReplacedIsDead(s: Db, e: Event, email: string)
    requires Inv(s) && email in s.invites
    requires
      || e.op == CancelInvite(email)
      || e.op == ResendInvite(email)
      || (e.op.SendInvite? && e.op.email == email)
    requires !Apply(s, e).outcome.Denied?
    ensures DeadInvite(Apply(s, e).db.invites, Apply(s, e).db.nextToken, s.invites[email].token, EndOf(e))
  {
    hide UserByEmail, TicketsOk, VerifiedClear, UsersOk;
    var t, token := Apply(s, e).db, s.invites[email].token;
    assert Serial(token) < s.nextToken;
    assert forall f :: f in t.invites && t.invites[f].token == token ==> f == email;
  }

  // ---------- Password guesses against a reachable account ----------

  /** When wrong passwords for the user were checked, from call i on. */
  ghost function GuessTimes(es: seq<Event>, i: nat, u: UserId): seq<int>
    requires i <= |es|
    decreases |es|
  {
    if i == |es| then []
    else
      var n := |es| - 1;
      GuessTimes(es[..n], i, u) + if OutcomeAt(es, n) == WrongPassword(u) then [es[n].now] else []
  }

  /** The same calls, as the lock sees them. */
  ghost function Guesses(es: seq<Event>, i: nat, u: UserId): (attempts: seq<Attempt>)
    requires i <= |es|
    ensures |attempts| == |es| - i
    decreases |es|
  {
    if i == |es| then []
    else
      var n := |es| - 1;
      Guesses(es[..n], i, u) + [Attempt(es[n].now, EndOf(es[n]), OutcomeAt(es, n) != WrongPassword(u))]
  }

  /** From call i on, the user stays and nothing clears the user's lock. */
  ghost predicate NoLockReset(es: seq<Event>, i: nat, u: UserId) {
    && i <= |es|
    && (forall k :: i <= k <= |es| ==> u in After(es[..k]).users)
    && (forall k :: i <= k < |es| ==> !ClearsLock(es[k], OutcomeAt(es, k), u))
  }

  lemma LockMoves(es: seq<Event>, n: nat, u: UserId)
    requires n < |es| && u in After(es[..n]).users && u in After(es[..n + 1]).users
    ensures After(es[..n + 1]).users[u].lock == LockAfter(es[n], OutcomeAt(es, n), u, After(es[..n]).users[u].lock)
    ensures OutcomeAt(es, n) == WrongPassword(u) ==> !IsAccountLocked(After(es[..n]).users[u].lock, es[n].now)
  {
    StepAt(es, n);
    hide After, OutcomeAt, Apply, Inv, TicketsMove, InvitesMove;
    assert UserMoves(After(es[..n]), es[n], After(es[..n + 1]), OutcomeAt(es, n), u);
  }

  lemma NoLockResetPrefix(es: seq<Event>, i: nat, u: UserId)
    requires NoLockReset(es, i, u) && i < |es|
    ensures NoLockReset(es[..|es| - 1], i, u)
  {
    hide After;
    var n := |es| - 1;
    forall k | i <= k <= n ensures es[..n][..k] == es[..k] {}
    forall k | i <= k < n
      ensures OutcomeAt(es[..n], k) == OutcomeAt(es, k)
    {
      assert es[..n][..k] == es[..k] && es[..n][k] == es[k];
    }
  }

  /** The run of the services is, for this user's lock, a run of sequential attempts. */
  lemma {:induction false} GuessesAreAttempts(es: seq<Event>, i: nat, u: UserId)
    requires NoLockReset(es, i, u)
    ensures u in After(es[..i]).users && u in After(es).users
    ensures AfterAttempts(After(es[..i]).users[u].lock, Guesses(es, i, u)) == After(es).users[u].lock
    ensures FailureTimes(After(es[..i]).users[u].lock, Guesses(es, i, u)) == GuessTimes(es, i, u)
    decreases |es|
  {
    hide After, OutcomeAt, LockAfter, AfterAttempt, FailsCheck;
    assert es[..|es|] == es;
    NoLockResetEnds(es, i, u);
    if i < |es| {
      var n := |es| - 1;
      NoLockResetPrefix(es, i, u);
      GuessesAreAttempts(es[..n], i, u);
      assert es[..n][..i] == es[..i] && es[..n + 1] == es;
      LockMoves(es, n, u);
      var a := Attempt(es[n].now, EndOf(es[n]), OutcomeAt(es, n) != WrongPassword(u));
      SnocFailure(After(es[..i]).users[u].lock, Guesses(es[..n], i, u), a);
      OneGuess(es[n], OutcomeAt(es, n), u, After(es[..n]).users[u].lock);
    }
  }

  lemma OneGuess(e: Event, o: Outcome, u: UserId, before: Lock)
    requires !ClearsLock(e, o, u)
    requires o == WrongPassword(u) ==> !IsAccountLocked(before, e.now)
    ensures var a := Attempt(e.now, EndOf(e), o != WrongPassword(u));
      LockAfter(e, o, u, before) == AfterAttempt(before, a) && (FailsCheck(before, a) <==> o == WrongPassword(u))
  {
  }

  lemma NoLockResetEnds(es: seq<Event>, i: nat, u: UserId)
    requires NoLockReset(es, i, u)
    ensures u in After(es[..i]).users && u in After(es).users
    ensures i < |es| ==> !ClearsLock(es[|es| - 1], OutcomeAt(es, |es| - 1), u) && u in After(es[..|es| - 1]).users
  {
    hide After, OutcomeAt, ClearsLock;
    assert es[..|es|] == es;
  }

  lemma {:induction false} GuessesInOrder(es: seq<Event>, i: nat, u: UserId)
    requires i <= |es| && Serialised(es)
    ensures InOrder(Guesses(es, i, u))
    ensures forall k :: 0 <= k < |Guesses(es, i, u)| ==> Guesses(es, i, u)[k].writeAt <= After(es).clock
    decreases |es|
  {
    hide After, OutcomeAt, Moves, Inv, Apply;
    if i < |es| {
      var n := |es| - 1;
      SerialisedPrefix(es);
      GuessesInOrder(es[..n], i, u);
      StepAt(es, n);
      assert es[..n + 1] == es;
      hide InOrder;
      assert Timely(After(es[..n]), es[n]);
      InOrderSnoc(Guesses(es[..n], i, u), Attempt(es[n].now, EndOf(es[n]), OutcomeAt(es, n) != WrongPassword(u)));
    }
  }

  lemma SerialisedPrefix(es: seq<Event>)
    requires Serialised(es) && es != []
    ensures Serialised(es[..|es| - 1])
  {
    hide After, Timely;
    var n := |es| - 1;
    forall i | 0 <= i < n
      ensures Timely(After(es[..n][..i]), es[..n][i])
    {
      assert es[..n][..i] == es[..i];
    }
  }

  /**
   In any run of all the services, any window of length T holds at most 5 + T / 15 min wrong-password
   checks of one account, as long as nothing clears that account's lock.
   */
  lemma AccountRateBound(es: seq<Event>, i: nat, u: UserId, lo: nat, hi: nat, T: nat)
    requires Serialised(es) && NoLockReset(es, i, u)
    requires lo <= hi < |GuessTimes(es, i, u)|
    requires GuessTimes(es, i, u)[hi] - GuessTimes(es, i, u)[lo] <= T
    ensures hi - lo + 1 <= MAX_FAILED_ATTEMPTS + T / LOCK_TIME
  {
    hide After, OutcomeAt, Serialised, NoLockReset, InOrder;
    GuessesAreAttempts(es, i, u);
    GuessesInOrder(es, i, u);
    RateBound(After(es[..i]).users[u].lock, Guesses(es, i, u), lo, hi, T);
  }
}
