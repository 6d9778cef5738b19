/** Over whole runs: which password and which refresh token open a session. */
module AccountPasswords {
  import opened Wrappers
  import opened AuthLock
  import opened Accounts
  import opened AccountSteps
  import opened AccountLaws
  import opened AccountSafety

  /** The new password that the call carries. */
  function NewPassword(op: Op): string {
    match op
    case Register(_, password, _) => password
    case AcceptInvite(_, password) => password
    case Provision(_, password, _) => password
    case ResetPassword(_, password) => password
    case ChangePassword(_, _, password) => password
    case _ => ""
  }

  /** The call sets the user's password. */
  predicate SetsPassword(op: Op, o: Outcome, u: UserId) {
    o == Created(u) || o == PasswordReset(u) || (op.ChangePassword? && o == SessionEnded(u))
  }

  /** Every stored password is as it was, or the one that the call has set. */
  ghost predicate PasswordsMove(s: Db, op: Op, r: Effect) {
    && (forall u :: SetsPassword(op, r.outcome, u) && u in r.db.users ==>
          r.db.users[u].password == Argon2(NewPassword(op)))
    && (forall u :: !SetsPassword(op, r.outcome, u) && u in r.db.users ==>
          u in s.users && r.db.users[u].password == s.users[u].password)
  }

  /** No row changes, and no password is set. */
  lemma UsersStayMove(s: Db, op: Op, r: Effect)
    requires r.db.users == s.users && forall u :: !SetsPassword(op, r.outcome, u)
    ensures PasswordsMove(s, op, r)
  {
  }

  /** One row changes, and its password as the call says. */
  lemma RowMoves(s: Db, op: Op, r: Effect, u: UserId)
    requires u in s.users && u in r.db.users && r.db.users == s.users[u := r.db.users[u]]
    requires forall v :: SetsPassword(op, r.outcome, v) ==> v == u
    requires r.db.users[u].password ==
      if SetsPassword(op, r.outcome, u) then Argon2(NewPassword(op)) else s.users[u].password
    ensures PasswordsMove(s, op, r)
  {
  }

  lemma CreatedMoves(s: Db, op: Op, r: Effect)
    requires OneMore(s, r.db) && r.outcome == Created(s.nextUser)
    requires r.db.users[s.nextUser].password == Argon2(NewPassword(op))
    ensures PasswordsMove(s, op, r)
  {
  }

  lemma LoginMoves(s: Db, now: int, op: Op)
    requires Inv(s) && op.Login?
    ensures PasswordsMove(s, op,
      LoginEffect(s, now, op.email, op.password, op.requireVerification, op.jwt, op.writeAt))
  {
    hide Inv, LoginEffect, NormalEmail, PasswordsMove, AfterFailure, Usable, LockedAt, PasswordFits;
    var r := LoginEffect(s, now, op.email, op.password, op.requireVerification, op.jwt, op.writeAt);
    if u :| Holds(s.users, NormalEmail(op.email), u) {
      LoginLaw(s, now, op.email, op.password, op.requireVerification, op.jwt, op.writeAt, u);
      if r.outcome.Denied? {
        UsersStayMove(s, op, r);
      } else {
        RowMoves(s, op, r, u);
      }
    } else {
      LoginUnknown(s, now, op.email, op.password, op.requireVerification, op.jwt, op.writeAt);
      UsersStayMove(s, op, r);
    }
  }

  lemma ValidateUserMoves(s: Db, now: int, op: Op)
    requires Inv(s) && op.ValidateUser?
    ensures PasswordsMove(s, op, ValidateUserEffect(s, now, op.email, op.password, op.writeAt))
  {
    hide Inv, ValidateUserEffect, NormalEmail, PasswordsMove, AfterFailure, Usable, LockedAt, PasswordFits;
    var r := ValidateUserEffect(s, now, op.email, op.password, op.writeAt);
    if u :| Holds(s.users, NormalEmail(op.email), u) {
      ValidateUserLaw(s, now, op.email, op.password, op.writeAt, u);
      if r.outcome.Denied? {
        UsersStayMove(s, op, r);
      } else {
        RowMoves(s, op, r, u);
      }
    } else {
      ValidateUserUnknown(s, now, op.email, op.password, op.writeAt);
      UsersStayMove(s, op, r);
    }
  }

  lemma RegisterMoves(s: Db, now: int, op: Op)
    requires Inv(s) && op.Register?
    ensures PasswordsMove(s, op, RegisterEffect(s, now, op.email, op.password, op.invite))
  {
    hide Inv, RegisterEffect, NormalEmail, PasswordsMove, OneMore, Closes, StillOpen, Taken;
    var r := RegisterEffect(s, now, op.email, op.password, op.invite);
    if op.invite.None? {
      RegisterLaw(s, now, op.email, op.password);
    } else if e :| InviteOf(s.invites, e, op.invite.value) {
      RegisterInvitedLaw(s, now, op.email, op.password, op.invite.value, e);
    } else {
      RegisterUninvitedLaw(s, now, op.email, op.password, op.invite.value);
    }
    if r.outcome.Created? {
      CreatedMoves(s, op, r);
    } else {
      UsersStayMove(s, op, r);
    }
  }

  lemma AcceptMoves(s: Db, now: int, op: Op)
    requires Inv(s) && op.AcceptInvite?
    ensures PasswordsMove(s, op, AcceptInviteEffect(s, now, op.token, op.password))
  {
    hide Inv, AcceptInviteEffect, ValidateInviteEffect, PasswordsMove, OneMore, Closes, StillOpen, Taken;
    var r := AcceptInviteEffect(s, now, op.token, op.password);
    if e :| InviteOf(s.invites, e, op.token) {
      AcceptInviteLaw(s, now, op.token, op.password, e);
    } else {
      UnknownTokenLaw(s, now, op.token, op.password);
    }
    if r.outcome.Created? {
      CreatedMoves(s, op, r);
    } else {
      UsersStayMove(s, op, r);
    }
  }

  lemma ProvisionMoves(s: Db, op: Op)
    requires Inv(s) && op.Provision?
    ensures PasswordsMove(s, op, ProvisionEffect(s, op.email, op.password, op.role))
  {
    hide Inv, ProvisionEffect, NormalEmail, PasswordsMove, OneMore, Taken;
    var r := ProvisionEffect(s, op.email, op.password, op.role);
    ProvisionLaw(s, op.email, op.password, op.role);
    if r.outcome.Created? {
      CreatedMoves(s, op, r);
    } else {
      UsersStayMove(s, op, r);
    }
  }

  lemma ResetMoves(s: Db, now: int, op: Op)
    requires Inv(s) && op.ResetPassword?
    ensures PasswordsMove(s, op, ResetPasswordEffect(s, now, op.token, op.password))
  {
    hide Inv, ResetPasswordEffect, PasswordsMove, LinkOpen, Usable;
    var r := ResetPasswordEffect(s, now, op.token, op.password);
    ResetPasswordLaw(s, now, op.token, op.password);
    if r.outcome.PasswordReset? {
      RowMoves(s, op, r, r.outcome.user);
    } else {
      UsersStayMove(s, op, r);
    }
  }

  lemma SessionEndMoves(s: Db, op: Op)
    requires op.ChangePassword? || op.Logout?
    ensures op.ChangePassword? ==> PasswordsMove(s, op, ChangePasswordEffect(s, op.user, op.current, op.password))
    ensures op.Logout? ==> PasswordsMove(s, op, LogoutEffect(s, op.user))
  {
    hide ChangePasswordEffect, LogoutEffect, PasswordsMove, PasswordFits;
    var r;
    if op.ChangePassword? {
      ChangePasswordLaw(s, op.user, op.current, op.password);
      r := ChangePasswordEffect(s, op.user, op.current, op.password);
    } else {
      LogoutLaw(s, op.user);
      r := LogoutEffect(s, op.user);
    }
    if r.outcome.SessionEnded? {
      RowMoves(s, op, r, op.user);
    } else {
      UsersStayMove(s, op, r);
    }
  }

  lemma RefreshMoves(s: Db, op: Op)
    requires op.Refresh?
    ensures PasswordsMove(s, op, RefreshEffect(s, op.user, op.presented, op.jwt))
  {
    hide RefreshEffect, PasswordsMove, Usable;
    var r := RefreshEffect(s, op.user, op.presented, op.jwt);
    RefreshLaw(s, op.user, op.presented, op.jwt);
    if r.outcome.Tokens? {
      RowMoves(s, op, r, op.user);
    } else {
      UsersStayMove(s, op, r);
    }
  }

  lemma VerifyMoves(s: Db, now: int, op: Op)
    requires Inv(s) && op.VerifyEmail?
    ensures PasswordsMove(s, op, VerifyEmailEffect(s, now, op.token))
  {
    hide Inv, VerifyEmailEffect, PasswordsMove, Usable;
    var r := VerifyEmailEffect(s, now, op.token);
    VerifyEmailLaw(s, now, op.token);
    if r.outcome == Done {
      RowMoves(s, op, r, s.verifications[Sha256(op.token)].user);
    } else {
      UsersStayMove(s, op, r);
    }
  }

  /** Mailing a link leaves the users alone. */
  lemma LinkCallsMove(s: Db, now: int, op: Op)
    requires Inv(s) && (op.ForgotPassword? || op.ResendVerification? || op.AdminResendVerification?)
    ensures PasswordsMove(s, op, OpEffect(s, now, op))
  {
    hide Inv, ForgotPasswordEffect, ResendVerificationEffect, AdminResendVerificationEffect, NormalEmail,
         PasswordsMove, Usable, Holds;
    match op {
      case ForgotPassword(email) => ForgotPasswordLaw(s, now, email);
      case ResendVerification(u) => ResendVerificationLaw(s, now, u);
      case AdminResendVerification(u) => AdminResendVerificationLaw(s, now, u);
    }
    UsersStayMove(s, op, OpEffect(s, now, op));
  }

  lemma InviteCallsMove(s: Db, now: int, op: Op)
    requires Inv(s) && (op.SendInvite? || op.ValidateInvite? || op.CancelInvite? || op.ResendInvite?)
    ensures PasswordsMove(s, op, OpEffect(s, now, op))
  {
    hide Inv, SendInviteEffect, ValidateInviteEffect, CancelInviteEffect, ResendInviteEffect, AcceptInviteEffect,
         PasswordsMove, Holds, StillOpen;
    match op {
      case SendInvite(email, role) => SendInviteLaw(s, now, email, role);
      case ValidateInvite(token) =>
        if e :| InviteOf(s.invites, e, token) {
          ValidateInviteLaw(s, now, token, e);
        } else {
          UnknownTokenLaw(s, now, token, "");
        }
      case CancelInvite(email) => CancelInviteLaw(s, email);
      case ResendInvite(email) => ResendInviteLaw(s, now, email);
    }
    UsersStayMove(s, op, OpEffect(s, now, op));
  }

  lemma DecideMoves(s: Db, op: Op)
    requires op.Decide?
    ensures PasswordsMove(s, op, DecideEffect(s, op.user, op.approve, op.superAdmin))
  {
    hide PasswordsMove;
    var r := DecideEffect(s, op.user, op.approve, op.superAdmin);
    if r.outcome.Decided? {
      RowMoves(s, op, r, op.user);
    } else {
      UsersStayMove(s, op, r);
    }
  }

  lemma StatusMovePasswords(s: Db, op: Op)
    requires op.HardDeletePending? || op.UpdateStatus? || op.SoftDelete?
    ensures PasswordsMove(s, op, OpEffect(s, 0, op))
  {
    match op
    case HardDeletePending(u) => HardDeleteLaw(s, u);
    case UpdateStatus(u, role, active) => UpdateStatusLaw(s, u, role, active);
    case SoftDelete(u) => SoftDeleteLaw(s, u);
  }

  lemma OpMoves(s: Db, now: int, op: Op)
    requires Inv(s)
    ensures PasswordsMove(s, op, OpEffect(s, now, op))
  {
    hide Inv, PasswordsMove, LoginEffect, ValidateUserEffect, RegisterEffect, AcceptInviteEffect, ProvisionEffect,
         ResetPasswordEffect, ChangePasswordEffect, LogoutEffect, RefreshEffect, VerifyEmailEffect,
         ForgotPasswordEffect, ResendVerificationEffect, AdminResendVerificationEffect, SendInviteEffect,
         ValidateInviteEffect, CancelInviteEffect, ResendInviteEffect, DecideEffect, HardDeletePendingEffect,
         UpdateStatusEffect, SoftDeleteEffect;
    match op
    case Login(_, _, _, _, _) => LoginMoves(s, now, op);
    case ValidateUser(_, _, _) => ValidateUserMoves(s, now, op);
    case Register(_, _, _) => RegisterMoves(s, now, op);
    case AcceptInvite(_, _) => AcceptMoves(s, now, op);
    case Provision(_, _, _) => ProvisionMoves(s, op);
    case ResetPassword(_, _) => ResetMoves(s, now, op);
    case ChangePassword(_, _, _) => SessionEndMoves(s, op);
    case Logout(_) => SessionEndMoves(s, op);
    case Refresh(_, _, _) => RefreshMoves(s, op);
    case VerifyEmail(_) => VerifyMoves(s, now, op);
    case ForgotPassword(_) => LinkCallsMove(s, now, op);
    case ResendVerification(_) => LinkCallsMove(s, now, op);
    case AdminResendVerification(_) => LinkCallsMove(s, now, op);
    case SendInvite(_, _) => InviteCallsMove(s, now, op);
    case ValidateInvite(_) => InviteCallsMove(s, now, op);
    case CancelInvite(_) => InviteCallsMove(s, now, op);
    case ResendInvite(_) => InviteCallsMove(s, now, op);
    case Decide(_, _, _) => DecideMoves(s, op);
    case HardDeletePending(_) => StatusMovePasswords(s, op);
    case UpdateStatus(_, _, _) => StatusMovePasswords(s, op);
    case SoftDelete(_) => StatusMovePasswords(s, op);
  }

  lemma ApplyMoves(s: Db, e: Event)
    requires Inv(s)
    ensures PasswordsMove(s, e.op, Apply(s, e))
  {
    OpMoves(s, e.now, e.op);
    hide Inv, OpEffect;
  }

  // ---------- The password ----------

  /** The last password set for the user by creation, reset or change. */
  ghost function CurrentPassword(es: seq<Event>, u: UserId): Option<string> {
    if es == [] then None
    else
      var n := |es| - 1;
      if SetsPassword(es[n].op, OutcomeAt(es, n), u) then Some(NewPassword(es[n].op)) else CurrentPassword(es[..n], u)
  }

  lemma {:induction false} StoredPasswordIsCurrent(es: seq<Event>, u: UserId)
    requires u in After(es).users
    ensures CurrentPassword(es, u).Some? && After(es).users[u].password == Argon2(CurrentPassword(es, u).value)
    decreases |es|
  {
    if es == [] {
      AfterNothing();
    } else {
      var n := |es| - 1;
      assert es[..n + 1] == es;
      StepAt(es, n);
      OutcomeIs(es, n);
      hide After, OutcomeAt, Moves, SetsPassword, Apply;
      ApplyMoves(After(es[..n]), es[n]);
      hide Inv;
      if !SetsPassword(es[n].op, OutcomeAt(es, n), u) {
        StoredPasswordIsCurrent(es[..n], u);
      }
    }
  }

  /** The password that a login or a local check accepts is the last one set; any other counts as wrong. */
  lemma OnlyCurrentPasswordPasses(es: seq<Event>, n: nat, u: UserId)
    requires n < |es| && (es[n].op.Login? || es[n].op.ValidateUser?)
    ensures (OutcomeAt(es, n).Tokens? && OutcomeAt(es, n).user == u) || OutcomeAt(es, n) == Authenticated(u) ==>
      es[n].op.password != "" && CurrentPassword(es[..n], u) == Some(es[n].op.password)
    ensures OutcomeAt(es, n) == WrongPassword(u) ==>
      es[n].op.password == "" || CurrentPassword(es[..n], u) != Some(es[n].op.password)
  {
    var s, op := After(es[..n]), es[n].op;
    StepAt(es, n);
    OutcomeIs(es, n);
    OutcomeNamesHolder(s, es[n]);
    hide After, OutcomeAt, Moves, Inv, Apply, NormalEmail, CurrentPassword;
    if u in s.users {
      StoredPasswordIsCurrent(es[..n], u);
    }
  }

  /** Login and local check speak of the user with the email, and test the password given. */
  lemma OutcomeNamesHolder(s: Db, e: Event)
    requires Inv(s) && (e.op.Login? || e.op.ValidateUser?)
    ensures var o := Apply(s, e).outcome;
      && (o.Tokens? || o.Authenticated? ==> o.user in s.users && PasswordFits(s.users[o.user], e.op.password))
      && (o.WrongPassword? ==> o.user in s.users && !PasswordFits(s.users[o.user], e.op.password))
  {
    var email := NormalEmail(e.op.email);
    if u :| Holds(s.users, email, u) {
      match e.op
      case ValidateUser(m, password, writeAt) => ValidateUserLaw(s, e.now, m, password, writeAt, u);
      case Login(m, password, verify, jwt, writeAt) => LoginLaw(s, e.now, m, password, verify, jwt, writeAt, u);
    } else {
      match e.op
      case ValidateUser(m, password, writeAt) => ValidateUserUnknown(s, e.now, m, password, writeAt);
      case Login(m, password, verify, jwt, writeAt) => LoginUnknown(s, e.now, m, password, verify, jwt, writeAt);
    }
    hide Inv, ValidateUserEffect, LoginEffect, NormalEmail, OnlyUser;
  }

  // ---------- The refresh token ----------

  /** A refresh is granted only on the token of the user's last session, not ended since. */
  lemma RefreshNeedsSession(es: seq<Event>, n: nat, u: UserId, token: string, jwt: string)
    requires n < |es| && es[n].op == Refresh(u, token, jwt) && OutcomeAt(es, n).Tokens?
    ensures token != "" && Session(es[..n], u) == Some(token)
  {
    var s := After(es[..n]);
    OutcomeIs(es, n);
    RefreshLaw(s, u, token, jwt);
    StoredHashIsSession(es[..n], u);
    hide After, OutcomeAt, RefreshEffect, Session;
  }
}
