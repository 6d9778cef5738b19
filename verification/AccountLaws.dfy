/**
 What a caller of the account services can rely on, operation by operation: when each outcome is given, in terms
 of the stored columns, and exactly what the call leaves in the tables.
 */
module AccountLaws {
  import opened Wrappers
  import opened AuthLock
  import opened Accounts
  import opened AccountSteps
  import Text

  // ---------- Reading the columns ----------

  /** The account with this email. */
  predicate Holds(users: Users, email: string, u: UserId) {
    u in users && users[u].email == email
  }

  ghost predicate Taken(users: Users, email: string) {
    exists u :: Holds(users, email, u)
  }

  ghost predicate TakenByLive(users: Users, email: string) {
    exists u :: Holds(users, email, u) && !users[u].deleted
  }

  /** The stored hash is that of this non-empty password. */
  predicate PasswordFits(user: User, password: string) {
    password != "" && user.password == Argon2(password)
  }

  predicate Usable(user: User) {
    user.active && !user.deleted
  }

  predicate LockedAt(user: User, now: int) {
    match user.lock.lockedUntil
    case None => false
    case Some(t) => now < t
  }

  /** The link is stored under its digest, unused and not yet expired. */
  predicate LinkOpen(table: Tickets, link: Token, now: int) {
    Sha256(link) in table && !table[Sha256(link)].used && now < table[Sha256(link)].expiresAt
  }

  /** The invitation of this email carries the token, is pending and has not expired. */
  predicate InviteOf(invites: Invites, email: string, token: Token) {
    email in invites && invites[email].token == token
  }

  predicate StillOpen(invite: Invite, now: int) {
    invite.status == OPEN && now <= invite.expiresAt
  }

  /** Only this account's row is written. */
  ghost predicate OnlyUser(s: Db, u: UserId, row: User, t: Db) {
    t == s.(users := s.users[u := row])
  }

  lemma LookupByEmail(s: Db, email: string)
    requires Inv(s)
    ensures UserByEmail(s.users, email).Some? <==> Taken(s.users, email)
    ensures forall u: UserId :: Holds(s.users, email, u) <==> UserByEmail(s.users, email) == Some(u)
  {
    FoundByEmail(s.users, email);
    hide UserByEmail, TicketsOk, VerifiedClear, InvitesOk;
    if UserByEmail(s.users, email).Some? {
      assert Holds(s.users, email, UserByEmail(s.users, email).value);
    }
  }

  lemma LookupByToken(s: Db, token: Token)
    requires Inv(s)
    ensures InviteByToken(s.invites, token).Some? <==> exists e :: InviteOf(s.invites, e, token)
    ensures forall e :: InviteOf(s.invites, e, token) <==> InviteByToken(s.invites, token) == Some(e)
  {
    FoundByToken(s.invites, token);
    hide InviteByToken, TicketsOk, VerifiedClear, UsersOk;
    if InviteByToken(s.invites, token).Some? {
      assert InviteOf(s.invites, InviteByToken(s.invites, token).value, token);
    }
  }

  /** The normal form of an email: what is left between white space at its ends, without capital letters. */
  lemma NormalEmailShape(email: string) returns (before: string, core: string, after: string)
    ensures email == before + core + after
    ensures forall c :: c in before || c in after ==> Text.IsSpace(c)
    ensures core != "" ==> !Text.IsSpace(core[0]) && !Text.IsSpace(core[|core| - 1])
    ensures Text.SameUpToCase(NormalEmail(email), core)
    ensures forall c :: c in NormalEmail(email) ==> !('A' <= c <= 'Z')
  {
    before, core, after := Text.TrimShape(email);
    Text.LowerIsLower(core);
  }

  // ---------- Sessions ----------

  /** Tokens are issued exactly to the usable, approved and unlocked user with that email and password. */
  lemma LoginLaw(s: Db, now: int, email: string, password: string, verify: bool, jwt: string, writeAt: int, u: UserId)
    requires Inv(s) && Holds(s.users, NormalEmail(email), u)
    ensures var r, user := LoginEffect(s, now, email, password, verify, jwt, writeAt), s.users[u];
      && (r.outcome == Tokens(u, jwt) <==>
            && Usable(user) && !LockedAt(user, now) && PasswordFits(user, password)
            && (verify ==> user.verified) && user.approval == APPROVED)
      && (r.outcome == WrongPassword(u) <==> Usable(user) && !LockedAt(user, now) && !PasswordFits(user, password))
      && (r.outcome == Denied(Unauthorized) <==> user.deleted)
      && (r.outcome == Tokens(u, jwt) || r.outcome == WrongPassword(u) || (r.outcome.Denied? && r.db == s))
      && (r.outcome.Tokens? ==> OnlyUser(s, u, user.(lock := Lock(0, None), refresh := Some(Argon2(jwt))), r.db))
      && (r.outcome.WrongPassword? ==> OnlyUser(s, u, user.(lock := AfterFailure(user.lock, writeAt)), r.db))
  {
    LookupByEmail(s, NormalEmail(email));
    hide Inv, UserByEmail, NormalEmail, AfterFailure;
  }

  lemma LoginUnknown(s: Db, now: int, email: string, password: string, verify: bool, jwt: string, writeAt: int)
    requires Inv(s) && !Taken(s.users, NormalEmail(email))
    ensures LoginEffect(s, now, email, password, verify, jwt, writeAt) == Effect(s, Denied(Unauthorized))
  {
    LookupByEmail(s, NormalEmail(email));
    hide Inv, UserByEmail, NormalEmail;
  }

  /** The local check authenticates the same users, approved ones only, and tells nobody else why not. */
  lemma ValidateUserLaw(s: Db, now: int, email: string, password: string, writeAt: int, u: UserId)
    requires Inv(s) && Holds(s.users, NormalEmail(email), u)
    ensures var r, user := ValidateUserEffect(s, now, email, password, writeAt), s.users[u];
      var allowed := Usable(user) && user.approval == APPROVED && !LockedAt(user, now);
      && (r.outcome == Authenticated(u) <==> allowed && PasswordFits(user, password))
      && (r.outcome == WrongPassword(u) <==> allowed && !PasswordFits(user, password))
      && (r.outcome == Denied(Unauthorized) <==> !allowed)
      && (r.outcome.Authenticated? ==> OnlyUser(s, u, user.(lock := Lock(0, None)), r.db))
      && (r.outcome.WrongPassword? ==> OnlyUser(s, u, user.(lock := AfterFailure(user.lock, writeAt)), r.db))
      && (r.outcome.Denied? ==> r.db == s)
  {
    LookupByEmail(s, NormalEmail(email));
    hide Inv, UserByEmail, NormalEmail, AfterFailure;
  }

  lemma ValidateUserUnknown(s: Db, now: int, email: string, password: string, writeAt: int)
    requires Inv(s) && !Taken(s.users, NormalEmail(email))
    ensures ValidateUserEffect(s, now, email, password, writeAt) == Effect(s, Denied(Unauthorized))
  {
    LookupByEmail(s, NormalEmail(email));
    hide Inv, UserByEmail, NormalEmail;
  }

  /** New tokens are given exactly for the non-empty token whose hash is stored, to a usable and approved user. */
  lemma RefreshLaw(s: Db, u: UserId, token: string, jwt: string)
    ensures var r := RefreshEffect(s, u, token, jwt);
      && (r.outcome == Tokens(u, jwt) <==>
            && u in s.users && Usable(s.users[u]) && s.users[u].approval == APPROVED
            && token != "" && s.users[u].refresh == Some(Argon2(token)))
      && (r.outcome == Denied(Forbidden) <==>
            u in s.users && !s.users[u].deleted && !(s.users[u].active && s.users[u].approval == APPROVED))
      && (r.outcome == Tokens(u, jwt) || r.outcome == Denied(Forbidden) || r.outcome == Denied(Unauthorized))
      && (r.outcome.Tokens? ==> OnlyUser(s, u, s.users[u].(refresh := Some(Argon2(jwt))), r.db))
      && (r.outcome.Denied? ==> r.db == s)
  {
  }

  lemma LogoutLaw(s: Db, u: UserId)
    ensures var r := LogoutEffect(s, u);
      && (r.outcome == SessionEnded(u) <==> u in s.users)
      && (r.outcome.SessionEnded? ==>
            r.outcome == SessionEnded(u) && OnlyUser(s, u, s.users[u].(refresh := None), r.db))
      && (!r.outcome.SessionEnded? ==> r == Effect(s, Denied(Internal)))
  {
  }

  // ---------- Passwords ----------

  /** A link is sent exactly to a usable user; the answer does not tell. */
  lemma ForgotPasswordLaw(s: Db, now: int, email: string)
    requires Inv(s)
    ensures var r := ForgotPasswordEffect(s, now, email);
      && (forall u :: r.outcome == ResetLinkSent(u, Raw(s.nextToken)) <==>
            Holds(s.users, NormalEmail(email), u) && Usable(s.users[u]))
      && (r.outcome.ResetLinkSent? || r == Effect(s, Done))
      && (r.outcome.ResetLinkSent? ==> r.db.(resets := s.resets, nextToken := s.nextToken) == s)
  {
    LookupByEmail(s, NormalEmail(email));
    hide Inv, UserByEmail, NormalEmail, Issue;
  }

  /** The password is replaced exactly on an open link of a usable user; session, lock and link go. */
  lemma ResetPasswordLaw(s: Db, now: int, token: Token, password: string)
    requires Inv(s)
    ensures var r := ResetPasswordEffect(s, now, token, password);
      var k := Sha256(token);
      && (r.outcome.PasswordReset? <==>
            LinkOpen(s.resets, token, now) && s.resets[k].user in s.users && Usable(s.users[s.resets[k].user]))
      && (r.outcome.PasswordReset? ==>
            var u := s.resets[k].user;
            && r.outcome == PasswordReset(u)
            && r.db == s.(
                 users := s.users[
                    u := s.users[u].(password := Argon2(password), refresh := None, lock := Lock(0, None))],
                 resets := s.resets[k := s.resets[k].(used := true)]))
      && (r.outcome == Denied(Unauthorized) <==>
            !LinkOpen(s.resets, token, now) || (s.users[s.resets[k].user].active && s.users[s.resets[k].user].deleted))
      && (r.outcome.PasswordReset? || r == Effect(s, Denied(Unauthorized)) || r == Effect(s, Denied(Forbidden)))
  {
    hide VerifiedClear, UsersOk, InvitesOk;
  }

  /** The password is replaced exactly when the current one is given; the session ends, the lock stays. */
  lemma ChangePasswordLaw(s: Db, u: UserId, current: string, password: string)
    ensures var r := ChangePasswordEffect(s, u, current, password);
      && (r.outcome == SessionEnded(u) <==> u in s.users && !s.users[u].deleted && PasswordFits(s.users[u], current))
      && (r.outcome.SessionEnded? ==>
            && r.outcome == SessionEnded(u)
            && OnlyUser(s, u, s.users[u].(password := Argon2(password), refresh := None), r.db))
      && (!r.outcome.SessionEnded? ==> r == Effect(s, Denied(Unauthorized)))
  {
  }

  // ---------- Verification ----------

  /** An open link of a usable user is honoured: the user is verified, and no link of the user is left unused. */
  lemma VerifyEmailLaw(s: Db, now: int, token: Token)
    requires Inv(s)
    ensures var r := VerifyEmailEffect(s, now, token);
      var k := Sha256(token);
      && (r.outcome == Done <==>
            LinkOpen(s.verifications, token, now) && s.verifications[k].user in s.users
            && Usable(s.users[s.verifications[k].user]))
      && (r.outcome == Done ==>
            var u := s.verifications[k].user;
            && r.db == s.(users := s.users[u := s.users[u].(verified := true)], verifications := r.db.verifications)
            && k in r.db.verifications && r.db.verifications[k] == s.verifications[k].(used := true)
            && (forall j :: j in r.db.verifications ==> j in s.verifications)
            && (forall j :: j in s.verifications && j != k ==>
                  (j in r.db.verifications <==> s.verifications[j].user != u || s.verifications[j].used)
                  && (j in r.db.verifications ==> r.db.verifications[j] == s.verifications[j])))
      && (r.outcome != Done ==> r.outcome.Denied? && r.db == s)
  {
    hide UsersOk, InvitesOk;
  }

  lemma ResendVerificationLaw(s: Db, now: int, u: UserId)
    ensures var r := ResendVerificationEffect(s, now, u);
      && (r.outcome == VerificationSent(u, Raw(s.nextToken)) <==>
            u in s.users && Usable(s.users[u]) && !s.users[u].verified)
      && (r.outcome == Done <==> u in s.users && Usable(s.users[u]) && s.users[u].verified)
      && (r.outcome == Denied(Forbidden) <==> u in s.users && !s.users[u].deleted && !s.users[u].active)
      && (r.outcome.VerificationSent? ==>
            r.outcome == VerificationSent(u, Raw(s.nextToken))
            && r.db.(verifications := s.verifications, nextToken := s.nextToken) == s)
      && (!r.outcome.VerificationSent? ==> r.db == s && (r.outcome == Done || r.outcome.Denied?))
  {
    hide Issue;
  }

  lemma AdminResendVerificationLaw(s: Db, now: int, u: UserId)
    ensures var r := AdminResendVerificationEffect(s, now, u);
      && (r.outcome == VerificationSent(u, Raw(s.nextToken)) <==>
            u in s.users && !s.users[u].deleted && s.users[u].role == MEMBER && !s.users[u].verified)
      && (r.outcome == Denied(NotFound) <==> u !in s.users || s.users[u].deleted)
      && (r.outcome == Denied(Forbidden) <==> u in s.users && !s.users[u].deleted && s.users[u].role != MEMBER)
      && (r.outcome.VerificationSent? ==>
            r.outcome == VerificationSent(u, Raw(s.nextToken))
            && r.db.(verifications := s.verifications, nextToken := s.nextToken) == s)
      && (!r.outcome.VerificationSent? ==> r.db == s && r.outcome.Denied?)
  {
    hide Issue;
  }

  // ---------- Accounts ----------

  /** A row as it is created: usable, without session or failures. */
  predicate IsNew(user: User, email: string, role: Role, verified: bool, approval: Approval, password: string) {
    && user.email == email && user.role == role && user.active && !user.deleted
    && user.verified == verified && user.approval == approval
    && user.password == Argon2(password) && user.refresh == None && user.lock == Lock(0, None)
  }

  /** The new account is the only change to the users. */
  ghost predicate OneMore(s: Db, t: Db) {
    && s.nextUser !in s.users && s.nextUser in t.users && t.nextUser == s.nextUser + 1
    && t.users == s.users[s.nextUser := t.users[s.nextUser]]
  }

  /** The invitation that the call closes, if any, and no other. */
  ghost predicate Closes(s: Db, email: string, t: Db) {
    email in s.invites && t.invites == s.invites[email := s.invites[email].(status := ACCEPTED)]
  }

  /** Registration without a token: exactly for an email that nobody has, as an unverified pending member. */
  lemma RegisterLaw(s: Db, now: int, rawEmail: string, password: string)
    requires Inv(s)
    ensures var r, email := RegisterEffect(s, now, rawEmail, password, None), NormalEmail(rawEmail);
      && (r.outcome == Created(s.nextUser) <==> !Taken(s.users, email))
      && (r.outcome.Created? ==>
            && r.outcome == Created(s.nextUser) && OneMore(s, r.db)
            && IsNew(r.db.users[s.nextUser], email, MEMBER, false, PENDING, password)
            && r.db.invites == s.invites && r.db.resets == s.resets)
      && (r.outcome == Denied(Conflict) <==> TakenByLive(s.users, email))
      && (!r.outcome.Created? ==> r.outcome.Denied? && r.db == s)
  {
    LookupByEmail(s, NormalEmail(rawEmail));
    assert s.nextUser !in s.users;
    hide Inv, UserByEmail, NormalEmail, Issue, InviteByToken;
  }

  /** With a token: exactly on the open invitation of this email, in the role it grants, and it is closed. */
  lemma RegisterInvitedLaw(s: Db, now: int, rawEmail: string, password: string, token: Token, e: string)
    requires Inv(s) && InviteOf(s.invites, e, token)
    ensures var r, email := RegisterEffect(s, now, rawEmail, password, Some(token)), NormalEmail(rawEmail);
      && (r.outcome == Created(s.nextUser) <==>
            !Taken(s.users, email) && StillOpen(s.invites[e], now) && NormalEmail(e) == email)
      && (r.outcome.Created? ==>
            && r.outcome == Created(s.nextUser) && OneMore(s, r.db)
            && IsNew(r.db.users[s.nextUser], email, s.invites[e].role, false, PENDING, password)
            && Closes(s, e, r.db) && r.db.resets == s.resets)
      && (r.outcome == Denied(Conflict) <==> TakenByLive(s.users, email))
      && (r.outcome == Denied(Unauthorized) <==>
            !TakenByLive(s.users, email) && !(StillOpen(s.invites[e], now) && NormalEmail(e) == email))
      && (!r.outcome.Created? ==>
            r.outcome.Denied? && (r.db == s || (s.invites[e].status == OPEN && now > s.invites[e].expiresAt
              && r.db == s.(invites := s.invites[e := s.invites[e].(status := EXPIRED)]))))
  {
    LookupByEmail(s, NormalEmail(rawEmail));
    LookupByToken(s, token);
    assert s.nextUser !in s.users;
    hide Inv, UserByEmail, NormalEmail, Issue, InviteByToken;
  }

  lemma RegisterUninvitedLaw(s: Db, now: int, rawEmail: string, password: string, token: Token)
    requires Inv(s) && forall e :: !InviteOf(s.invites, e, token)
    ensures RegisterEffect(s, now, rawEmail, password, Some(token)) ==
      Effect(s, Denied(if TakenByLive(s.users, NormalEmail(rawEmail)) then Conflict else Unauthorized))
  {
    LookupByToken(s, token);
    hide Inv, UserByEmail, NormalEmail, Issue, InviteByToken;
  }

  /** Acceptance: exactly on an open invitation whose email nobody has; the account is verified and still pending. */
  lemma AcceptInviteLaw(s: Db, now: int, token: Token, password: string, e: string)
    requires Inv(s) && InviteOf(s.invites, e, token)
    ensures var r := AcceptInviteEffect(s, now, token, password);
      && (r.outcome == Created(s.nextUser) <==> StillOpen(s.invites[e], now) && !Taken(s.users, e))
      && (r.outcome.Created? ==>
            && r.outcome == Created(s.nextUser) && OneMore(s, r.db)
            && IsNew(r.db.users[s.nextUser], e, s.invites[e].role, true, PENDING, password)
            && Closes(s, e, r.db) && r.db.resets == s.resets && r.db.verifications == s.verifications)
      && (r.outcome == Denied(NotFound) <==> s.invites[e].status != OPEN)
      && (r.outcome == Denied(BadRequest) <==> s.invites[e].status == OPEN && now > s.invites[e].expiresAt)
      && (r.outcome == Denied(Conflict) <==> StillOpen(s.invites[e], now) && TakenByLive(s.users, e))
      && (r.outcome == Denied(BadRequest) ==>
            r.db == s.(invites := s.invites[e := s.invites[e].(status := EXPIRED)]))
      && (!r.outcome.Created? ==> r.outcome.Denied? && (r.outcome == Denied(BadRequest) || r.db == s))
  {
    LookupByEmail(s, e);
    LookupByToken(s, token);
    assert s.nextUser !in s.users;
    hide Inv, UserByEmail, InviteByToken;
  }

  lemma ProvisionLaw(s: Db, email: string, password: string, role: Role)
    requires Inv(s)
    ensures var r := ProvisionEffect(s, email, password, role);
      && (r.outcome == Created(s.nextUser) <==> !Taken(s.users, NormalEmail(email)))
      && (r.outcome.Created? ==>
            && r.outcome == Created(s.nextUser) && OneMore(s, r.db)
            && IsNew(r.db.users[s.nextUser], NormalEmail(email), role, true, APPROVED, password)
            && r.db.(users := s.users, nextUser := s.nextUser) == s)
      && (!r.outcome.Created? ==> r == Effect(s, Denied(Conflict)))
  {
    LookupByEmail(s, NormalEmail(email));
    assert s.nextUser !in s.users;
    hide Inv, UserByEmail, NormalEmail;
  }

  // ---------- Invitations ----------

  /** An invitation goes to an email without a live account, replaces any earlier one, and is open for 48 hours. */
  lemma SendInviteLaw(s: Db, now: int, email: string, role: Role)
    requires Inv(s)
    ensures var r := SendInviteEffect(s, now, email, role);
      && (r.outcome == InviteSent(Raw(s.nextToken)) <==>
            forall u :: Holds(s.users, email, u) ==> s.users[u].deleted)
      && (r.outcome.InviteSent? ==>
            && r.outcome == InviteSent(Raw(s.nextToken))
            && email in r.db.invites && r.db.invites == s.invites[email := r.db.invites[email]]
            && r.db.invites[email].role == role && r.db.invites[email].token == Raw(s.nextToken)
            && (forall t :: StillOpen(r.db.invites[email], t) <==> t <= now + 48 * HOUR)
            && r.db.(invites := s.invites, nextToken := s.nextToken) == s)
      && (!r.outcome.InviteSent? ==> r == Effect(s, Denied(Conflict)))
  {
    LookupByEmail(s, email);
    hide Inv, UserByEmail;
  }

  lemma ValidateInviteLaw(s: Db, now: int, token: Token, e: string)
    requires Inv(s) && InviteOf(s.invites, e, token)
    ensures var r := ValidateInviteEffect(s, now, token);
      && (r.outcome == Done <==> StillOpen(s.invites[e], now))
      && (r.outcome == Denied(NotFound) <==> s.invites[e].status != OPEN)
      && (r.outcome == Done || r.outcome == Denied(NotFound) ==> r.db == s)
      && (r.outcome != Done && r.outcome != Denied(NotFound) ==>
            r == Effect(s.(invites := s.invites[e := s.invites[e].(status := EXPIRED)]), Denied(BadRequest)))
  {
    LookupByToken(s, token);
    hide Inv, InviteByToken;
  }

  /** A token that no invitation carries opens nothing. */
  lemma UnknownTokenLaw(s: Db, now: int, token: Token, password: string)
    requires Inv(s) && forall e :: !InviteOf(s.invites, e, token)
    ensures ValidateInviteEffect(s, now, token) == Effect(s, Denied(NotFound))
    ensures AcceptInviteEffect(s, now, token, password) == Effect(s, Denied(NotFound))
  {
    LookupByToken(s, token);
    hide Inv, InviteByToken;
  }

  lemma CancelInviteLaw(s: Db, email: string)
    ensures var r := CancelInviteEffect(s, email);
      && (r.outcome == Done <==> email in s.invites && s.invites[email].status == OPEN)
      && (r.outcome == Done ==> r.db == s.(invites := s.invites[email := s.invites[email].(status := CANCELLED)]))
      && (r.outcome != Done ==> r == Effect(s, Denied(NotFound)))
  {
  }

  /** Resending keeps the role, mails a fresh token, stores another one, and starts seven days anew. */
  lemma ResendInviteLaw(s: Db, now: int, email: string)
    ensures var r := ResendInviteEffect(s, now, email);
      && (r.outcome == InviteSent(Raw(s.nextToken)) <==> email in s.invites && s.invites[email].status == OPEN)
      && (r.outcome.InviteSent? ==>
            && r.outcome == InviteSent(Raw(s.nextToken))
            && email in r.db.invites && r.db.invites == s.invites[email := r.db.invites[email]]
            && r.db.invites[email].role == s.invites[email].role
            && r.db.invites[email].token == Sha256(Raw(s.nextToken))
            && (forall t :: StillOpen(r.db.invites[email], t) <==> t <= now + 7 * 24 * HOUR)
            && r.db.(invites := s.invites, nextToken := s.nextToken) == s)
      && (!r.outcome.InviteSent? ==> r == Effect(s, Denied(NotFound)))
  {
  }

  // ---------- Administration ----------

  /** The decision becomes the status of a live pending account, a member's unless a super administrator decides. */
  lemma DecideLaw(s: Db, u: UserId, approve: bool, superAdmin: bool)
    ensures var r := DecideEffect(s, u, approve, superAdmin);
      && (r.outcome == Decided(u, approve) <==>
            && u in s.users && !s.users[u].deleted && s.users[u].approval == PENDING
            && (superAdmin || s.users[u].role == MEMBER))
      && (r.outcome.Decided? ==>
            && r.outcome == Decided(u, approve)
            && OnlyUser(s, u, s.users[u].(approval := r.db.users[u].approval), r.db)
            && (r.db.users[u].approval == APPROVED <==> approve) && (r.db.users[u].approval == REJECTED <==> !approve))
      && (r.outcome == Denied(NotFound) <==> u !in s.users || s.users[u].deleted)
      && (r.outcome.Decided? || (r.outcome.Denied? && r.db == s))
  {
  }

  /** Only a live pending member is removed, with all links and nothing else. */
  lemma HardDeleteLaw(s: Db, u: UserId)
    ensures var r := HardDeletePendingEffect(s, u);
      && (r.outcome == Done <==>
            u in s.users && !s.users[u].deleted && s.users[u].role == MEMBER && s.users[u].approval == PENDING)
      && (r.outcome == Done ==>
            && r.db == s.(users := r.db.users, resets := r.db.resets, verifications := r.db.verifications)
            && u !in r.db.users
            && (forall v :: v != u && v in s.users ==> v in r.db.users && r.db.users[v] == s.users[v])
            && (forall v :: v in r.db.users ==> v in s.users)
            && LinksOfOthers(s.resets, u, r.db.resets) && LinksOfOthers(s.verifications, u, r.db.verifications))
      && (r.outcome != Done ==> r.outcome.Denied? && r.db == s)
  {
  }

  ghost predicate LinksOfOthers(table: Tickets, u: UserId, after: Tickets) {
    && (forall k :: k in after <==> k in table && table[k].user != u)
    && forall k :: k in after ==> after[k] == table[k]
  }

  lemma UpdateStatusLaw(s: Db, u: UserId, role: Option<Role>, active: Option<bool>)
    ensures var r := UpdateStatusEffect(s, u, role, active);
      && (r.outcome == Done <==> u in s.users && !s.users[u].deleted)
      && (r.outcome == Done ==>
            && u in r.db.users
            && OnlyUser(s, u, s.users[u].(role := r.db.users[u].role, active := r.db.users[u].active), r.db)
            && (role.Some? ==> r.db.users[u].role == role.value)
            && (role.None? ==> r.db.users[u].role == s.users[u].role)
            && (active.Some? ==> r.db.users[u].active == active.value)
            && (active.None? ==> r.db.users[u].active == s.users[u].active))
      && (r.outcome != Done ==> r == Effect(s, Denied(NotFound)))
  {
  }

  lemma SoftDeleteLaw(s: Db, u: UserId)
    ensures var r := SoftDeleteEffect(s, u);
      && (r.outcome == Done <==> u in s.users)
      && (r.outcome == Done ==> OnlyUser(s, u, s.users[u].(active := false, deleted := true), r.db))
      && (r.outcome != Done ==> r == Effect(s, Denied(NotFound)))
  {
  }
}
