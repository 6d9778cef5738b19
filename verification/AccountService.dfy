/** The account services over their tables. Each method is proved to have the effect given in Accounts. */
module AccountService {
  import opened Wrappers
  import opened AuthLock
  import opened Accounts
  import opened AccountSteps
  import AccountSafety

  lemma SoundKeepsInv(s: Db, e: Event, r: Effect)
    requires Sound(s, e, r)
    ensures Inv(r.db)
  {
  }

  /** The link works until then, and no other link of the user does. */
  ghost predicate OnlyLinkUntil(table: Tickets, u: UserId, link: Token, expiresAt: int) {
    && (forall later :: Validates(table, link, later) <==> later < expiresAt)
    && (forall raw, later :: raw != link && Validates(table, raw, later) ==> table[Sha256(raw)].user != u)
  }

  lemma IssuedIsOnlyLink(table: Tickets, users: Users, next: nat, u: UserId, expiresAt: int)
    requires TicketsOk(table, users, next) && u in users
    ensures TicketsOk(Issue(table, u, Sha256(Raw(next)), expiresAt), users, next + 1)
    ensures OnlyLinkUntil(Issue(table, u, Sha256(Raw(next)), expiresAt), u, Raw(next), expiresAt)
  {
    IssueMoves(table, users, users, next, u, expiresAt);
    hide TicketsOk, TicketsMove, Issue, Validates;
    forall raw, later {
      AccountSafety.IssuedLinkWorks(table, users, next, u, expiresAt, raw, later);
    }
  }

  lemma TablesAreSound(s: Db)
    requires Inv(s)
    ensures TicketsOk(s.resets, s.users, s.nextToken) && TicketsOk(s.verifications, s.users, s.nextToken)
  {
  }

  /** What opening an account keeps: a registration that may have accepted an invitation. */
  lemma AccountOpened(s: Db, email: string, password: string, role: Role, matched: Option<string>, now: int)
    requires Inv(s) && (matched.Some? ==> matched.value in s.invites)
    requires forall u :: u in s.users ==> s.users[u].email != email
    ensures var added := AddUser(s, NewUser(email, role, false, PENDING, password));
      var t := SendVerification(added, s.nextUser, now);
      && TicketsOk(added.verifications, added.users, added.nextToken)
      && Inv(if matched.Some? then t.(invites := SetStatus(s, matched.value, ACCEPTED).invites) else t)
    ensures matched.Some? ==>
      AccountSafety.Closed(SetStatus(s, matched.value, ACCEPTED).invites, s.invites[matched.value].token)
  {
    var user := NewUser(email, role, false, PENDING, password);
    var e := Event(now, Register(email, password, None));
    AddUserMoves(s, user);
    RegisteredSound(s, e, email, role);
    if matched.Some? {
      assert InvitesOk(s.invites, s.nextToken);
      AccountSafety.AcceptedIsClosed(s, matched.value, s.invites[matched.value].token);
    }
    hide Inv, Sound, SendVerification, TicketsOk, AccountSafety.Closed;
    var r := Effect(SendVerification(AddUser(s, user), s.nextUser, now), Created(s.nextUser));
    SoundKeepsInv(s, e, r);
    if matched.Some? {
      assert r.db.invites == s.invites by {
        InvitationsStay(s, user, now);
      }
      AcceptedSound(s, e, r, matched.value);
      SoundKeepsInv(s, e, r.(db := r.db.(invites := SetStatus(s, matched.value, ACCEPTED).invites)));
    }
  }

  lemma InvitationsStay(s: Db, user: User, now: int)
    ensures SendVerification(AddUser(s, user), s.nextUser, now).invites == s.invites
  {
  }

  class AccountServices {
    var users: map<UserId, User>
    var resets: map<Token, Ticket>
    var verifications: map<Token, Ticket>
    var invites: map<string, Invite>
    var nextUser: UserId
    var nextToken: nat
    ghost const clock: int

    ghost function State(): Db
      reads this
    {
      Db(users, resets, verifications, invites, nextUser, nextToken, clock)
    }

    ghost predicate Valid()
      reads this
    {
      Inv(State())
    }

    constructor ()
      ensures State() == EMPTY && Valid()
    {
      users, resets, verifications, invites, nextUser, nextToken := map[], map[], map[], map[], 0, 0;
      clock := 0;
      new;
      AccountSafety.EmptyInv();
    }

    // ---------- Lookups ----------

    /** findUnique by email: emails are unique, so there is only one answer. */
    method FindUserByEmail(email: string) returns (r: Option<UserId>)
      requires Valid()
      ensures r == UserByEmail(users, email)
      ensures r.Some? ==> r.value in users
    {
      FoundByEmail(users, email);
      if u :| u in users && users[u].email == email {
        r := Some(u);
      } else {
        r := None;
      }
    }

    method FindInviteByToken(token: Token) returns (r: Option<string>)
      requires Valid()
      ensures r == InviteByToken(invites, token)
      ensures r.Some? ==> r.value in invites
    {
      FoundByToken(invites, token);
      if e :| e in invites && invites[e].token == token {
        r := Some(e);
      } else {
        r := None;
      }
    }

    // ---------- Links ----------

    /** Mails a link that works for a day and is the user's only one. */
    method SendVerificationEmail(u: UserId, now: int) returns (link: Token)
      requires TicketsOk(verifications, users, nextToken) && u in users
      modifies this`verifications, this`nextToken
      ensures State() == SendVerification(old(State()), u, now) && link == Raw(old(nextToken))
      ensures TicketsOk(verifications, users, nextToken)
      ensures OnlyLinkUntil(verifications, u, link, now + 24 * HOUR)
    {
      hide TicketsOk, OnlyLinkUntil;
      IssuedIsOnlyLink(verifications, users, nextToken, u, now + 24 * HOUR);
      link := Raw(nextToken);
      nextToken := nextToken + 1;
      verifications := WithoutUnused(verifications, u);
      verifications := verifications[Sha256(link) := Ticket(u, now + 24 * HOUR, false)];
    }

    /** Mails a link that works for an hour and is the user's only one. */
    method SendPasswordResetEmail(u: UserId, now: int) returns (link: Token)
      requires TicketsOk(resets, users, nextToken) && u in users
      modifies this`resets, this`nextToken
      ensures State() == SendReset(old(State()), u, now) && link == Raw(old(nextToken))
      ensures TicketsOk(resets, users, nextToken)
      ensures OnlyLinkUntil(resets, u, link, now + HOUR)
    {
      hide TicketsOk, OnlyLinkUntil;
      IssuedIsOnlyLink(resets, users, nextToken, u, now + HOUR);
      link := Raw(nextToken);
      nextToken := nextToken + 1;
      resets := WithoutUnused(resets, u);
      resets := resets[Sha256(link) := Ticket(u, now + HOUR, false)];
    }

    // ---------- Sessions ----------

    method IncrementFailedLoginAttempts(u: UserId, now: int)
      requires u in users
      modifies this`users
      ensures users == old(users)[u := old(users)[u].(lock := AfterFailure(old(users)[u].lock, now))]
    {
      var lockService := new AuthLockService.Load(users[u].lock);
      lockService.IncrementFailedLoginAttempts(now);
      users := users[u := users[u].(lock := lockService.State())];
    }

    method ResetFailedLoginAttempts(u: UserId)
      requires u in users
      modifies this`users
      ensures users == old(users)[u := old(users)[u].(lock := UNLOCKED)]
    {
      var lockService := new AuthLockService.Load(users[u].lock);
      lockService.ResetFailedLoginAttempts();
      users := users[u := users[u].(lock := lockService.State())];
    }

    /** From then on exactly this refresh token passes the stored-hash check. */
    method UpdateRefreshTokenHash(u: UserId, refreshToken: string)
      requires u in users
      modifies this`users
      ensures users == old(users)[u := old(users)[u].(refresh := Some(Argon2(refreshToken)))]
      ensures forall token :: AccountSafety.PassesStoredCheck(users[u], token) <==> token == refreshToken && token != ""
    {
      var refreshTokenHash := Argon2(refreshToken);
      users := users[u := users[u].(refresh := Some(refreshTokenHash))];
    }

    method ValidateUserCredentials(email: string, password: string, now: int, writeAt: int) returns (o: Outcome)
      requires Valid()
      modifies this
      ensures Valid()
      ensures Effect(State(), o) == ValidateUserEffect(old(State()), now, email, password, writeAt)
    {
      hide Inv, Sound, UserByEmail, NormalEmail;
      assert Inv(ValidateUserEffect(State(), now, email, password, writeAt).db) by {
        var e := Event(now, ValidateUser(email, password, writeAt));
        ValidateUserSound(State(), e);
        SoundKeepsInv(State(), e, ValidateUserEffect(State(), now, email, password, writeAt));
      }
      var found := FindUserByEmail(NormalEmail(email));
      if found.None? {
        return Denied(Unauthorized);
      }
      var u := found.value;
      if users[u].deleted || !users[u].active || users[u].approval != APPROVED {
        return Denied(Unauthorized);
      }
      if IsAccountLocked(users[u].lock, now) {
        return Denied(Unauthorized);
      }
      if !Verify(users[u].password, password) {
        IncrementFailedLoginAttempts(u, writeAt);
        return WrongPassword(u);
      }
      ResetFailedLoginAttempts(u);
      o := Authenticated(u);
    }

    method LogIn(email: string, password: string, requireVerification: bool, jwt: string, now: int, writeAt: int)
      returns (o: Outcome)
      requires Valid()
      modifies this
      ensures Valid()
      ensures Effect(State(), o) == LoginEffect(old(State()), now, email, password, requireVerification, jwt, writeAt)
    {
      hide Inv, Sound, UserByEmail, NormalEmail, IsAccountLocked, Verify, AfterFailure;
      assert Inv(LoginEffect(State(), now, email, password, requireVerification, jwt, writeAt).db) by {
        var e := Event(now, Login(email, password, requireVerification, jwt, writeAt));
        LoginSound(State(), e);
        SoundKeepsInv(State(), e, LoginEffect(State(), now, email, password, requireVerification, jwt, writeAt));
      }
      var found := FindUserByEmail(NormalEmail(email));
      if found.None? || users[found.value].deleted {
        return Denied(Unauthorized);
      }
      var u := found.value;
      if !users[u].active {
        return Denied(Forbidden);
      }
      if IsAccountLocked(users[u].lock, now) {
        return Denied(Forbidden);
      }
      if !Verify(users[u].password, password) {
        IncrementFailedLoginAttempts(u, writeAt);
        return WrongPassword(u);
      }
      if requireVerification && !users[u].verified {
        return Denied(Forbidden);
      }
      if users[u].approval == PENDING {
        return Denied(Forbidden);
      }
      if users[u].approval == REJECTED {
        return Denied(Forbidden);
      }
      ResetFailedLoginAttempts(u);
      UpdateRefreshTokenHash(u, jwt);
      assert users == old(users)[u := old(users)[u].(lock := UNLOCKED, refresh := Some(Argon2(jwt)))];
      o := Tokens(u, jwt);
    }

    method RefreshTokens(u: UserId, presented: string, jwt: string) returns (o: Outcome)
      requires Valid()
      modifies this
      ensures Valid()
      ensures Effect(State(), o) == RefreshEffect(old(State()), u, presented, jwt)
    {
      hide Inv, Sound;
      assert Inv(RefreshEffect(State(), u, presented, jwt).db) by {
        var e := Event(0, Refresh(u, presented, jwt));
        RefreshSound(State(), e);
        SoundKeepsInv(State(), e, RefreshEffect(State(), u, presented, jwt));
      }
      if u !in users || users[u].deleted {
        return Denied(Unauthorized);
      }
      if !users[u].active {
        return Denied(Forbidden);
      }
      if users[u].approval != APPROVED {
        return Denied(Forbidden);
      }
      if users[u].refresh.None? || !Verify(users[u].refresh.value, presented) {
        return Denied(Unauthorized);
      }
      users := users[u := users[u].(refresh := Some(Argon2(jwt)))];
      o := Tokens(u, jwt);
    }

    method LogOut(u: UserId) returns (o: Outcome)
      requires Valid()
      modifies this
      ensures Valid()
      ensures Effect(State(), o) == LogoutEffect(old(State()), u)
    {
      hide Inv, Sound;
      assert Inv(LogoutEffect(State(), u).db) by {
        var e := Event(0, Logout(u));
        LogoutSound(State(), e);
        SoundKeepsInv(State(), e, LogoutEffect(State(), u));
      }
      if u !in users {
        return Denied(Internal);
      }
      users := users[u := users[u].(refresh := None)];
      o := SessionEnded(u);
    }

    method ChangeUserPassword(u: UserId, current: string, password: string) returns (o: Outcome)
      requires Valid()
      modifies this
      ensures Valid()
      ensures Effect(State(), o) == ChangePasswordEffect(old(State()), u, current, password)
    {
      hide Inv, Sound;
      assert Inv(ChangePasswordEffect(State(), u, current, password).db) by {
        var e := Event(0, ChangePassword(u, current, password));
        ChangePasswordSound(State(), e);
        SoundKeepsInv(State(), e, ChangePasswordEffect(State(), u, current, password));
      }
      if u !in users || users[u].deleted {
        return Denied(Unauthorized);
      }
      if !Verify(users[u].password, current) {
        return Denied(Unauthorized);
      }
      users := users[u := users[u].(password := Argon2(password), refresh := None)];
      o := SessionEnded(u);
    }

    // ---------- Password reset and email verification ----------

    method RequestReset(email: string, now: int) returns (o: Outcome)
      requires Valid()
      modifies this
      ensures Valid()
      ensures Effect(State(), o) == ForgotPasswordEffect(old(State()), now, email)
    {
      hide Inv, Sound, UserByEmail, NormalEmail;
      assert Inv(ForgotPasswordEffect(State(), now, email).db) by {
        var e := Event(now, ForgotPassword(email));
        ForgotPasswordSound(State(), e);
        SoundKeepsInv(State(), e, ForgotPasswordEffect(State(), now, email));
      }
      var found := FindUserByEmail(NormalEmail(email));
      if found.None? || !users[found.value].active || users[found.value].deleted {
        return Done;
      }
      TablesAreSound(State());
      hide TicketsOk, OnlyLinkUntil;
      var link := SendPasswordResetEmail(found.value, now);
      o := ResetLinkSent(found.value, link);
    }

    method ResetUserPassword(token: Token, password: string, now: int) returns (o: Outcome)
      requires Valid()
      modifies this
      ensures Valid()
      ensures Effect(State(), o) == ResetPasswordEffect(old(State()), now, token, password)
    {
      hide Inv, Sound;
      assert Inv(ResetPasswordEffect(State(), now, token, password).db) by {
        var e := Event(now, ResetPassword(token, password));
        ResetPasswordSound(State(), e);
        SoundKeepsInv(State(), e, ResetPasswordEffect(State(), now, token, password));
      }
      if !Validates(resets, token, now) {
        return Denied(Unauthorized);
      }
      var u := resets[Sha256(token)].user;
      if u !in users {
        return Denied(Internal);
      }
      if !users[u].active {
        return Denied(Forbidden);
      }
      if users[u].deleted {
        return Denied(Unauthorized);
      }
      users := users[u := users[u].(password := Argon2(password), refresh := None, lock := UNLOCKED)];
      resets := resets[Sha256(token) := resets[Sha256(token)].(used := true)];
      o := PasswordReset(u);
    }

    method VerifyUserEmail(token: Token, now: int) returns (o: Outcome)
      requires Valid()
      modifies this
      ensures Valid()
      ensures Effect(State(), o) == VerifyEmailEffect(old(State()), now, token)
    {
      hide Inv, Sound;
      assert Inv(VerifyEmailEffect(State(), now, token).db) by {
        var e := Event(now, VerifyEmail(token));
        VerifyEmailSound(State(), e);
        SoundKeepsInv(State(), e, VerifyEmailEffect(State(), now, token));
      }
      if !Validates(verifications, token, now) {
        return Denied(Unauthorized);
      }
      var u := verifications[Sha256(token)].user;
      if u !in users {
        return Denied(Internal);
      }
      if !users[u].active {
        return Denied(Forbidden);
      }
      if users[u].deleted {
        return Denied(Unauthorized);
      }
      if users[u].verified {
        return Done;
      }
      users := users[u := users[u].(verified := true)];
      verifications := verifications[Sha256(token) := verifications[Sha256(token)].(used := true)];
      verifications := WithoutUnused(verifications, u);
      o := Done;
    }

    method ResendVerificationEmail(u: UserId, now: int) returns (o: Outcome)
      requires Valid()
      modifies this
      ensures Valid()
      ensures Effect(State(), o) == ResendVerificationEffect(old(State()), now, u)
    {
      hide Inv, Sound;
      assert Inv(ResendVerificationEffect(State(), now, u).db) by {
        var e := Event(now, ResendVerification(u));
        ResendVerificationSound(State(), e);
        SoundKeepsInv(State(), e, ResendVerificationEffect(State(), now, u));
      }
      if u !in users {
        return Denied(Unauthorized);
      }
      if users[u].deleted {
        return Denied(Unauthorized);
      }
      if !users[u].active {
        return Denied(Forbidden);
      }
      if users[u].verified {
        return Done;
      }
      TablesAreSound(State());
      hide TicketsOk, OnlyLinkUntil;
      var link := SendVerificationEmail(u, now);
      o := VerificationSent(u, link);
    }

    method ResendPendingMemberVerification(u: UserId, now: int) returns (o: Outcome)
      requires Valid()
      modifies this
      ensures Valid()
      ensures Effect(State(), o) == AdminResendVerificationEffect(old(State()), now, u)
    {
      hide Inv, Sound;
      assert Inv(AdminResendVerificationEffect(State(), now, u).db) by {
        var e := Event(now, AdminResendVerification(u));
        AdminResendVerificationSound(State(), e);
        SoundKeepsInv(State(), e, AdminResendVerificationEffect(State(), now, u));
      }
      if u !in users || users[u].deleted {
        return Denied(NotFound);
      }
      if users[u].role != MEMBER {
        return Denied(Forbidden);
      }
      if users[u].verified {
        return Denied(Conflict);
      }
      TablesAreSound(State());
      hide TicketsOk, OnlyLinkUntil;
      var link := SendVerificationEmail(u, now);
      o := VerificationSent(u, link);
    }

    // ---------- Registration and invitations ----------

    method RegisterUser(rawEmail: string, password: string, invite: Option<Token>, now: int) returns (o: Outcome)
      requires Valid()
      modifies this
      ensures Valid()
      ensures Effect(State(), o) == RegisterEffect(old(State()), now, rawEmail, password, invite)
    {
      hide Inv, Sound, UserByEmail, InviteByToken, NormalEmail, SendVerification, AddUser;
      assert Inv(RegisterEffect(State(), now, rawEmail, password, invite).db) by {
        var e := Event(now, Register(rawEmail, password, invite));
        RegisterSound(State(), e);
        SoundKeepsInv(State(), e, RegisterEffect(State(), now, rawEmail, password, invite));
      }
      var email := NormalEmail(rawEmail);
      var existing := FindUserByEmail(email);
      if existing.Some? && !users[existing.value].deleted {
        return Denied(Conflict);
      }
      var role := MEMBER;
      var matched: Option<string> := None;
      if invite.Some? {
        var found := FindInviteByToken(invite.value);
        if found.None? || invites[found.value].status != OPEN {
          return Denied(Unauthorized);
        }
        if now > invites[found.value].expiresAt {
          invites := invites[found.value := invites[found.value].(status := EXPIRED)];
          return Denied(Unauthorized);
        }
        if NormalEmail(found.value) != email {
          return Denied(Unauthorized);
        }
        role := invites[found.value].role;
        matched := found;
      }
      if existing.Some? {
        return Denied(Internal);
      }
      FoundByEmail(users, email);
      o := Created(nextUser);
      OpenAccount(email, password, role, matched, now);
    }

    /** The registration transaction and the verification link that follows it. */
    method OpenAccount(email: string, password: string, role: Role, matched: Option<string>, now: int)
      requires Valid() && (matched.Some? ==> matched.value in invites)
      requires forall u :: u in users ==> users[u].email != email
      modifies this
      ensures Valid()
      ensures
        var added := AddUser(old(State()), NewUser(email, role, false, PENDING, password));
        var t := SendVerification(added, old(nextUser), now);
        State() == if matched.Some? then t.(invites := SetStatus(old(State()), matched.value, ACCEPTED).invites) else t
      ensures matched.Some? ==> AccountSafety.Closed(invites, old(invites)[matched.value].token)
      ensures OnlyLinkUntil(verifications, old(nextUser), Raw(old(nextToken)), now + 24 * HOUR)
    {
      ghost var s := State();
      var u := nextUser;
      AccountOpened(s, email, password, role, matched, now);
      hide Inv, TicketsOk, OnlyLinkUntil, AccountSafety.Closed, NewUser, WithoutUnused, Issue, SetStatus, AddUser;
      CreateUser(email, password, role, matched);
      var link := SendVerificationEmail(u, now);
    }

    /** The transaction: the account, and the invitation it was made on. */
    method CreateUser(email: string, password: string, role: Role, matched: Option<string>)
      requires matched.Some? ==> matched.value in invites
      modifies this`users, this`nextUser, this`invites
      ensures
        var t := AddUser(old(State()), NewUser(email, role, false, PENDING, password));
        State() == if matched.Some? then t.(invites := SetStatus(old(State()), matched.value, ACCEPTED).invites) else t
      ensures old(nextUser) in users
    {
      users, nextUser := users[nextUser := NewUser(email, role, false, PENDING, password)], nextUser + 1;
      if matched.Some? {
        invites := invites[matched.value := invites[matched.value].(status := ACCEPTED)];
      }
    }

    method SendInvitation(email: string, role: Role, now: int) returns (o: Outcome)
      requires Valid()
      modifies this
      ensures Valid()
      ensures Effect(State(), o) == SendInviteEffect(old(State()), now, email, role)
    {
      hide Inv, Sound, UserByEmail;
      assert Inv(SendInviteEffect(State(), now, email, role).db) by {
        var e := Event(now, SendInvite(email, role));
        SendInviteSound(State(), e);
        SoundKeepsInv(State(), e, SendInviteEffect(State(), now, email, role));
      }
      var existing := FindUserByEmail(email);
      if existing.Some? && !users[existing.value].deleted {
        return Denied(Conflict);
      }
      var link := Raw(nextToken);
      nextToken := nextToken + 1;
      invites := invites[email := Invite(role, link, OPEN, now + 48 * HOUR)];
      o := InviteSent(link);
    }

    method ValidateInviteToken(token: Token, now: int) returns (o: Outcome)
      requires Valid()
      modifies this
      ensures Valid()
      ensures Effect(State(), o) == ValidateInviteEffect(old(State()), now, token)
    {
      hide Inv, Sound, InviteByToken;
      assert Inv(ValidateInviteEffect(State(), now, token).db) by {
        var e := Event(now, ValidateInvite(token));
        ValidateInviteSound(State(), e);
        SoundKeepsInv(State(), e, ValidateInviteEffect(State(), now, token));
      }
      var found := FindInviteByToken(token);
      if found.None? || invites[found.value].status != OPEN {
        return Denied(NotFound);
      }
      if now > invites[found.value].expiresAt {
        invites := invites[found.value := invites[found.value].(status := EXPIRED)];
        return Denied(BadRequest);
      }
      o := Done;
    }

    method AcceptInvitation(token: Token, password: string, now: int) returns (o: Outcome)
      requires Valid()
      modifies this
      ensures Valid()
      ensures Effect(State(), o) == AcceptInviteEffect(old(State()), now, token, password)
    {
      hide Inv, Sound, UserByEmail, InviteByToken;
      assert Inv(AcceptInviteEffect(State(), now, token, password).db) by {
        var e := Event(now, AcceptInvite(token, password));
        AcceptInviteSound(State(), e);
        SoundKeepsInv(State(), e, AcceptInviteEffect(State(), now, token, password));
      }
      var found := FindInviteByToken(token);
      if found.None? || invites[found.value].status != OPEN {
        return Denied(NotFound);
      }
      var email := found.value;
      if now > invites[email].expiresAt {
        invites := invites[email := invites[email].(status := EXPIRED)];
        return Denied(BadRequest);
      }
      var existing := FindUserByEmail(email);
      if existing.Some? {
        return Denied(if users[existing.value].deleted then Internal else Conflict);
      }
      var u := nextUser;
      users, nextUser := users[u := NewUser(email, invites[email].role, true, PENDING, password)], nextUser + 1;
      invites := invites[email := invites[email].(status := ACCEPTED)];
      o := Created(u);
    }

    method CancelInvitation(email: string) returns (o: Outcome)
      requires Valid()
      modifies this
      ensures Valid()
      ensures Effect(State(), o) == CancelInviteEffect(old(State()), email)
    {
      hide Inv, Sound;
      assert Inv(CancelInviteEffect(State(), email).db) by {
        var e := Event(0, CancelInvite(email));
        CancelInviteSound(State(), e);
        SoundKeepsInv(State(), e, CancelInviteEffect(State(), email));
      }
      if email !in invites || invites[email].status != OPEN {
        return Denied(NotFound);
      }
      invites := invites[email := invites[email].(status := CANCELLED)];
      o := Done;
    }

    method ResendInvitation(email: string, now: int) returns (o: Outcome)
      requires Valid()
      modifies this
      ensures Valid()
      ensures Effect(State(), o) == ResendInviteEffect(old(State()), now, email)
    {
      hide Inv, Sound;
      assert Inv(ResendInviteEffect(State(), now, email).db) by {
        var e := Event(now, ResendInvite(email));
        ResendInviteSound(State(), e);
        SoundKeepsInv(State(), e, ResendInviteEffect(State(), now, email));
      }
      if email !in invites || invites[email].status != OPEN {
        return Denied(NotFound);
      }
      var rawToken := Raw(nextToken);
      var hashedToken := Sha256(rawToken);
      nextToken := nextToken + 1;
      invites := invites[email := invites[email].(token := hashedToken, expiresAt := now + 7 * 24 * HOUR)];
      o := InviteSent(rawToken);
    }

    // ---------- Administration ----------

    method DecideApproval(u: UserId, approve: bool, superAdmin: bool) returns (o: Outcome)
      requires Valid()
      modifies this
      ensures Valid()
      ensures Effect(State(), o) == DecideEffect(old(State()), u, approve, superAdmin)
    {
      hide Inv, Sound;
      assert Inv(DecideEffect(State(), u, approve, superAdmin).db) by {
        var e := Event(0, Decide(u, approve, superAdmin));
        DecideSound(State(), e);
        SoundKeepsInv(State(), e, DecideEffect(State(), u, approve, superAdmin));
      }
      if u !in users || users[u].deleted {
        return Denied(NotFound);
      }
      if !superAdmin && users[u].role != MEMBER {
        return Denied(Forbidden);
      }
      if users[u].approval != PENDING {
        return Denied(Conflict);
      }
      users := users[u := users[u].(approval := if approve then APPROVED else REJECTED)];
      o := Decided(u, approve);
    }

    method HardDeletePendingMember(u: UserId) returns (o: Outcome)
      requires Valid()
      modifies this
      ensures Valid()
      ensures Effect(State(), o) == HardDeletePendingEffect(old(State()), u)
    {
      hide Inv, Sound;
      assert Inv(HardDeletePendingEffect(State(), u).db) by {
        var e := Event(0, HardDeletePending(u));
        HardDeletePendingSound(State(), e);
        SoundKeepsInv(State(), e, HardDeletePendingEffect(State(), u));
      }
      if u !in users || users[u].deleted {
        return Denied(NotFound);
      }
      if users[u].role != MEMBER {
        return Denied(Forbidden);
      }
      if users[u].approval != PENDING {
        return Denied(BadRequest);
      }
      users := users - {u};
      resets, verifications := WithoutUser(resets, u), WithoutUser(verifications, u);
      o := Done;
    }

    /** An account that is verified and approved from the start, under an email nobody has. */
    method CreateAccount(email: string, password: string, role: Role) returns (o: Outcome)
      requires Valid()
      modifies this
      ensures Valid()
      ensures Effect(State(), o) == ProvisionEffect(old(State()), email, password, role)
    {
      hide Inv, Sound, UserByEmail, NormalEmail;
      assert Inv(ProvisionEffect(State(), email, password, role).db) by {
        var e := Event(0, Provision(email, password, role));
        ProvisionSound(State(), e);
        SoundKeepsInv(State(), e, ProvisionEffect(State(), email, password, role));
      }
      var existing := FindUserByEmail(NormalEmail(email));
      if existing.Some? {
        return Denied(Conflict);
      }
      var u := nextUser;
      users, nextUser := users[u := NewUser(NormalEmail(email), role, true, APPROVED, password)], nextUser + 1;
      o := Created(u);
    }

    method CreateMember(email: string, password: string) returns (o: Outcome)
      requires Valid()
      modifies this
      ensures Valid()
      ensures Effect(State(), o) == ProvisionEffect(old(State()), email, password, MEMBER)
    {
      hide Inv;
      o := CreateAccount(email, password, MEMBER);
    }

    method CreateAdmin(email: string, password: string, role: Role) returns (o: Outcome)
      requires Valid()
      modifies this
      ensures Valid()
      ensures Effect(State(), o) == ProvisionEffect(old(State()), email, password, role)
    {
      hide Inv;
      o := CreateAccount(email, password, role);
    }
  }
}
