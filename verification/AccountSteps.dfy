/** What every single call on accounts keeps and changes, operation by operation. */
module AccountSteps {
  import opened Wrappers
  import opened AuthLock
  import opened Accounts

  // ---------- Invariants ----------

  ghost predicate UsersOk(users: Users, nextUser: UserId) {
    && (forall u :: u in users ==> u < nextUser)
    && (forall u, v {:trigger users[u].email, users[v].email} | u in users && v in users ::
          users[u].email == users[v].email ==> u == v)
  }

  /** Each user has at most one unused ticket, and every ticket has an owner and an issued digest. */
  ghost predicate TicketsOk(table: Tickets, users: Users, nextToken: nat) {
    && (forall k :: k in table ==> table[k].user in users && Serial(k) < nextToken)
    && (forall a, b {:trigger table[a].used, table[b].used} | a in table && b in table ::
          !table[a].used && !table[b].used && table[a].user == table[b].user ==> a == b)
  }

  /** A verified user has no unused verification ticket. */
  ghost predicate VerifiedClear(users: Users, table: Tickets) {
    forall k :: k in table && !table[k].used && table[k].user in users ==> !users[table[k].user].verified
  }

  ghost predicate InvitesOk(invites: Invites, nextToken: nat) {
    && (forall e :: e in invites ==> Serial(invites[e].token) < nextToken)
    && (forall e, f {:trigger invites[e].token, invites[f].token} | e in invites && f in invites ::
          invites[e].token == invites[f].token ==> e == f)
  }

  ghost predicate Inv(s: Db) {
    && UsersOk(s.users, s.nextUser)
    && TicketsOk(s.resets, s.users, s.nextToken)
    && TicketsOk(s.verifications, s.users, s.nextToken)
    && VerifiedClear(s.users, s.verifications)
    && InvitesOk(s.invites, s.nextToken)
  }

  // ---------- How one call may move each table ----------

  function RefreshAfter(o: Outcome, u: UserId, before: Option<Hash>): Option<Hash> {
    match o
    case Tokens(v, jwt) => if u == v then Some(Argon2(jwt)) else before
    case SessionEnded(v) => if u == v then None else before
    case PasswordReset(v) => if u == v then None else before
    case _ => before
  }

  /** A login, a local validation or a password reset clears the user's lock. */
  predicate ClearsLock(e: Event, o: Outcome, u: UserId) {
    match o
    case Authenticated(v) => u == v
    case Tokens(v, _) => u == v && e.op.Login?
    case PasswordReset(v) => u == v
    case _ => false
  }

  function LockAfter(e: Event, o: Outcome, u: UserId, before: Lock): Lock {
    if o == WrongPassword(u) then AfterFailure(before, EndOf(e))
    else if ClearsLock(e, o, u) then UNLOCKED
    else before
  }

  function ApprovalAfter(o: Outcome, u: UserId, before: Approval): Approval {
    match o
    case Decided(v, approved) => if u != v then before else if approved then APPROVED else REJECTED
    case _ => before
  }

  /** The user whose session, lock or approval the outcome is about. */
  function Touched(o: Outcome): Option<UserId> {
    match o
    case WrongPassword(u) => Some(u)
    case Authenticated(u) => Some(u)
    case Tokens(u, _) => Some(u)
    case SessionEnded(u) => Some(u)
    case PasswordReset(u) => Some(u)
    case Decided(u, _) => Some(u)
    case _ => None
  }

  ghost predicate UserMoves(s: Db, e: Event, t: Db, o: Outcome, u: UserId)
    requires u in t.users
  {
    if u in s.users then
      && t.users[u].email == s.users[u].email
      && (s.users[u].verified ==> t.users[u].verified)
      && t.users[u].refresh == RefreshAfter(o, u, s.users[u].refresh)
      && t.users[u].lock == LockAfter(e, o, u, s.users[u].lock)
      && t.users[u].approval == ApprovalAfter(o, u, s.users[u].approval)
    else
      && o == Created(u) && t.users[u].refresh == None && t.users[u].lock == UNLOCKED
      && t.users[u].approval == if e.op.Provision? then APPROVED else PENDING
  }

  ghost predicate UsersMove(s: Db, e: Event, t: Db, o: Outcome) {
    forall u :: u in t.users ==> UserMoves(s, e, t, o, u)
  }

  /** What an outcome says about the state before. */
  ghost predicate OutcomeTrue(s: Db, e: Event, t: Db, o: Outcome) {
    && s.nextToken <= t.nextToken
    && (Touched(o).Some? ==> Touched(o).value in s.users)
    && t.nextUser == (if o.Created? then s.nextUser + 1 else s.nextUser)
    && match o
       case Tokens(u, _) => u in s.users && s.users[u].approval == APPROVED
       case WrongPassword(u) => u in s.users && !IsAccountLocked(s.users[u].lock, e.now)
       case Decided(u, _) => u in s.users && s.users[u].approval == PENDING
       case Created(u) => u == s.nextUser && u in t.users
       case _ => true
  }

  /** Tickets never come back to life, and a new one is fresh and replaces the user's unused one. */
  ghost predicate TicketsMove(table: Tickets, next: nat, table': Tickets, next': nat, issuedTo: Option<UserId>) {
    forall k :: k in table' ==>
      if Serial(k) == next then
        next < next' && issuedTo == Some(table'[k].user)
      else
        && k in table && table'[k].user == table[k].user && table'[k].expiresAt == table[k].expiresAt
        && (table[k].used ==> table'[k].used)
        && (issuedTo == Some(table'[k].user) ==> table'[k].used)
  }

  function ResetIssuedTo(o: Outcome): Option<UserId> {
    match o
    case ResetLinkSent(u, _) => Some(u)
    case _ => None
  }

  function VerificationIssuedTo(e: Event, o: Outcome): Option<UserId> {
    match o
    case VerificationSent(u, _) => Some(u)
    case Created(u) => if e.op.Register? then Some(u) else None
    case _ => None
  }

  /** Invitations are never reopened: an open one was open before, or has a new token. */
  ghost predicate InvitesMove(invites: Invites, next: nat, invites': Invites, next': nat) {
    forall e :: e in invites' ==>
      || (Serial(invites'[e].token) == next && next < next')
      || (e in invites && invites'[e].token == invites[e].token && invites'[e].expiresAt == invites[e].expiresAt
          && (invites'[e].status == OPEN ==> invites[e].status == OPEN))
  }

  ghost predicate Moves(s: Db, e: Event, t: Db, o: Outcome) {
    && UsersMove(s, e, t, o)
    && OutcomeTrue(s, e, t, o)
    && TicketsMove(s.resets, s.nextToken, t.resets, t.nextToken, ResetIssuedTo(o))
    && TicketsMove(s.verifications, s.nextToken, t.verifications, t.nextToken, VerificationIssuedTo(e, o))
    && InvitesMove(s.invites, s.nextToken, t.invites, t.nextToken)
  }

  ghost predicate Sound(s: Db, e: Event, r: Effect) {
    Moves(s, e, r.db, r.outcome) && Inv(r.db)
  }

  // ---------- Table changes ----------

  lemma TicketsStay(table: Tickets, users: Users, next: nat, users': Users, next': nat, issuedTo: Option<UserId>)
    requires TicketsOk(table, users, next) && users.Keys <= users'.Keys && next <= next'
    requires issuedTo.Some? ==> issuedTo.value !in users
    ensures TicketsOk(table, users', next') && TicketsMove(table, next, table, next', issuedTo)
  {
  }

  lemma InvitesStay(invites: Invites, next: nat, next': nat)
    requires InvitesOk(invites, next) && next <= next'
    ensures InvitesOk(invites, next') && InvitesMove(invites, next, invites, next')
  {
  }

  lemma IssueMoves(table: Tickets, users: Users, users': Users, next: nat, u: UserId, expiresAt: int)
    requires TicketsOk(table, users, next) && users.Keys <= users'.Keys && u in users'
    ensures TicketsOk(Issue(table, u, Sha256(Raw(next)), expiresAt), users', next + 1)
    ensures TicketsMove(table, next, Issue(table, u, Sha256(Raw(next)), expiresAt), next + 1, Some(u))
  {
    forall k | k in Issue(table, u, Sha256(Raw(next)), expiresAt) && Serial(k) == next
      ensures k == Sha256(Raw(next))
    {
      assert k in table ==> Serial(k) < next;
    }
  }

  lemma IssueKeepsClear(users: Users, table: Tickets, u: UserId, digest: Token, expiresAt: int)
    requires VerifiedClear(users, table) && u in users && !users[u].verified
    ensures VerifiedClear(users, Issue(table, u, digest, expiresAt))
  {
  }

  lemma ConsumeMoves(table: Tickets, users: Users, next: nat, k: Token)
    requires TicketsOk(table, users, next) && k in table
    ensures TicketsOk(Consume(table, k), users, next)
    ensures TicketsMove(table, next, Consume(table, k), next, None)
  {
  }

  lemma ClearMoves(table: Tickets, users: Users, next: nat, k: Token)
    requires TicketsOk(table, users, next) && k in table
    ensures TicketsOk(WithoutUnused(Consume(table, k), table[k].user), users, next)
    ensures TicketsMove(table, next, WithoutUnused(Consume(table, k), table[k].user), next, None)
  {
  }

  lemma WithoutUserMoves(table: Tickets, users: Users, next: nat, u: UserId)
    requires TicketsOk(table, users, next)
    ensures TicketsOk(WithoutUser(table, u), users - {u}, next)
    ensures TicketsMove(table, next, WithoutUser(table, u), next, None)
  {
  }

  lemma StatusMoves(invites: Invites, next: nat, next': nat, e: string, status: InviteStatus)
    requires InvitesOk(invites, next) && e in invites && status != OPEN && next <= next'
    ensures InvitesOk(invites[e := invites[e].(status := status)], next')
    ensures InvitesMove(invites, next, invites[e := invites[e].(status := status)], next')
  {
  }

  lemma InviteIssued(invites: Invites, next: nat, e: string, invite: Invite)
    requires InvitesOk(invites, next) && Serial(invite.token) == next
    ensures InvitesOk(invites[e := invite], next + 1)
    ensures InvitesMove(invites, next, invites[e := invite], next + 1)
  {
    forall f | f in invites
      ensures invites[f].token != invite.token
    {
      assert Serial(invites[f].token) < next;
    }
  }

  lemma UsersStay(s: Db, e: Event, t: Db, o: Outcome)
    requires t.users == s.users && Touched(o).None? && !o.Created?
    ensures UsersMove(s, e, t, o)
  {
  }

  /** Nothing changes. */
  lemma NothingMoves(s: Db, e: Event, o: Outcome)
    requires Inv(s) && (o.Denied? || o.Done?)
    ensures Sound(s, e, Effect(s, o))
  {
    TicketsStay(s.resets, s.users, s.nextToken, s.users, s.nextToken, None);
    TicketsStay(s.verifications, s.users, s.nextToken, s.users, s.nextToken, None);
    InvitesStay(s.invites, s.nextToken, s.nextToken);
    hide TicketsOk, TicketsMove, InvitesOk, InvitesMove, VerifiedClear;
  }

  /** One user row changes, but not in its email or verification. */
  lemma UserRowMoves(s: Db, e: Event, u: UserId, user: User, o: Outcome)
    requires Inv(s) && u in s.users && user.email == s.users[u].email && user.verified == s.users[u].verified
    requires ResetIssuedTo(o).None? && VerificationIssuedTo(e, o).None? && !o.Created?
    requires OutcomeTrue(s, e, SetUser(s, u, user), o)
    requires UserMoves(s, e, SetUser(s, u, user), o, u)
    requires Touched(o).Some? ==> Touched(o).value == u
    ensures Sound(s, e, Effect(SetUser(s, u, user), o))
  {
    var t := SetUser(s, u, user);
    TicketsStay(s.resets, s.users, s.nextToken, t.users, s.nextToken, None);
    TicketsStay(s.verifications, s.users, s.nextToken, t.users, s.nextToken, None);
    InvitesStay(s.invites, s.nextToken, s.nextToken);
    hide TicketsOk, TicketsMove, InvitesOk, InvitesMove;
    forall v | v in t.users
      ensures UserMoves(s, e, t, o, v)
    {
    }
  }

  // ---------- Operation by operation ----------

  lemma FoundByEmail(users: Users, email: string)
    ensures var r := UserByEmail(users, email);
      && (r.Some? ==> r.value in users && users[r.value].email == email)
      && (r.None? ==> forall u :: u in users ==> users[u].email != email)
  {
  }

  lemma FoundByToken(invites: Invites, token: Token)
    ensures var r := InviteByToken(invites, token);
      && (r.Some? ==> r.value in invites && invites[r.value].token == token)
      && (r.None? ==> forall e :: e in invites ==> invites[e].token != token)
  {
  }

  lemma ValidateUserSound(s: Db, e: Event)
    requires Inv(s) && e.op.ValidateUser?
    ensures Sound(s, e, ValidateUserEffect(s, e.now, e.op.email, e.op.password, e.op.writeAt))
  {
    hide Inv, Sound, UserByEmail;
    var found := UserByEmail(s.users, NormalEmail(e.op.email));
    FoundByEmail(s.users, NormalEmail(e.op.email));
    if found.None? {
      NothingMoves(s, e, Denied(Unauthorized));
    } else {
      var u := found.value;
      var user := s.users[u];
      if user.deleted || !user.active || user.approval != APPROVED || IsAccountLocked(user.lock, e.now) {
        NothingMoves(s, e, Denied(Unauthorized));
      } else if !Verify(user.password, e.op.password) {
        UserRowMoves(s, e, u, user.(lock := AfterFailure(user.lock, e.op.writeAt)), WrongPassword(u));
      } else {
        UserRowMoves(s, e, u, user.(lock := UNLOCKED), Authenticated(u));
      }
    }
  }

  lemma LoginSound(s: Db, e: Event)
    requires Inv(s) && e.op.Login?
    ensures Sound(s, e, LoginEffect(s, e.now, e.op.email, e.op.password, e.op.requireVerification,
                                    e.op.jwt, e.op.writeAt))
  {
    hide Inv, Sound, UserByEmail;
    var found := UserByEmail(s.users, NormalEmail(e.op.email));
    FoundByEmail(s.users, NormalEmail(e.op.email));
    if found.None? || s.users[found.value].deleted {
      NothingMoves(s, e, Denied(Unauthorized));
    } else {
      var u := found.value;
      var user := s.users[u];
      if !user.active || IsAccountLocked(user.lock, e.now) {
        NothingMoves(s, e, Denied(Forbidden));
      } else if !Verify(user.password, e.op.password) {
        UserRowMoves(s, e, u, user.(lock := AfterFailure(user.lock, e.op.writeAt)), WrongPassword(u));
      } else if (e.op.requireVerification && !user.verified) || user.approval != APPROVED {
        NothingMoves(s, e, Denied(Forbidden));
      } else {
        UserRowMoves(s, e, u, user.(lock := UNLOCKED, refresh := Some(Argon2(e.op.jwt))), Tokens(u, e.op.jwt));
      }
    }
  }

  /** A new account under a new email, with nothing else changed. */
  lemma AddUserMoves(s: Db, user: User)
    requires Inv(s) && forall u :: u in s.users ==> s.users[u].email != user.email
    ensures UsersOk(AddUser(s, user).users, s.nextUser + 1)
    ensures TicketsOk(s.resets, AddUser(s, user).users, s.nextToken)
    ensures TicketsOk(s.verifications, AddUser(s, user).users, s.nextToken)
    ensures VerifiedClear(AddUser(s, user).users, s.verifications)
    ensures s.nextUser !in s.users
  {
    TicketsStay(s.resets, s.users, s.nextToken, AddUser(s, user).users, s.nextToken, None);
    TicketsStay(s.verifications, s.users, s.nextToken, AddUser(s, user).users, s.nextToken, None);
    assert forall k :: k in s.verifications ==> s.verifications[k].user in s.users;
  }

  lemma RegisterAsSound(s: Db, e: Event, email: string, role: Role)
    requires Inv(s) && e.op.Register?
    ensures Sound(s, e, RegisterAs(s, e.now, email, e.op.password, role))
    ensures RegisterAs(s, e.now, email, e.op.password, role).db.invites == s.invites
  {
    hide UserByEmail, Inv, Sound;
    FoundByEmail(s.users, email);
    if UserByEmail(s.users, email).Some? {
      NothingMoves(s, e, Denied(Internal));
    } else {
      RegisteredSound(s, e, email, role);
    }
  }

  lemma RegisteredSound(s: Db, e: Event, email: string, role: Role)
    requires Inv(s) && e.op.Register? && forall u :: u in s.users ==> s.users[u].email != email
    ensures var t := AddUser(s, NewUser(email, role, false, PENDING, e.op.password));
      Sound(s, e, Effect(SendVerification(t, s.nextUser, e.now), Created(s.nextUser)))
  {
    hide TicketsOk, TicketsMove, InvitesOk, InvitesMove, VerifiedClear, UsersMove, UsersOk, Issue;
    var u := s.nextUser;
    var user := NewUser(email, role, false, PENDING, e.op.password);
    var t := AddUser(s, user);
    var r := SendVerification(t, u, e.now);
    AddUserMoves(s, user);
    IssueMoves(s.verifications, s.users, t.users, s.nextToken, u, e.now + 24 * HOUR);
    IssueKeepsClear(t.users, s.verifications, u, Sha256(Raw(s.nextToken)), e.now + 24 * HOUR);
    TicketsStay(s.resets, s.users, s.nextToken, t.users, s.nextToken + 1, None);
    InvitesStay(s.invites, s.nextToken, s.nextToken + 1);
    AddedUserMoves(s, e, r, user);
  }

  /** The users table of a call that adds one account. */
  lemma AddedUserMoves(s: Db, e: Event, t: Db, user: User)
    requires s.nextUser !in s.users && t.users == s.users[s.nextUser := user]
    requires user.refresh == None && user.lock == UNLOCKED
    requires user.approval == if e.op.Provision? then APPROVED else PENDING
    ensures UsersMove(s, e, t, Created(s.nextUser))
  {
  }

  lemma SetStatusSound(s: Db, e: Event, email: string, status: InviteStatus, o: Outcome)
    requires Inv(s) && email in s.invites && status != OPEN && (o.Denied? || o.Done?)
    ensures Sound(s, e, Effect(SetStatus(s, email, status), o))
  {
    TicketsStay(s.resets, s.users, s.nextToken, s.users, s.nextToken, None);
    TicketsStay(s.verifications, s.users, s.nextToken, s.users, s.nextToken, None);
    StatusMoves(s.invites, s.nextToken, s.nextToken, email, status);
    hide TicketsOk, TicketsMove, InvitesOk, InvitesMove, VerifiedClear;
  }

  /** Accepting the invitation on top of a sound call that left the invitations alone. */
  lemma AcceptedSound(s: Db, e: Event, r: Effect, email: string)
    requires Inv(s) && Sound(s, e, r) && r.db.invites == s.invites && email in s.invites
    ensures Sound(s, e, r.(db := r.db.(invites := SetStatus(s, email, ACCEPTED).invites)))
  {
    assert r.outcome.Created? || !r.outcome.Created?;
    StatusMoves(s.invites, s.nextToken, r.db.nextToken, email, ACCEPTED);
    hide TicketsOk, TicketsMove, InvitesOk, InvitesMove, VerifiedClear, UsersMove, UsersOk;
  }

  lemma RegisterSound(s: Db, e: Event)
    requires Inv(s) && e.op.Register?
    ensures Sound(s, e, RegisterEffect(s, e.now, e.op.email, e.op.password, e.op.invite))
  {
    hide Inv, Sound, UserByEmail, InviteByToken, RegisterAs;
    var email := NormalEmail(e.op.email);
    var existing := UserByEmail(s.users, email);
    FoundByEmail(s.users, email);
    if existing.Some? && !s.users[existing.value].deleted {
      NothingMoves(s, e, Denied(Conflict));
    } else if e.op.invite.None? {
      RegisterAsSound(s, e, email, MEMBER);
    } else {
      var found := InviteByToken(s.invites, e.op.invite.value);
      FoundByToken(s.invites, e.op.invite.value);
      if found.None? || s.invites[found.value].status != OPEN {
        NothingMoves(s, e, Denied(Unauthorized));
      } else if e.now > s.invites[found.value].expiresAt {
        SetStatusSound(s, e, found.value, EXPIRED, Denied(Unauthorized));
      } else if NormalEmail(found.value) != email {
        NothingMoves(s, e, Denied(Unauthorized));
      } else {
        RegisterAsSound(s, e, email, s.invites[found.value].role);
        AcceptedSound(s, e, RegisterAs(s, e.now, email, e.op.password, s.invites[found.value].role), found.value);
      }
    }
  }

  lemma RefreshSound(s: Db, e: Event)
    requires Inv(s) && e.op.Refresh?
    ensures Sound(s, e, RefreshEffect(s, e.op.user, e.op.presented, e.op.jwt))
  {
    hide Inv, Sound;
    var u := e.op.user;
    if u !in s.users || s.users[u].deleted {
      NothingMoves(s, e, Denied(Unauthorized));
    } else if !s.users[u].active || s.users[u].approval != APPROVED {
      NothingMoves(s, e, Denied(Forbidden));
    } else if s.users[u].refresh.None? || !Verify(s.users[u].refresh.value, e.op.presented) {
      NothingMoves(s, e, Denied(Unauthorized));
    } else {
      UserRowMoves(s, e, u, s.users[u].(refresh := Some(Argon2(e.op.jwt))), Tokens(u, e.op.jwt));
    }
  }

  lemma LogoutSound(s: Db, e: Event)
    requires Inv(s) && e.op.Logout?
    ensures Sound(s, e, LogoutEffect(s, e.op.user))
  {
    hide Inv, Sound;
    var u := e.op.user;
    if u !in s.users {
      NothingMoves(s, e, Denied(Internal));
    } else {
      UserRowMoves(s, e, u, s.users[u].(refresh := None), SessionEnded(u));
    }
  }

  lemma ForgotPasswordSound(s: Db, e: Event)
    requires Inv(s) && e.op.ForgotPassword?
    ensures Sound(s, e, ForgotPasswordEffect(s, e.now, e.op.email))
  {
    hide UserByEmail;
    var found := UserByEmail(s.users, NormalEmail(e.op.email));
    FoundByEmail(s.users, NormalEmail(e.op.email));
    hide Inv, Sound;
    if found.None? || !s.users[found.value].active || s.users[found.value].deleted {
      NothingMoves(s, e, Done);
    } else {
      ResetSentSound(s, e, found.value);
    }
  }

  lemma ResetSentSound(s: Db, e: Event, u: UserId)
    requires Inv(s) && u in s.users
    ensures Sound(s, e, Effect(SendReset(s, u, e.now), ResetLinkSent(u, Raw(s.nextToken))))
  {
    hide TicketsOk, TicketsMove, InvitesOk, InvitesMove, VerifiedClear, UsersMove, UsersOk, Issue;
    var r := Effect(SendReset(s, u, e.now), ResetLinkSent(u, Raw(s.nextToken)));
    UsersStay(s, e, r.db, r.outcome);
    IssueMoves(s.resets, s.users, s.users, s.nextToken, u, e.now + HOUR);
    TicketsStay(s.verifications, s.users, s.nextToken, s.users, s.nextToken + 1, None);
    InvitesStay(s.invites, s.nextToken, s.nextToken + 1);
  }

  lemma VerificationSentSound(s: Db, e: Event, u: UserId)
    requires Inv(s) && u in s.users && !s.users[u].verified
    ensures Sound(s, e, Effect(SendVerification(s, u, e.now), VerificationSent(u, Raw(s.nextToken))))
  {
    hide TicketsOk, TicketsMove, InvitesOk, InvitesMove, VerifiedClear, UsersMove, UsersOk, Issue;
    var r := Effect(SendVerification(s, u, e.now), VerificationSent(u, Raw(s.nextToken)));
    UsersStay(s, e, r.db, r.outcome);
    IssueMoves(s.verifications, s.users, s.users, s.nextToken, u, e.now + 24 * HOUR);
    IssueKeepsClear(s.users, s.verifications, u, Sha256(Raw(s.nextToken)), e.now + 24 * HOUR);
    TicketsStay(s.resets, s.users, s.nextToken, s.users, s.nextToken + 1, None);
    InvitesStay(s.invites, s.nextToken, s.nextToken + 1);
  }

  lemma ResetPasswordSound(s: Db, e: Event)
    requires Inv(s) && e.op.ResetPassword?
    ensures Sound(s, e, ResetPasswordEffect(s, e.now, e.op.token, e.op.password))
  {
    hide Inv, Sound;
    if !Validates(s.resets, e.op.token, e.now) {
      NothingMoves(s, e, Denied(Unauthorized));
    } else {
      var u := s.resets[Sha256(e.op.token)].user;
      if u !in s.users {
        NothingMoves(s, e, Denied(Internal));
      } else if !s.users[u].active {
        NothingMoves(s, e, Denied(Forbidden));
      } else if s.users[u].deleted {
        NothingMoves(s, e, Denied(Unauthorized));
      } else {
        var user := s.users[u].(password := Argon2(e.op.password), refresh := None, lock := UNLOCKED);
        UserRowMoves(s, e, u, user, PasswordReset(u));
        ResetConsumed(s, e, SetUser(s, u, user), u, Sha256(e.op.token));
      }
    }
  }

  lemma ResetConsumed(s: Db, e: Event, t: Db, u: UserId, k: Token)
    requires Inv(s) && k in s.resets && Sound(s, e, Effect(t, PasswordReset(u)))
    requires t.resets == s.resets && t.nextToken == s.nextToken
    ensures Sound(s, e, Effect(t.(resets := Consume(s.resets, k)), PasswordReset(u)))
  {
    ConsumeMoves(s.resets, t.users, s.nextToken, k);
    hide TicketsOk, TicketsMove, InvitesOk, InvitesMove, VerifiedClear, UsersMove, UsersOk;
  }

  lemma ChangePasswordSound(s: Db, e: Event)
    requires Inv(s) && e.op.ChangePassword?
    ensures Sound(s, e, ChangePasswordEffect(s, e.op.user, e.op.current, e.op.password))
  {
    hide Inv, Sound;
    var u := e.op.user;
    if u !in s.users || s.users[u].deleted || !Verify(s.users[u].password, e.op.current) {
      NothingMoves(s, e, Denied(Unauthorized));
    } else {
      UserRowMoves(s, e, u, s.users[u].(password := Argon2(e.op.password), refresh := None), SessionEnded(u));
    }
  }

  lemma VerifyEmailSound(s: Db, e: Event)
    requires Inv(s) && e.op.VerifyEmail?
    ensures Sound(s, e, VerifyEmailEffect(s, e.now, e.op.token))
  {
    hide Inv, Sound;
    if !Validates(s.verifications, e.op.token, e.now) {
      NothingMoves(s, e, Denied(Unauthorized));
    } else {
      var u := s.verifications[Sha256(e.op.token)].user;
      if u !in s.users {
        NothingMoves(s, e, Denied(Internal));
      } else if !s.users[u].active {
        NothingMoves(s, e, Denied(Forbidden));
      } else if s.users[u].deleted {
        NothingMoves(s, e, Denied(Unauthorized));
      } else if s.users[u].verified {
        NothingMoves(s, e, Done);
      } else {
        VerifiedSound(s, e, u, Sha256(e.op.token));
      }
    }
  }

  lemma VerifiedSound(s: Db, e: Event, u: UserId, k: Token)
    requires Inv(s) && k in s.verifications && s.verifications[k].user == u && u in s.users
    ensures var t := SetUser(s, u, s.users[u].(verified := true));
      Sound(s, e, Effect(t.(verifications := WithoutUnused(Consume(s.verifications, k), u)), Done))
  {
    hide TicketsOk, TicketsMove, InvitesOk, InvitesMove, VerifiedClear, UsersMove, UsersOk, WithoutUnused, Consume;
    var t := SetUser(s, u, s.users[u].(verified := true));
    TicketsStay(s.resets, s.users, s.nextToken, t.users, s.nextToken, None);
    TicketsStay(s.verifications, s.users, s.nextToken, t.users, s.nextToken, None);
    ClearMoves(s.verifications, t.users, s.nextToken, k);
    InvitesStay(s.invites, s.nextToken, s.nextToken);
    VerifiedUserMoves(s, e, u, k);
  }

  lemma VerifiedUserMoves(s: Db, e: Event, u: UserId, k: Token)
    requires UsersOk(s.users, s.nextUser) && VerifiedClear(s.users, s.verifications)
    requires k in s.verifications && s.verifications[k].user == u && u in s.users
    ensures var t := SetUser(s, u, s.users[u].(verified := true));
      && UsersOk(t.users, t.nextUser)
      && VerifiedClear(t.users, WithoutUnused(Consume(s.verifications, k), u))
      && UsersMove(s, e, t.(verifications := WithoutUnused(Consume(s.verifications, k), u)), Done)
  {
  }

  lemma ResendVerificationSound(s: Db, e: Event)
    requires Inv(s) && e.op.ResendVerification?
    ensures Sound(s, e, ResendVerificationEffect(s, e.now, e.op.user))
  {
    hide Inv, Sound;
    var u := e.op.user;
    if u !in s.users || s.users[u].deleted {
      NothingMoves(s, e, Denied(Unauthorized));
    } else if !s.users[u].active {
      NothingMoves(s, e, Denied(Forbidden));
    } else if s.users[u].verified {
      NothingMoves(s, e, Done);
    } else {
      VerificationSentSound(s, e, u);
    }
  }

  lemma AdminResendVerificationSound(s: Db, e: Event)
    requires Inv(s) && e.op.AdminResendVerification?
    ensures Sound(s, e, AdminResendVerificationEffect(s, e.now, e.op.user))
  {
    hide Inv, Sound;
    var u := e.op.user;
    if u !in s.users || s.users[u].deleted {
      NothingMoves(s, e, Denied(NotFound));
    } else if s.users[u].role != MEMBER {
      NothingMoves(s, e, Denied(Forbidden));
    } else if s.users[u].verified {
      NothingMoves(s, e, Denied(Conflict));
    } else {
      VerificationSentSound(s, e, u);
    }
  }

  lemma InviteIssuedSound(s: Db, e: Event, email: string, invite: Invite, o: Outcome)
    requires Inv(s) && Serial(invite.token) == s.nextToken && o.InviteSent?
    ensures Sound(s, e, Effect(s.(invites := s.invites[email := invite], nextToken := s.nextToken + 1), o))
  {
    TicketsStay(s.resets, s.users, s.nextToken, s.users, s.nextToken + 1, None);
    TicketsStay(s.verifications, s.users, s.nextToken, s.users, s.nextToken + 1, None);
    InviteIssued(s.invites, s.nextToken, email, invite);
    hide TicketsOk, TicketsMove, InvitesOk, InvitesMove, VerifiedClear;
  }

  lemma SendInviteSound(s: Db, e: Event)
    requires Inv(s) && e.op.SendInvite?
    ensures Sound(s, e, SendInviteEffect(s, e.now, e.op.email, e.op.role))
  {
    hide Inv, Sound, UserByEmail;
    var existing := UserByEmail(s.users, e.op.email);
    FoundByEmail(s.users, e.op.email);
    if existing.Some? && !s.users[existing.value].deleted {
      NothingMoves(s, e, Denied(Conflict));
    } else {
      var link := Raw(s.nextToken);
      InviteIssuedSound(s, e, e.op.email, Invite(e.op.role, link, OPEN, e.now + 48 * HOUR), InviteSent(link));
    }
  }

  lemma ValidateInviteSound(s: Db, e: Event)
    requires Inv(s) && e.op.ValidateInvite?
    ensures Sound(s, e, ValidateInviteEffect(s, e.now, e.op.token))
  {
    hide Inv, Sound, InviteByToken;
    var found := InviteByToken(s.invites, e.op.token);
    FoundByToken(s.invites, e.op.token);
    if found.None? || s.invites[found.value].status != OPEN {
      NothingMoves(s, e, Denied(NotFound));
    } else if e.now > s.invites[found.value].expiresAt {
      SetStatusSound(s, e, found.value, EXPIRED, Denied(BadRequest));
    } else {
      NothingMoves(s, e, Done);
    }
  }

  lemma AcceptInviteSound(s: Db, e: Event)
    requires Inv(s) && e.op.AcceptInvite?
    ensures Sound(s, e, AcceptInviteEffect(s, e.now, e.op.token, e.op.password))
  {
    hide Inv, Sound, UserByEmail, InviteByToken;
    var found := InviteByToken(s.invites, e.op.token);
    FoundByToken(s.invites, e.op.token);
    if found.None? || s.invites[found.value].status != OPEN {
      NothingMoves(s, e, Denied(NotFound));
    } else if e.now > s.invites[found.value].expiresAt {
      SetStatusSound(s, e, found.value, EXPIRED, Denied(BadRequest));
    } else {
      var email := found.value;
      var existing := UserByEmail(s.users, email);
      FoundByEmail(s.users, email);
      if existing.Some? {
        NothingMoves(s, e, Denied(if s.users[existing.value].deleted then Internal else Conflict));
      } else {
        var user := NewUser(email, s.invites[email].role, true, PENDING, e.op.password);
        AddUserSound(s, e, user);
        AcceptedSound(s, e, Effect(AddUser(s, user), Created(s.nextUser)), email);
      }
    }
  }

  lemma AddUserSound(s: Db, e: Event, user: User)
    requires Inv(s) && (e.op.AcceptInvite? || e.op.Provision?)
    requires forall u :: u in s.users ==> s.users[u].email != user.email
    requires user.refresh == None && user.lock == UNLOCKED
    requires user.approval == if e.op.Provision? then APPROVED else PENDING
    ensures Sound(s, e, Effect(AddUser(s, user), Created(s.nextUser)))
  {
    var t := AddUser(s, user);
    AddUserMoves(s, user);
    AddedUserMoves(s, e, t, user);
    TicketsStay(s.resets, s.users, s.nextToken, t.users, s.nextToken, None);
    TicketsStay(s.verifications, s.users, s.nextToken, t.users, s.nextToken, None);
    InvitesStay(s.invites, s.nextToken, s.nextToken);
    hide TicketsOk, TicketsMove, InvitesOk, InvitesMove, VerifiedClear, UsersMove, UsersOk;
  }

  lemma CancelInviteSound(s: Db, e: Event)
    requires Inv(s) && e.op.CancelInvite?
    ensures Sound(s, e, CancelInviteEffect(s, e.op.email))
  {
    hide Inv, Sound;
    if e.op.email !in s.invites || s.invites[e.op.email].status != OPEN {
      NothingMoves(s, e, Denied(NotFound));
    } else {
      SetStatusSound(s, e, e.op.email, CANCELLED, Done);
    }
  }

  lemma ResendInviteSound(s: Db, e: Event)
    requires Inv(s) && e.op.ResendInvite?
    ensures Sound(s, e, ResendInviteEffect(s, e.now, e.op.email))
  {
    hide Inv, Sound;
    if e.op.email !in s.invites || s.invites[e.op.email].status != OPEN {
      NothingMoves(s, e, Denied(NotFound));
    } else {
      var link := Raw(s.nextToken);
      var invite := s.invites[e.op.email].(token := Sha256(link), expiresAt := e.now + 7 * 24 * HOUR);
      InviteIssuedSound(s, e, e.op.email, invite, InviteSent(link));
    }
  }

  lemma DecideSound(s: Db, e: Event)
    requires Inv(s) && e.op.Decide?
    ensures Sound(s, e, DecideEffect(s, e.op.user, e.op.approve, e.op.superAdmin))
  {
    hide Inv, Sound;
    var u := e.op.user;
    if u !in s.users || s.users[u].deleted {
      NothingMoves(s, e, Denied(NotFound));
    } else if !e.op.superAdmin && s.users[u].role != MEMBER {
      NothingMoves(s, e, Denied(Forbidden));
    } else if s.users[u].approval != PENDING {
      NothingMoves(s, e, Denied(Conflict));
    } else {
      UserRowMoves(s, e, u, s.users[u].(approval := if e.op.approve then APPROVED else REJECTED),
                   Decided(u, e.op.approve));
    }
  }

  lemma HardDeletePendingSound(s: Db, e: Event)
    requires Inv(s) && e.op.HardDeletePending?
    ensures Sound(s, e, HardDeletePendingEffect(s, e.op.user))
  {
    hide Inv, Sound;
    var u := e.op.user;
    if u !in s.users || s.users[u].deleted {
      NothingMoves(s, e, Denied(NotFound));
    } else if s.users[u].role != MEMBER {
      NothingMoves(s, e, Denied(Forbidden));
    } else if s.users[u].approval != PENDING {
      NothingMoves(s, e, Denied(BadRequest));
    } else {
      DeletedSound(s, e, u);
    }
  }

  lemma DeletedSound(s: Db, e: Event, u: UserId)
    requires Inv(s)
    ensures Sound(s, e, Effect(s.(users := s.users - {u}, resets := WithoutUser(s.resets, u),
                                 verifications := WithoutUser(s.verifications, u)), Done))
  {
    WithoutUserMoves(s.resets, s.users, s.nextToken, u);
    WithoutUserMoves(s.verifications, s.users, s.nextToken, u);
    InvitesStay(s.invites, s.nextToken, s.nextToken);
    assert VerifiedClear(s.users - {u}, WithoutUser(s.verifications, u));
    hide TicketsOk, TicketsMove, InvitesOk, InvitesMove, VerifiedClear, WithoutUser;
  }

  lemma ProvisionSound(s: Db, e: Event)
    requires Inv(s) && e.op.Provision?
    ensures Sound(s, e, ProvisionEffect(s, e.op.email, e.op.password, e.op.role))
  {
    hide Inv, Sound, UserByEmail;
    FoundByEmail(s.users, NormalEmail(e.op.email));
    if UserByEmail(s.users, NormalEmail(e.op.email)).Some? {
      NothingMoves(s, e, Denied(Conflict));
    } else {
      AddUserSound(s, e, NewUser(NormalEmail(e.op.email), e.op.role, true, APPROVED, e.op.password));
    }
  }

  lemma UpdateStatusSound(s: Db, e: Event)
    requires Inv(s) && e.op.UpdateStatus?
    ensures Sound(s, e, UpdateStatusEffect(s, e.op.user, e.op.newRole, e.op.newActive))
  {
    hide Inv, Sound;
    var u := e.op.user;
    if u !in s.users || s.users[u].deleted {
      NothingMoves(s, e, Denied(NotFound));
    } else {
      var user := s.users[u];
      UserRowMoves(s, e, u, user.(role := if e.op.newRole.Some? then e.op.newRole.value else user.role,
                                  active := if e.op.newActive.Some? then e.op.newActive.value else user.active), Done);
    }
  }

  lemma SoftDeleteSound(s: Db, e: Event)
    requires Inv(s) && e.op.SoftDelete?
    ensures Sound(s, e, SoftDeleteEffect(s, e.op.user))
  {
    hide Inv, Sound;
    var u := e.op.user;
    if u !in s.users {
      NothingMoves(s, e, Denied(NotFound));
    } else {
      UserRowMoves(s, e, u, s.users[u].(active := false, deleted := true), Done);
    }
  }
}
