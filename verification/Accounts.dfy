/**
 User accounts, their single-use links and invitations, and what each operation of the account services
 does to them. Hashes are constructors, so they are injective; random tokens are drawn from a counter.
 */
module Accounts {
  import opened Wrappers
  import opened AuthLock
  import Text

  type UserId = nat

  datatype Role = MEMBER | ADMIN | SUPER_ADMIN
  datatype Approval = PENDING | APPROVED | REJECTED
  /** OPEN is the status PENDING of an invitation. */
  datatype InviteStatus = OPEN | ACCEPTED | EXPIRED | CANCELLED

  /** Argon2, for passwords and refresh tokens. */
  datatype Hash = Argon2(plain: string)

  predicate Verify(h: Hash, plain: string) {
    plain != "" && h == Argon2(plain)
  }

  /** Opaque random tokens, and their digests. */
  datatype Token = Raw(n: nat) | Sha256(of: Token)

  function Serial(t: Token): nat {
    match t
    case Raw(n) => n
    case Sha256(of) => Serial(of)
  }

  datatype User = User(
    email: string, role: Role, active: bool, deleted: bool, verified: bool, approval: Approval,
    password: Hash, refresh: Option<Hash>, lock: Lock)

  /** A row of a token table, stored under the token's digest. */
  datatype Ticket = Ticket(user: UserId, expiresAt: int, used: bool)

  /** An invitation, stored under its unique email. */
  datatype Invite = Invite(role: Role, token: Token, status: InviteStatus, expiresAt: int)

  type Users = map<UserId, User>
  type Tickets = map<Token, Ticket>
  type Invites = map<string, Invite>

  /** Identifiers from nextUser and tokens from nextToken on were never handed out. */
  datatype Db = Db(
    users: Users, resets: Tickets, verifications: Tickets, invites: Invites,
    nextUser: UserId, nextToken: nat, clock: int)

  datatype Error = Unauthorized | Forbidden | Conflict | NotFound | BadRequest | Internal

  datatype Outcome =
    | Denied(error: Error)
    | Done
    | WrongPassword(user: UserId)
    | Authenticated(user: UserId)
    | Tokens(user: UserId, refresh: string)
    | SessionEnded(user: UserId)
    | PasswordReset(user: UserId)
    | Created(user: UserId)
    | Decided(user: UserId, approved: bool)
    | ResetLinkSent(user: UserId, link: Token)
    | VerificationSent(user: UserId, link: Token)
    | InviteSent(link: Token)

  datatype Effect = Effect(db: Db, outcome: Outcome)

  datatype Op =
    | ValidateUser(email: string, password: string, writeAt: int)
    | Login(email: string, password: string, requireVerification: bool, jwt: string, writeAt: int)
    | Register(email: string, password: string, invite: Option<Token>)
    | Refresh(user: UserId, presented: string, jwt: string)
    | Logout(user: UserId)
    | ForgotPassword(email: string)
    | ResetPassword(token: Token, password: string)
    | ChangePassword(user: UserId, current: string, password: string)
    | VerifyEmail(token: Token)
    | ResendVerification(user: UserId)
    | AdminResendVerification(user: UserId)
    | SendInvite(email: string, role: Role)
    | ValidateInvite(token: Token)
    | AcceptInvite(token: Token, password: string)
    | CancelInvite(email: string)
    | ResendInvite(email: string)
    | Decide(user: UserId, approve: bool, superAdmin: bool)
    | HardDeletePending(user: UserId)
    | Provision(email: string, password: string, role: Role)
    | UpdateStatus(user: UserId, newRole: Option<Role>, newActive: Option<bool>)
    | SoftDelete(user: UserId)

  /** One call, with the time at which it starts. */
  datatype Event = Event(now: int, op: Op)

  const HOUR := 60 * 60 * 1000

  // ---------- Lookups and table changes ----------

  function NormalEmail(email: string): string {
    Text.Lower(Text.Trim(email))
  }

  ghost function UserByEmail(users: Users, email: string): Option<UserId> {
    if exists u :: u in users && users[u].email == email then
      var u :| u in users && users[u].email == email;
      Some(u)
    else None
  }

  ghost function InviteByToken(invites: Invites, token: Token): Option<string> {
    if exists e :: e in invites && invites[e].token == token then
      var e :| e in invites && invites[e].token == token;
      Some(e)
    else None
  }

  /** deleteMany of the user's unused rows. */
  function WithoutUnused(table: Tickets, u: UserId): Tickets {
    map k | k in table && !(table[k].user == u && !table[k].used) :: table[k]
  }

  /** Delete the user's unused rows and create a new one under the digest. */
  function Issue(table: Tickets, u: UserId, digest: Token, expiresAt: int): Tickets {
    WithoutUnused(table, u)[digest := Ticket(u, expiresAt, false)]
  }

  function Consume(table: Tickets, digest: Token): Tickets
    requires digest in table
  {
    table[digest := table[digest].(used := true)]
  }

  /** Rows go with their user. */
  function WithoutUser(table: Tickets, u: UserId): Tickets {
    map k | k in table && table[k].user != u :: table[k]
  }

  /** What findFirst accepts: an unused row that has not expired. */
  predicate Validates(table: Tickets, raw: Token, now: int) {
    Sha256(raw) in table && !table[Sha256(raw)].used && now < table[Sha256(raw)].expiresAt
  }

  predicate InviteOpen(invite: Invite, now: int) {
    invite.status == OPEN && now <= invite.expiresAt
  }

  ghost predicate Acceptable(invites: Invites, token: Token, now: int) {
    exists e :: e in invites && invites[e].token == token && InviteOpen(invites[e], now)
  }

  function SetUser(s: Db, u: UserId, user: User): Db {
    s.(users := s.users[u := user])
  }

  function SetStatus(s: Db, email: string, status: InviteStatus): Db
    requires email in s.invites
  {
    s.(invites := s.invites[email := s.invites[email].(status := status)])
  }

  function NewUser(email: string, role: Role, verified: bool, approval: Approval, password: string): User {
    User(email, role, true, false, verified, approval, Argon2(password), None, UNLOCKED)
  }

  function AddUser(s: Db, user: User): Db {
    s.(users := s.users[s.nextUser := user], nextUser := s.nextUser + 1)
  }

  function SendVerification(s: Db, u: UserId, now: int): Db {
    s.(verifications := Issue(s.verifications, u, Sha256(Raw(s.nextToken)), now + 24 * HOUR),
       nextToken := s.nextToken + 1)
  }

  function SendReset(s: Db, u: UserId, now: int): Db {
    s.(resets := Issue(s.resets, u, Sha256(Raw(s.nextToken)), now + HOUR), nextToken := s.nextToken + 1)
  }

  // ---------- The operations ----------

  ghost function ValidateUserEffect(s: Db, now: int, email: string, password: string, writeAt: int): Effect {
    var found := UserByEmail(s.users, NormalEmail(email));
    if found.None? then Effect(s, Denied(Unauthorized))
    else
      var u := found.value;
      var user := s.users[u];
      if user.deleted || !user.active || user.approval != APPROVED || IsAccountLocked(user.lock, now) then
        Effect(s, Denied(Unauthorized))
      else if !Verify(user.password, password) then
        Effect(SetUser(s, u, user.(lock := AfterFailure(user.lock, writeAt))), WrongPassword(u))
      else Effect(SetUser(s, u, user.(lock := UNLOCKED)), Authenticated(u))
  }

  ghost function LoginEffect(s: Db, now: int, email: string, password: string, requireVerification: bool,
                             jwt: string, writeAt: int): Effect {
    var found := UserByEmail(s.users, NormalEmail(email));
    if found.None? || s.users[found.value].deleted then Effect(s, Denied(Unauthorized))
    else
      var u := found.value;
      var user := s.users[u];
      if !user.active || IsAccountLocked(user.lock, now) then Effect(s, Denied(Forbidden))
      else if !Verify(user.password, password) then
        Effect(SetUser(s, u, user.(lock := AfterFailure(user.lock, writeAt))), WrongPassword(u))
      else if (requireVerification && !user.verified) || user.approval != APPROVED then Effect(s, Denied(Forbidden))
      else Effect(SetUser(s, u, user.(lock := UNLOCKED, refresh := Some(Argon2(jwt)))), Tokens(u, jwt))
  }

  /** The account itself, once the role is settled: unverified and pending, with a verification link. */
  ghost function RegisterAs(s: Db, now: int, email: string, password: string, role: Role): Effect {
    if UserByEmail(s.users, email).Some? then Effect(s, Denied(Internal))
    else
      var t := AddUser(s, NewUser(email, role, false, PENDING, password));
      Effect(SendVerification(t, s.nextUser, now), Created(s.nextUser))
  }

  ghost function RegisterEffect(s: Db, now: int, rawEmail: string, password: string, invite: Option<Token>): Effect {
    var email := NormalEmail(rawEmail);
    var existing := UserByEmail(s.users, email);
    if existing.Some? && !s.users[existing.value].deleted then Effect(s, Denied(Conflict))
    else if invite.None? then RegisterAs(s, now, email, password, MEMBER)
    else
      var found := InviteByToken(s.invites, invite.value);
      if found.None? || s.invites[found.value].status != OPEN then Effect(s, Denied(Unauthorized))
      else if now > s.invites[found.value].expiresAt then
        Effect(SetStatus(s, found.value, EXPIRED), Denied(Unauthorized))
      else if NormalEmail(found.value) != email then Effect(s, Denied(Unauthorized))
      else
        var r := RegisterAs(s, now, email, password, s.invites[found.value].role);
        if r.outcome.Created? then r.(db := r.db.(invites := SetStatus(s, found.value, ACCEPTED).invites)) else r
  }

  ghost function RefreshEffect(s: Db, u: UserId, token: string, jwt: string): Effect {
    if u !in s.users || s.users[u].deleted then Effect(s, Denied(Unauthorized))
    else if !s.users[u].active || s.users[u].approval != APPROVED then Effect(s, Denied(Forbidden))
    else if s.users[u].refresh.None? || !Verify(s.users[u].refresh.value, token) then Effect(s, Denied(Unauthorized))
    else Effect(SetUser(s, u, s.users[u].(refresh := Some(Argon2(jwt)))), Tokens(u, jwt))
  }

  ghost function LogoutEffect(s: Db, u: UserId): Effect {
    if u !in s.users then Effect(s, Denied(Internal))
    else Effect(SetUser(s, u, s.users[u].(refresh := None)), SessionEnded(u))
  }

  ghost function ForgotPasswordEffect(s: Db, now: int, email: string): Effect {
    var found := UserByEmail(s.users, NormalEmail(email));
    if found.None? || !s.users[found.value].active || s.users[found.value].deleted then Effect(s, Done)
    else Effect(SendReset(s, found.value, now), ResetLinkSent(found.value, Raw(s.nextToken)))
  }

  ghost function ResetPasswordEffect(s: Db, now: int, token: Token, password: string): Effect {
    if !Validates(s.resets, token, now) then Effect(s, Denied(Unauthorized))
    else
      var u := s.resets[Sha256(token)].user;
      if u !in s.users then Effect(s, Denied(Internal))
      else if !s.users[u].active then Effect(s, Denied(Forbidden))
      else if s.users[u].deleted then Effect(s, Denied(Unauthorized))
      else
        var user := s.users[u].(password := Argon2(password), refresh := None, lock := UNLOCKED);
        Effect(SetUser(s, u, user).(resets := Consume(s.resets, Sha256(token))), PasswordReset(u))
  }

  ghost function ChangePasswordEffect(s: Db, u: UserId, current: string, password: string): Effect {
    if u !in s.users || s.users[u].deleted || !Verify(s.users[u].password, current) then Effect(s, Denied(Unauthorized))
    else Effect(SetUser(s, u, s.users[u].(password := Argon2(password), refresh := None)), SessionEnded(u))
  }

  ghost function VerifyEmailEffect(s: Db, now: int, token: Token): Effect {
    if !Validates(s.verifications, token, now) then Effect(s, Denied(Unauthorized))
    else
      var u := s.verifications[Sha256(token)].user;
      if u !in s.users then Effect(s, Denied(Internal))
      else if !s.users[u].active then Effect(s, Denied(Forbidden))
      else if s.users[u].deleted then Effect(s, Denied(Unauthorized))
      else if s.users[u].verified then Effect(s, Done)
      else
        var t := SetUser(s, u, s.users[u].(verified := true));
        Effect(t.(verifications := WithoutUnused(Consume(s.verifications, Sha256(token)), u)), Done)
  }

  ghost function ResendVerificationEffect(s: Db, now: int, u: UserId): Effect {
    if u !in s.users || s.users[u].deleted then Effect(s, Denied(Unauthorized))
    else if !s.users[u].active then Effect(s, Denied(Forbidden))
    else if s.users[u].verified then Effect(s, Done)
    else Effect(SendVerification(s, u, now), VerificationSent(u, Raw(s.nextToken)))
  }

  ghost function AdminResendVerificationEffect(s: Db, now: int, u: UserId): Effect {
    if u !in s.users || s.users[u].deleted then Effect(s, Denied(NotFound))
    else if s.users[u].role != MEMBER then Effect(s, Denied(Forbidden))
    else if s.users[u].verified then Effect(s, Denied(Conflict))
    else Effect(SendVerification(s, u, now), VerificationSent(u, Raw(s.nextToken)))
  }

  ghost function SendInviteEffect(s: Db, now: int, email: string, role: Role): Effect {
    var existing := UserByEmail(s.users, email);
    if existing.Some? && !s.users[existing.value].deleted then Effect(s, Denied(Conflict))
    else
      var link := Raw(s.nextToken);
      Effect(s.(invites := s.invites[email := Invite(role, link, OPEN, now + 48 * HOUR)], nextToken := s.nextToken + 1),
             InviteSent(link))
  }

  ghost function ValidateInviteEffect(s: Db, now: int, token: Token): Effect {
    var found := InviteByToken(s.invites, token);
    if found.None? || s.invites[found.value].status != OPEN then Effect(s, Denied(NotFound))
    else if now > s.invites[found.value].expiresAt then Effect(SetStatus(s, found.value, EXPIRED), Denied(BadRequest))
    else Effect(s, Done)
  }

  ghost function AcceptInviteEffect(s: Db, now: int, token: Token, password: string): Effect {
    var found := InviteByToken(s.invites, token);
    if found.None? || s.invites[found.value].status != OPEN then Effect(s, Denied(NotFound))
    else if now > s.invites[found.value].expiresAt then Effect(SetStatus(s, found.value, EXPIRED), Denied(BadRequest))
    else
      var email := found.value;
      var existing := UserByEmail(s.users, email);
      if existing.Some? then
        Effect(s, Denied(if s.users[existing.value].deleted then Internal else Conflict))
      else
        var t := AddUser(s, NewUser(email, s.invites[email].role, true, PENDING, password));
        Effect(t.(invites := SetStatus(s, email, ACCEPTED).invites), Created(s.nextUser))
  }

  ghost function CancelInviteEffect(s: Db, email: string): Effect {
    if email !in s.invites || s.invites[email].status != OPEN then Effect(s, Denied(NotFound))
    else Effect(SetStatus(s, email, CANCELLED), Done)
  }

  /** The row keeps the digest, the mail carries the raw token. */
  ghost function ResendInviteEffect(s: Db, now: int, email: string): Effect {
    if email !in s.invites || s.invites[email].status != OPEN then Effect(s, Denied(NotFound))
    else
      var link := Raw(s.nextToken);
      var invite := s.invites[email].(token := Sha256(link), expiresAt := now + 7 * 24 * HOUR);
      Effect(s.(invites := s.invites[email := invite], nextToken := s.nextToken + 1), InviteSent(link))
  }

  ghost function DecideEffect(s: Db, u: UserId, approve: bool, superAdmin: bool): Effect {
    if u !in s.users || s.users[u].deleted then Effect(s, Denied(NotFound))
    else if !superAdmin && s.users[u].role != MEMBER then Effect(s, Denied(Forbidden))
    else if s.users[u].approval != PENDING then Effect(s, Denied(Conflict))
    else Effect(SetUser(s, u, s.users[u].(approval := if approve then APPROVED else REJECTED)), Decided(u, approve))
  }

  ghost function HardDeletePendingEffect(s: Db, u: UserId): Effect {
    if u !in s.users || s.users[u].deleted then Effect(s, Denied(NotFound))
    else if s.users[u].role != MEMBER then Effect(s, Denied(Forbidden))
    else if s.users[u].approval != PENDING then Effect(s, Denied(BadRequest))
    else Effect(s.(users := s.users - {u}, resets := WithoutUser(s.resets, u),
                   verifications := WithoutUser(s.verifications, u)), Done)
  }

  /** Accounts made by administrators: members, or by super administrators any role. */
  ghost function ProvisionEffect(s: Db, email: string, password: string, role: Role): Effect {
    if UserByEmail(s.users, NormalEmail(email)).Some? then Effect(s, Denied(Conflict))
    else Effect(AddUser(s, NewUser(NormalEmail(email), role, true, APPROVED, password)), Created(s.nextUser))
  }

  ghost function UpdateStatusEffect(s: Db, u: UserId, role: Option<Role>, active: Option<bool>): Effect {
    if u !in s.users || s.users[u].deleted then Effect(s, Denied(NotFound))
    else
      var user := s.users[u];
      Effect(SetUser(s, u, user.(role := if role.Some? then role.value else user.role,
                                 active := if active.Some? then active.value else user.active)), Done)
  }

  ghost function SoftDeleteEffect(s: Db, u: UserId): Effect {
    if u !in s.users then Effect(s, Denied(NotFound))
    else Effect(SetUser(s, u, s.users[u].(active := false, deleted := true)), Done)
  }

  ghost function OpEffect(s: Db, now: int, op: Op): Effect {
    match op
    case ValidateUser(email, password, writeAt) => ValidateUserEffect(s, now, email, password, writeAt)
    case Login(email, password, requireVerification, jwt, writeAt) =>
      LoginEffect(s, now, email, password, requireVerification, jwt, writeAt)
    case Register(email, password, invite) => RegisterEffect(s, now, email, password, invite)
    case Refresh(u, token, jwt) => RefreshEffect(s, u, token, jwt)
    case Logout(u) => LogoutEffect(s, u)
    case ForgotPassword(email) => ForgotPasswordEffect(s, now, email)
    case ResetPassword(token, password) => ResetPasswordEffect(s, now, token, password)
    case ChangePassword(u, current, password) => ChangePasswordEffect(s, u, current, password)
    case VerifyEmail(token) => VerifyEmailEffect(s, now, token)
    case ResendVerification(u) => ResendVerificationEffect(s, now, u)
    case AdminResendVerification(u) => AdminResendVerificationEffect(s, now, u)
    case SendInvite(email, role) => SendInviteEffect(s, now, email, role)
    case ValidateInvite(token) => ValidateInviteEffect(s, now, token)
    case AcceptInvite(token, password) => AcceptInviteEffect(s, now, token, password)
    case CancelInvite(email) => CancelInviteEffect(s, email)
    case ResendInvite(email) => ResendInviteEffect(s, now, email)
    case Decide(u, approve, superAdmin) => DecideEffect(s, u, approve, superAdmin)
    case HardDeletePending(u) => HardDeletePendingEffect(s, u)
    case Provision(email, password, role) => ProvisionEffect(s, email, password, role)
    case UpdateStatus(u, role, active) => UpdateStatusEffect(s, u, role, active)
    case SoftDelete(u) => SoftDeleteEffect(s, u)
  }

  /** When the call is over: the lock write of a failed password check comes later than the check. */
  function EndOf(e: Event): int {
    match e.op
    case ValidateUser(_, _, writeAt) => writeAt
    case Login(_, _, _, _, writeAt) => writeAt
    case _ => e.now
  }

  ghost function Apply(s: Db, e: Event): Effect {
    var r := OpEffect(s, e.now, e.op);
    r.(db := r.db.(clock := EndOf(e)))
  }

  // ---------- Runs ----------

  const EMPTY := Db(map[], map[], map[], map[], 0, 0, 0)

  ghost function After(es: seq<Event>): Db {
    if es == [] then EMPTY else Apply(After(es[..|es| - 1]), es[|es| - 1]).db
  }

  ghost function OutcomeAt(es: seq<Event>, i: nat): Outcome
    requires i < |es|
  {
    Apply(After(es[..i]), es[i]).outcome
  }

  /** Calls run one after the other, and time does not go backwards. */
  ghost predicate Serialised(es: seq<Event>) {
    forall i :: 0 <= i < |es| ==> Timely(After(es[..i]), es[i])
  }

  ghost predicate Timely(s: Db, e: Event) {
    s.clock <= e.now <= EndOf(e)
  }
}
