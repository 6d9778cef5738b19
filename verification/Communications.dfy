/** Broadcasts and the job table of the scheduler, with the poller that sends what is due. */
module Communications {
  import opened Wrappers
  import opened Broadcasting

  type Id = nat

  datatype Status = DRAFT | SCHEDULED | PROCESSING | SENT | FAILED | CANCELLED

  /** recipients is how many recipients are attached, and logs what broadcasts wrote to the log table. */
  datatype Communication = Communication(
    title: string, status: Status, scheduledAt: Option<int>, deleted: bool, archived: bool,
    channels: seq<Channel>, recipients: nat, logs: seq<Log>)

  /** scheduleJob inserts into jobs and cancelJob deletes from it. */
  datatype Db = Db(rows: map<Id, Communication>, jobs: map<Id, int>, next: Id)

  datatype Error = NotFound | Conflict | BadRequest | Internal

  datatype Effect = Effect(db: Db, error: Option<Error>)

  /** A field of a partial update: left out, or set, possibly to null. */
  datatype Change<T> = Keep | Set(value: T)

  function Changed<T>(c: Change<T>, before: T): T {
    match c
    case Keep => before
    case Set(v) => v
  }

  // ---------- The operations ----------

  function ScheduleJob(s: Db, id: Id, at: int): Db {
    s.(jobs := s.jobs[id := at])
  }

  function CancelJob(s: Db, id: Id): Db {
    s.(jobs := s.jobs - {id})
  }

  function SetRow(s: Db, id: Id, row: Communication): Db {
    s.(rows := s.rows[id := row])
  }

  function AddRow(s: Db, row: Communication): Db {
    SetRow(s, s.next, row).(next := s.next + 1)
  }

  predicate TitleTaken(s: Db, title: string) {
    exists id :: id in s.rows && s.rows[id].title == title && !s.rows[id].deleted
  }

  /** The requested channels are not among the stored columns, so a new row has none. */
  function CreateEffect(s: Db, title: string, at: Option<int>, recipients: nat): Effect {
    if TitleTaken(s, title) then Effect(s, Some(Conflict))
    else
      var row := Communication(title, if at.Some? then SCHEDULED else DRAFT, at, false, false, [], recipients, []);
      var t := AddRow(s, row);
      Effect(if at.Some? then ScheduleJob(t, s.next, at.value) else t, None)
  }

  function UpdateEffect(s: Db, id: Id, title: Change<string>, at: Change<Option<int>>): Effect {
    if id !in s.rows then Effect(s, Some(NotFound))
    else
      var before := s.rows[id];
      var row := before.(title := Changed(title, before.title), scheduledAt := Changed(at, before.scheduledAt));
      var t := SetRow(s, id, row);
      Effect(
        if row.status != SCHEDULED then t
        else if row.scheduledAt.Some? then ScheduleJob(CancelJob(t, id), id, row.scheduledAt.value)
        else CancelJob(t, id), None)
  }

  function RemoveEffect(s: Db, id: Id): Effect {
    if id !in s.rows then Effect(s, Some(NotFound))
    else Effect(SetRow(CancelJob(s, id), id, s.rows[id].(deleted := true, status := CANCELLED)), None)
  }

  function RestoreEffect(s: Db, id: Id): Effect {
    if id !in s.rows then Effect(s, Some(Internal))
    else Effect(SetRow(s, id, s.rows[id].(deleted := false)), None)
  }

  function ArchiveEffect(s: Db, id: Id): Effect {
    if id !in s.rows then Effect(s, Some(NotFound))
    else Effect(SetRow(CancelJob(s, id), id, s.rows[id].(archived := true)), None)
  }

  /** The copy takes the recipients, but neither the time nor the channels. */
  function DuplicateEffect(s: Db, id: Id): Effect {
    if id !in s.rows then Effect(s, Some(NotFound))
    else
      var row := Communication(s.rows[id].title + " (Copy)", DRAFT, None, false, false, [], s.rows[id].recipients, []);
      Effect(AddRow(s, row), None)
  }

  /** The loop over recipients and channels runs through, and its last update goes through. */
  predicate Completes(row: Communication, world: World) {
    world.finalWrite && Clean(Deliveries(row.recipients, row.channels, world))
  }

  /** The deliveries the loop gets to. */
  function Tried(row: Communication, world: World): seq<Delivery> {
    UntilCrash(Deliveries(row.recipients, row.channels, world))
  }

  function BroadcastRow(row: Communication, world: World): Communication {
    row.(status := if Completes(row, world) then SENT else FAILED, logs := row.logs + Logs(Tried(row, world)))
  }

  /** The manual send: the job is cancelled, then the row is broadcast. */
  function SendEffect(s: Db, id: Id, world: World): Effect {
    if id !in s.rows then Effect(s, Some(NotFound))
    else if s.rows[id].status == SENT then Effect(s, Some(Conflict))
    else Effect(SetRow(CancelJob(s, id), id, BroadcastRow(s.rows[id], world)),
                if Completes(s.rows[id], world) then None else Some(Internal))
  }

  /** A blog post creates its own row, on the email channel, and broadcasts it at once. */
  function MailPostEffect(s: Db, title: string, recipients: nat, world: World): Db {
    var row := Communication("New Blog Post: " + title, DRAFT, None, false, false, [EMAIL], recipients, []);
    AddRow(s, BroadcastRow(row, world))
  }

  function ScheduleEffect(s: Db, id: Id): Effect {
    if id !in s.rows then Effect(s, Some(NotFound))
    else if s.rows[id].status == SENT || s.rows[id].scheduledAt.None? then Effect(s, Some(Conflict))
    else Effect(ScheduleJob(SetRow(s, id, s.rows[id].(status := SCHEDULED)), id, s.rows[id].scheduledAt.value), None)
  }

  function CancelEffect(s: Db, id: Id): Effect {
    if id !in s.rows then Effect(s, Some(NotFound))
    else if s.rows[id].status != SCHEDULED then Effect(s, Some(Conflict))
    else Effect(CancelJob(SetRow(s, id, s.rows[id].(status := DRAFT)), id), None)
  }

  /** What the poller picks: it looks at the rows only. */
  predicate Due(row: Communication, now: int) {
    row.status == SCHEDULED && row.scheduledAt.Some? && row.scheduledAt.value <= now && !row.deleted
  }

  function DueIds(s: Db, now: int): (ids: set<Id>)
    ensures forall id :: id in ids <==> id in s.rows && Due(s.rows[id], now)
  {
    set id | id in s.rows && Due(s.rows[id], now)
  }

  /** What the hourly retry picks. */
  predicate Retriable(row: Communication) {
    row.status == FAILED && !row.deleted && HasFailure(row.logs)
  }

  function RetryIds(s: Db): (ids: set<Id>)
    ensures forall id :: id in ids <==> id in s.rows && Retriable(s.rows[id])
  {
    set id | id in s.rows && Retriable(s.rows[id])
  }

  /** The rows after those in ids have been broadcast. */
  function Broadcasted(rows: map<Id, Communication>, ids: set<Id>, worlds: Id -> World): map<Id, Communication> {
    map id | id in rows :: if id in ids then BroadcastRow(rows[id], worlds(id)) else rows[id]
  }

  /** Every due row is broadcast, and its job, if any, has fired. */
  function PollEffect(s: Db, now: int, worlds: Id -> World): Db {
    var due := DueIds(s, now);
    s.(rows := Broadcasted(s.rows, due, worlds), jobs := s.jobs - due)
  }

  function RetryEffect(s: Db, worlds: Id -> World): Db {
    s.(rows := Broadcasted(s.rows, RetryIds(s), worlds))
  }

  // ---------- Runs ----------

  datatype Op =
    | Create(title: string, at: Option<int>, recipients: nat)
    | Update(id: Id, newTitle: Change<string>, newAt: Change<Option<int>>)
    | Remove(id: Id)
    | Restore(id: Id)
    | Archive(id: Id)
    | Duplicate(id: Id)
    | Send(id: Id, world: World)
    | Schedule(id: Id)
    | Cancel(id: Id)
    | MailPost(title: string, recipients: nat, world: World)
    | Poll(now: int, worlds: Id -> World)
    | Retry(worlds: Id -> World)

  function Next(s: Db, op: Op): Db {
    match op
    case Create(title, at, recipients) => CreateEffect(s, title, at, recipients).db
    case Update(id, title, at) => UpdateEffect(s, id, title, at).db
    case Remove(id) => RemoveEffect(s, id).db
    case Restore(id) => RestoreEffect(s, id).db
    case Archive(id) => ArchiveEffect(s, id).db
    case Duplicate(id) => DuplicateEffect(s, id).db
    case Send(id, world) => SendEffect(s, id, world).db
    case Schedule(id) => ScheduleEffect(s, id).db
    case Cancel(id) => CancelEffect(s, id).db
    case MailPost(title, recipients, world) => MailPostEffect(s, title, recipients, world)
    case Poll(now, worlds) => PollEffect(s, now, worlds)
    case Retry(worlds) => RetryEffect(s, worlds)
  }

  const EMPTY := Db(map[], map[], 0)

  function After(ops: seq<Op>): Db {
    if ops == [] then EMPTY else Next(After(ops[..|ops| - 1]), ops[|ops| - 1])
  }

  lemma AfterStep(ops: seq<Op>, n: nat)
    requires n < |ops|
    ensures After(ops[..n + 1]) == Next(After(ops[..n]), ops[n])
  {
    assert ops[..n + 1][..n] == ops[..n] && ops[..n + 1][n] == ops[n];
  }

  // ---------- The job table agrees with the rows ----------

  /** A pending job belongs to a scheduled row, at that row's time. */
  ghost predicate JobsAgree(s: Db) {
    forall id :: id in s.jobs ==>
      id in s.rows && s.rows[id].status == SCHEDULED && s.rows[id].scheduledAt == Some(s.jobs[id])
  }

  /** A scheduled row with a time has its job, unless it was archived. */
  ghost predicate RowsHaveJobs(s: Db) {
    forall id :: id in s.rows ==>
      s.rows[id].status == SCHEDULED && s.rows[id].scheduledAt.Some? && !s.rows[id].archived ==> id in s.jobs
  }

  ghost predicate Inv(s: Db) {
    JobsAgree(s) && RowsHaveJobs(s) && forall id :: id in s.rows ==> id < s.next
  }

  lemma PollKeepsInv(s: Db, now: int, worlds: Id -> World)
    requires Inv(s)
    ensures Inv(PollEffect(s, now, worlds))
  {
    hide Completes, Tried;
  }

  lemma RetryKeepsInv(s: Db, worlds: Id -> World)
    requires Inv(s)
    ensures Inv(RetryEffect(s, worlds))
  {
    hide Completes, Tried, HasFailure;
  }

  lemma MailPostKeepsInv(s: Db, title: string, recipients: nat, world: World)
    requires Inv(s)
    ensures Inv(MailPostEffect(s, title, recipients, world))
  {
    hide Completes, Tried;
  }

  lemma CreateKeepsInv(s: Db, title: string, at: Option<int>, recipients: nat)
    requires Inv(s)
    ensures Inv(CreateEffect(s, title, at, recipients).db)
  {
    hide TitleTaken;
  }

  lemma UpdateKeepsInv(s: Db, id: Id, title: Change<string>, at: Change<Option<int>>)
    requires Inv(s)
    ensures Inv(UpdateEffect(s, id, title, at).db)
  {
    hide Changed;
  }

  lemma SetRowKeepsInv(s: Db, id: Id, row: Communication)
    requires Inv(s) && id in s.rows && (row.status == SCHEDULED ==> row.archived)
    ensures Inv(SetRow(CancelJob(s, id), id, row))
  {
  }

  lemma RowCallsKeepInv(s: Db, id: Id, world: World)
    requires Inv(s)
    ensures Inv(RemoveEffect(s, id).db) && Inv(ArchiveEffect(s, id).db) && Inv(SendEffect(s, id, world).db)
  {
    hide Inv, SetRow, CancelJob, Completes;
    if id in s.rows {
      SetRowKeepsInv(s, id, s.rows[id].(deleted := true, status := CANCELLED));
      SetRowKeepsInv(s, id, s.rows[id].(archived := true));
      SetRowKeepsInv(s, id, BroadcastRow(s.rows[id], world));
    }
  }

  lemma RestoreKeepsInv(s: Db, id: Id)
    requires Inv(s)
    ensures Inv(RestoreEffect(s, id).db)
  {
  }

  lemma SchedulingKeepsInv(s: Db, id: Id)
    requires Inv(s)
    ensures Inv(ScheduleEffect(s, id).db) && Inv(CancelEffect(s, id).db) && Inv(DuplicateEffect(s, id).db)
  {
  }

  lemma NextKeepsInv(s: Db, op: Op)
    requires Inv(s)
    ensures Inv(Next(s, op))
  {
    hide Inv, CreateEffect, UpdateEffect, RemoveEffect, RestoreEffect, ArchiveEffect, DuplicateEffect, SendEffect,
         ScheduleEffect, CancelEffect, MailPostEffect, PollEffect, RetryEffect;
    match op
    case Create(title, at, recipients) => CreateKeepsInv(s, title, at, recipients);
    case Update(id, title, at) => UpdateKeepsInv(s, id, title, at);
    case Remove(id) => RowCallsKeepInv(s, id, ALL_WELL);
    case Restore(id) => RestoreKeepsInv(s, id);
    case Archive(id) => RowCallsKeepInv(s, id, ALL_WELL);
    case Duplicate(id) => SchedulingKeepsInv(s, id);
    case Send(id, world) => RowCallsKeepInv(s, id, world);
    case Schedule(id) => SchedulingKeepsInv(s, id);
    case Cancel(id) => SchedulingKeepsInv(s, id);
    case MailPost(title, recipients, world) => MailPostKeepsInv(s, title, recipients, world);
    case Poll(now, worlds) => PollKeepsInv(s, now, worlds);
    case Retry(worlds) => RetryKeepsInv(s, worlds);
  }

  /** In every reachable state, a pending job at time t means a scheduled row with scheduledAt t. */
  lemma {:induction false} ReachableInv(ops: seq<Op>)
    ensures Inv(After(ops))
  {
    hide Inv, Next;
    if ops == [] {
      EmptyInv();
    } else {
      ReachableInv(ops[..|ops| - 1]);
      NextKeepsInv(After(ops[..|ops| - 1]), ops[|ops| - 1]);
    }
  }

  lemma EmptyInv()
    ensures Inv(EMPTY)
  {
  }

  /** The poller sends a row that is not archived exactly when its job is due and it is not deleted. */
  lemma PollerFollowsJobs(ops: seq<Op>, id: Id, now: int)
    requires id in After(ops).rows && !After(ops).rows[id].archived
    ensures Due(After(ops).rows[id], now) <==>
      id in After(ops).jobs && After(ops).jobs[id] <= now && !After(ops).rows[id].deleted
  {
    ReachableInv(ops);
    hide After;
  }

  /** Right after it is archived, a row is due at some time exactly if a send was pending. */
  lemma ArchivedDueIff(s: Db, id: Id)
    requires id in s.rows
    ensures (exists now :: Due(ArchiveEffect(s, id).db.rows[id], now)) <==>
      s.rows[id].status == SCHEDULED && s.rows[id].scheduledAt.Some? && !s.rows[id].deleted
  {
    var row := ArchiveEffect(s, id).db.rows[id];
    if row.status == SCHEDULED && row.scheduledAt.Some? && !row.deleted {
      assert Due(row, row.scheduledAt.value);
    }
  }

  /** A run from the empty tables in which an archived broadcast without a job is due. */
  lemma ArchivedIsStillSent()
    ensures var s := After([Create("news", Some(5), 1), Archive(0)]);
      0 !in s.jobs && 0 in s.rows && s.rows[0].archived && Due(s.rows[0], 5)
  {
    var ops := [Create("news", Some(5), 1), Archive(0)];
    assert ops[..1] == [Create("news", Some(5), 1)] && ops[..1][..0] == [];
    var created := CreateEffect(EMPTY, "news", Some(5), 1).db;
    assert After(ops[..1]) == created;
  }

  /** The state after further calls. */
  function From(s: Db, ops: seq<Op>): Db {
    if ops == [] then s else Next(From(s, ops[..|ops| - 1]), ops[|ops| - 1])
  }

  predicate IsScheduled(s: Db, id: Id) {
    id in s.rows && s.rows[id].status == SCHEDULED
  }

  /** No call but the row's own scheduling makes it scheduled. */
  lemma OnlyScheduleSchedules(s: Db, op: Op, id: Id)
    requires Inv(s) && id in s.rows && !IsScheduled(s, id) && op != Schedule(id)
    ensures id in Next(s, op).rows && !IsScheduled(Next(s, op), id)
  {
    hide JobsAgree, RowsHaveJobs, TitleTaken, Changed, Completes, Tried, HasFailure;
  }

  predicate NoSchedule(ops: seq<Op>, id: Id) {
    forall k :: 0 <= k < |ops| ==> ops[k] != Schedule(id)
  }

  lemma {:induction false} StaysUnscheduled(s: Db, ops: seq<Op>, id: Id)
    requires Inv(s) && id in s.rows && !IsScheduled(s, id) && NoSchedule(ops, id)
    ensures Inv(From(s, ops)) && id in From(s, ops).rows && !IsScheduled(From(s, ops), id)
  {
    hide Inv, Next, IsScheduled;
    if ops != [] {
      var n := |ops| - 1;
      StaysUnscheduled(s, ops[..n], id);
      NextKeepsInv(From(s, ops[..n]), ops[n]);
      OnlyScheduleSchedules(From(s, ops[..n]), ops[n], id);
    }
  }

  predicate DueIn(s: Db, id: Id, now: int) {
    id in s.rows && Due(s.rows[id], now)
  }

  lemma NeverDue(s: Db, ops: seq<Op>, id: Id, now: int)
    requires Inv(s) && id in s.rows && !IsScheduled(s, id) && NoSchedule(ops, id)
    ensures !DueIn(From(s, ops), id, now)
  {
    StaysUnscheduled(s, ops, id);
    hide Inv, From, NoSchedule;
  }

  /** From a scheduled row, restoring it and giving it a time makes it due. */
  lemma MadeDue(s: Db, id: Id, ops: seq<Op>)
    requires IsScheduled(s, id) && ops == [Restore(id), Update(id, Keep, Set(Some(0)))]
    ensures NoSchedule(ops, id) && DueIn(From(s, ops), id, 0)
  {
    var restored := Next(s, ops[0]);
    assert ops[..1][..0] == [] && ops[..1][0] == ops[0];
    assert From(s, ops[..1]) == restored;
    assert From(s, ops) == Next(restored, ops[1]);
  }

  lemma ArchivedRow(s: Db, id: Id)
    requires Inv(s) && id in s.rows
    ensures var t := ArchiveEffect(s, id).db;
      Inv(t) && id in t.rows && (IsScheduled(t, id) <==> s.rows[id].status == SCHEDULED)
  {
    RowCallsKeepInv(s, id, ALL_WELL);
    hide Inv;
  }

  /** No run from here makes the row due, whatever is called short of scheduling it. */
  ghost predicate NeverDueAgain(s: Db, id: Id) {
    forall ops, now :: NoSchedule(ops, id) ==> !DueIn(From(s, ops), id, now)
  }

  /**
   Archiving keeps the poller away for good, whatever is called short of scheduling the row again, exactly when
   the row is not scheduled: not even a missing time or a deletion is enough.
   */
  lemma ArchiveStopsPollIff(s: Db, id: Id)
    requires Inv(s) && id in s.rows
    ensures NeverDueAgain(ArchiveEffect(s, id).db, id) <==> s.rows[id].status != SCHEDULED
  {
    ArchivedRow(s, id);
    hide Inv, ArchiveEffect, IsScheduled, NoSchedule, DueIn, From;
    var t := ArchiveEffect(s, id).db;
    if s.rows[id].status != SCHEDULED {
      forall ops, now | NoSchedule(ops, id) ensures !DueIn(From(t, ops), id, now) {
        NeverDue(t, ops, id, now);
      }
    } else {
      var ops := [Restore(id), Update(id, Keep, Set(Some(0)))];
      MadeDue(t, id, ops);
      assert DueIn(From(t, ops), id, 0);
    }
  }

  // ---------- How a broadcast ends ----------

  ghost predicate IsSent(s: Db, id: Id) {
    id in s.rows && s.rows[id].status == SENT
  }

  /** The call broadcasts this row. */
  predicate Sends(s: Db, op: Op, id: Id) {
    match op
    case Send(i, _) => i == id && id in s.rows && s.rows[id].status != SENT
    case Poll(now, _) => id in s.rows && Due(s.rows[id], now)
    case Retry(_) => id in RetryIds(s)
    case _ => false
  }

  function WorldOf(s: Db, op: Op, id: Id): World
    requires Sends(s, op, id)
  {
    match op
    case Send(_, world) => world
    case Poll(_, worlds) => worlds(id)
    case Retry(worlds) => worlds(id)
  }

  /**
   The row ends failed exactly when a failure log or the last update cannot be written, and sent otherwise,
   however many of its deliveries failed. No job is left.
   */
  lemma EndsFailedIff(s: Db, op: Op, id: Id)
    requires Inv(s) && Sends(s, op, id)
    ensures var row, world, t := s.rows[id], WorldOf(s, op, id), Next(s, op);
      && id in t.rows && id !in t.jobs
      && (t.rows[id].status == FAILED <==>
            !world.finalWrite || exists r: nat, k: nat :: r < row.recipients && CrashesAt(row.channels, world, r, k))
      && (t.rows[id].status != FAILED ==> t.rows[id].status == SENT)
      && t.rows[id].(status := row.status, logs := row.logs) == row
  {
    var row, world := s.rows[id], WorldOf(s, op, id);
    CleanIff(row.recipients, row.channels, world);
    hide CrashesAt, Clean, Deliveries, UntilCrash, RowsHaveJobs, HasFailure;
  }

  // ---------- Which broadcasts are retried ----------

  /** A broadcast is up for retry exactly when it failed, is not deleted, and a failure entry was ever left. */
  lemma RetriableIff(s: Db, op: Op, id: Id)
    requires Inv(s) && Sends(s, op, id)
    ensures var row, world := s.rows[id], WorldOf(s, op, id);
      id in RetryIds(Next(s, op)) <==>
        && !Completes(row, world) && !row.deleted
        && (HasFailure(row.logs) || exists d :: d in Tried(row, world) && LeavesFailure(d))
  {
    var row, world := s.rows[id], WorldOf(s, op, id);
    FailureLogIff(Tried(row, world));
    FailureAppends(row.logs, Logs(Tried(row, world)));
    RowIsBroadcast(s, op, id);
    hide Completes, Tried, HasFailure, Next, Sends, WorldOf, LeavesFailure;
  }

  lemma RowIsBroadcast(s: Db, op: Op, id: Id)
    requires Sends(s, op, id)
    ensures id in Next(s, op).rows && Next(s, op).rows[id] == BroadcastRow(s.rows[id], WorldOf(s, op, id))
  {
    hide BroadcastRow, HasFailure;
  }

  lemma FailureAppends(a: seq<Log>, b: seq<Log>)
    ensures HasFailure(a + b) <==> HasFailure(a) || HasFailure(b)
  {
    assert forall l :: l in a + b <==> l in a || l in b;
  }

  /** A first broadcast that ends at its first failure leaves no entry, so the retry does not pick it up. */
  lemma EndedAtFirstFailure(s: Db, op: Op, id: Id)
    requires Inv(s) && Sends(s, op, id) && !HasFailure(s.rows[id].logs)
    requires var row, world := s.rows[id], WorldOf(s, op, id);
      !Clean(Deliveries(row.recipients, row.channels, world))
    requires var tried := Tried(s.rows[id], WorldOf(s, op, id));
      forall i :: 0 <= i < |tried| - 1 ==> !LeavesFailure(tried[i])
    ensures id in Next(s, op).rows && !HasFailure(Next(s, op).rows[id].logs) && id !in RetryIds(Next(s, op))
  {
    var row, world := s.rows[id], WorldOf(s, op, id);
    CrashIsLast(Deliveries(row.recipients, row.channels, world));
    RowIsBroadcast(s, op, id);
    var tried := Tried(row, world);
    FailureLogIff(tried);
    FailureAppends(row.logs, Logs(tried));
  }

  lemma LogsStay(s: Db, op: Op, id: Id)
    requires Inv(s) && id in s.rows && !Sends(s, op, id)
    ensures id in Next(s, op).rows && Next(s, op).rows[id].logs == s.rows[id].logs
  {
    hide JobsAgree, RowsHaveJobs, TitleTaken, Changed, Completes, Tried, HasFailure;
  }

  /** Over runs: without a failure entry, the retry never picks a row until something else broadcasts it. */
  lemma {:induction false} NeverRetried(ops: seq<Op>, i: nat, j: nat, id: Id)
    requires i <= j <= |ops| && id in After(ops[..i]).rows && !HasFailure(After(ops[..i]).rows[id].logs)
    requires forall k :: i <= k < j ==> ops[k].Retry? || !Sends(After(ops[..k]), ops[k], id)
    ensures id in After(ops[..j]).rows && !HasFailure(After(ops[..j]).rows[id].logs)
    ensures id !in RetryIds(After(ops[..j]))
    decreases j - i
  {
    if i < j {
      NeverRetried(ops, i, j - 1, id);
      ReachableInv(ops[..j - 1]);
      AfterStep(ops, j - 1);
      hide Inv, After, Next, HasFailure;
      LogsStay(After(ops[..j - 1]), ops[j - 1], id);
    }
  }

  // ---------- Whom a broadcast reaches ----------

  /** The row was made for a blog post. */
  ghost predicate ForPost(ops: seq<Op>, id: Id) {
    exists k :: 0 <= k < |ops| && ops[k].MailPost? && After(ops[..k]).next == id
  }

  lemma ChannelsStay(s: Db, op: Op, id: Id)
    requires id in s.rows && id < s.next
    ensures id in Next(s, op).rows && Next(s, op).rows[id].channels == s.rows[id].channels
  {
    hide Completes, Tried, TitleTaken, Changed;
  }

  /** Only one row can be new, and it has a channel only if it is for a blog post. */
  lemma NewRow(s: Db, op: Op, id: Id)
    requires id !in s.rows && id in Next(s, op).rows
    ensures id == s.next && Next(s, op).rows[id].channels == if op.MailPost? then [EMAIL] else []
  {
    hide Completes, Tried, TitleTaken, Changed;
  }

  lemma NextGrows(s: Db, op: Op)
    ensures s.next <= Next(s, op).next && (op.MailPost? ==> s.next < Next(s, op).next)
  {
    hide Completes, Tried, TitleTaken, Changed;
  }

  /** A post's row was added by then, so its identifier lies below. */
  lemma {:induction false} PostsLieBelow(ops: seq<Op>, k: nat)
    requires k < |ops| && ops[k].MailPost?
    ensures After(ops[..k]).next < After(ops).next
    decreases |ops|
  {
    var n := |ops| - 1;
    NextGrows(After(ops[..n]), ops[n]);
    hide Next;
    if k < n {
      assert ops[..n][..k] == ops[..k];
      PostsLieBelow(ops[..n], k);
    }
  }

  lemma ForPostStep(ops: seq<Op>, id: Id)
    requires ops != []
    ensures var n := |ops| - 1;
      ForPost(ops, id) <==> ForPost(ops[..n], id) || (ops[n].MailPost? && After(ops[..n]).next == id)
  {
    var n := |ops| - 1;
    hide After;
    if ForPost(ops[..n], id) {
      var k :| 0 <= k < n && ops[..n][k].MailPost? && After(ops[..n][..k]).next == id;
      assert ops[..n][..k] == ops[..k];
    }
    if ForPost(ops, id) {
      var k :| 0 <= k < |ops| && ops[k].MailPost? && After(ops[..k]).next == id;
      if k < n {
        assert ops[..n][..k] == ops[..k];
      }
    }
  }

  /** In every reachable state, a row has a channel exactly when it was made for a blog post. */
  lemma {:induction false} ChannelsOnlyForPosts(ops: seq<Op>, id: Id)
    requires id in After(ops).rows
    ensures After(ops).rows[id].channels == if ForPost(ops, id) then [EMAIL] else []
  {
    if ops != [] {
      var n := |ops| - 1;
      var s := After(ops[..n]);
      ReachableInv(ops[..n]);
      ForPostStep(ops, id);
      hide Next, ForPost, JobsAgree, RowsHaveJobs;
      if id in s.rows {
        ChannelsOnlyForPosts(ops[..n], id);
        ChannelsStay(s, ops[n], id);
      } else {
        NewRow(s, ops[n], id);
        if ForPost(ops[..n], id) {
          PostBelow(ops[..n], id);
        }
      }
    }
  }

  lemma PostBelow(ops: seq<Op>, id: Id)
    requires ForPost(ops, id)
    ensures id < After(ops).next
  {
    var k :| 0 <= k < |ops| && ops[k].MailPost? && After(ops[..k]).next == id;
    PostsLieBelow(ops, k);
  }

  lemma NoChannelNoDelivery(s: Db, op: Op, id: Id)
    requires Inv(s) && Sends(s, op, id) && s.rows[id].channels == []
    ensures Deliveries(s.rows[id].recipients, [], WorldOf(s, op, id)) == []
    ensures WorldOf(s, op, id).finalWrite ==> IsSent(Next(s, op), id)
  {
    var row, world := s.rows[id], WorldOf(s, op, id);
    EndsFailedIff(s, op, id);
    DeliveryCount(row.recipients, [], world);
    hide Inv, Next, Sends, WorldOf, Deliveries;
  }

  /** A broadcast that was not made for a blog post is marked sent without trying a single delivery. */
  lemma ReachesNobody(ops: seq<Op>, op: Op, id: Id)
    requires Sends(After(ops), op, id) && !ForPost(ops, id)
    ensures var row, world := After(ops).rows[id], WorldOf(After(ops), op, id);
      && Deliveries(row.recipients, row.channels, world) == []
      && (world.finalWrite ==> IsSent(Next(After(ops), op), id))
  {
    ReachableInv(ops);
    assert id in After(ops).rows;
    hide After, ForPost, Inv, Next, Sends, WorldOf, Deliveries, IsSent;
    ChannelsOnlyForPosts(ops, id);
    NoChannelNoDelivery(After(ops), op, id);
  }

  lemma {:induction false} NoneSucceed(ds: seq<Delivery>)
    requires forall d :: d in ds ==> !d.attempt.delivered
    ensures Successes(ds) == 0
  {
    if ds != [] {
      assert ds[|ds| - 1] in ds;
      NoneSucceed(ds[..|ds| - 1]);
    }
  }

  /** No channel accepts anything, and every failure is logged. */
  const NOTHING_ARRIVES := World((r, k) => Attempt(false, false, true, []), true)

  lemma {:induction false} NothingDelivered(recipients: nat, channels: seq<Channel>)
    ensures forall d :: d in Deliveries(recipients, channels, NOTHING_ARRIVES) ==> !d.attempt.delivered && !Crashes(d)
  {
    if recipients > 0 {
      NothingDelivered(recipients - 1, channels);
    }
  }

  /** For any number of recipients, a run in which every delivery fails and the broadcast ends sent. */
  lemma AllFailedIsSent(title: string, recipients: nat) returns (ops: seq<Op>)
    ensures ops == [MailPost(title, recipients, NOTHING_ARRIVES)] && IsSent(After(ops), 0)
    ensures var tried := UntilCrash(Deliveries(recipients, [EMAIL], NOTHING_ARRIVES));
      Successes(tried) == 0 && Failures(tried) == recipients
  {
    ops := [MailPost(title, recipients, NOTHING_ARRIVES)];
    assert ops[..0] == [];
    var ds := Deliveries(recipients, [EMAIL], NOTHING_ARRIVES);
    NothingDelivered(recipients, [EMAIL]);
    CleanIsAll(ds);
    NoneSucceed(ds);
    AllCounted(ds);
    DeliveryCount(recipients, [EMAIL], NOTHING_ARRIVES);
    assert After(ops) == Next(EMPTY, ops[0]);
  }

  // ---------- When a sent broadcast is sent again ----------

  /** Only removal takes a row out of SENT, and no call broadcasts it while it is there. */
  lemma SentStaysIff(s: Db, op: Op, id: Id)
    requires Inv(s) && IsSent(s, id)
    ensures IsSent(Next(s, op), id) <==> op != Remove(id)
    ensures !Sends(s, op, id)
  {
    hide JobsAgree, RowsHaveJobs, TitleTaken, Changed, Completes, Tried, HasFailure;
  }

  /** After one call, a sent row can be broadcast by the next exactly when that call removed it. */
  lemma ResendableIffRemoved(s: Db, op: Op, id: Id, world: World)
    requires Inv(s) && IsSent(s, id)
    ensures Sends(Next(s, op), Send(id, world), id) <==> op == Remove(id)
    ensures (exists again :: Sends(Next(s, op), again, id)) <==> op == Remove(id)
  {
    SentStaysIff(s, op, id);
    NextKeepsInv(s, op);
    if op == Remove(id) {
      assert Sends(Next(s, op), Send(id, world), id);
    } else {
      forall again ensures !Sends(Next(s, op), again, id) {
        SentStaysIff(Next(s, op), again, id);
      }
    }
  }

  lemma SentStaysAt(ops: seq<Op>, n: nat, id: Id)
    requires n < |ops| && IsSent(After(ops[..n]), id) && ops[n] != Remove(id)
    ensures IsSent(After(ops[..n + 1]), id) && !Sends(After(ops[..n]), ops[n], id)
  {
    hide Inv, Next, IsSent, After, Sends;
    ReachableInv(ops[..n]);
    AfterStep(ops, n);
    SentStaysIff(After(ops[..n]), ops[n], id);
  }

  /** A sent broadcast stays sent and is not broadcast again until it is removed. */
  lemma {:induction false} SentOnce(ops: seq<Op>, i: nat, j: nat, id: Id)
    requires i <= j <= |ops| && IsSent(After(ops[..i]), id)
    requires forall k :: i <= k < j ==> ops[k] != Remove(id)
    ensures IsSent(After(ops[..j]), id)
    ensures i < j ==> !Sends(After(ops[..j - 1]), ops[j - 1], id)
    decreases j - i
  {
    hide IsSent, After, Sends;
    if i < j {
      SentOnce(ops, i, j - 1, id);
      SentStaysAt(ops, j - 1, id);
    }
  }

  lemma {:induction false} RowStays(ops: seq<Op>, i: nat, j: nat, id: Id)
    requires i <= j <= |ops| && id in After(ops[..i]).rows
    ensures id in After(ops[..j]).rows
    decreases j - i
  {
    if i < j {
      RowStays(ops, i, j - 1, id);
      ReachableInv(ops[..j - 1]);
      AfterStep(ops, j - 1);
      hide After, Next, JobsAgree, RowsHaveJobs;
      ChannelsStay(After(ops[..j - 1]), ops[j - 1], id);
    }
  }

  lemma RemovedIsResendable(s: Db, id: Id, world: World)
    requires id in s.rows
    ensures Sends(Next(s, Remove(id)), Send(id, world), id)
  {
  }

  /** Over runs: a row that was sent becomes sendable again exactly when it is removed. */
  lemma ResendableInRunIff(ops: seq<Op>, i: nat, j: nat, id: Id, world: World)
    requires i <= j <= |ops| && IsSent(After(ops[..i]), id)
    ensures (exists k :: i < k <= j && Sends(After(ops[..k]), Send(id, world), id)) <==>
      exists k :: i <= k < j && ops[k] == Remove(id)
  {
    assert id in After(ops[..i]).rows;
    if k :| i <= k < j && ops[k] == Remove(id) {
      RowStays(ops, i, k, id);
      AfterStep(ops, k);
      RemovedIsResendable(After(ops[..k]), id, world);
      assert Sends(After(ops[..k + 1]), Send(id, world), id);
    } else {
      forall k | i < k <= j ensures !Sends(After(ops[..k]), Send(id, world), id) {
        SentOnce(ops, i, k, id);
      }
    }
  }

  /** The poller sends it again, too: a sent row with a time that is removed, restored and scheduled is due. */
  lemma PolledAgain(s: Db, id: Id, now: int, worlds: Id -> World)
    requires IsSent(s, id)
    ensures var t := Next(Next(Next(s, Remove(id)), Restore(id)), Schedule(id));
      Sends(t, Poll(now, worlds), id) <==> s.rows[id].scheduledAt.Some? && s.rows[id].scheduledAt.value <= now
  {
    var removed := Next(s, Remove(id));
    assert removed.rows[id] == s.rows[id].(deleted := true, status := CANCELLED);
    var restored := Next(removed, Restore(id));
    assert restored.rows[id] == s.rows[id].(status := CANCELLED, deleted := false);
  }

  /** Everything goes well. */
  const ALL_WELL := World((r, k) => Attempt(true, true, true, [true]), true)

  /** A run from the empty tables that broadcasts the same row twice. */
  lemma SentTwice() returns (ops: seq<Op>)
    ensures |ops| == 4 && Sends(After(ops[..1]), ops[1], 0) && Sends(After(ops[..3]), ops[3], 0)
    ensures IsSent(After(ops[..2]), 0) && IsSent(After(ops), 0)
  {
    ops := [Create("news", None, 1), Send(0, ALL_WELL), Remove(0), Send(0, ALL_WELL)];
    var s1 := Next(EMPTY, ops[0]);
    var s2 := Next(s1, ops[1]);
    var s3 := Next(s2, ops[2]);
    var s4 := Next(s3, ops[3]);
    assert After(ops[..1]) == s1 && After(ops[..2]) == s2 && After(ops[..3]) == s3 && After(ops) == s4 by {
      hide Next;
      assert ops[..0] == [] && ops[..4] == ops;
      AfterStep(ops, 0);
      AfterStep(ops, 1);
      AfterStep(ops, 2);
      AfterStep(ops, 3);
    }
    CleanIff(1, [], ALL_WELL);
  }

  // ---------- The service ----------

  class CommunicationsService {
    var rows: map<Id, Communication>
    var jobs: map<Id, int>
    var next: Id

    ghost function State(): Db
      reads this
    {
      Db(rows, jobs, next)
    }

    ghost predicate Valid()
      reads this
    {
      Inv(State())
    }

    constructor ()
      ensures State() == EMPTY && Valid()
    {
      rows, jobs, next := map[], map[], 0;
      new;
      EmptyInv();
    }

    /** A new broadcast has a job exactly when a time was given. */
    method CreateCommunication(title: string, at: Option<int>, recipients: nat) returns (error: Option<Error>)
      requires Valid()
      modifies this
      ensures Valid()
      ensures Effect(State(), error) == CreateEffect(old(State()), title, at, recipients)
      ensures error.Some? <==> TitleTaken(old(State()), title)
      ensures error.None? ==> old(next) in rows && (old(next) in jobs <==> at.Some?)
    {
      ghost var s := State();
      CreateKeepsInv(s, title, at, recipients);
      NoJobYet(s);
      hide Inv;
      if exists id :: id in rows && rows[id].title == title && !rows[id].deleted {
        return Some(Conflict);
      }
      var initialStatus := if at.Some? then SCHEDULED else DRAFT;
      var id := next;
      rows, next := rows[id := Communication(title, initialStatus, at, false, false, [], recipients, [])], next + 1;
      if rows[id].status == SCHEDULED && rows[id].scheduledAt.Some? {
        jobs := jobs[id := rows[id].scheduledAt.value];
      }
      error := None;
    }

    /** The job of a scheduled row moves to the new time, or goes when the time does. */
    method UpdateCommunication(id: Id, title: Change<string>, at: Change<Option<int>>) returns (error: Option<Error>)
      requires Valid()
      modifies this
      ensures Valid()
      ensures Effect(State(), error) == UpdateEffect(old(State()), id, title, at)
      ensures error.None? && rows[id].status == SCHEDULED ==>
        rows[id].scheduledAt == if id in jobs then Some(jobs[id]) else None
    {
      UpdateKeepsInv(State(), id, title, at);
      hide Inv;
      if id !in rows {
        return Some(NotFound);
      }
      var row := rows[id];
      rows := rows[id := row.(title := Changed(title, row.title), scheduledAt := Changed(at, row.scheduledAt))];
      if rows[id].status == SCHEDULED {
        jobs := jobs - {id};
        if rows[id].scheduledAt.Some? {
          jobs := jobs[id := rows[id].scheduledAt.value];
        }
      }
      error := None;
    }

    /** A removed broadcast has no job and is never due. */
    method RemoveCommunication(id: Id) returns (error: Option<Error>)
      requires Valid()
      modifies this
      ensures Valid()
      ensures Effect(State(), error) == RemoveEffect(old(State()), id)
      ensures error.None? ==> id !in jobs && forall now :: !Due(rows[id], now)
    {
      RowCallsKeepInv(State(), id, ALL_WELL);
      hide Inv;
      if id !in rows {
        return Some(NotFound);
      }
      jobs := jobs - {id};
      rows := rows[id := rows[id].(deleted := true, status := CANCELLED)];
      error := None;
    }

    /** A restored broadcast is due once its time has come if it is scheduled; unless archived, when its job says so. */
    method RestoreCommunication(id: Id) returns (error: Option<Error>)
      requires Valid()
      modifies this
      ensures Valid()
      ensures Effect(State(), error) == RestoreEffect(old(State()), id)
      ensures error.None? ==> forall now :: Due(rows[id], now) <==>
        old(rows)[id].status == SCHEDULED && old(rows)[id].scheduledAt.Some? && old(rows)[id].scheduledAt.value <= now
      ensures error.None? && !rows[id].archived ==>
        forall now :: Due(rows[id], now) <==> id in jobs && jobs[id] <= now
    {
      RestoreKeepsInv(State(), id);
      if id in rows && !rows[id].archived {
        RestoredFollowsJob(State(), id);
      }
      hide Inv;
      if id !in rows {
        return Some(Internal);
      }
      rows := rows[id := rows[id].(deleted := false)];
      error := None;
    }

    /** An archived broadcast has no job, but is as due as it was. */
    method ArchiveCommunication(id: Id) returns (error: Option<Error>)
      requires Valid()
      modifies this
      ensures Valid()
      ensures Effect(State(), error) == ArchiveEffect(old(State()), id)
      ensures error.None? ==> id !in jobs && forall now :: Due(rows[id], now) <==> Due(old(rows)[id], now)
    {
      RowCallsKeepInv(State(), id, ALL_WELL);
      hide Inv;
      if id !in rows {
        return Some(NotFound);
      }
      jobs := jobs - {id};
      rows := rows[id := rows[id].(archived := true)];
      error := None;
    }

    /** The copy is never due, and its original stays as it is. */
    method DuplicateCommunication(id: Id) returns (error: Option<Error>)
      requires Valid()
      modifies this
      ensures Valid()
      ensures Effect(State(), error) == DuplicateEffect(old(State()), id)
      ensures error.None? ==> old(next) in rows && old(next) !in jobs && forall now :: !Due(rows[old(next)], now)
      ensures error.None? ==> id in rows && rows[id] == old(rows)[id]
    {
      ghost var s := State();
      SchedulingKeepsInv(s, id);
      NoJobYet(s);
      hide Inv;
      if id !in rows {
        return Some(NotFound);
      }
      var row := Communication(rows[id].title + " (Copy)", DRAFT, None, false, false, [], rows[id].recipients, []);
      rows, next := rows[next := row], next + 1;
      error := None;
    }

    /** sendNewsletter and sendNotification: refused for a sent row; otherwise it ends sent or failed, without a job. */
    method SendCommunication(id: Id, world: World) returns (error: Option<Error>)
      requires Valid()
      modifies this
      ensures Valid()
      ensures Effect(State(), error) == SendEffect(old(State()), id, world)
      ensures error == Some(Conflict) <==> IsSent(old(State()), id)
      ensures error.None? ==> id !in jobs && IsSent(State(), id)
    {
      RowCallsKeepInv(State(), id, world);
      hide Inv, Completes;
      if id !in rows {
        return Some(NotFound);
      }
      if rows[id].status == SENT {
        return Some(Conflict);
      }
      jobs := jobs - {id};
      var successful, failed;
      error, successful, failed := SendBroadcast(id, world);
    }

    /**
     The broadcast of one row. It is refused for a sent row; otherwise the row ends sent if the loop and the
     last update go through, having counted every recipient on every channel once, and failed if they do not.
     */
    method SendBroadcast(id: Id, world: World) returns (error: Option<Error>, successful: nat, failed: nat)
      modifies this`rows
      ensures id !in old(rows) || old(rows)[id].status == SENT ==> rows == old(rows) && error == Some(BadRequest)
      ensures id in old(rows) && old(rows)[id].status != SENT ==>
        && rows == old(rows)[id := BroadcastRow(old(rows)[id], world)]
        && error == (if Completes(old(rows)[id], world) then None else Some(Internal))
      ensures error.None? ==>
        id in old(rows) && successful + failed == old(rows)[id].recipients * |old(rows)[id].channels|
    {
      if id !in rows || rows[id].status == SENT {
        return Some(BadRequest), 0, 0;
      }
      ghost var before := rows;
      var row := rows[id];
      hide Clean, Deliveries;
      rows := rows[id := row.(status := PROCESSING)];
      var crashed, logs;
      crashed, successful, failed, logs := DeliverAll(row.recipients, row.channels, world);
      if !crashed && world.finalWrite {
        rows := rows[id := rows[id].(status := SENT, logs := rows[id].logs + logs)];
        error := None;
        CleanIff(row.recipients, row.channels, world);
        CompletedCounts(row.recipients, row.channels, world);
      } else {
        rows := rows[id := rows[id].(status := FAILED, logs := rows[id].logs + logs)];
        error := Some(Internal);
      }
      assert rows == before[id := BroadcastRow(row, world)];
    }

    /** One turn of the poller: the broadcast, with its error caught, after which the job has fired. */
    method SendDue(id: Id, world: World)
      requires id in rows && rows[id].status != SENT
      modifies this
      ensures rows == old(rows)[id := BroadcastRow(old(rows)[id], world)]
      ensures jobs == old(jobs) - {id} && next == old(next)
    {
      hide Completes, Tried;
      ghost var before := rows;
      var error, successful, failed := SendBroadcast(id, world);
      if error.Some? {
        rows := rows[id := rows[id].(status := FAILED)];
      }
      assert rows == before[id := BroadcastRow(before[id], world)];
      jobs := jobs - {id};
    }

    /** The poller broadcasts what it found due. */
    method ProcessScheduledCommunications(now: int, worlds: Id -> World)
      requires Valid()
      modifies this
      ensures Valid()
      ensures State() == PollEffect(old(State()), now, worlds)
    {
      PollKeepsInv(State(), now, worlds);
      hide Inv;
      var communications := set id | id in rows && Due(rows[id], now);
      assert communications == DueIds(State(), now);
      SendAllDue(communications, worlds);
      AllPolled(old(State()), now, worlds, State());
    }

    /** Its loop, in any order. */
    method SendAllDue(communications: set<Id>, worlds: Id -> World)
      requires forall id :: id in communications ==> id in rows && rows[id].status != SENT
      modifies this
      ensures Polled(old(State()), communications, worlds, State())
    {
      hide BroadcastRow, Polled;
      ghost var before, done := State(), {};
      var todo := communications;
      NothingBroadcast(before, worlds);
      while todo != {}
        invariant done + todo == communications && done !! todo && Polled(before, done, worlds, State())
      {
        var id :| id in todo;
        OneMorePolled(before, done, id, worlds, State());
        SendDue(id, worlds(id));
        done, todo := done + {id}, todo - {id};
      }
      assert done == communications;
    }

    /** One turn of the retry: the error, if any, is only logged. */
    method RetryOne(id: Id, world: World)
      requires id in rows && rows[id].status != SENT
      modifies this`rows
      ensures rows == old(rows)[id := BroadcastRow(old(rows)[id], world)]
    {
      hide Completes, BroadcastRow;
      var error, successful, failed := SendBroadcast(id, world);
    }

    /** The hourly retry of failed rows that have a failure log. */
    method RetryFailedCommunications(worlds: Id -> World)
      requires Valid()
      modifies this
      ensures Valid()
      ensures State() == RetryEffect(old(State()), worlds)
    {
      RetryKeepsInv(State(), worlds);
      hide Inv, HasFailure;
      var communications := set id | id in rows && Retriable(rows[id]);
      assert communications == RetryIds(State());
      RetryAll(communications, worlds);
      AllRetried(old(State()), worlds, State());
    }

    /** Its loop, in any order. */
    method RetryAll(communications: set<Id>, worlds: Id -> World)
      requires forall id :: id in communications ==> id in rows && rows[id].status != SENT
      modifies this`rows
      ensures Retried(old(State()), communications, worlds, State())
    {
      hide BroadcastRow, Retried;
      ghost var before, done := State(), {};
      var todo := communications;
      NothingBroadcast(before, worlds);
      while todo != {}
        invariant done + todo == communications && done !! todo && Retried(before, done, worlds, State())
      {
        var id :| id in todo;
        OneMoreRetried(before, done, id, worlds, State());
        RetryOne(id, worlds(id));
        done, todo := done + {id}, todo - {id};
      }
      assert done == communications;
    }

    /** A scheduled broadcast has its job at its time. */
    method ScheduleCommunication(id: Id) returns (error: Option<Error>)
      requires Valid()
      modifies this
      ensures Valid()
      ensures Effect(State(), error) == ScheduleEffect(old(State()), id)
      ensures error.None? ==> id in rows && id in jobs && rows[id].scheduledAt == Some(jobs[id])
    {
      SchedulingKeepsInv(State(), id);
      hide Inv;
      if id !in rows {
        return Some(NotFound);
      }
      if rows[id].status == SENT {
        return Some(Conflict);
      }
      if rows[id].scheduledAt.None? {
        return Some(Conflict);
      }
      rows := rows[id := rows[id].(status := SCHEDULED)];
      jobs := jobs[id := rows[id].scheduledAt.value];
      error := None;
    }

    /** A cancelled schedule leaves no job and nothing due. */
    method CancelCommunication(id: Id) returns (error: Option<Error>)
      requires Valid()
      modifies this
      ensures Valid()
      ensures Effect(State(), error) == CancelEffect(old(State()), id)
      ensures error.None? ==> id in rows && id !in jobs && forall now :: !Due(rows[id], now)
    {
      SchedulingKeepsInv(State(), id);
      hide Inv;
      if id !in rows {
        return Some(NotFound);
      }
      if rows[id].status != SCHEDULED {
        return Some(Conflict);
      }
      rows := rows[id := rows[id].(status := DRAFT)];
      jobs := jobs - {id};
      error := None;
    }
  }

  lemma RestoredFollowsJob(s: Db, id: Id)
    requires Inv(s) && id in s.rows && !s.rows[id].archived
    ensures forall now :: Due(s.rows[id].(deleted := false), now) <==> id in s.jobs && s.jobs[id] <= now
  {
  }

  lemma NoJobYet(s: Db)
    requires Inv(s)
    ensures s.next !in s.jobs && s.next !in s.rows
  {
  }

  /** The poller has dealt with the rows in done. */
  ghost predicate Polled(before: Db, done: set<Id>, worlds: Id -> World, s: Db) {
    s == before.(rows := Broadcasted(before.rows, done, worlds), jobs := before.jobs - done)
  }

  /** The retry has dealt with the rows in done. */
  ghost predicate Retried(before: Db, done: set<Id>, worlds: Id -> World, s: Db) {
    s == before.(rows := Broadcasted(before.rows, done, worlds))
  }

  lemma NothingBroadcast(s: Db, worlds: Id -> World)
    ensures Polled(s, {}, worlds, s) && Retried(s, {}, worlds, s)
  {
    assert Broadcasted(s.rows, {}, worlds) == s.rows && s.jobs - {} == s.jobs;
  }

  lemma OneMoreBroadcast(rows: map<Id, Communication>, done: set<Id>, id: Id, worlds: Id -> World)
    requires id in rows && id !in done
    ensures id in Broadcasted(rows, done, worlds) && Broadcasted(rows, done, worlds)[id] == rows[id]
    ensures Broadcasted(rows, done + {id}, worlds)
         == Broadcasted(rows, done, worlds)[id := BroadcastRow(rows[id], worlds(id))]
  {
    hide BroadcastRow;
  }

  lemma OneMorePolled(before: Db, done: set<Id>, id: Id, worlds: Id -> World, s: Db)
    requires Polled(before, done, worlds, s) && id in before.rows && id !in done
    ensures id in s.rows && s.rows[id] == before.rows[id]
    ensures Polled(before, done + {id}, worlds,
                   s.(rows := s.rows[id := BroadcastRow(s.rows[id], worlds(id))], jobs := s.jobs - {id}))
  {
    hide BroadcastRow, Broadcasted;
    OneMoreBroadcast(before.rows, done, id, worlds);
    assert before.jobs - (done + {id}) == before.jobs - done - {id};
  }

  lemma OneMoreRetried(before: Db, done: set<Id>, id: Id, worlds: Id -> World, s: Db)
    requires Retried(before, done, worlds, s) && id in before.rows && id !in done
    ensures id in s.rows && s.rows[id] == before.rows[id]
    ensures Retried(before, done + {id}, worlds, s.(rows := s.rows[id := BroadcastRow(s.rows[id], worlds(id))]))
  {
    hide BroadcastRow, Broadcasted;
    OneMoreBroadcast(before.rows, done, id, worlds);
  }

  lemma AllPolled(before: Db, now: int, worlds: Id -> World, s: Db)
    requires Polled(before, DueIds(before, now), worlds, s)
    ensures s == PollEffect(before, now, worlds)
  {
  }

  lemma AllRetried(before: Db, worlds: Id -> World, s: Db)
    requires Retried(before, RetryIds(before), worlds, s)
    ensures s == RetryEffect(before, worlds)
  {
  }
}
