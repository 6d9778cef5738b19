/** Department rosters, their leaders, and the worker records that follow from them. */
module Roster {
  import opened Wrappers

  type MemberId = nat
  type DepartmentId = nat

  datatype Role = MEMBER | LEADER | ASSISTANT_LEADER | SECRETARY
  datatype Status = ACTIVE | INACTIVE | TRANSFERRED | SUSPENDED

  /** The unique key of a roster row. */
  datatype Seat = Seat(member: MemberId, department: DepartmentId)
  datatype Row = Row(role: Role, status: Status, deleted: bool)

  /** A member's one worker record, kept under the member. */
  datatype Worker = Worker(department: Option<DepartmentId>, active: bool, deleted: bool)

  datatype Department = Department(leader: Option<MemberId>, deleted: bool)

  /** isWorker is the flag on the member rows. */
  datatype Db = Db(
    isWorker: map<MemberId, bool>,
    departments: map<DepartmentId, Department>,
    roster: map<Seat, Row>,
    workers: map<MemberId, Worker>)

  datatype Error = NotFound | Conflict | BadRequest | Internal

  datatype Effect = Effect(db: Db, error: Option<Error>)

  // ---------- The operations ----------

  /** The upsert by member, which also brings a deleted worker back. */
  function Enlist(s: Db, m: MemberId, d: DepartmentId): Db {
    s.(workers := s.workers[m := Worker(Some(d), true, false)])
  }

  function Mark(s: Db, m: MemberId, flag: bool): Db {
    s.(isWorker := s.isWorker[m := flag])
  }

  function CreateDepartmentEffect(s: Db, d: DepartmentId, leader: Option<MemberId>): Effect {
    if d in s.departments then Effect(s, Some(Conflict))
    else Effect(s.(departments := s.departments[d := Department(leader, false)]), None)
  }

  function AddMemberEffect(s: Db, d: DepartmentId, m: MemberId, role: Role, status: Option<Status>): Effect {
    var active := status.None? || status.value == ACTIVE;
    if Seat(m, d) in s.roster then Effect(s, Some(Conflict))
    else if d !in s.departments || m !in s.isWorker then Effect(s, Some(Internal))
    else
      var row := Row(role, if status.Some? then status.value else ACTIVE, false);
      var t := s.(roster := s.roster[Seat(m, d) := row]);
      Effect(if active then Mark(Enlist(t, m, d), m, true) else t, None)
  }

  /** The worker follows a change of status only while the department is the worker's own. */
  function FollowStatus(s: Db, d: DepartmentId, m: MemberId, status: Status): Db {
    if m !in s.workers || s.workers[m].department != Some(d) then s
    else if status != ACTIVE && s.workers[m].active then
      Mark(s.(workers := s.workers[m := s.workers[m].(active := false)]), m, false)
    else if status == ACTIVE && !s.workers[m].active then
      Mark(s.(workers := s.workers[m := s.workers[m].(active := true, deleted := false)]), m, true)
    else s
  }

  function UpdateAssignmentEffect(s: Db, d: DepartmentId, m: MemberId, role: Option<Role>, status: Option<Status>)
    : Effect
  {
    if Seat(m, d) !in s.roster || s.roster[Seat(m, d)].deleted then Effect(s, Some(NotFound))
    else
      var row := s.roster[Seat(m, d)];
      var newStatus := if status.Some? then status.value else row.status;
      var row' := Row(if role.Some? then role.value else row.role, newStatus, false);
      var t := s.(roster := s.roster[Seat(m, d) := row']);
      Effect(if status.Some? && status.value != row.status then FollowStatus(t, d, m, status.value) else t, None)
  }

  function RemoveMemberEffect(s: Db, d: DepartmentId, m: MemberId): Effect {
    if Seat(m, d) !in s.roster || s.roster[Seat(m, d)].deleted then Effect(s, Some(NotFound))
    else Effect(s.(roster := s.roster[Seat(m, d) := s.roster[Seat(m, d)].(deleted := true)]), None)
  }

  function RowsDeleted(roster: map<Seat, Row>, d: DepartmentId): map<Seat, Row> {
    map seat | seat in roster :: if seat.department == d then roster[seat].(deleted := true) else roster[seat]
  }

  function WorkersStopped(workers: map<MemberId, Worker>, d: DepartmentId): map<MemberId, Worker> {
    map m | m in workers ::
      if workers[m].department == Some(d) && !workers[m].deleted then workers[m].(active := false) else workers[m]
  }

  function RemoveDepartmentEffect(s: Db, d: DepartmentId): Effect {
    if d !in s.departments || s.departments[d].deleted then Effect(s, Some(NotFound))
    else Effect(s.(departments := s.departments[d := s.departments[d].(deleted := true)],
                   roster := RowsDeleted(s.roster, d), workers := WorkersStopped(s.workers, d)), None)
  }

  /** The recorded leader steps down unless the new one is the same. */
  function Demoted(roster: map<Seat, Row>, d: DepartmentId, leader: Option<MemberId>, m: MemberId): map<Seat, Row> {
    if leader.Some? && leader.value != m
       && Seat(leader.value, d) in roster && roster[Seat(leader.value, d)].role == LEADER
    then roster[Seat(leader.value, d) := roster[Seat(leader.value, d)].(role := MEMBER)]
    else roster
  }

  function AssignLeaderEffect(s: Db, d: DepartmentId, m: MemberId): Effect {
    if d !in s.departments || s.departments[d].deleted then Effect(s, Some(NotFound))
    else if Seat(m, d) !in s.roster || s.roster[Seat(m, d)].deleted || s.roster[Seat(m, d)].status != ACTIVE then
      Effect(s, Some(BadRequest))
    else
      var roster := Demoted(s.roster, d, s.departments[d].leader, m);
      Effect(s.(roster := roster[Seat(m, d) := roster[Seat(m, d)].(role := LEADER)],
                departments := s.departments[d := s.departments[d].(leader := Some(m))]), None)
  }

  // ---------- Backfill ----------

  predicate Seated(s: Db, seat: Seat) {
    seat in s.roster && s.roster[seat].status == ACTIVE && !s.roster[seat].deleted
  }

  predicate HasLiveWorker(s: Db, m: MemberId) {
    m in s.workers && !s.workers[m].deleted
  }

  /** The active roster rows whose member has no live worker. */
  function ToBackfill(s: Db): (seats: set<Seat>)
    ensures forall seat :: seat in seats <==> Seated(s, seat) && !HasLiveWorker(s, seat.member)
  {
    set seat | seat in s.roster && Seated(s, seat) && !HasLiveWorker(s, seat.member)
  }

  /** One database write of the unordered batch. */
  datatype Write = Upsert(seat: Seat) | Flag(member: MemberId)

  function AfterWrite(s: Db, w: Write): Db {
    match w
    case Upsert(seat) => Enlist(s, seat.member, seat.department)
    case Flag(m) => Mark(s, m, true)
  }

  function AfterWrites(s: Db, schedule: seq<Write>): Db {
    if schedule == [] then s else AfterWrite(AfterWrites(s, schedule[..|schedule| - 1]), schedule[|schedule| - 1])
  }

  /** The writes of the batch, in any order: an upsert and a flag for each row to backfill, and no other write. */
  ghost predicate Schedules(s: Db, schedule: seq<Write>) {
    && (forall seat :: seat in ToBackfill(s) ==> Upsert(seat) in schedule && Flag(seat.member) in schedule)
    && (forall i :: 0 <= i < |schedule| ==>
          match schedule[i]
          case Upsert(seat) => seat in ToBackfill(s)
          case Flag(m) => exists seat :: seat in ToBackfill(s) && seat.member == m)
  }

  // ---------- Runs ----------

  datatype Op =
    | CreateDepartment(d: DepartmentId, leader: Option<MemberId>)
    | AddMember(d: DepartmentId, m: MemberId, role: Role, newStatus: Option<Status>)
    | UpdateAssignment(d: DepartmentId, m: MemberId, newRole: Option<Role>, newStatus: Option<Status>)
    | RemoveMember(d: DepartmentId, m: MemberId)
    | RemoveDepartment(d: DepartmentId)
    | AssignLeader(d: DepartmentId, m: MemberId)
    | Backfill(schedule: seq<Write>)

  ghost predicate Step(s: Db, op: Op, t: Db) {
    match op
    case CreateDepartment(d, leader) => t == CreateDepartmentEffect(s, d, leader).db
    case AddMember(d, m, role, status) => t == AddMemberEffect(s, d, m, role, status).db
    case UpdateAssignment(d, m, role, status) => t == UpdateAssignmentEffect(s, d, m, role, status).db
    case RemoveMember(d, m) => t == RemoveMemberEffect(s, d, m).db
    case RemoveDepartment(d) => t == RemoveDepartmentEffect(s, d).db
    case AssignLeader(d, m) => t == AssignLeaderEffect(s, d, m).db
    case Backfill(schedule) => Schedules(s, schedule) && t == AfterWrites(s, schedule)
  }

  ghost predicate Run(trace: seq<Db>, ops: seq<Op>) {
    && |trace| == |ops| + 1
    && forall i :: 0 <= i < |ops| ==> Step(trace[i], ops[i], trace[i + 1])
  }

  // ---------- Workers are flagged ----------

  /** Rows point at members and departments that exist. */
  ghost predicate Linked(s: Db) {
    && (forall seat :: seat in s.roster ==> seat.member in s.isWorker && seat.department in s.departments)
    && (forall m :: m in s.workers ==> m in s.isWorker)
  }

  /** An active undeleted worker's member has the flag. */
  ghost predicate Flagged(s: Db) {
    forall m :: m in s.workers && s.workers[m].active && !s.workers[m].deleted ==> m in s.isWorker && s.isWorker[m]
  }

  ghost predicate Inv(s: Db) {
    Linked(s) && Flagged(s)
  }

  lemma {:induction false} WritesKeep(s: Db, schedule: seq<Write>)
    ensures AfterWrites(s, schedule).roster == s.roster && AfterWrites(s, schedule).departments == s.departments
  {
    if schedule != [] {
      WritesKeep(s, schedule[..|schedule| - 1]);
    }
  }

  /** What a write leaves in the tables: the last upsert of a member decides, and a flag once set stays. */
  ghost predicate WorkerFrom(s: Db, schedule: seq<Write>, m: MemberId) {
    exists seat :: Upsert(seat) in schedule && seat.member == m && m in AfterWrites(s, schedule).workers
                   && AfterWrites(s, schedule).workers[m] == Worker(Some(seat.department), true, false)
  }

  predicate Upserts(schedule: seq<Write>, m: MemberId) {
    exists i :: 0 <= i < |schedule| && schedule[i].Upsert? && schedule[i].seat.member == m
  }

  lemma {:induction false} WritesDecide(s: Db, schedule: seq<Write>, m: MemberId)
    ensures Upserts(schedule, m) ==> m in AfterWrites(s, schedule).workers && WorkerFrom(s, schedule, m)
    ensures !Upserts(schedule, m) ==>
      && (m in AfterWrites(s, schedule).workers <==> m in s.workers)
      && (m in s.workers ==> AfterWrites(s, schedule).workers[m] == s.workers[m])
    ensures Flag(m) in schedule ==> m in AfterWrites(s, schedule).isWorker && AfterWrites(s, schedule).isWorker[m]
    ensures Flag(m) !in schedule ==>
      && (m in AfterWrites(s, schedule).isWorker <==> m in s.isWorker)
      && (m in s.isWorker ==> AfterWrites(s, schedule).isWorker[m] == s.isWorker[m])
  {
    if schedule != [] {
      var n := |schedule| - 1;
      var init, w := schedule[..n], schedule[n];
      WritesDecide(s, init, m);
      assert schedule == init + [w];
      assert forall x :: x in schedule <==> x in init || x == w;
      assert Upserts(schedule, m) <==> Upserts(init, m) || (w.Upsert? && w.seat.member == m);
      if w.Upsert? && w.seat.member == m {
        assert Upsert(w.seat) in schedule;
      } else if Upserts(init, m) {
        var seat :| Upsert(seat) in init && seat.member == m
                    && AfterWrites(s, init).workers[m] == Worker(Some(seat.department), true, false);
        assert Upsert(seat) in schedule;
      }
    }
  }

  // ---------- Backfill is correct in any order ----------

  ghost predicate NeedsBackfill(s: Db, m: MemberId) {
    exists seat :: seat in ToBackfill(s) && seat.member == m
  }

  lemma UpsertedIffNeeded(s: Db, schedule: seq<Write>, m: MemberId)
    requires Schedules(s, schedule)
    ensures Upserts(schedule, m) <==> NeedsBackfill(s, m)
    ensures Flag(m) in schedule <==> NeedsBackfill(s, m)
  {
    if seat :| seat in ToBackfill(s) && seat.member == m {
      assert Upsert(seat) in schedule;
      var i :| 0 <= i < |schedule| && schedule[i] == Upsert(seat);
    }
    if i :| 0 <= i < |schedule| && schedule[i].Upsert? && schedule[i].seat.member == m {
      assert schedule[i].seat in ToBackfill(s);
    }
  }

  /**
   Whatever the order of the writes: a backfilled member gets one live, active worker in one of the
   member's active departments and is flagged; everybody else keeps worker and flag as they were.
   */
  lemma BackfillPerMember(s: Db, schedule: seq<Write>, m: MemberId)
    requires Schedules(s, schedule)
    ensures var t := AfterWrites(s, schedule);
      && (NeedsBackfill(s, m) ==>
            && m in t.workers && t.workers[m].active && !t.workers[m].deleted
            && t.workers[m].department.Some? && Seat(m, t.workers[m].department.value) in ToBackfill(s)
            && m in t.isWorker && t.isWorker[m])
      && (!NeedsBackfill(s, m) ==>
            && (m in t.workers <==> m in s.workers) && (m in s.workers ==> t.workers[m] == s.workers[m])
            && (m in t.isWorker <==> m in s.isWorker) && (m in s.isWorker ==> t.isWorker[m] == s.isWorker[m]))
  {
    WritesDecide(s, schedule, m);
    UpsertedIffNeeded(s, schedule, m);
    if NeedsBackfill(s, m) {
      var seat :| Upsert(seat) in schedule && seat.member == m && m in AfterWrites(s, schedule).workers
                  && AfterWrites(s, schedule).workers[m] == Worker(Some(seat.department), true, false);
      var i :| 0 <= i < |schedule| && schedule[i] == Upsert(seat);
      assert seat in ToBackfill(s) && seat == Seat(m, seat.department);
    }
  }

  /** Afterwards every active roster member has a live worker, and a second run finds nothing to do. */
  lemma BackfillComplete(s: Db, schedule: seq<Write>)
    requires Schedules(s, schedule)
    ensures var t := AfterWrites(s, schedule);
      && t.roster == s.roster && t.departments == s.departments
      && (forall seat :: Seated(t, seat) ==> HasLiveWorker(t, seat.member))
      && ToBackfill(t) == {}
  {
    var t := AfterWrites(s, schedule);
    WritesKeep(s, schedule);
    forall seat | Seated(t, seat)
      ensures HasLiveWorker(t, seat.member)
    {
      BackfillPerMember(s, schedule, seat.member);
      if !HasLiveWorker(s, seat.member) {
        assert seat in ToBackfill(s);
      }
    }
  }

  /** Two orders of the same batch differ at most in which of a member's active departments wins. */
  lemma BackfillOrder(s: Db, p: seq<Write>, q: seq<Write>, m: MemberId)
    requires Schedules(s, p) && Schedules(s, q)
    ensures m in AfterWrites(s, p).workers <==> m in AfterWrites(s, q).workers
    ensures m in AfterWrites(s, p).workers ==>
      AfterWrites(s, p).workers[m].(department := None) == AfterWrites(s, q).workers[m].(department := None)
    ensures m in AfterWrites(s, p).isWorker <==> m in AfterWrites(s, q).isWorker
    ensures m in AfterWrites(s, p).isWorker ==> AfterWrites(s, p).isWorker[m] == AfterWrites(s, q).isWorker[m]
  {
    BackfillPerMember(s, p, m);
    BackfillPerMember(s, q, m);
  }

  // ---------- Every step keeps the invariant ----------

  lemma BackfillKeepsInv(s: Db, schedule: seq<Write>)
    requires Inv(s) && Schedules(s, schedule)
    ensures Inv(AfterWrites(s, schedule))
  {
    var t := AfterWrites(s, schedule);
    WritesKeep(s, schedule);
    forall m
      ensures m in s.isWorker ==> m in t.isWorker
      ensures m in t.workers ==> m in t.isWorker
      ensures m in t.workers && t.workers[m].active && !t.workers[m].deleted ==> t.isWorker[m]
    {
      BackfillPerMember(s, schedule, m);
    }
  }

  /** Every LEADER row belongs to the recorded leader. */
  ghost predicate LeadersRecorded(s: Db) {
    forall seat :: seat in s.roster && s.roster[seat].role == LEADER ==>
      seat.department in s.departments && s.departments[seat.department].leader == Some(seat.member)
  }

  /** The two calls that can hand out the role without recording it. */
  predicate GrantsLeader(op: Op) {
    || (op.AddMember? && op.role == LEADER)
    || (op.UpdateAssignment? && op.newRole == Some(LEADER))
  }

  lemma CreateDepartmentKeeps(s: Db, d: DepartmentId, leader: Option<MemberId>)
    requires Inv(s)
    ensures Inv(CreateDepartmentEffect(s, d, leader).db)
    ensures LeadersRecorded(s) ==> LeadersRecorded(CreateDepartmentEffect(s, d, leader).db)
  {
  }

  lemma AddMemberKeeps(s: Db, d: DepartmentId, m: MemberId, role: Role, status: Option<Status>)
    requires Inv(s)
    ensures Inv(AddMemberEffect(s, d, m, role, status).db)
    ensures role != LEADER && LeadersRecorded(s) ==> LeadersRecorded(AddMemberEffect(s, d, m, role, status).db)
  {
  }

  lemma UpdateAssignmentKeeps(s: Db, d: DepartmentId, m: MemberId, role: Option<Role>, status: Option<Status>)
    requires Inv(s)
    ensures Inv(UpdateAssignmentEffect(s, d, m, role, status).db)
    ensures role != Some(LEADER) && LeadersRecorded(s) ==>
      LeadersRecorded(UpdateAssignmentEffect(s, d, m, role, status).db)
  {
  }

  lemma RemoveMemberKeeps(s: Db, d: DepartmentId, m: MemberId)
    requires Inv(s)
    ensures Inv(RemoveMemberEffect(s, d, m).db)
    ensures LeadersRecorded(s) ==> LeadersRecorded(RemoveMemberEffect(s, d, m).db)
  {
  }

  lemma RemoveDepartmentKeeps(s: Db, d: DepartmentId)
    requires Inv(s)
    ensures Inv(RemoveDepartmentEffect(s, d).db)
    ensures LeadersRecorded(s) ==> LeadersRecorded(RemoveDepartmentEffect(s, d).db)
  {
  }

  lemma AssignLeaderKeeps(s: Db, d: DepartmentId, m: MemberId)
    requires Inv(s)
    ensures Inv(AssignLeaderEffect(s, d, m).db)
    ensures LeadersRecorded(s) ==> LeadersRecorded(AssignLeaderEffect(s, d, m).db)
  {
  }

  lemma BackfillKeeps(s: Db, schedule: seq<Write>)
    requires Inv(s) && Schedules(s, schedule)
    ensures Inv(AfterWrites(s, schedule))
    ensures LeadersRecorded(s) ==> LeadersRecorded(AfterWrites(s, schedule))
  {
    BackfillKeepsInv(s, schedule);
    WritesKeep(s, schedule);
  }

  lemma StepKeeps(s: Db, op: Op, t: Db)
    requires Inv(s) && Step(s, op, t)
    ensures Inv(t)
    ensures LeadersRecorded(s) && !GrantsLeader(op) ==> LeadersRecorded(t)
  {
    hide Inv, LeadersRecorded, CreateDepartmentEffect, AddMemberEffect, UpdateAssignmentEffect, RemoveMemberEffect,
         RemoveDepartmentEffect, AssignLeaderEffect, AfterWrites, Schedules;
    match op
    case CreateDepartment(d, leader) => CreateDepartmentKeeps(s, d, leader);
    case AddMember(d, m, role, status) => AddMemberKeeps(s, d, m, role, status);
    case UpdateAssignment(d, m, role, status) => UpdateAssignmentKeeps(s, d, m, role, status);
    case RemoveMember(d, m) => RemoveMemberKeeps(s, d, m);
    case RemoveDepartment(d) => RemoveDepartmentKeeps(s, d);
    case AssignLeader(d, m) => AssignLeaderKeeps(s, d, m);
    case Backfill(schedule) => BackfillKeeps(s, schedule);
  }

  /** In every run, an active undeleted worker's member is flagged as a worker. */
  lemma {:induction false} RunKeepsInv(trace: seq<Db>, ops: seq<Op>, n: nat)
    requires Run(trace, ops) && Inv(trace[0]) && n < |trace|
    ensures Inv(trace[n])
  {
    hide Inv, Step;
    if n > 0 {
      RunKeepsInv(trace, ops, n - 1);
      StepKeeps(trace[n - 1], ops[n - 1], trace[n]);
    }
  }

  // ---------- The converse fails, and exactly when ----------

  /** A flagged member has an active undeleted worker. */
  ghost predicate FlagEarned(s: Db) {
    forall m :: m in s.isWorker && s.isWorker[m] ==> m in s.workers && s.workers[m].active && !s.workers[m].deleted
  }

  /** Removing a department keeps the flags earned exactly when no flagged live worker was at home there. */
  lemma RemovalKeepsFlagsIff(s: Db, d: DepartmentId)
    requires FlagEarned(s) && d in s.departments && !s.departments[d].deleted
    ensures FlagEarned(RemoveDepartmentEffect(s, d).db) <==>
      forall m :: m in s.isWorker && s.isWorker[m] ==> s.workers[m].department != Some(d)
  {
    var t := RemoveDepartmentEffect(s, d).db;
    if m :| m in s.isWorker && s.isWorker[m] && s.workers[m].department == Some(d) {
      assert m in t.isWorker && !t.workers[m].active;
    }
  }

  /** The call removes a department that is home to a flagged member's worker. */
  ghost predicate LosesFlags(s: Db, op: Op) {
    && op.RemoveDepartment? && op.d in s.departments && !s.departments[op.d].deleted
    && exists m :: m in s.isWorker && s.isWorker[m] && m in s.workers && s.workers[m].department == Some(op.d)
  }

  lemma AddMemberKeepsFlags(s: Db, d: DepartmentId, m: MemberId, role: Role, status: Option<Status>)
    requires FlagEarned(s)
    ensures FlagEarned(AddMemberEffect(s, d, m, role, status).db)
  {
  }

  lemma UpdateAssignmentKeepsFlags(s: Db, d: DepartmentId, m: MemberId, role: Option<Role>, status: Option<Status>)
    requires FlagEarned(s)
    ensures FlagEarned(UpdateAssignmentEffect(s, d, m, role, status).db)
  {
  }

  lemma BackfillKeepsFlags(s: Db, schedule: seq<Write>)
    requires FlagEarned(s) && Schedules(s, schedule)
    ensures FlagEarned(AfterWrites(s, schedule))
  {
    var t := AfterWrites(s, schedule);
    hide Schedules, AfterWrites, NeedsBackfill;
    forall m | m in t.isWorker && t.isWorker[m]
      ensures m in t.workers && t.workers[m].active && !t.workers[m].deleted
    {
      BackfillPerMember(s, schedule, m);
    }
  }

  lemma RemovalLosesFlagsIff(s: Db, d: DepartmentId)
    requires FlagEarned(s)
    ensures FlagEarned(RemoveDepartmentEffect(s, d).db) <==> !LosesFlags(s, RemoveDepartment(d))
  {
    if d in s.departments && !s.departments[d].deleted {
      RemovalKeepsFlagsIff(s, d);
    }
  }

  /** Of all calls, only such a removal leaves a flag that is not earned. */
  lemma FlagsStepIff(s: Db, op: Op, t: Db)
    requires FlagEarned(s) && Step(s, op, t)
    ensures FlagEarned(t) <==> !LosesFlags(s, op)
  {
    match op
    case AddMember(d, m, role, status) =>
      hide FlagEarned, AddMemberEffect;
      AddMemberKeepsFlags(s, d, m, role, status);
    case UpdateAssignment(d, m, role, status) =>
      hide FlagEarned, UpdateAssignmentEffect;
      UpdateAssignmentKeepsFlags(s, d, m, role, status);
    case RemoveDepartment(d) =>
      hide FlagEarned, LosesFlags, RemoveDepartmentEffect;
      RemovalLosesFlagsIff(s, d);
    case Backfill(schedule) =>
      hide FlagEarned, AfterWrites, Schedules;
      BackfillKeepsFlags(s, schedule);
    case _ =>
  }

  /** Over runs: every flag is earned throughout exactly when no call loses one. */
  lemma {:induction false} FlagsRunIff(trace: seq<Db>, ops: seq<Op>, n: nat)
    requires Run(trace, ops) && FlagEarned(trace[0]) && n < |trace|
    ensures (forall k :: 0 <= k <= n ==> FlagEarned(trace[k])) <==>
      forall k :: 0 <= k < n ==> !LosesFlags(trace[k], ops[k])
  {
    hide FlagEarned, LosesFlags, Step;
    if n > 0 {
      FlagsRunIff(trace, ops, n - 1);
      if FlagEarned(trace[n - 1]) {
        FlagsStepIff(trace[n - 1], ops[n - 1], trace[n]);
      }
    }
  }

  /** From empty tables: a department is removed, and its only member stays flagged without an active worker. */
  lemma FlagSurvivesRemoval() returns (trace: seq<Db>, ops: seq<Op>)
    ensures Run(trace, ops) && trace[0] == Db(map[1 := false], map[], map[], map[]) && |ops| == 3
    ensures var t := trace[3];
      1 in t.isWorker && t.isWorker[1] && 1 in t.workers && !t.workers[1].active
  {
    var s0 := Db(map[1 := false], map[], map[], map[]);
    var s1 := CreateDepartmentEffect(s0, 0, None).db;
    var s2 := AddMemberEffect(s1, 0, 1, MEMBER, None).db;
    ops := [CreateDepartment(0, None), AddMember(0, 1, MEMBER, None), RemoveDepartment(0)];
    trace := [s0, s1, s2, RemoveDepartmentEffect(s2, 0).db];
  }

  // ---------- Leaders ----------

  function Leaders(s: Db, d: DepartmentId): (ms: set<MemberId>)
    ensures forall m :: m in ms <==> Seat(m, d) in s.roster && s.roster[Seat(m, d)].role == LEADER
  {
    set seat | seat in s.roster && seat.department == d && s.roster[seat].role == LEADER :: seat.member
  }

  /** The recorded leader, if any, as a set. */
  function Recorded(s: Db, d: DepartmentId): set<MemberId>
    requires d in s.departments
  {
    if s.departments[d].leader.Some? then {s.departments[d].leader.value} else {}
  }

  /** Assigning a leader replaces the recorded one, and leaves every other department alone. */
  lemma AssignLeaderReplaces(s: Db, d: DepartmentId, m: MemberId, e: DepartmentId)
    requires AssignLeaderEffect(s, d, m).error.None?
    ensures var t := AssignLeaderEffect(s, d, m).db;
      && Leaders(t, d) == (Leaders(s, d) - Recorded(s, d)) + {m}
      && Recorded(t, d) == {m}
      && (e != d ==> Leaders(t, e) == Leaders(s, e) && (e in s.departments ==> t.departments[e] == s.departments[e]))
      && t.workers == s.workers && t.isWorker == s.isWorker
  {
    var t := AssignLeaderEffect(s, d, m).db;
    forall x
      ensures x in Leaders(t, d) <==> x in (Leaders(s, d) - Recorded(s, d)) + {m}
    {
    }
    if e != d {
      forall x ensures x in Leaders(t, e) <==> x in Leaders(s, e) {
        assert Seat(x, e) in t.roster <==> Seat(x, e) in s.roster;
      }
    }
  }

  /** It ends with exactly one LEADER row iff every LEADER row was the recorded or the new leader's. */
  lemma OneLeaderIff(s: Db, d: DepartmentId, m: MemberId)
    requires AssignLeaderEffect(s, d, m).error.None?
    ensures Leaders(AssignLeaderEffect(s, d, m).db, d) == {m} <==> Leaders(s, d) <= Recorded(s, d) + {m}
  {
    AssignLeaderReplaces(s, d, m, d);
    hide Recorded, Leaders;
    var before, recorded := Leaders(s, d), Recorded(s, d);
    if before - recorded + {m} == {m} {
      forall x | x in before ensures x in recorded + {m} {
        if x !in recorded {
          assert x in before - recorded + {m};
        }
      }
    }
  }

  /** From empty tables: a leader who was never recorded stays leader beside the assigned one. */
  lemma TwoLeaders() returns (trace: seq<Db>, ops: seq<Op>)
    ensures Run(trace, ops) && trace[0] == Db(map[1 := false, 2 := false], map[], map[], map[]) && |ops| == 4
    ensures Leaders(trace[4], 0) == {1, 2}
  {
    var s0 := Db(map[1 := false, 2 := false], map[], map[], map[]);
    var s1 := CreateDepartmentEffect(s0, 0, None).db;
    var s2 := AddMemberEffect(s1, 0, 1, LEADER, None).db;
    var s3 := AddMemberEffect(s2, 0, 2, MEMBER, None).db;
    ops := [CreateDepartment(0, None), AddMember(0, 1, LEADER, None), AddMember(0, 2, MEMBER, None),
            AssignLeader(0, 2)];
    trace := [s0, s1, s2, s3, AssignLeaderEffect(s3, 0, 2).db];
    AssignLeaderReplaces(s3, 0, 2, 0);
    assert Leaders(s3, 0) == {1} && Recorded(s3, 0) == {};
  }

  predicate IsLeader(s: Db, seat: Seat) {
    seat in s.roster && s.roster[seat].role == LEADER
  }

  /** As long as the role is only handed out by assigning leaders, each department has at most one LEADER row. */
  lemma {:induction false} AtMostOneLeader(trace: seq<Db>, ops: seq<Op>, n: nat, seat: Seat, other: Seat)
    requires Run(trace, ops) && Inv(trace[0]) && LeadersRecorded(trace[0]) && n < |trace|
    requires forall i :: 0 <= i < n ==> !GrantsLeader(ops[i])
    ensures LeadersRecorded(trace[n])
    ensures seat.department == other.department && IsLeader(trace[n], seat) && IsLeader(trace[n], other) ==>
      seat == other
  {
    hide Inv, Step, GrantsLeader;
    if n > 0 {
      AtMostOneLeader(trace, ops, n - 1, seat, other);
      RunKeepsInv(trace, ops, n - 1);
      StepKeeps(trace[n - 1], ops[n - 1], trace[n]);
    }
  }

  // ---------- The service ----------

  /** The member is flagged, and has a live active worker at home in the department. */
  predicate Serves(s: Db, m: MemberId, d: DepartmentId) {
    && m in s.isWorker && s.isWorker[m]
    && m in s.workers && s.workers[m].active && !s.workers[m].deleted && s.workers[m].department == Some(d)
  }

  predicate AtHome(s: Db, m: MemberId, d: DepartmentId) {
    m in s.workers && s.workers[m].department == Some(d)
  }

  predicate StatusChanges(s: Db, d: DepartmentId, m: MemberId, status: Option<Status>) {
    Seat(m, d) in s.roster && status.Some? && status.value != s.roster[Seat(m, d)].status
  }

  /** A worker at home in the department is active exactly when the new status is; any other is left alone. */
  ghost predicate WorkerFollowed(s: Db, d: DepartmentId, m: MemberId, status: Option<Status>, t: Db) {
    && (AtHome(s, m, d) && StatusChanges(s, d, m, status) ==>
          AtHome(t, m, d) && (t.workers[m].active <==> status == Some(ACTIVE)))
    && (!AtHome(s, m, d) ==> t.workers == s.workers && t.isWorker == s.isWorker)
    && forall n :: n != m && n in s.workers ==> n in t.workers && t.workers[n] == s.workers[n]
  }

  lemma WorkerFollows(s: Db, d: DepartmentId, m: MemberId, role: Option<Role>, status: Option<Status>)
    ensures var r := UpdateAssignmentEffect(s, d, m, role, status);
      r.error.None? ==> WorkerFollowed(s, d, m, status, r.db)
  {
  }

  class DepartmentsRoster {
    var isWorker: map<MemberId, bool>
    var departments: map<DepartmentId, Department>
    var roster: map<Seat, Row>
    var workers: map<MemberId, Worker>

    ghost function State(): Db
      reads this
    {
      Db(isWorker, departments, roster, workers)
    }

    ghost predicate Valid()
      reads this
    {
      Inv(State())
    }

    constructor (members: map<MemberId, bool>)
      ensures State() == Db(members, map[], map[], map[]) && Valid()
    {
      isWorker, departments, roster, workers := members, map[], map[], map[];
    }

    /** A member added as active serves the department as a worker; one added otherwise changes no worker. */
    method AddDepartmentMember(d: DepartmentId, m: MemberId, role: Role, status: Option<Status>)
      returns (error: Option<Error>)
      requires Valid()
      modifies this
      ensures Valid()
      ensures Effect(State(), error) == AddMemberEffect(old(State()), d, m, role, status)
      ensures error.None? ==>
        if status.None? || status == Some(ACTIVE) then Serves(State(), m, d)
        else workers == old(workers) && isWorker == old(isWorker)
    {
      AddMemberKeeps(State(), d, m, role, status);
      hide Inv, LeadersRecorded;
      var isActiveAssignment := if status.Some? then status.value == ACTIVE else true;
      if Seat(m, d) in roster {
        return Some(Conflict);
      }
      if d !in departments || m !in isWorker {
        return Some(Internal);
      }
      roster := roster[Seat(m, d) := Row(role, if status.Some? then status.value else ACTIVE, false)];
      if isActiveAssignment {
        workers := workers[m := Worker(Some(d), true, false)];
        isWorker := isWorker[m := true];
      }
      error := None;
    }

    method UpdateMemberAssignment(d: DepartmentId, m: MemberId, role: Option<Role>, status: Option<Status>)
      returns (error: Option<Error>)
      requires Valid()
      modifies this
      ensures Valid()
      ensures Effect(State(), error) == UpdateAssignmentEffect(old(State()), d, m, role, status)
      ensures error.None? ==> WorkerFollowed(old(State()), d, m, status, State())
    {
      UpdateAssignmentKeeps(State(), d, m, role, status);
      WorkerFollows(State(), d, m, role, status);
      hide Inv, LeadersRecorded, WorkerFollowed, FollowStatus;
      var seat := Seat(m, d);
      if seat !in roster || roster[seat].deleted {
        return Some(NotFound);
      }
      var statusChanging := status.Some? && status.value != roster[seat].status;
      var newRole := if role.Some? then role.value else roster[seat].role;
      var newStatus := if status.Some? then status.value else roster[seat].status;
      roster := roster[seat := Row(newRole, newStatus, false)];
      if statusChanging {
        SyncWorker(d, m, status.value);
      }
      error := None;
    }

    /** The worker part of a change of status. */
    method SyncWorker(d: DepartmentId, m: MemberId, status: Status)
      modifies this`workers, this`isWorker
      ensures State() == FollowStatus(old(State()), d, m, status)
    {
      if m in workers && workers[m].department == Some(d) {
        if status != ACTIVE && workers[m].active {
          workers := workers[m := workers[m].(active := false)];
          isWorker := isWorker[m := false];
        } else if status == ACTIVE && !workers[m].active {
          workers := workers[m := workers[m].(active := true, deleted := false)];
          isWorker := isWorker[m := true];
        }
      }
    }

    /** The member's seat is empty, and workers stay as they are. */
    method RemoveDepartmentMember(d: DepartmentId, m: MemberId) returns (error: Option<Error>)
      requires Valid()
      modifies this
      ensures Valid()
      ensures Effect(State(), error) == RemoveMemberEffect(old(State()), d, m)
      ensures !Seated(State(), Seat(m, d)) || error.Some?
      ensures forall seat :: seat != Seat(m, d) ==> (Seated(State(), seat) <==> Seated(old(State()), seat))
    {
      RemoveMemberKeeps(State(), d, m);
      hide Inv, LeadersRecorded;
      if Seat(m, d) !in roster || roster[Seat(m, d)].deleted {
        return Some(NotFound);
      }
      roster := roster[Seat(m, d) := roster[Seat(m, d)].(deleted := true)];
      error := None;
    }

    /** Nobody is seated in a removed department or serves it; the others are untouched. */
    method Remove(d: DepartmentId) returns (error: Option<Error>)
      requires Valid()
      modifies this
      ensures Valid()
      ensures Effect(State(), error) == RemoveDepartmentEffect(old(State()), d)
      ensures error.None? ==>
        forall seat :: Seated(State(), seat) <==> Seated(old(State()), seat) && seat.department != d
      ensures error.None? ==> forall m :: !Serves(State(), m, d)
      ensures forall m, e :: e != d ==> (Serves(State(), m, e) <==> Serves(old(State()), m, e))
    {
      RemoveDepartmentKeeps(State(), d);
      hide Inv, LeadersRecorded;
      if d !in departments || departments[d].deleted {
        return Some(NotFound);
      }
      departments := departments[d := departments[d].(deleted := true)];
      roster := RowsDeleted(roster, d);
      workers := WorkersStopped(workers, d);
      error := None;
    }

    /** The new leader takes the recorded one's place among the leaders of the department. */
    method AssignDepartmentLeader(d: DepartmentId, leaderId: MemberId) returns (error: Option<Error>)
      requires Valid()
      modifies this
      ensures Valid()
      ensures Effect(State(), error) == AssignLeaderEffect(old(State()), d, leaderId)
      ensures error.None? ==>
        && d in old(departments) && d in departments && departments[d].leader == Some(leaderId)
        && Leaders(State(), d) == (Leaders(old(State()), d) - Recorded(old(State()), d)) + {leaderId}
      ensures LeadersRecorded(old(State())) ==> LeadersRecorded(State())
    {
      ghost var s := State();
      AssignLeaderKeeps(s, d, leaderId);
      if AssignLeaderEffect(s, d, leaderId).error.None? {
        AssignLeaderReplaces(s, d, leaderId, d);
      }
      hide Inv, LeadersRecorded, Leaders, Recorded;
      if d !in departments || departments[d].deleted {
        return Some(NotFound);
      }
      var seat := Seat(leaderId, d);
      if seat !in roster || roster[seat].deleted || roster[seat].status != ACTIVE {
        return Some(BadRequest);
      }
      var previous := departments[d].leader;
      if previous.Some? && previous.value != leaderId {
        var stepsDown := Seat(previous.value, d);
        if stepsDown in roster && roster[stepsDown].role == LEADER {
          roster := roster[stepsDown := roster[stepsDown].(role := MEMBER)];
        }
      }
      roster := roster[seat := roster[seat].(role := LEADER)];
      departments := departments[d := departments[d].(leader := Some(leaderId))];
      error := None;
    }

    /** The batch runs its writes in whatever order they complete. */
    method BackfillWorkersFromRoster(schedule: seq<Write>) returns (created: nat)
      requires Valid() && Schedules(State(), schedule)
      modifies this
      ensures Valid()
      ensures created == |ToBackfill(old(State()))|
      ensures State() == AfterWrites(old(State()), schedule)
    {
      BackfillKeepsInv(State(), schedule);
      hide Inv, Schedules;
      var toBackfill := ToBackfill(Db(isWorker, departments, roster, workers));
      created := |toBackfill|;
      ghost var done: seq<Write> := [];
      for i := 0 to |schedule|
        invariant done == schedule[..i]
        invariant State() == AfterWrites(old(State()), done)
      {
        match schedule[i] {
          case Upsert(seat) => workers := workers[seat.member := Worker(Some(seat.department), true, false)];
          case Flag(m) => isWorker := isWorker[m := true];
        }
        OneMoreWrite(old(State()), done, schedule[i]);
        done := done + [schedule[i]];
      }
      assert done == schedule;
    }
  }

  lemma OneMoreWrite(s: Db, done: seq<Write>, w: Write)
    ensures AfterWrites(s, done + [w]) == AfterWrite(AfterWrites(s, done), w)
  {
    assert (done + [w])[..|done|] == done;
  }
}
