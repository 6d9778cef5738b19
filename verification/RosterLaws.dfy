/** What a caller of the roster services can rely on: when each call is refused, and exactly what it leaves behind. */
module RosterLaws {
  import opened Wrappers
  import opened Roster

  predicate IsSeated(s: Db, d: DepartmentId, m: MemberId) {
    Seat(m, d) in s.roster && !s.roster[Seat(m, d)].deleted
  }

  predicate IsLive(s: Db, d: DepartmentId) {
    d in s.departments && !s.departments[d].deleted
  }

  /** Only the member's seat in the department is written. */
  ghost predicate OnlySeat(s: Db, d: DepartmentId, m: MemberId, t: Db) {
    Seat(m, d) in t.roster && t.roster == s.roster[Seat(m, d) := t.roster[Seat(m, d)]]
  }

  /** Only the member's worker record and flag are written. */
  ghost predicate OnlyWorker(s: Db, m: MemberId, t: Db) {
    && m in t.workers && t.workers == s.workers[m := t.workers[m]]
    && m in t.isWorker && t.isWorker == s.isWorker[m := t.isWorker[m]]
  }

  ghost predicate SameWorkers(s: Db, t: Db) {
    t.workers == s.workers && t.isWorker == s.isWorker
  }

  /** A member is added once per department, in the role asked for; an active one becomes a live worker there. */
  lemma AddMemberLaw(s: Db, d: DepartmentId, m: MemberId, role: Role, status: Option<Status>)
    ensures var r := AddMemberEffect(s, d, m, role, status);
      var active := status == None || status == Some(ACTIVE);
      && (r.error.None? <==> Seat(m, d) !in s.roster && d in s.departments && m in s.isWorker)
      && (r.error == Some(Conflict) <==> Seat(m, d) in s.roster)
      && (r.error.Some? ==> r.db == s)
      && (r.error.None? ==>
            && OnlySeat(s, d, m, r.db) && r.db.departments == s.departments
            && r.db.roster[Seat(m, d)].role == role && !r.db.roster[Seat(m, d)].deleted
            && (r.db.roster[Seat(m, d)].status == ACTIVE <==> active)
            && (status.Some? ==> r.db.roster[Seat(m, d)].status == status.value)
            && (active ==> OnlyWorker(s, m, r.db) && Serves(r.db, m, d))
            && (!active ==> SameWorkers(s, r.db)))
  {
  }

  /** Role and status change to what is given and stay otherwise; the worker follows as WorkerFollowed says. */
  lemma UpdateAssignmentLaw(s: Db, d: DepartmentId, m: MemberId, role: Option<Role>, status: Option<Status>)
    ensures var r := UpdateAssignmentEffect(s, d, m, role, status);
      && (r.error.None? <==> IsSeated(s, d, m))
      && (r.error.Some? ==> r == Effect(s, Some(NotFound)))
      && (r.error.None? ==>
            var before, after := s.roster[Seat(m, d)], r.db.roster[Seat(m, d)];
            && OnlySeat(s, d, m, r.db) && r.db.departments == s.departments && !after.deleted
            && (role.Some? ==> after.role == role.value) && (role.None? ==> after.role == before.role)
            && (status.Some? ==> after.status == status.value) && (status.None? ==> after.status == before.status)
            && (SameWorkers(s, r.db) || OnlyWorker(s, m, r.db)))
  {
  }

  /** A worker's flag goes with a deactivation and comes with a reactivation, which also undeletes; the home stays. */
  lemma UpdateAssignmentFlags(s: Db, d: DepartmentId, m: MemberId, role: Option<Role>, status: Option<Status>)
    requires Inv(s) && IsSeated(s, d, m) && AtHome(s, m, d)
    ensures var t := UpdateAssignmentEffect(s, d, m, role, status).db;
      var before := s.workers[m];
      var stops := StatusChanges(s, d, m, status) && status != Some(ACTIVE) && before.active;
      var starts := StatusChanges(s, d, m, status) && status == Some(ACTIVE) && !before.active;
      && m in t.workers && m in t.isWorker && t.workers[m].department == before.department
      && (t.workers[m].active <==> starts || (before.active && !stops))
      && (t.workers[m].deleted <==> before.deleted && !starts)
      && (t.isWorker[m] <==> starts || (s.isWorker[m] && !stops))
  {
  }

  /** The seat is emptied and keeps what it said; nothing else changes, workers included. */
  lemma RemoveMemberLaw(s: Db, d: DepartmentId, m: MemberId)
    ensures var r := RemoveMemberEffect(s, d, m);
      && (r.error.None? <==> IsSeated(s, d, m))
      && (r.error.Some? ==> r == Effect(s, Some(NotFound)))
      && (r.error.None? ==>
            && OnlySeat(s, d, m, r.db) && r.db.roster[Seat(m, d)] == s.roster[Seat(m, d)].(deleted := true)
            && r.db.departments == s.departments && SameWorkers(s, r.db))
  {
  }

  /** All seats of a removed department are emptied, its live workers stop, and everything else is as it was. */
  lemma RemoveDepartmentLaw(s: Db, d: DepartmentId)
    ensures var r := RemoveDepartmentEffect(s, d);
      && (r.error.None? <==> IsLive(s, d))
      && (r.error.Some? ==> r == Effect(s, Some(NotFound)))
      && (r.error.None? ==>
            && r.db.departments == s.departments[d := s.departments[d].(deleted := true)]
            && r.db.isWorker == s.isWorker && r.db.roster.Keys == s.roster.Keys && r.db.workers.Keys == s.workers.Keys
            && (forall seat :: seat in s.roster ==>
                  var row := s.roster[seat];
                  r.db.roster[seat] == (if seat.department == d then row.(deleted := true) else row))
            && (forall m :: m in s.workers ==>
                  var stops := AtHome(s, m, d) && !s.workers[m].deleted;
                  r.db.workers[m] == (if stops then s.workers[m].(active := false) else s.workers[m])))
  {
  }

  /** Only an active seated member of a live department is made its leader, and recorded as such. */
  lemma AssignLeaderLaw(s: Db, d: DepartmentId, m: MemberId)
    ensures var r := AssignLeaderEffect(s, d, m);
      && (r.error.None? <==> IsLive(s, d) && IsSeated(s, d, m) && s.roster[Seat(m, d)].status == ACTIVE)
      && (r.error == Some(NotFound) <==> !IsLive(s, d))
      && (r.error.Some? ==> r.db == s)
      && (r.error.None? ==>
            && r.db.departments == s.departments[d := s.departments[d].(leader := Some(m))]
            && SameWorkers(s, r.db) && r.db.roster.Keys == s.roster.Keys
            && r.db.roster[Seat(m, d)] == s.roster[Seat(m, d)].(role := LEADER)
            && forall seat :: seat in s.roster && seat != Seat(m, d) ==>
                 var row := s.roster[seat];
                 var recorded := s.departments[d].leader == Some(seat.member);
                 var replaced := seat.department == d && recorded && row.role == LEADER;
                 r.db.roster[seat] == (if replaced then row.(role := MEMBER) else row))
  {
  }

  /** The backfill looks at active undeleted rows whose member has no undeleted worker. */
  lemma ToBackfillLaw(s: Db, seat: Seat)
    ensures seat in ToBackfill(s) <==>
      && seat in s.roster && s.roster[seat].status == ACTIVE && !s.roster[seat].deleted
      && !(seat.member in s.workers && !s.workers[seat.member].deleted)
  {
  }
}
