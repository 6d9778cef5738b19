/** What callers of the communication services rely on: when a call is refused, and exactly what it leaves behind. */
module CommunicationLaws {
  import opened Wrappers
  import opened Broadcasting
  import opened Communications

  /** Only this row is written. */
  ghost predicate OnlyRow(s: Db, id: Id, t: Db) {
    id in t.rows && t.rows == s.rows[id := t.rows[id]] && t.next == s.next
  }

  /** Only a row under the next identifier is added. */
  ghost predicate NewRowOnly(s: Db, t: Db) {
    s.next in t.rows && t.rows == s.rows[s.next := t.rows[s.next]] && t.next == s.next + 1
  }

  /** The row's own job is this one, or none, and the others are as before. */
  ghost predicate JobIs(s: Db, id: Id, at: Option<int>, t: Db) {
    && (forall i :: i != id ==> (i in t.jobs <==> i in s.jobs) && (i in s.jobs ==> t.jobs[i] == s.jobs[i]))
    && (at == if id in t.jobs then Some(t.jobs[id]) else None)
  }

  /** A title is in use while an undeleted row has it. */
  ghost predicate InUse(s: Db, title: string) {
    exists id :: id in s.rows && s.rows[id].title == title && !s.rows[id].deleted
  }

  lemma CreateLaw(s: Db, title: string, at: Option<int>, recipients: nat)
    requires Inv(s)
    ensures var r := CreateEffect(s, title, at, recipients);
      && (r.error.None? <==> !InUse(s, title))
      && (r.error.Some? ==> r == Effect(s, Some(Conflict)))
      && (r.error.None? ==>
            var row := r.db.rows[s.next];
            && NewRowOnly(s, r.db) && JobIs(s, s.next, at, r.db)
            && row.title == title && row.scheduledAt == at && row.recipients == recipients && row.channels == []
            && row.logs == [] && !row.deleted && !row.archived
            && (at.Some? ==> row.status == SCHEDULED) && (at.None? ==> row.status == DRAFT))
  {
    hide JobsAgree, RowsHaveJobs;
    assert s.next !in s.rows;
    NoJobYet(s);
  }

  /** Title and time change to what is given, the time possibly to none, and stay otherwise; so does everything else. */
  lemma UpdateLaw(s: Db, id: Id, title: Change<string>, at: Change<Option<int>>)
    requires Inv(s)
    ensures var r := UpdateEffect(s, id, title, at);
      && (r.error.None? <==> id in s.rows)
      && (r.error.Some? ==> r == Effect(s, Some(NotFound)))
      && (r.error.None? ==>
            var before, after := s.rows[id], r.db.rows[id];
            && OnlyRow(s, id, r.db) && after == before.(title := after.title, scheduledAt := after.scheduledAt)
            && (title.Set? ==> after.title == title.value) && (title.Keep? ==> after.title == before.title)
            && (at.Set? ==> after.scheduledAt == at.value) && (at.Keep? ==> after.scheduledAt == before.scheduledAt)
            && JobIs(s, id, if before.status == SCHEDULED then after.scheduledAt else None, r.db))
  {
  }

  /** Removal deletes and cancels; only those two columns change. */
  lemma RemoveLaw(s: Db, id: Id)
    ensures var r := RemoveEffect(s, id);
      && (r.error.None? <==> id in s.rows)
      && (r.error.Some? ==> r == Effect(s, Some(NotFound)))
      && (r.error.None? ==>
            && OnlyRow(s, id, r.db) && JobIs(s, id, None, r.db)
            && r.db.rows[id] == s.rows[id].(deleted := true, status := CANCELLED))
  {
  }

  lemma RestoreLaw(s: Db, id: Id)
    ensures var r := RestoreEffect(s, id);
      && (r.error.None? <==> id in s.rows)
      && (r.error.Some? ==> r == Effect(s, Some(Internal)))
      && (r.error.None? ==>
            OnlyRow(s, id, r.db) && r.db.jobs == s.jobs && r.db.rows[id] == s.rows[id].(deleted := false))
  {
  }

  lemma ArchiveLaw(s: Db, id: Id)
    ensures var r := ArchiveEffect(s, id);
      && (r.error.None? <==> id in s.rows)
      && (r.error.Some? ==> r == Effect(s, Some(NotFound)))
      && (r.error.None? ==>
            && OnlyRow(s, id, r.db) && JobIs(s, id, None, r.db)
            && r.db.rows[id] == s.rows[id].(archived := true))
  {
  }

  /** The copy has the title marked, the recipients, and nothing else of the original. */
  lemma DuplicateLaw(s: Db, id: Id)
    requires Inv(s)
    ensures var r := DuplicateEffect(s, id);
      && (r.error.None? <==> id in s.rows)
      && (r.error.Some? ==> r == Effect(s, Some(NotFound)))
      && (r.error.None? ==>
            var row := r.db.rows[s.next];
            && NewRowOnly(s, r.db) && r.db.jobs == s.jobs
            && row.title == s.rows[id].title + " (Copy)" && row.recipients == s.rows[id].recipients
            && row.status == DRAFT && row.scheduledAt == None && !row.deleted && !row.archived
            && row.channels == [] && row.logs == [])
  {
    hide JobsAgree, RowsHaveJobs;
    assert s.next !in s.rows;
  }

  /** A manual send goes out for every row that is not sent; it succeeds when the broadcast completes. */
  lemma SendLaw(s: Db, id: Id, world: World)
    ensures var r := SendEffect(s, id, world);
      && (r.error == Some(NotFound) <==> id !in s.rows)
      && (r.error == Some(Conflict) <==> id in s.rows && s.rows[id].status == SENT)
      && (r.error == Some(NotFound) || r.error == Some(Conflict) ==> r.db == s)
      && (r.error != Some(NotFound) && r.error != Some(Conflict) ==>
            && OnlyRow(s, id, r.db) && JobIs(s, id, None, r.db)
            && (r.error.None? <==> r.db.rows[id].status == SENT) && (r.error.Some? <==> r.db.rows[id].status == FAILED)
            && r.error != Some(BadRequest) && s.rows[id].logs <= r.db.rows[id].logs
            && r.db.rows[id] == s.rows[id].(status := r.db.rows[id].status, logs := r.db.rows[id].logs))
  {
    hide Completes, Tried;
  }

  /** The mail for a blog post is a row of its own on the email channel, and ends as its broadcast does. */
  lemma MailPostLaw(s: Db, title: string, recipients: nat, world: World)
    requires Inv(s)
    ensures var t := MailPostEffect(s, title, recipients, world);
      var row := t.rows[s.next];
      && NewRowOnly(s, t) && t.jobs == s.jobs
      && row.title == "New Blog Post: " + title && row.recipients == recipients && row.channels == [EMAIL]
      && row.scheduledAt == None && !row.deleted && !row.archived
      && (row.status == FAILED <==>
            !world.finalWrite || exists r: nat, k: nat :: r < recipients && CrashesAt([EMAIL], world, r, k))
      && (row.status != FAILED ==> row.status == SENT)
  {
    hide JobsAgree, RowsHaveJobs, CrashesAt, Clean, Deliveries, Tried;
    assert s.next !in s.rows;
    CleanIff(recipients, [EMAIL], world);
  }

  /** A row with a time that is not sent becomes scheduled at that time. */
  lemma ScheduleLaw(s: Db, id: Id)
    ensures var r := ScheduleEffect(s, id);
      && (r.error.None? <==> id in s.rows && s.rows[id].status != SENT && s.rows[id].scheduledAt.Some?)
      && (r.error == Some(NotFound) <==> id !in s.rows)
      && (r.error.Some? ==> r.db == s)
      && (r.error.None? ==>
            && OnlyRow(s, id, r.db) && JobIs(s, id, s.rows[id].scheduledAt, r.db)
            && r.db.rows[id] == s.rows[id].(status := SCHEDULED))
  {
  }

  /** Only a scheduled row is cancelled; it is a draft again and keeps its time. */
  lemma CancelLaw(s: Db, id: Id)
    ensures var r := CancelEffect(s, id);
      && (r.error.None? <==> id in s.rows && s.rows[id].status == SCHEDULED)
      && (r.error == Some(NotFound) <==> id !in s.rows)
      && (r.error.Some? ==> r.db == s)
      && (r.error.None? ==>
            && OnlyRow(s, id, r.db) && JobIs(s, id, None, r.db)
            && r.db.rows[id] == s.rows[id].(status := DRAFT))
  {
  }

  /** The poller and the retry write to the rows they pick and to no other; the poller also drops their jobs. */
  lemma BatchLaw(s: Db, now: int, worlds: Id -> World, id: Id)
    requires id in s.rows
    ensures var polled, retried, row := PollEffect(s, now, worlds), RetryEffect(s, worlds), s.rows[id];
      var due := row.status == SCHEDULED && row.scheduledAt.Some? && row.scheduledAt.value <= now && !row.deleted;
      && id in polled.rows && id in retried.rows && polled.next == retried.next == s.next && retried.jobs == s.jobs
      && (!due ==> polled.rows[id] == row && (id in polled.jobs <==> id in s.jobs))
      && (due ==>
            && polled.rows[id] == row.(status := polled.rows[id].status, logs := polled.rows[id].logs)
            && (polled.rows[id].status == SENT || polled.rows[id].status == FAILED) && id !in polled.jobs)
      && (row.status != FAILED || row.deleted ==> retried.rows[id] == row)
      && retried.rows[id] == row.(status := retried.rows[id].status, logs := retried.rows[id].logs)
  {
    hide Completes, Tried, HasFailure;
  }

  // ---------- Deliveries, channel by channel ----------

  /**
   A delivery counts as successful when the channel accepts it and, for email and push, the entry can be written;
   nothing is delivered in the app. It ends the loop when it fails and, other than for SMS and WhatsApp, that
   cannot be logged.
   */
  lemma DeliveryLaw(d: Delivery)
    ensures Succeeds(d) <==>
      match d.channel
      case EMAIL => d.attempt.delivered && d.attempt.logged
      case PUSH => d.attempt.delivered && d.attempt.logged
      case SMS => d.attempt.delivered
      case WHATSAPP => d.attempt.delivered
      case IN_APP => false
    ensures Crashes(d) <==>
      match d.channel
      case EMAIL => !(d.attempt.delivered && d.attempt.logged) && !d.attempt.failureLogged
      case PUSH => !(d.attempt.delivered && d.attempt.logged) && !d.attempt.failureLogged
      case SMS => false
      case WHATSAPP => false
      case IN_APP => !d.attempt.failureLogged
    ensures LeavesFailure(d) <==>
      match d.channel
      case EMAIL => !(d.attempt.delivered && d.attempt.logged) && d.attempt.failureLogged
      case PUSH => !(d.attempt.delivered && d.attempt.logged) && d.attempt.failureLogged
      case SMS => exists i :: 0 <= i < |d.attempt.own| && !d.attempt.own[i]
      case WHATSAPP => exists i :: 0 <= i < |d.attempt.own| && !d.attempt.own[i]
      case IN_APP => d.attempt.failureLogged
  {
  }

  /** The delivery to recipient r on channel k is tried with that recipient's and that channel's answer. */
  lemma {:induction false} DeliveryAt(recipients: nat, channels: seq<Channel>, world: World, r: nat, k: nat)
    requires r < recipients && k < |channels|
    ensures |Deliveries(recipients, channels, world)| == recipients * |channels|
    ensures r * |channels| + k < |Deliveries(recipients, channels, world)|
    ensures Deliveries(recipients, channels, world)[r * |channels| + k] == Delivery(channels[k], world.attempt(r, k))
  {
    DeliveryCount(recipients, channels, world);
    var n, width := recipients - 1, |channels|;
    DeliveryCount(n, channels, world);
    assert recipients * width == n * width + width;
    if r < n {
      DeliveryAt(n, channels, world, r, k);
    }
  }
}
