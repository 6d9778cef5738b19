/**
 One broadcast: every recipient on every channel. What the channels and the log table answer is a World;
 a failed delivery is caught and counted, and only a failure log that cannot be written ends the loop.
 */
module Broadcasting {
  datatype Channel = EMAIL | SMS | PUSH | WHATSAPP | IN_APP

  /**
   Whether the channel accepts the message, and whether either log entry can be written. SMS and WhatsApp
   write their own entries; own says of each whether it reports success.
   */
  datatype Attempt = Attempt(delivered: bool, logged: bool, failureLogged: bool, own: seq<bool>)

  /** The answers for recipient r on channel k, and to the final update of the row. */
  datatype World = World(attempt: (nat, nat) -> Attempt, finalWrite: bool)

  datatype Delivery = Delivery(channel: Channel, attempt: Attempt)

  datatype Log = Log(channel: Channel, success: bool)

  /** SMS and WhatsApp write their own logs. */
  predicate IsLogged(c: Channel) {
    c != SMS && c != WHATSAPP
  }

  /** Counted as successful: accepted, and its log entry written. There is no channel behind IN_APP. */
  predicate Succeeds(d: Delivery) {
    d.channel != IN_APP && d.attempt.delivered && (IsLogged(d.channel) ==> d.attempt.logged)
  }

  /** The failure log is written outside the delivery's own catch. */
  predicate Crashes(d: Delivery) {
    !Succeeds(d) && IsLogged(d.channel) && !d.attempt.failureLogged
  }

  function OwnLogs(d: Delivery): (logs: seq<Log>)
    ensures |logs| == |d.attempt.own|
  {
    seq(|d.attempt.own|, i requires 0 <= i < |d.attempt.own| => Log(d.channel, d.attempt.own[i]))
  }

  function LogOf(d: Delivery): seq<Log> {
    if !IsLogged(d.channel) then OwnLogs(d) else if Crashes(d) then [] else [Log(d.channel, Succeeds(d))]
  }

  predicate Clean(ds: seq<Delivery>) {
    forall d :: d in ds ==> !Crashes(d)
  }

  function ToRecipient(channels: seq<Channel>, world: World, r: nat): (ds: seq<Delivery>)
    ensures |ds| == |channels|
  {
    seq(|channels|, k requires 0 <= k < |channels| => Delivery(channels[k], world.attempt(r, k)))
  }

  /** All deliveries in the order in which they are tried. */
  function Deliveries(recipients: nat, channels: seq<Channel>, world: World): seq<Delivery> {
    if recipients == 0 then []
    else Deliveries(recipients - 1, channels, world) + ToRecipient(channels, world, recipients - 1)
  }

  /** The deliveries up to the first that crashes, that one included. */
  function UntilCrash(ds: seq<Delivery>): seq<Delivery> {
    if ds == [] || Clean(ds[..|ds| - 1]) then ds else UntilCrash(ds[..|ds| - 1])
  }

  function Successes(ds: seq<Delivery>): nat {
    if ds == [] then 0 else Successes(ds[..|ds| - 1]) + if Succeeds(ds[|ds| - 1]) then 1 else 0
  }

  function Failures(ds: seq<Delivery>): nat {
    if ds == [] then 0 else Failures(ds[..|ds| - 1]) + if Succeeds(ds[|ds| - 1]) then 0 else 1
  }

  function Logs(ds: seq<Delivery>): seq<Log> {
    if ds == [] then [] else Logs(ds[..|ds| - 1]) + LogOf(ds[|ds| - 1])
  }

  /** One delivery with its catch: whether it ends the loop, whether it is counted as successful, and what it logs. */
  method Deliver(d: Delivery) returns (crashed: bool, succeeded: bool, logs: seq<Log>)
    ensures crashed == Crashes(d) && succeeded == Succeeds(d) && logs == LogOf(d)
  {
    crashed, logs := false, if IsLogged(d.channel) then [] else OwnLogs(d);
    succeeded := d.channel != IN_APP && d.attempt.delivered;
    if succeeded && IsLogged(d.channel) {
      if d.attempt.logged {
        logs := logs + [Log(d.channel, true)];
      } else {
        succeeded := false;
      }
    }
    if !succeeded && IsLogged(d.channel) {
      if d.attempt.failureLogged {
        logs := logs + [Log(d.channel, false)];
      } else {
        crashed := true;
      }
    }
  }

  method DeliverAll(recipients: nat, channels: seq<Channel>, world: World)
    returns (crashed: bool, successful: nat, failed: nat, logs: seq<Log>)
    ensures crashed <==> !Clean(Deliveries(recipients, channels, world))
    ensures var tried := UntilCrash(Deliveries(recipients, channels, world));
      successful == Successes(tried) && failed == Failures(tried) && logs == Logs(tried)
  {
    hide Clean, UntilCrash, Deliveries, Succeeds, Crashes, LogOf;
    crashed, successful, failed, logs := false, 0, 0, [];
    ghost var tried := [];
    NothingTried(recipients, channels, world);
    for r := 0 to recipients
      invariant Clean(tried) && tried == Deliveries(r, channels, world)
      invariant successful == Successes(tried) && failed == Failures(tried) && logs == Logs(tried)
    {
      ghost var before := tried;
      for k := 0 to |channels|
        invariant Clean(tried) && tried == before + ToRecipient(channels, world, r)[..k]
        invariant successful == Successes(tried) && failed == Failures(tried) && logs == Logs(tried)
      {
        var d := Delivery(channels[k], world.attempt(r, k));
        ghost var done := tried;
        tried := tried + [d];
        assert tried[..|done|] == done;
        var over, succeeded, entries := Deliver(d);
        logs := logs + entries;
        if succeeded {
          successful := successful + 1;
        } else {
          failed := failed + 1;
        }
        if over {
          var rest := StillToCome(recipients, channels, world, r, k);
          CrashEnds(done, d, rest);
          return true, successful, failed, logs;
        }
        OneMoreClean(done, d);
      }
      RecipientDone(channels, world, r);
    }
    CleanIsAll(tried);
  }

  lemma NothingTried(recipients: nat, channels: seq<Channel>, world: World)
    ensures Clean([]) && Deliveries(0, channels, world) == []
  {
  }

  lemma OneMoreClean(done: seq<Delivery>, d: Delivery)
    requires Clean(done) && !Crashes(d)
    ensures Clean(done + [d])
  {
  }

  lemma RecipientDone(channels: seq<Channel>, world: World, r: nat)
    ensures Deliveries(r + 1, channels, world)
         == Deliveries(r, channels, world) + ToRecipient(channels, world, r)[..|channels|]
  {
    assert ToRecipient(channels, world, r)[..|channels|] == ToRecipient(channels, world, r);
  }

  /** What would have followed delivery k of recipient r. */
  lemma {:induction false} StillToCome(recipients: nat, channels: seq<Channel>, world: World, r: nat, k: nat)
    returns (rest: seq<Delivery>)
    requires r < recipients && k < |channels|
    ensures Deliveries(recipients, channels, world)
         == Deliveries(r, channels, world) + ToRecipient(channels, world, r)[..k]
            + [Delivery(channels[k], world.attempt(r, k))] + rest
  {
    if r == recipients - 1 {
      var row := ToRecipient(channels, world, r);
      rest := row[k + 1..];
      assert row == row[..k] + [row[k]] + rest;
    } else {
      var first := StillToCome(recipients - 1, channels, world, r, k);
      rest := first + ToRecipient(channels, world, recipients - 1);
    }
  }

  lemma {:induction false} CrashEnds(done: seq<Delivery>, d: Delivery, rest: seq<Delivery>)
    requires Clean(done) && Crashes(d)
    ensures !Clean(done + [d] + rest) && UntilCrash(done + [d] + rest) == done + [d]
    decreases |rest|
  {
    var all := done + [d] + rest;
    assert all[|done|] in all;
    if rest == [] {
      assert all[..|all| - 1] == done && all == done + [d];
    } else {
      CrashEnds(done, d, rest[..|rest| - 1]);
      assert all[..|all| - 1] == done + [d] + rest[..|rest| - 1];
    }
  }

  lemma CleanIsAll(ds: seq<Delivery>)
    requires Clean(ds)
    ensures UntilCrash(ds) == ds
  {
    assert ds == [] || forall d :: d in ds[..|ds| - 1] ==> d in ds;
  }

  // ---------- What a broadcast promises ----------

  /** Delivery k of recipient r crashes. */
  ghost predicate CrashesAt(channels: seq<Channel>, world: World, r: nat, k: nat) {
    k < |channels| && Crashes(Delivery(channels[k], world.attempt(r, k)))
  }

  lemma RecipientCleanIff(channels: seq<Channel>, world: World, r: nat)
    ensures Clean(ToRecipient(channels, world, r)) <==> forall k: nat :: !CrashesAt(channels, world, r, k)
  {
    var ds := ToRecipient(channels, world, r);
    forall k: nat | k < |channels| ensures ds[k] in ds && (CrashesAt(channels, world, r, k) <==> Crashes(ds[k])) {
    }
  }

  lemma {:induction false} CleanIff(recipients: nat, channels: seq<Channel>, world: World)
    ensures Clean(Deliveries(recipients, channels, world)) <==>
      forall r: nat, k: nat :: r < recipients ==> !CrashesAt(channels, world, r, k)
  {
    if recipients > 0 {
      var n := recipients - 1;
      CleanIff(n, channels, world);
      RecipientCleanIff(channels, world, n);
      var before, last := Deliveries(n, channels, world), ToRecipient(channels, world, n);
      assert forall d :: d in before + last <==> d in before || d in last;
      assert Clean(before + last) <==> Clean(before) && Clean(last);
      hide CrashesAt, Clean;
    }
  }

  lemma {:induction false} AllCounted(ds: seq<Delivery>)
    ensures Successes(ds) + Failures(ds) == |ds|
  {
    if ds != [] {
      AllCounted(ds[..|ds| - 1]);
    }
  }

  lemma {:induction false} DeliveryCount(recipients: nat, channels: seq<Channel>, world: World)
    ensures |Deliveries(recipients, channels, world)| == recipients * |channels|
  {
    if recipients > 0 {
      DeliveryCount(recipients - 1, channels, world);
      assert recipients * |channels| == (recipients - 1) * |channels| + |channels|;
    }
  }

  /** A broadcast that runs through counts every recipient on every channel once. */
  lemma CompletedCounts(recipients: nat, channels: seq<Channel>, world: World)
    requires forall r: nat, k: nat :: r < recipients ==> !CrashesAt(channels, world, r, k)
    ensures var tried := UntilCrash(Deliveries(recipients, channels, world));
      Successes(tried) + Failures(tried) == recipients * |channels|
  {
    CleanIff(recipients, channels, world);
    CleanIsAll(Deliveries(recipients, channels, world));
    AllCounted(Deliveries(recipients, channels, world));
    DeliveryCount(recipients, channels, world);
  }

  /** The last delivery that was tried is the only one that can have crashed. */
  lemma {:induction false} CrashIsLast(ds: seq<Delivery>)
    ensures UntilCrash(ds) <= ds
    ensures Clean(ds) <==> UntilCrash(ds) == ds && (ds == [] || !Crashes(ds[|ds| - 1]))
    ensures !Clean(ds) ==>
      var tried := UntilCrash(ds);
      tried != [] && Clean(tried[..|tried| - 1]) && Crashes(tried[|tried| - 1])
  {
    if ds != [] {
      var init, last := ds[..|ds| - 1], ds[|ds| - 1];
      assert ds == init + [last];
      assert Clean(ds) <==> Clean(init) && !Crashes(last);
      if !Clean(init) {
        CrashIsLast(init);
      }
    }
  }

  /** Each delivery on a logged channel leaves one entry, and the other channels write their own. */
  lemma {:induction false} OneLogEach(ds: seq<Delivery>)
    requires Clean(ds)
    ensures |Logs(ds)| == Entries(ds)
  {
    if ds != [] {
      var init, last := ds[..|ds| - 1], ds[|ds| - 1];
      assert last in ds;
      OneLogEach(init);
    }
  }

  function Entries(ds: seq<Delivery>): nat {
    if ds == [] then 0
    else
      var last := ds[|ds| - 1];
      Entries(ds[..|ds| - 1]) + if IsLogged(last.channel) then 1 else |last.attempt.own|
  }

  predicate HasFailure(logs: seq<Log>) {
    exists l :: l in logs && !l.success
  }

  /** The delivery leaves a failure entry. */
  predicate LeavesFailure(d: Delivery) {
    if IsLogged(d.channel) then !Succeeds(d) && d.attempt.failureLogged else false in d.attempt.own
  }

  lemma LogOfFailure(d: Delivery)
    ensures HasFailure(LogOf(d)) <==> LeavesFailure(d)
  {
    if IsLogged(d.channel) {
      if !Crashes(d) {
        assert LogOf(d)[0] in LogOf(d);
      }
    } else if false in d.attempt.own {
      var i :| 0 <= i < |d.attempt.own| && !d.attempt.own[i];
      assert OwnLogs(d)[i] in LogOf(d);
    }
  }

  /** There is a failure entry exactly when some delivery left one. */
  lemma {:induction false} FailureLogIff(ds: seq<Delivery>)
    ensures HasFailure(Logs(ds)) <==> exists d :: d in ds && LeavesFailure(d)
  {
    if ds != [] {
      var init, last := ds[..|ds| - 1], ds[|ds| - 1];
      FailureLogIff(init);
      LogOfFailure(last);
      hide LeavesFailure, LogOf;
      assert forall d :: d in ds <==> d in init || d == last;
      assert forall l :: l in Logs(ds) <==> l in Logs(init) || l in LogOf(last);
    }
  }
}
