/** Weekly attendance: check-ins grouped by the Monday that starts their week, the latest weeks kept. */
module WeeklyAttendance {
  import opened Sequences
  import opened Sums

  /** A local moment: whole days since Thursday 1 January 1970, and the time of day. */
  datatype Moment = Moment(day: int, millisecond: nat)

  datatype Week = Week(position: nat, weekStart: Moment, count: nat)

  const DAY_MS := 86_400_000

  function GetTime(m: Moment): int {
    m.day * DAY_MS + m.millisecond
  }

  /** The day of the week, 0 for Sunday. */
  function GetDay(m: Moment): int {
    (m.day + 4) % 7
  }

  predicate IsMonday(day: int) {
    (day + 4) % 7 == 1
  }

  function WeekStart(m: Moment): Moment {
    var day := GetDay(m);
    var diffToMonday := if day == 0 then -6 else 1 - day;
    Moment(m.day + diffToMonday, 0)
  }

  /** The day lies in the seven days from monday on. */
  predicate InWeek(m: Moment, monday: int) {
    monday <= m.day < monday + 7
  }

  /** Midnight of the one Monday whose seven days hold the moment. */
  lemma WeekStartIsMonday(m: Moment, monday: int)
    ensures WeekStart(m).millisecond == 0 && IsMonday(WeekStart(m).day)
    ensures IsMonday(monday) ==> (InWeek(m, monday) <==> monday == WeekStart(m).day)
  {
  }

  // ---------- The buckets ----------

  /** The weeks of the records, each once, as they are first met. */
  function FirstSeen(records: seq<Moment>): seq<Moment> {
    if records == [] then []
    else
      var seen := FirstSeen(records[..|records| - 1]);
      var week := WeekStart(records[|records| - 1]);
      if week in seen then seen else seen + [week]
  }

  function CountIn(records: seq<Moment>, week: Moment): nat {
    if records == [] then 0
    else CountIn(records[..|records| - 1], week) + if WeekStart(records[|records| - 1]) == week then 1 else 0
  }

  // ---------- Sorting and slicing ----------

  function Insert(s: seq<Moment>, m: Moment): seq<Moment> {
    if s == [] then [m]
    else if GetTime(m) < GetTime(s[0]) then [m] + s
    else [s[0]] + Insert(s[1..], m)
  }

  function Sort(s: seq<Moment>): seq<Moment> {
    if s == [] then [] else Insert(Sort(s[..|s| - 1]), s[|s| - 1])
  }

  /** Where slice starts: a negative argument counts from the end. */
  function SliceStart(length: nat, start: int): (k: nat)
    ensures k <= length
  {
    if start < 0 then if length + start < 0 then 0 else length + start
    else if start < length then start else length
  }

  function Numbered(weeks: seq<Moment>, records: seq<Moment>): seq<Week> {
    seq(|weeks|, i requires 0 <= i < |weeks| => Week(i + 1, weeks[i], CountIn(records, weeks[i])))
  }

  /** The weeks that have records, in order. */
  function Timeline(records: seq<Moment>): seq<Moment> {
    Sort(FirstSeen(records))
  }

  function Report(records: seq<Moment>, weeks: int): seq<Week> {
    var sorted := Timeline(records);
    Numbered(sorted[SliceStart(|sorted|, -weeks)..], records)
  }

  method GetWeeklyAttendance(records: seq<Moment>, weeks: int) returns (report: seq<Week>)
    ensures report == Report(records, weeks)
  {
    var buckets: map<Moment, nat>, keys := map[], [];
    ghost var counted := [];
    for n := 0 to |records|
      invariant counted == records[..n]
      invariant keys == FirstSeen(counted)
      invariant forall w :: w in buckets <==> w in keys
      invariant forall w :: w in buckets ==> buckets[w] == CountIn(counted, w)
      invariant forall w :: w !in keys ==> CountIn(counted, w) == 0
    {
      var key := WeekStart(records[n]);
      counted := counted + [records[n]];
      assert counted[..n] == records[..n];
      if key in buckets {
        buckets := buckets[key := buckets[key] + 1];
      } else {
        buckets, keys := buckets[key := 1], keys + [key];
      }
    }
    assert counted == records;
    var sorted := Sort(keys);
    SortPermutes(keys);
    var recent := sorted[SliceStart(|sorted|, -weeks)..];
    assert forall w :: w in recent ==> w in sorted;
    report := seq(|recent|, i requires 0 <= i < |recent| =>
                  assert recent[i] in recent; Week(i + 1, recent[i], buckets[recent[i]]));
  }

  lemma {:induction false} InsertPermutes(s: seq<Moment>, m: Moment)
    ensures multiset(Insert(s, m)) == multiset(s) + multiset{m}
  {
    if s != [] && GetTime(m) >= GetTime(s[0]) {
      InsertPermutes(s[1..], m);
      assert s == [s[0]] + s[1..];
    }
  }

  lemma {:induction false} SortPermutes(s: seq<Moment>)
    ensures multiset(Sort(s)) == multiset(s)
    ensures forall m :: m in Sort(s) <==> m in s
  {
    if s != [] {
      var n := |s| - 1;
      SortPermutes(s[..n]);
      InsertPermutes(Sort(s[..n]), s[n]);
      assert s == s[..n] + [s[n]];
    }
    assert forall m :: m in Sort(s) <==> m in multiset(Sort(s));
    assert forall m :: m in s <==> m in multiset(s);
  }

  // ---------- What the buckets are ----------

  predicate Ascending(s: seq<Moment>) {
    forall i, j :: 0 <= i < j < |s| ==> GetTime(s[i]) < GetTime(s[j])
  }

  predicate AreMondays(s: seq<Moment>) {
    forall m :: m in s ==> m.millisecond == 0 && IsMonday(m.day)
  }

  lemma {:induction false} FirstSeenWeeks(records: seq<Moment>)
    ensures Distinct(FirstSeen(records)) && AreMondays(FirstSeen(records))
    ensures forall w :: w in FirstSeen(records) <==> w in set r | r in records :: WeekStart(r)
  {
    if records != [] {
      var n := |records| - 1;
      FirstSeenWeeks(records[..n]);
      WeekStartIsMonday(records[n], 0);
      assert records == records[..n] + [records[n]];
    }
  }

  lemma {:induction false} InsertAscends(s: seq<Moment>, m: Moment)
    requires Ascending(s) && forall x :: x in s ==> GetTime(x) != GetTime(m)
    ensures Ascending(Insert(s, m))
  {
    if s != [] && GetTime(m) >= GetTime(s[0]) {
      InsertAscends(s[1..], m);
      InsertPermutes(s[1..], m);
      var rest := Insert(s[1..], m);
      forall i | 0 <= i < |rest| ensures GetTime(s[0]) < GetTime(rest[i]) {
        assert rest[i] in multiset(rest);
        assert rest[i] == m || rest[i] in s[1..];
      }
    }
  }

  lemma {:induction false} SortAscends(s: seq<Moment>)
    requires Distinct(s) && AreMondays(s)
    ensures Ascending(Sort(s))
  {
    if s != [] {
      var n := |s| - 1;
      SortAscends(s[..n]);
      SortPermutes(s[..n]);
      forall x | x in Sort(s[..n]) ensures GetTime(x) != GetTime(s[n]) {
        assert s[n] in s && x != s[n];
      }
      InsertAscends(Sort(s[..n]), s[n]);
    }
  }

  lemma TimelineWeeks(records: seq<Moment>)
    ensures Ascending(Timeline(records)) && AreMondays(Timeline(records))
    ensures forall w :: w in Timeline(records) <==> w in set r | r in records :: WeekStart(r)
  {
    FirstSeenWeeks(records);
    SortPermutes(FirstSeen(records));
    SortAscends(FirstSeen(records));
  }

  ghost function WeekMembers(records: seq<Moment>, monday: int): set<nat> {
    set i | 0 <= i < |records| && InWeek(records[i], monday)
  }

  lemma {:induction false} CountsMembers(records: seq<Moment>, week: Moment)
    requires week.millisecond == 0 && IsMonday(week.day)
    ensures CountIn(records, week) == |WeekMembers(records, week.day)|
  {
    if records != [] {
      var n := |records| - 1;
      CountsMembers(records[..n], week);
      WeekStartIsMonday(records[n], week.day);
      var before, after := WeekMembers(records[..n], week.day), WeekMembers(records, week.day);
      assert after == if InWeek(records[n], week.day) then before + {n} else before;
    }
  }

  // ---------- Theorems ----------

  /** A reported week starts on a Monday at midnight and counts exactly the records of its seven days. */
  lemma ReportCounts(records: seq<Moment>, weeks: int, k: nat)
    requires k < |Report(records, weeks)|
    ensures var week := Report(records, weeks)[k];
      && week.position == k + 1 && week.weekStart.millisecond == 0 && IsMonday(week.weekStart.day)
      && week.count == |WeekMembers(records, week.weekStart.day)| > 0
  {
    var week := Report(records, weeks)[k];
    TimelineWeeks(records);
    assert week.weekStart in Timeline(records);
    CountsMembers(records, week.weekStart);
    var r :| r in records && WeekStart(r) == week.weekStart;
    var i :| 0 <= i < |records| && records[i] == r;
    WeekStartIsMonday(r, week.weekStart.day);
    assert i in WeekMembers(records, week.weekStart.day);
  }

  lemma ReportAscends(records: seq<Moment>, weeks: int, j: nat, k: nat)
    requires j < k < |Report(records, weeks)|
    ensures Report(records, weeks)[j].weekStart.day < Report(records, weeks)[k].weekStart.day
  {
    TimelineWeeks(records);
    var kept := Timeline(records)[SliceStart(|Timeline(records)|, -weeks)..];
    assert kept[j] in Timeline(records) && kept[k] in Timeline(records);
  }

  ghost predicate IsReported(report: seq<Week>, r: Moment) {
    exists k :: 0 <= k < |report| && InWeek(r, report[k].weekStart.day)
  }

  /** A record that is not counted lies before every week that is. */
  lemma LatestKept(records: seq<Moment>, weeks: int, r: Moment, k: nat)
    requires r in records && k < |Report(records, weeks)|
    ensures IsReported(Report(records, weeks), r) || r.day < Report(records, weeks)[k].weekStart.day
  {
    TimelineWeeks(records);
    var line := Timeline(records);
    var start := SliceStart(|line|, -weeks);
    assert WeekStart(r) in line;
    var i :| 0 <= i < |line| && line[i] == WeekStart(r);
    WeekStartIsMonday(r, line[i].day);
    if i >= start {
      assert InWeek(r, Report(records, weeks)[i - start].weekStart.day);
    } else {
      assert line[start + k] in line && GetTime(line[i]) < GetTime(line[start + k]);
      WeekStartIsMonday(r, line[start + k].day);
    }
  }

  function Counts(report: seq<Week>): seq<nat> {
    seq(|report|, i requires 0 <= i < |report| => report[i].count)
  }

  ghost function Reported(records: seq<Moment>, report: seq<Week>): set<nat> {
    set i | 0 <= i < |records| && IsReported(report, records[i])
  }

  ghost function Dropped(records: seq<Moment>, report: seq<Week>): set<nat> {
    set i | 0 <= i < |records| && !IsReported(report, records[i])
  }

  ghost predicate CountsDisjointWeeks(records: seq<Moment>, report: seq<Week>) {
    && (forall k :: 0 <= k < |report| ==>
          IsMonday(report[k].weekStart.day) && report[k].count == |WeekMembers(records, report[k].weekStart.day)|)
    && forall j, k :: 0 <= j < k < |report| ==> report[j].weekStart.day < report[k].weekStart.day
  }

  /** The last week of a report holds what the earlier ones do not. */
  lemma LastWeekAdds(report: seq<Week>, m: Moment)
    requires report != [] && forall k :: 0 <= k < |report| ==> IsMonday(report[k].weekStart.day)
    requires forall j, k :: 0 <= j < k < |report| ==> report[j].weekStart.day < report[k].weekStart.day
    ensures var n := |report| - 1;
      && (IsReported(report, m) <==> IsReported(report[..n], m) || InWeek(m, report[n].weekStart.day))
      && !(IsReported(report[..n], m) && InWeek(m, report[n].weekStart.day))
  {
    hide IsMonday, WeekStart, InWeek;
    var n := |report| - 1;
    WeekStartIsMonday(m, report[n].weekStart.day);
    if IsReported(report[..n], m) {
      var k :| 0 <= k < n && InWeek(m, report[..n][k].weekStart.day);
      WeekStartIsMonday(m, report[k].weekStart.day);
      assert InWeek(m, report[k].weekStart.day);
    }
    if IsReported(report, m) {
      var k :| 0 <= k < |report| && InWeek(m, report[k].weekStart.day);
      if k < n {
        assert InWeek(m, report[..n][k].weekStart.day);
      }
    }
  }

  lemma {:induction false} CountsAddUp(records: seq<Moment>, report: seq<Week>)
    requires CountsDisjointWeeks(records, report)
    ensures SumSeq(Counts(report)) == |Reported(records, report)|
  {
    if report == [] {
      assert Reported(records, report) == {};
    } else {
      var n := |report| - 1;
      var init, last := report[..n], WeekMembers(records, report[n].weekStart.day);
      CountsAddUp(records, init);
      assert Counts(report)[..n] == Counts(init);
      forall i | 0 <= i < |records|
        ensures IsReported(report, records[i]) <==> IsReported(init, records[i]) || i in last
        ensures !(IsReported(init, records[i]) && i in last)
      {
        LastWeekAdds(report, records[i]);
      }
      hide IsReported, InWeek;
      assert Reported(records, report) == Reported(records, init) + last;
    }
  }

  lemma ReportCountsDisjointWeeks(records: seq<Moment>, weeks: int)
    ensures CountsDisjointWeeks(records, Report(records, weeks))
  {
    hide Report, WeekMembers, IsMonday;
    var report := Report(records, weeks);
    forall k | 0 <= k < |report|
      ensures IsMonday(report[k].weekStart.day) && report[k].count == |WeekMembers(records, report[k].weekStart.day)|
    {
      ReportCounts(records, weeks, k);
    }
    forall j, k | 0 <= j < k < |report| ensures report[j].weekStart.day < report[k].weekStart.day {
      ReportAscends(records, weeks, j, k);
    }
  }

  /** The reported counts and the records outside every reported week add up to all the records. */
  lemma ReportConserves(records: seq<Moment>, weeks: int)
    ensures SumSeq(Counts(Report(records, weeks))) + |Dropped(records, Report(records, weeks))| == |records|
  {
    hide Report, IsReported, CountsDisjointWeeks, Counts;
    var report := Report(records, weeks);
    ReportCountsDisjointWeeks(records, weeks);
    CountsAddUp(records, report);
    assert Reported(records, report) + Dropped(records, report) == Indices(|records|);
  }

  ghost function Indices(n: nat): (all: set<nat>)
    ensures |all| == n && forall i :: i in all <==> 0 <= i < n
  {
    if n == 0 then {} else Indices(n - 1) + {n - 1}
  }

  lemma {:induction false} DistinctCount(s: seq<Moment>)
    requires Distinct(s)
    ensures |set m | m in s| == |s|
  {
    if s != [] {
      var n := |s| - 1;
      DistinctCount(s[..n]);
      assert (set m | m in s) == (set m | m in s[..n]) + {s[n]};
    }
  }

  /** At most the requested number of weeks, and fewer only when there are no more; zero weeks gives all of them. */
  lemma ReportLength(records: seq<Moment>, weeks: int)
    ensures var n := |set r | r in records :: WeekStart(r)|;
      |Report(records, weeks)| ==
        if weeks == 0 || n < weeks then n else if weeks > 0 then weeks else if n + weeks < 0 then 0 else n + weeks
    ensures |Report(records, weeks)| <= weeks <==> weeks >= 1 || (weeks == 0 && records == [])
  {
    TimelineWeeks(records);
    DistinctCount(Timeline(records));
    assert (set m | m in Timeline(records)) == set r | r in records :: WeekStart(r);
    if records != [] {
      assert WeekStart(records[0]) in Timeline(records);
    }
  }

  lemma EmptyTogether(a: seq<Moment>, b: seq<Moment>)
    requires forall m :: m in a <==> m in b
    ensures a == [] <==> b == []
  {
    if a != [] {
      assert a[0] in b;
    }
    if b != [] {
      assert b[0] in a;
    }
  }

  lemma {:induction false} AscendingUnique(a: seq<Moment>, b: seq<Moment>)
    requires Ascending(a) && Ascending(b) && forall m :: m in a <==> m in b
    ensures a == b
  {
    EmptyTogether(a, b);
    if a != [] {
      assert a[0] in b && b[0] in a;
      assert a[0] == b[0];
      assert a == [a[0]] + a[1..] && b == [b[0]] + b[1..];
      forall m ensures m in a[1..] <==> m in b[1..] {
        assert m in a <==> m == a[0] || m in a[1..];
        assert m in b <==> m == b[0] || m in b[1..];
      }
      AscendingUnique(a[1..], b[1..]);
    }
  }

  lemma {:induction false} CountIgnoresOrder(a: seq<Moment>, b: seq<Moment>, week: Moment)
    requires multiset(a) == multiset(b)
    ensures CountIn(a, week) == CountIn(b, week)
    decreases |a|
  {
    SameMembers(a, b);
    if a != [] {
      var k := MatchLast(a, b);
      CountIgnoresOrder(a[..|a| - 1], Without(b, k), week);
      CountSkips(b, k, week);
    }
  }

  lemma {:induction false} CountSkips(b: seq<Moment>, i: nat, week: Moment)
    requires i < |b|
    ensures CountIn(b, week) == CountIn(Without(b, i), week) + if WeekStart(b[i]) == week then 1 else 0
  {
    var n := |b| - 1;
    var rest := Without(b, i);
    if i == n {
      assert rest == b[..n];
    } else {
      CountSkips(b[..n], i, week);
      assert Without(b[..n], i) == rest[..n - 1];
    }
  }

  /** The database may return the records in any order. */
  lemma ReportIgnoresOrder(a: seq<Moment>, b: seq<Moment>, weeks: int)
    requires multiset(a) == multiset(b)
    ensures Report(a, weeks) == Report(b, weeks)
  {
    TimelineWeeks(a);
    TimelineWeeks(b);
    SameMembers(a, b);
    AscendingUnique(Timeline(a), Timeline(b));
    forall w ensures CountIn(a, w) == CountIn(b, w) {
      CountIgnoresOrder(a, b, w);
    }
  }
}
