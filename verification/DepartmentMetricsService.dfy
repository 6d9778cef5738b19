/**
 The service itself: tables as fields, one method per operation. Each method is proved to take
 the step that DepartmentMetrics.Step allows, and to report the verdict.
 */
module DepartmentMetricsService {
  import opened Wrappers
  import opened DepartmentMetrics
  import opened DepartmentMetricsTheorems
  import Text
  import Sums

  // ---------- Step 1: resolve each item to a question ----------

  /** Questions are only added: unused, under fresh identifiers, with texts nobody had. */
  ghost predicate Added(bank0: map<QuestionId, Question>, start: QuestionId, items: seq<Item>,
                        bank: map<QuestionId, Question>, next: QuestionId) {
    && (forall q :: q in bank0 ==> q in bank && bank[q] == bank0[q])
    && (forall q :: q in bank && q !in bank0 ==>
          start <= q < next && bank[q].usageCount == 0 && bank[q].text in NewTexts(items))
    && UniqueTexts(bank)
    && start <= next
    && (bank.Keys == bank0.Keys ==> next == start)
  }

  /** The assignment names a question that reads as the item does, at the item's weight. */
  ghost predicate Fits(bank0: map<QuestionId, Question>, m: Item, mode: WeightingMode,
                       bank: map<QuestionId, Question>, a: Assignment) {
    && a.question in bank
    && Text.Lower(bank[a.question].text) == Key(bank0, m)
    && a.weight == if mode == CUSTOM then Weight(m) else 0
  }

  ghost predicate Planned(bank0: map<QuestionId, Question>, items: seq<Item>, mode: WeightingMode,
                          bank: map<QuestionId, Question>, plan: seq<Assignment>) {
    && |plan| <= |items|
    && (forall i :: 0 <= i < |plan| ==> Fits(bank0, items[i], mode, bank, plan[i]))
    && (forall i, j :: 0 <= i < j < |plan| ==> plan[i].question != plan[j].question)
  }

  /** findFirst over the bank, case-insensitively. */
  method FindByText(bank: map<QuestionId, Question>, text: string) returns (r: Option<QuestionId>)
    ensures r.Some? ==> r.value in bank && Text.Lower(bank[r.value].text) == Text.Lower(text)
    ensures r.None? ==> forall q :: q in bank ==> Text.Lower(bank[q].text) != Text.Lower(text)
    ensures r.Some? ==> Text.SameUpToCase(bank[r.value].text, text)
    ensures r.None? ==> forall q :: q in bank ==> !Text.SameUpToCase(bank[q].text, text)
  {
    forall q | q in bank
      ensures Text.Lower(bank[q].text) == Text.Lower(text) <==> Text.SameUpToCase(bank[q].text, text)
    {
      Text.LowerDecidesCase(bank[q].text, text);
    }
    if q :| q in bank && Text.Lower(bank[q].text) == Text.Lower(text) {
      r := Some(q);
    } else {
      r := None;
    }
  }

  lemma AddQuestion(bank0: map<QuestionId, Question>, start: QuestionId, items: seq<Item>,
                    bank: map<QuestionId, Question>, next: QuestionId, m: Item)
    requires Added(bank0, start, items, bank, next) && next !in bank0
    requires m in items && m.questionId.None? && HasText(m)
    requires forall q :: q in bank ==> Text.Lower(bank[q].text) != Text.Lower(Text.Normalise(m.questionText.value))
    ensures next !in bank
    ensures Added(bank0, start, items, bank[next := Question(Text.Normalise(m.questionText.value), 0)], next + 1)
  {
  }

  /** One item: the question it names, which is created when its text is new. */
  method ResolveItem(ghost bank0: map<QuestionId, Question>, ghost start: QuestionId, ghost items: seq<Item>, m: Item,
                     bank: map<QuestionId, Question>, next: QuestionId)
    returns (r: Option<QuestionId>, bank': map<QuestionId, Question>, next': QuestionId)
    requires m in items && !Malformed(m)
    requires Added(bank0, start, items, bank, next) && Above(items) <= start
    requires forall q :: q in bank0 ==> q < start
    ensures r.None? <==> m.questionId.Some? && m.questionId.value !in bank0
    ensures Added(bank0, start, items, bank', next')
    ensures UniqueTexts(bank')
    ensures forall q :: q in bank ==> q in bank' && bank'[q] == bank[q]
    ensures r.Some? ==> r.value in bank' && Text.Lower(bank'[r.value].text) == Key(bank0, m)
  {
    bank', next' := bank, next;
    if m.questionId.Some? {
      if m.questionId.value in bank {
        r := m.questionId;
      } else {
        r := None;
      }
    } else {
      var text := Text.Normalise(m.questionText.value);
      r := FindByText(bank, text);
      if r.None? {
        AddQuestion(bank0, start, items, bank, next, m);
        bank' := bank[next := Question(text, 0)];
        next' := next + 1;
        r := Some(next);
      }
    }
  }

  method Resolve(s: Db, mode: WeightingMode, items: seq<Item>)
    returns (r: Result<(), Error>, bank: map<QuestionId, Question>, next: QuestionId,
             plan: seq<Assignment>, seen: set<QuestionId>)
    requires UniqueTexts(s.questions) && forall q :: q in s.questions ==> q < s.nextQuestion
    requires forall i :: 0 <= i < |items| ==> !Malformed(items[i])
    requires mode == CUSTOM ==> forall i :: 0 <= i < |items| ==> items[i].weight.Some?
    ensures FirstProblem(s.questions, items, |items|) == match r case Ok(_) => None case Err(e) => Some(e)
    ensures r.Ok? ==>
      && Added(s.questions, Max(s.nextQuestion, Above(items)), items, bank, next)
      && |plan| == |items| && Planned(s.questions, items, mode, bank, plan) && seen == PlanMap(plan).Keys
  {
    hide Added, UniqueTexts, Malformed, Key, Fits, Above, NewTexts, PlanMap, ItemProblem;
    bank, next, plan, seen := s.questions, Max(s.nextQuestion, Above(items)), [], {};
    ghost var start := next;
    NothingResolved(s, items);
    for i := 0 to |items|
      invariant Added(s.questions, start, items, bank, next)
      invariant |plan| == i && Planned(s.questions, items, mode, bank, plan) && seen == PlanMap(plan).Keys
      invariant FirstProblem(s.questions, items, i).None?
    {
      var m := items[i];
      ghost var before := bank;
      var q;
      q, bank, next := ResolveItem(s.questions, start, items, m, bank, next);
      if q.None? {
        GoneProblem(s.questions, items, i);
        FirstProblemStays(s.questions, items, i + 1, |items|);
        return Err(QuestionGone), bank, next, plan, seen;
      }
      PlanStays(s.questions, items, mode, before, bank, plan);
      if q.value in seen {
        SeenClashes(s.questions, items, mode, bank, plan, q.value);
        FirstProblemStays(s.questions, items, i + 1, |items|);
        return Err(DuplicateQuestion), bank, next, plan, seen;
      }
      UnseenIsNew(s.questions, items, mode, bank, plan, q.value);
      var a := Assignment(q.value, if mode == CUSTOM then m.weight.value else 0);
      AssignmentFits(s.questions, m, mode, bank, a);
      PlanExtends(s.questions, items, mode, bank, plan, a);
      PlanMapExtends(plan, a);
      seen := seen + {q.value};
      plan := plan + [a];
    }
    r := Ok(());
  }

  lemma GoneProblem(bank0: map<QuestionId, Question>, items: seq<Item>, i: nat)
    requires i < |items| && items[i].questionId.Some? && items[i].questionId.value !in bank0
    ensures ItemProblem(bank0, items, i) == Some(QuestionGone)
  {
  }

  lemma NothingResolved(s: Db, items: seq<Item>)
    requires UniqueTexts(s.questions)
    ensures Added(s.questions, Max(s.nextQuestion, Above(items)), items, s.questions, Max(s.nextQuestion, Above(items)))
    ensures PlanMap([]) == map[]
  {
  }

  lemma PlanStays(bank0: map<QuestionId, Question>, items: seq<Item>, mode: WeightingMode,
                  before: map<QuestionId, Question>, bank: map<QuestionId, Question>, plan: seq<Assignment>)
    requires Planned(bank0, items, mode, before, plan)
    requires forall q :: q in before ==> q in bank && bank[q] == before[q]
    ensures Planned(bank0, items, mode, bank, plan)
  {
  }

  lemma PlanMapExtends(plan: seq<Assignment>, a: Assignment)
    ensures PlanMap(plan + [a]) == PlanMap(plan)[a.question := a.weight]
  {
    assert (plan + [a])[..|plan|] == plan;
  }

  lemma AssignmentFits(bank0: map<QuestionId, Question>, m: Item, mode: WeightingMode,
                       bank: map<QuestionId, Question>, a: Assignment)
    requires a.question in bank && Text.Lower(bank[a.question].text) == Key(bank0, m)
    requires if mode == CUSTOM then m.weight == Some(a.weight) else a.weight == 0
    ensures Fits(bank0, m, mode, bank, a)
  {
  }

  lemma PlanExtends(bank0: map<QuestionId, Question>, items: seq<Item>, mode: WeightingMode,
                    bank: map<QuestionId, Question>, plan: seq<Assignment>, a: Assignment)
    requires |plan| < |items| && Planned(bank0, items, mode, bank, plan)
    requires a.question !in PlanMap(plan) && Fits(bank0, items[|plan|], mode, bank, a)
    ensures Planned(bank0, items, mode, bank, plan + [a])
  {
    hide Fits, PlanMap;
    PlanMapReads(plan);
  }

  lemma SeenClashes(bank0: map<QuestionId, Question>, items: seq<Item>, mode: WeightingMode,
                    bank: map<QuestionId, Question>, plan: seq<Assignment>, q: QuestionId)
    requires |plan| < |items| && Planned(bank0, items, mode, bank, plan)
    requires q in PlanMap(plan) && q in bank && Text.Lower(bank[q].text) == Key(bank0, items[|plan|])
    requires !(items[|plan|].questionId.Some? && items[|plan|].questionId.value !in bank0)
    ensures ItemProblem(bank0, items, |plan|) == Some(DuplicateQuestion)
  {
    hide PlanMap, Key;
    PlanMapReads(plan);
    var j :| 0 <= j < |plan| && plan[j].question == q;
    assert Fits(bank0, items[j], mode, bank, plan[j]);
  }

  lemma UnseenIsNew(bank0: map<QuestionId, Question>, items: seq<Item>, mode: WeightingMode,
                    bank: map<QuestionId, Question>, plan: seq<Assignment>, q: QuestionId)
    requires |plan| < |items| && Planned(bank0, items, mode, bank, plan) && UniqueTexts(bank)
    requires q in bank && q !in PlanMap(plan) && Text.Lower(bank[q].text) == Key(bank0, items[|plan|])
    requires !(items[|plan|].questionId.Some? && items[|plan|].questionId.value !in bank0)
    ensures ItemProblem(bank0, items, |plan|).None?
  {
    hide PlanMap, Key;
    PlanMapReads(plan);
    forall j | 0 <= j < |plan|
      ensures Key(bank0, items[j]) != Key(bank0, items[|plan|])
    {
      assert Fits(bank0, items[j], mode, bank, plan[j]);
    }
  }

  // ---------- Step 2: drop what is no longer wanted ----------

  /** The rows of the department whose question was not asked for. */
  function Removed(metrics: map<Slot, MetricRow>, d: DepartmentId, seen: set<QuestionId>): (slots: set<Slot>)
    ensures forall slot :: slot in slots <==> slot in metrics && slot.department == d && slot.question !in seen
  {
    set slot | slot in metrics && slot.department == d && slot.question !in seen
  }

  /** updateMany with its usageCount > 0 guard. */
  function Decremented(bank: map<QuestionId, Question>, qs: set<QuestionId>): map<QuestionId, Question> {
    map q | q in bank ::
      if q in qs && bank[q].usageCount > 0 then bank[q].(usageCount := bank[q].usageCount - 1) else bank[q]
  }

  /** The unwanted rows are gone, with their ratings and one reference each. */
  ghost predicate Pruned(s: Db, d: DepartmentId, seen: set<QuestionId>, bank: map<QuestionId, Question>,
                         metrics: map<Slot, MetricRow>, entries: map<EntryKey, Rating>,
                         bank': map<QuestionId, Question>) {
    && (forall slot :: slot in metrics <==> slot in s.metrics && slot !in Removed(s.metrics, d, seen))
    && (forall slot :: slot in metrics ==> metrics[slot] == s.metrics[slot])
    && (forall k :: k in entries <==>
          k in s.entries && forall slot :: slot in Removed(s.metrics, d, seen) ==> s.metrics[slot].id != k.metric)
    && (forall k :: k in entries ==> entries[k] == s.entries[k])
    && bank'.Keys == bank.Keys
    && (forall q :: q in bank ==> bank'[q] == bank[q].(usageCount :=
          UsageAfter(bank[q].usageCount, Slot(d, q) in s.metrics && q !in seen, false)))
  }

  method DropRemoved(s: Db, d: DepartmentId, seen: set<QuestionId>, bank: map<QuestionId, Question>)
    returns (metrics: map<Slot, MetricRow>, entries: map<EntryKey, Rating>, bank': map<QuestionId, Question>)
    ensures Pruned(s, d, seen, bank, metrics, entries, bank')
  {
    metrics, entries, bank' := s.metrics, s.entries, bank;
    var removed := Removed(s.metrics, d, seen);
    if removed != {} {
      var ids := set slot | slot in removed :: s.metrics[slot].id;
      metrics := metrics - removed;
      entries := map k | k in entries && k.metric !in ids :: entries[k];
      bank' := Decremented(bank, set slot | slot in removed :: slot.question);
    }
    forall q | q in bank
      ensures q in (set slot | slot in removed :: slot.question) <==> Slot(d, q) in removed
    {
      if slot :| slot in removed && slot.question == q {
        assert slot == Slot(d, q);
      }
    }
  }

  // ---------- Step 3: write the wanted rows ----------

  /** The wanted questions have rows of the wanted weight; every other row is as it was. */
  ghost predicate WroteWeights(d: DepartmentId, wanted: map<QuestionId, nat>,
                               metrics0: map<Slot, MetricRow>, metrics: map<Slot, MetricRow>) {
    && (forall slot: Slot :: slot in metrics <==> slot in metrics0 || (slot.department == d && slot.question in wanted))
    && (forall slot :: slot in metrics0 ==> metrics[slot].id == metrics0[slot].id)
    && (forall slot :: slot in metrics0 && !(slot.department == d && slot.question in wanted) ==>
          metrics[slot] == metrics0[slot])
    && (forall q :: q in wanted ==> metrics[Slot(d, q)].weight == wanted[q])
  }

  /** New rows have fresh, distinct identifiers. */
  ghost predicate WroteIds(metrics0: map<Slot, MetricRow>, next0: MetricId,
                           metrics: map<Slot, MetricRow>, next: MetricId) {
    && (forall slot :: slot in metrics && slot !in metrics0 ==> next0 <= metrics[slot].id < next)
    && (forall a, b {:trigger metrics[a].id, metrics[b].id} |
          a in metrics && b in metrics && a !in metrics0 && b !in metrics0 ::
          metrics[a].id == metrics[b].id ==> a == b)
    && next0 <= next
    && ((forall slot :: slot in metrics ==> slot in metrics0) ==> next == next0)
  }

  /** Every new row counts once for its question. */
  ghost predicate WroteCounts(d: DepartmentId, metrics0: map<Slot, MetricRow>, bank0: map<QuestionId, Question>,
                              metrics: map<Slot, MetricRow>, bank: map<QuestionId, Question>) {
    && bank.Keys == bank0.Keys
    && (forall q :: q in bank ==> bank[q] == bank0[q].(usageCount :=
          bank0[q].usageCount + if Slot(d, q) in metrics && Slot(d, q) !in metrics0 then 1 else 0))
  }

  ghost predicate Wrote(d: DepartmentId, wanted: map<QuestionId, nat>,
                        metrics0: map<Slot, MetricRow>, bank0: map<QuestionId, Question>, next0: MetricId,
                        metrics: map<Slot, MetricRow>, bank: map<QuestionId, Question>, next: MetricId) {
    && WroteWeights(d, wanted, metrics0, metrics)
    && WroteIds(metrics0, next0, metrics, next)
    && WroteCounts(d, metrics0, bank0, metrics, bank)
  }

  lemma WroteNothing(d: DepartmentId, metrics0: map<Slot, MetricRow>, bank0: map<QuestionId, Question>, next0: MetricId)
    ensures Wrote(d, map[], metrics0, bank0, next0, metrics0, bank0, next0)
  {
  }

  lemma WroteKept(d: DepartmentId, wanted: map<QuestionId, nat>,
                  metrics0: map<Slot, MetricRow>, bank0: map<QuestionId, Question>, next0: MetricId,
                  metrics: map<Slot, MetricRow>, bank: map<QuestionId, Question>, next: MetricId, a: Assignment)
    requires Wrote(d, wanted, metrics0, bank0, next0, metrics, bank, next)
    requires a.question !in wanted && Slot(d, a.question) in metrics0
    ensures Slot(d, a.question) in metrics
    ensures Wrote(d, wanted[a.question := a.weight], metrics0, bank0, next0,
                  metrics[Slot(d, a.question) := metrics[Slot(d, a.question)].(weight := a.weight)], bank, next)
  {
  }

  lemma WroteNew(d: DepartmentId, wanted: map<QuestionId, nat>,
                 metrics0: map<Slot, MetricRow>, bank0: map<QuestionId, Question>, next0: MetricId,
                 metrics: map<Slot, MetricRow>, bank: map<QuestionId, Question>, next: MetricId, a: Assignment)
    requires Wrote(d, wanted, metrics0, bank0, next0, metrics, bank, next)
    requires a.question !in wanted && Slot(d, a.question) !in metrics0 && a.question in bank0
    ensures a.question in bank
    ensures Wrote(d, wanted[a.question := a.weight], metrics0, bank0, next0,
                  metrics[Slot(d, a.question) := MetricRow(next, a.weight)],
                  bank[a.question := bank[a.question].(usageCount := bank[a.question].usageCount + 1)], next + 1)
  {
    hide WroteIds, WroteCounts, WroteWeights;
    NewWeight(d, wanted, metrics0, metrics, a, next);
    NewId(metrics0, next0, metrics, next, Slot(d, a.question), a.weight);
    NewCount(d, metrics0, bank0, metrics, bank, a.question, MetricRow(next, a.weight));
  }

  lemma NewWeight(d: DepartmentId, wanted: map<QuestionId, nat>, metrics0: map<Slot, MetricRow>,
                  metrics: map<Slot, MetricRow>, a: Assignment, id: MetricId)
    requires WroteWeights(d, wanted, metrics0, metrics)
    requires a.question !in wanted && Slot(d, a.question) !in metrics0
    ensures Slot(d, a.question) !in metrics
    ensures WroteWeights(d, wanted[a.question := a.weight], metrics0,
                         metrics[Slot(d, a.question) := MetricRow(id, a.weight)])
  {
  }

  lemma NewId(metrics0: map<Slot, MetricRow>, next0: MetricId, metrics: map<Slot, MetricRow>, next: MetricId,
              slot: Slot, w: nat)
    requires WroteIds(metrics0, next0, metrics, next) && slot !in metrics && slot !in metrics0
    ensures WroteIds(metrics0, next0, metrics[slot := MetricRow(next, w)], next + 1)
  {
    assert slot in metrics[slot := MetricRow(next, w)];
  }

  lemma NewCount(d: DepartmentId, metrics0: map<Slot, MetricRow>, bank0: map<QuestionId, Question>,
                 metrics: map<Slot, MetricRow>, bank: map<QuestionId, Question>, q: QuestionId, row: MetricRow)
    requires WroteCounts(d, metrics0, bank0, metrics, bank)
    requires q in bank0 && Slot(d, q) !in metrics && Slot(d, q) !in metrics0
    ensures q in bank
    ensures WroteCounts(d, metrics0, bank0, metrics[Slot(d, q) := row],
                        bank[q := bank[q].(usageCount := bank[q].usageCount + 1)])
  {
  }

  /** Every assignment is to a known question, to each at most once, and the current ones have rows. */
  ghost predicate Writable(d: DepartmentId, plan: seq<Assignment>, currentIds: set<QuestionId>,
                           metrics0: map<Slot, MetricRow>, bank0: map<QuestionId, Question>) {
    && (forall i :: 0 <= i < |plan| ==> plan[i].question in bank0)
    && (forall i, j :: 0 <= i < j < |plan| ==> plan[i].question != plan[j].question)
    && (forall i :: 0 <= i < |plan| ==> (plan[i].question in currentIds <==> Slot(d, plan[i].question) in metrics0))
  }

  method WriteRows(d: DepartmentId, plan: seq<Assignment>, currentIds: set<QuestionId>,
                   metrics0: map<Slot, MetricRow>, bank0: map<QuestionId, Question>, next0: MetricId)
    returns (metrics: map<Slot, MetricRow>, bank: map<QuestionId, Question>, next: MetricId)
    requires Writable(d, plan, currentIds, metrics0, bank0)
    ensures Wrote(d, PlanMap(plan), metrics0, bank0, next0, metrics, bank, next)
  {
    hide Wrote, PlanMap, Writable;
    metrics, bank, next := metrics0, bank0, next0;
    ghost var wanted: map<QuestionId, nat> := map[];
    WroteNothing(d, metrics0, bank0, next0);
    NothingPlanned(plan);
    for i := 0 to |plan|
      invariant wanted == PlanMap(plan[..i])
      invariant Wrote(d, wanted, metrics0, bank0, next0, metrics, bank, next)
    {
      var a := plan[i];
      FreshInPrefix(d, plan, currentIds, metrics0, bank0, i);
      var slot := Slot(d, a.question);
      if a.question in currentIds {
        WroteKept(d, wanted, metrics0, bank0, next0, metrics, bank, next, a);
        metrics := metrics[slot := metrics[slot].(weight := a.weight)];
      } else {
        WroteNew(d, wanted, metrics0, bank0, next0, metrics, bank, next, a);
        metrics := metrics[slot := MetricRow(next, a.weight)];
        bank := bank[a.question := bank[a.question].(usageCount := bank[a.question].usageCount + 1)];
        next := next + 1;
      }
      wanted := wanted[a.question := a.weight];
    }
  }

  lemma NothingPlanned(plan: seq<Assignment>)
    ensures PlanMap(plan[..0]) == map[] && plan[..|plan|] == plan
  {
  }

  lemma FreshInPrefix(d: DepartmentId, plan: seq<Assignment>, currentIds: set<QuestionId>,
                      metrics0: map<Slot, MetricRow>, bank0: map<QuestionId, Question>, i: nat)
    requires i < |plan| && Writable(d, plan, currentIds, metrics0, bank0)
    ensures plan[i].question in bank0
    ensures plan[i].question in currentIds <==> Slot(d, plan[i].question) in metrics0
    ensures plan[i].question !in PlanMap(plan[..i])
    ensures PlanMap(plan[..i + 1]) == PlanMap(plan[..i])[plan[i].question := plan[i].weight]
  {
    PlanMapReads(plan[..i]);
    PlanMapExtends(plan[..i], plan[i]);
    assert plan[..i + 1] == plan[..i] + [plan[i]];
  }

  // ---------- Putting the steps together ----------

  lemma PlanIsRequested(bank0: map<QuestionId, Question>, items: seq<Item>, mode: WeightingMode,
                        bank: map<QuestionId, Question>, plan: seq<Assignment>)
    requires UniqueTexts(bank) && |plan| == |items| && Planned(bank0, items, mode, bank, plan)
    ensures AllHold(bank, Keys(bank0, items))
    ensures Plan(bank, Keys(bank0, items), Weights(mode, items)) == plan
  {
    var keys, ws := Keys(bank0, items), Weights(mode, items);
    forall i | 0 <= i < |keys|
      ensures Holds(bank, keys[i]) && Find(bank, keys[i]) == plan[i].question && ws[i] == plan[i].weight
    {
      assert Fits(bank0, items[i], mode, bank, plan[i]);
      var q := plan[i].question;
      assert Text.Lower(bank[q].text) == keys[i];
      var f := Find(bank, keys[i]);
      assert Text.Lower(bank[f].text) == Text.Lower(bank[q].text);
    }
  }

  /** After steps 2 and 3 the department's map is the plan. */
  lemma ViewIsPlan(s: Db, d: DepartmentId, wanted: map<QuestionId, nat>, metrics1: map<Slot, MetricRow>, s': Db)
    requires forall slot :: slot in metrics1 <==> slot in s.metrics && slot !in Removed(s.metrics, d, wanted.Keys)
    requires WroteWeights(d, wanted, metrics1, s'.metrics)
    ensures View(s', d) == wanted
    ensures forall slot: Slot :: slot in s'.metrics <==>
      if slot.department == d then slot.question in wanted else slot in s.metrics
  {
    forall slot: Slot
      ensures slot in s'.metrics <==> if slot.department == d then slot.question in wanted else slot in s.metrics
    {
    }
    forall q
      ensures q in View(s', d) <==> q in wanted
      ensures q in wanted ==> View(s', d)[q] == wanted[q]
    {
      assert Slot(d, q) in s'.metrics <==> q in wanted;
    }
  }

  lemma RowsAreKept(s: Db, d: DepartmentId, wanted: map<QuestionId, nat>, metrics1: map<Slot, MetricRow>, s': Db)
    requires forall slot :: slot in metrics1 <==> slot in s.metrics && slot !in Removed(s.metrics, d, wanted.Keys)
    requires forall slot :: slot in metrics1 ==> metrics1[slot] == s.metrics[slot]
    requires WroteWeights(d, wanted, metrics1, s'.metrics)
    requires WroteIds(metrics1, s.nextMetric, s'.metrics, s'.nextMetric)
    ensures RowsKept(s, d, s')
  {
    forall slot: Slot
      ensures slot in s'.metrics && slot in s.metrics ==> slot in metrics1
    {
    }
  }

  lemma EntriesAreKept(s: Db, d: DepartmentId, wanted: map<QuestionId, nat>, s': Db)
    requires forall slot: Slot :: slot in s'.metrics <==>
      if slot.department == d then slot.question in wanted else slot in s.metrics
    requires forall k :: k in s'.entries <==>
      k in s.entries && forall slot :: slot in Removed(s.metrics, d, wanted.Keys) ==> s.metrics[slot].id != k.metric
    requires forall k :: k in s'.entries ==> s'.entries[k] == s.entries[k]
    ensures EntriesKept(s, d, s')
  {
    forall k | k in s.entries
      ensures k in s'.entries <==> !Dropped(s, d, s', k)
    {
      if slot :| slot in Removed(s.metrics, d, wanted.Keys) && s.metrics[slot].id == k.metric {
        assert slot in s.metrics && slot.department == d && slot !in s'.metrics;
      }
    }
  }

  /** The bulk decrement followed by the increments moves each count as specified. */
  lemma UsageHasMoved(s: Db, d: DepartmentId, start: QuestionId, items: seq<Item>, next: QuestionId,
                      bank: map<QuestionId, Question>, bank1: map<QuestionId, Question>,
                      metrics1: map<Slot, MetricRow>, wanted: map<QuestionId, nat>, s': Db)
    requires Added(s.questions, start, items, bank, next)
    requires bank1.Keys == bank.Keys
    requires forall q :: q in bank ==> bank1[q] == bank[q].(usageCount :=
      UsageAfter(bank[q].usageCount, Slot(d, q) in s.metrics && q !in wanted, false))
    requires forall slot :: slot in metrics1 <==> slot in s.metrics && slot !in Removed(s.metrics, d, wanted.Keys)
    requires forall q :: Slot(d, q) in s'.metrics <==> q in wanted
    requires WroteCounts(d, metrics1, bank1, s'.metrics, s'.questions)
    ensures UsageMoves(s, d, s')
    ensures s'.questions.Keys == bank.Keys && forall q :: q in bank ==> s'.questions[q].text == bank[q].text
  {
  }

  lemma TextsDecideBank(s: Db, items: seq<Item>, bank: map<QuestionId, Question>, s': Db)
    requires Added(s.questions, Max(s.nextQuestion, Above(items)), items, bank, s'.nextQuestion)
    requires AllHold(bank, Keys(s.questions, items))
    requires s'.questions.Keys == bank.Keys && forall q :: q in bank ==> s'.questions[q].text == bank[q].text
    ensures BankGrows(s, items, s')
  {
    var keys := Keys(s.questions, items);
    forall i | 0 <= i < |keys|
      ensures Holds(s'.questions, keys[i])
    {
      assert Holds(bank, keys[i]);
      var q :| q in bank && Text.Lower(bank[q].text) == keys[i];
      assert Text.Lower(s'.questions[q].text) == keys[i];
    }
  }

  /** The plan can be written: its questions are known and distinct, and the kept ones still have rows. */
  lemma PlanIsWritable(s: Db, d: DepartmentId, mode: WeightingMode, items: seq<Item>, bank: map<QuestionId, Question>,
                       plan: seq<Assignment>, metrics1: map<Slot, MetricRow>, entries1: map<EntryKey, Rating>,
                       bank1: map<QuestionId, Question>)
    requires Planned(s.questions, items, mode, bank, plan)
    requires Pruned(s, d, PlanMap(plan).Keys, bank, metrics1, entries1, bank1)
    ensures Writable(d, plan, QuestionsOf(s.metrics, d), metrics1, bank1)
  {
    hide PlanMap;
    PlanMapReads(plan);
    forall i | 0 <= i < |plan|
      ensures plan[i].question in bank1
      ensures plan[i].question in QuestionsOf(s.metrics, d) <==> Slot(d, plan[i].question) in metrics1
    {
      assert Fits(s.questions, items[i], mode, bank, plan[i]);
    }
  }

  /** Steps 1 to 3 and the new mode make up an applied request. */
  lemma StepsApply(s: Db, d: DepartmentId, mode: WeightingMode, items: seq<Item>, bank: map<QuestionId, Question>,
                   plan: seq<Assignment>, metrics1: map<Slot, MetricRow>, bank1: map<QuestionId, Question>, s': Db)
    requires d in s.departments
    requires Added(s.questions, Max(s.nextQuestion, Above(items)), items, bank, s'.nextQuestion)
    requires |plan| == |items| && Planned(s.questions, items, mode, bank, plan)
    requires Pruned(s, d, PlanMap(plan).Keys, bank, metrics1, s'.entries, bank1)
    requires Wrote(d, PlanMap(plan), metrics1, bank1, s.nextMetric, s'.metrics, s'.questions, s'.nextMetric)
    requires s'.departments == s.departments[d := s.departments[d].(mode := mode)]
    ensures Applied(s, d, mode, items, s')
  {
    var wanted := PlanMap(plan);
    BankPart(s, d, mode, items, bank, plan, metrics1, bank1, s');
    RowsPart(s, d, wanted, bank, metrics1, bank1, s');
    hide PlanMap, Planned, Pruned, Wrote, Added, BankGrows, RowsKept, EntriesKept, UsageMoves, View;
  }

  lemma RowsPart(s: Db, d: DepartmentId, wanted: map<QuestionId, nat>, bank: map<QuestionId, Question>,
                 metrics1: map<Slot, MetricRow>, bank1: map<QuestionId, Question>, s': Db)
    requires Pruned(s, d, wanted.Keys, bank, metrics1, s'.entries, bank1)
    requires Wrote(d, wanted, metrics1, bank1, s.nextMetric, s'.metrics, s'.questions, s'.nextMetric)
    ensures View(s', d) == wanted && RowsKept(s, d, s') && EntriesKept(s, d, s')
    ensures forall q :: Slot(d, q) in s'.metrics <==> q in wanted
  {
    hide WroteWeights, WroteIds, WroteCounts, View, RowsKept, EntriesKept;
    ViewIsPlan(s, d, wanted, metrics1, s');
    RowsAreKept(s, d, wanted, metrics1, s');
    EntriesAreKept(s, d, wanted, s');
  }

  lemma BankPart(s: Db, d: DepartmentId, mode: WeightingMode, items: seq<Item>, bank: map<QuestionId, Question>,
                 plan: seq<Assignment>, metrics1: map<Slot, MetricRow>, bank1: map<QuestionId, Question>, s': Db)
    requires Added(s.questions, Max(s.nextQuestion, Above(items)), items, bank, s'.nextQuestion)
    requires |plan| == |items| && Planned(s.questions, items, mode, bank, plan)
    requires Pruned(s, d, PlanMap(plan).Keys, bank, metrics1, s'.entries, bank1)
    requires Wrote(d, PlanMap(plan), metrics1, bank1, s.nextMetric, s'.metrics, s'.questions, s'.nextMetric)
    ensures BankGrows(s, items, s') && UsageMoves(s, d, s')
    ensures Requested(s'.questions, Keys(s.questions, items), Weights(mode, items)) == PlanMap(plan)
  {
    hide WroteWeights, WroteIds, WroteCounts, BankGrows, UsageMoves, View, Fits, PlanMap, Weights, Keys, AllHold;
    RowsPart(s, d, PlanMap(plan), bank, metrics1, bank1, s');
    UsageHasMoved(s, d, Max(s.nextQuestion, Above(items)), items, s'.nextQuestion, bank, bank1, metrics1,
                 PlanMap(plan), s');
    PlanIsRequested(s.questions, items, mode, bank, plan);
    TextsDecideBank(s, items, bank, s');
    SameTextsSameRequest(bank, s'.questions, Keys(s.questions, items), Weights(mode, items));
  }

  // ---------- Recording ratings ----------

  /** The rows of the department among the given identifiers. */
  function RowsAmong(metrics: map<Slot, MetricRow>, d: DepartmentId, ids: set<MetricId>): (slots: set<Slot>)
    ensures forall slot :: slot in slots <==> slot in metrics && slot.department == d && metrics[slot].id in ids
  {
    set slot | slot in metrics && slot.department == d && metrics[slot].id in ids
  }

  lemma {:induction false} DistinctIdsCount(metrics: map<Slot, MetricRow>, slots: set<Slot>, ids: set<MetricId>)
    requires slots <= metrics.Keys && forall slot :: slot in slots ==> metrics[slot].id in ids
    requires forall a, b | a in slots && b in slots :: metrics[a].id == metrics[b].id ==> a == b
    ensures |slots| <= |ids|
    ensures |slots| == |ids| <==> forall m :: m in ids ==> exists slot :: slot in slots && metrics[slot].id == m
    decreases slots
  {
    if slot :| slot in slots {
      var m := metrics[slot].id;
      DistinctIdsCount(metrics, slots - {slot}, ids - {m});
      assert forall n :: n in ids && n != m ==> n in ids - {m};
    }
  }

  /** Counting the rows found is a sound check that every identifier belongs to the department. */
  lemma CountDecidesOwnership(s: Db, d: DepartmentId, list: seq<Entry>)
    requires RowsOk(s)
    ensures var ids := set e | e in list :: e.metric;
      |RowsAmong(s.metrics, d, ids)| == |ids| <==> AllOwned(s, d, list)
  {
    var ids := set e | e in list :: e.metric;
    var rows := RowsAmong(s.metrics, d, ids);
    DistinctIdsCount(s.metrics, rows, ids);
    if |rows| == |ids| {
      forall i | 0 <= i < |list|
        ensures Owns(s, d, list[i].metric)
      {
        assert list[i] in list && list[i].metric in ids;
      }
    }
    if AllOwned(s, d, list) {
      forall m | m in ids
        ensures exists slot :: slot in rows && s.metrics[slot].id == m
      {
        var e :| e in list && e.metric == m;
        var i :| 0 <= i < |list| && list[i] == e;
        assert Owns(s, d, list[i].metric);
      }
    }
  }

  lemma LastWinsStep(before: map<EntryKey, Rating>, d: DepartmentId, list: seq<Entry>, after: map<EntryKey, Rating>,
                     e: Entry)
    requires LastWins(before, d, list, after)
    ensures LastWins(before, d, list + [e], after[KeyOf(d, e) := e.rating])
  {
    var more, n := list + [e], |list|;
    assert more[n] == e;
    forall k
      ensures Mentions(d, more, k) <==> Mentions(d, list, k) || k == KeyOf(d, e)
    {
      if i :| 0 <= i < |list| && KeyOf(d, list[i]) == k {
        assert KeyOf(d, more[i]) == k;
      }
    }
    forall i | 0 <= i < |more| && IsLast(d, more, i)
      ensures KeyOf(d, more[i]) in after[KeyOf(d, e) := e.rating]
      ensures after[KeyOf(d, e) := e.rating][KeyOf(d, more[i])] == more[i].rating
    {
      if i < n {
        assert KeyOf(d, more[n]) != KeyOf(d, more[i]);
        assert IsLast(d, list, i) by {
          forall j | i < j < n ensures KeyOf(d, list[j]) != KeyOf(d, list[i]) {
            assert KeyOf(d, more[j]) != KeyOf(d, more[i]);
          }
        }
      }
    }
  }

  /** One upsert per rating, in the order given. */
  method UpsertAll(before: map<EntryKey, Rating>, d: DepartmentId, list: seq<Entry>)
    returns (after: map<EntryKey, Rating>)
    ensures LastWins(before, d, list, after)
  {
    hide LastWins;
    after := before;
    ghost var recorded: seq<Entry> := [];
    NothingRecorded(before, d);
    for i := 0 to |list|
      invariant recorded == list[..i] && LastWins(before, d, recorded, after)
    {
      LastWinsStep(before, d, recorded, after, list[i]);
      after := after[KeyOf(d, list[i]) := list[i].rating];
      recorded := recorded + [list[i]];
    }
    assert recorded == list;
  }

  // ---------- The service ----------

  class DepartmentsService {
    var departments: map<DepartmentId, Department>
    var questions: map<QuestionId, Question>
    var metrics: map<Slot, MetricRow>
    var entries: map<EntryKey, Rating>
    var nextQuestion: QuestionId
    var nextMetric: MetricId

    ghost function State(): Db
      reads this
    {
      Db(departments, questions, metrics, entries, nextQuestion, nextMetric)
    }

    ghost predicate Valid()
      reads this
    {
      Inv(State())
    }

    constructor ()
      ensures State() == EMPTY && Valid()
    {
      departments, questions, metrics, entries, nextQuestion, nextMetric := map[], map[], map[], map[], 0, 0;
      new;
      EmptyInv();
    }

    /** Everything up to the transaction: the checks that need no database rows but the department. */
    method CheckRequest(d: DepartmentId, mode: WeightingMode, items: seq<Item>) returns (r: Result<(), Error>)
      ensures r.Err? ==> Verdict(State(), d, mode, items) == Some(r.error)
      ensures r.Ok? ==>
        && d in departments
        && (forall i :: 0 <= i < |items| ==> !Malformed(items[i]))
        && (mode == CUSTOM ==> forall i :: 0 <= i < |items| ==> items[i].weight.Some?)
        && Verdict(State(), d, mode, items) == FirstProblem(questions, items, |items|)
    {
      hide FirstProblem, Malformed;
      if d !in departments || departments[d].deleted {
        return Err(DepartmentNotFound);
      }
      for i := 0 to |items|
        invariant forall j :: 0 <= j < i ==> !Malformed(items[j])
      {
        if Malformed(items[i]) {
          return Err(NeedsExactlyOne);
        }
      }
      if mode == CUSTOM {
        if exists i :: 0 <= i < |items| && items[i].weight.None? {
          return Err(WeightMissing);
        }
        var total := Sums.SumSeq(Weights(mode, items));
        if total != 100 {
          return Err(WrongTotal(total));
        }
      }
      r := Ok(());
    }

    /**
     Replaces the department's questions and weights. A refused request leaves every table as it was and
     reports the first reason; an accepted one is Applied.
     */
    method SetDepartmentMetrics(d: DepartmentId, mode: WeightingMode, items: seq<Item>) returns (r: Result<(), Error>)
      requires Valid()
      modifies this
      ensures Valid()
      ensures Verdict(old(State()), d, mode, items) == match r case Ok(_) => None case Err(e) => Some(e)
      ensures Step(old(State()), SetMetrics(d, mode, items), State())
    {
      hide Inv, FirstProblem, Malformed, Planned, PlanMap, Applied, Added, Pruned, Wrote, Writable, EMPTY;
      ghost var s := State();
      BankIsSound(s);
      var db := Db(departments, questions, metrics, entries, nextQuestion, nextMetric);
      r := CheckRequest(d, mode, items);
      if r.Err? {
        return;
      }
      var bank, next, plan, seen;
      r, bank, next, plan, seen := Resolve(db, mode, items);
      if r.Err? {
        return;
      }
      var currentIds := QuestionsOf(metrics, d);
      var rows, ratings, bank1 := DropRemoved(db, d, seen, bank);
      PlanIsWritable(s, d, mode, items, bank, plan, rows, ratings, bank1);
      var rows', bank', nextRow := WriteRows(d, plan, currentIds, rows, bank1, nextMetric);
      departments := departments[d := departments[d].(mode := mode)];
      questions, nextQuestion, metrics, nextMetric, entries := bank', next, rows', nextRow, ratings;
      StepsApply(s, d, mode, items, bank, plan, rows, bank1, State());
      StepKeepsInv(s, SetMetrics(d, mode, items), State());
    }

    /** Upserts the ratings in order, or refuses them all when one is for another department's question. */
    method RecordMetricEntries(d: DepartmentId, list: seq<Entry>) returns (r: Result<(), Error>)
      requires Valid()
      modifies this
      ensures Valid()
      ensures r == if AllOwned(old(State()), d, list) then Ok(()) else Err(ForeignMetric)
      ensures Step(old(State()), RecordEntries(d, list), State())
    {
      ghost var s := State();
      RowsAreSound(s);
      hide Inv, AllOwned, RowsOk, LastWins;
      CountDecidesOwnership(s, d, list);
      var ids := set e | e in list :: e.metric;
      if |RowsAmong(metrics, d, ids)| != |ids| {
        return Err(ForeignMetric);
      }
      entries := UpsertAll(entries, d, list);
      StepKeepsInv(s, RecordEntries(d, list), State());
      r := Ok(());
    }
  }

  lemma RowsAreSound(s: Db)
    requires Inv(s)
    ensures RowsOk(s)
  {
  }

  lemma NothingRecorded(table: map<EntryKey, Rating>, d: DepartmentId)
    ensures LastWins(table, d, [], table)
  {
  }

  lemma BankIsSound(s: Db)
    requires Inv(s)
    ensures UniqueTexts(s.questions) && forall q :: q in s.questions ==> q < s.nextQuestion
  {
  }
}
