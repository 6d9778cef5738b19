/** What every run of the performance configuration keeps, and what one call promises. */
module DepartmentMetricsTheorems {
  import opened Wrappers
  import opened DepartmentMetrics
  import opened Sequences
  import Text
  import Sums

  // ---------- Reading a verdict ----------

  lemma {:induction false} FirstProblemNone(bank: map<QuestionId, Question>, items: seq<Item>, n: nat)
    requires n <= |items|
    ensures FirstProblem(bank, items, n).None? <==> forall i :: 0 <= i < n ==> ItemProblem(bank, items, i).None?
  {
    hide ItemProblem;
    if n > 0 {
      FirstProblemNone(bank, items, n - 1);
    }
  }

  lemma {:induction false} FirstProblemStays(bank: map<QuestionId, Question>, items: seq<Item>, n: nat, m: nat)
    requires n <= m <= |items|
    requires FirstProblem(bank, items, n).Some?
    ensures FirstProblem(bank, items, m) == FirstProblem(bank, items, n)
  {
    hide ItemProblem;
    if n < m {
      FirstProblemStays(bank, items, n, m - 1);
    }
  }

  /**
   A request is accepted exactly when the department is there, every item names one known question
   or one text, custom weights are all present and total 100, and no two items read the same.
   */
  lemma AcceptedIff(s: Db, d: DepartmentId, mode: WeightingMode, items: seq<Item>)
    ensures Verdict(s, d, mode, items).None? <==>
      && d in s.departments && !s.departments[d].deleted
      && (forall i :: 0 <= i < |items| ==> !Malformed(items[i]))
      && (mode == CUSTOM ==> forall i :: 0 <= i < |items| ==> items[i].weight.Some?)
      && (mode == CUSTOM ==> Sums.SumSeq(Weights(mode, items)) == 100)
      && (forall i :: 0 <= i < |items| && items[i].questionId.Some? ==> items[i].questionId.value in s.questions)
      && (forall i, j :: 0 <= i < j < |items| ==> Key(s.questions, items[i]) != Key(s.questions, items[j]))
  {
    FirstProblemNone(s.questions, items, |items|);
    if FirstProblem(s.questions, items, |items|).None? {
      forall i, j | 0 <= i < j < |items|
        ensures Key(s.questions, items[i]) != Key(s.questions, items[j])
      {
        assert ItemProblem(s.questions, items, j).None?;
      }
      forall i | 0 <= i < |items| && items[i].questionId.Some?
        ensures items[i].questionId.value in s.questions
      {
        assert ItemProblem(s.questions, items, i).None?;
      }
    }
  }

  // ---------- Reading the requested map ----------

  lemma {:induction false} PlanMapReads(plan: seq<Assignment>)
    ensures forall q :: q in PlanMap(plan) <==> exists i :: 0 <= i < |plan| && plan[i].question == q
    ensures (forall i, j :: 0 <= i < j < |plan| ==> plan[i].question != plan[j].question) ==>
      forall i :: 0 <= i < |plan| ==>
        plan[i].question in PlanMap(plan) && PlanMap(plan)[plan[i].question] == plan[i].weight
  {
    if plan != [] {
      var n := |plan| - 1;
      PlanMapReads(plan[..n]);
      assert plan == plan[..n] + [plan[n]];
    }
  }

  lemma {:induction false} PlanMapSum(plan: seq<Assignment>, ws: seq<nat>)
    requires |ws| == |plan| && forall i :: 0 <= i < |plan| ==> ws[i] == plan[i].weight
    requires forall i, j :: 0 <= i < j < |plan| ==> plan[i].question != plan[j].question
    ensures Sums.SumMap(PlanMap(plan)) == Sums.SumSeq(ws)
    ensures |PlanMap(plan)| == |plan|
  {
    if plan != [] {
      var n := |plan| - 1;
      PlanMapSum(plan[..n], ws[..n]);
      PlanMapReads(plan[..n]);
      Sums.SumMapInsert(PlanMap(plan[..n]), plan[n].question, plan[n].weight);
    }
  }

  lemma PlanDistinct(bank: map<QuestionId, Question>, keys: seq<string>, weights: seq<nat>)
    requires |keys| == |weights| && AllHold(bank, keys) && Distinct(keys)
    ensures forall i, j :: 0 <= i < j < |keys| ==>
      Plan(bank, keys, weights)[i].question != Plan(bank, keys, weights)[j].question
  {
    var plan := Plan(bank, keys, weights);
    forall i, j | 0 <= i < j < |keys|
      ensures plan[i].question != plan[j].question
    {
      assert Holds(bank, keys[i]) && Holds(bank, keys[j]);
      assert keys[i] != keys[j];
    }
  }

  /** The requested map has one question per item, reading as the item reads and weighing what it weighs. */
  lemma RequestedReads(bank: map<QuestionId, Question>, keys: seq<string>, weights: seq<nat>)
    requires |keys| == |weights| && AllHold(bank, keys) && Distinct(keys)
    ensures forall i :: 0 <= i < |keys| ==> Reads(bank, keys[i], Requested(bank, keys, weights), weights[i])
    ensures forall q :: q in Requested(bank, keys, weights) ==> q in bank && Text.Lower(bank[q].text) in keys
    ensures |Requested(bank, keys, weights)| == |keys|
    ensures Sums.SumMap(Requested(bank, keys, weights)) == Sums.SumSeq(weights)
  {
    var plan := Plan(bank, keys, weights);
    PlanDistinct(bank, keys, weights);
    PlanMapReads(plan);
    PlanMapSum(plan, weights);
    forall i | 0 <= i < |keys|
      ensures Reads(bank, keys[i], Requested(bank, keys, weights), weights[i])
    {
      assert Holds(bank, keys[i]);
      assert plan[i].question in PlanMap(plan);
    }
    forall q | q in Requested(bank, keys, weights)
      ensures q in bank && Text.Lower(bank[q].text) in keys
    {
      var i :| 0 <= i < |plan| && plan[i].question == q;
      assert Holds(bank, keys[i]);
    }
  }

  /** A question of the view reads as the key, and weighs w. */
  ghost predicate Reads(bank: map<QuestionId, Question>, key: string, view: map<QuestionId, nat>, w: nat) {
    exists q :: q in bank && q in view && Text.Lower(bank[q].text) == key && view[q] == w
  }

  lemma AcceptedReads(s: Db, d: DepartmentId, mode: WeightingMode, items: seq<Item>)
    requires Verdict(s, d, mode, items).None?
    ensures d in s.departments
    ensures Distinct(Keys(s.questions, items))
    ensures mode == CUSTOM ==> Sums.SumSeq(Weights(mode, items)) == 100
    ensures forall i :: 0 <= i < |items| && items[i].questionId.Some? ==> items[i].questionId.value in s.questions
  {
    AcceptedIff(s, d, mode, items);
  }

  // ---------- Every invariant survives an accepted request ----------

  /** A referenced question has a positive count, so the guard on the bulk decrement never skips one. */
  lemma GuardNeverSkips(s: Db, slot: Slot)
    requires RefCounts(s) && slot in s.metrics
    ensures slot.question in s.questions && s.questions[slot.question].usageCount > 0
  {
    assert slot in RowsFor(s.metrics, slot.question);
  }

  lemma CardinalityMoves<T>(before: set<T>, after: set<T>, x: T)
    requires before - {x} == after - {x}
    ensures |after| == if x in before && x !in after then |before| - 1
                       else if x !in before && x in after then |before| + 1
                       else |before|
  {
    var rest := before - {x};
    if x in before {
      assert before == rest + {x};
    } else {
      assert before == rest;
    }
    if x in after {
      assert after == rest + {x};
    } else {
      assert after == rest;
    }
  }

  /** Reference counts are conserved across all departments. */
  lemma RefCountsKept(s: Db, d: DepartmentId, s': Db)
    requires RefCounts(s) && RowsKept(s, d, s') && UsageMoves(s, d, s')
    requires s.questions.Keys <= s'.questions.Keys
    requires forall q :: q in View(s', d) ==> q in s'.questions
    ensures RefCounts(s')
  {
    forall slot | slot in s'.metrics
      ensures slot.question in s'.questions
    {
      if slot.department == d {
        assert slot == Slot(d, slot.question);
        assert slot.question in View(s', d);
      }
    }
    forall q | q in s'.questions
      ensures s'.questions[q].usageCount == |RowsFor(s'.metrics, q)|
    {
      UsageMatches(s, d, s', q);
    }
  }

  lemma UsageMatches(s: Db, d: DepartmentId, s': Db, q: QuestionId)
    requires RefCounts(s) && UsageMoves(s, d, s') && q in s'.questions
    requires forall slot: Slot :: slot.department != d ==> (slot in s.metrics <==> slot in s'.metrics)
    ensures s'.questions[q].usageCount == |RowsFor(s'.metrics, q)|
  {
    var before, after, slot := RowsFor(s.metrics, q), RowsFor(s'.metrics, q), Slot(d, q);
    forall x ensures x in before - {slot} <==> x in after - {slot} {}
    CardinalityMoves(before, after, slot);
    if slot in s.metrics {
      GuardNeverSkips(s, slot);
    }
    if q !in s.questions {
      assert before == {};
    }
  }

  lemma BankKept(s: Db, items: seq<Item>, s': Db)
    requires BankGrows(s, items, s') && BankOk(s)
    ensures BankOk(s')
  {
    forall q | q in s'.questions
      ensures Text.Normalise(s'.questions[q].text) == s'.questions[q].text
    {
      if q !in s.questions {
        var m :| m in items && m.questionId.None? && HasText(m)
                 && s'.questions[q].text == Text.Normalise(m.questionText.value);
        Text.NormaliseIdempotent(m.questionText.value);
      }
    }
  }

  lemma EntriesOkKept(s: Db, d: DepartmentId, s': Db)
    requires EntriesOk(s) && RowsKept(s, d, s') && EntriesKept(s, d, s')
    ensures EntriesOk(s')
  {
    forall k | k in s'.entries
      ensures Owns(s', k.department, k.metric)
    {
      assert Owns(s, k.department, k.metric);
      var slot :| slot in s.metrics && slot.department == k.department && s.metrics[slot].id == k.metric;
      assert slot in s'.metrics;
    }
  }

  lemma OtherViewKept(s: Db, d: DepartmentId, s': Db, e: DepartmentId)
    requires RowsKept(s, d, s') && e != d
    ensures View(s', e) == View(s, e)
  {
    forall q
      ensures Slot(e, q) in s'.metrics <==> Slot(e, q) in s.metrics
      ensures Slot(e, q) in s.metrics ==> s'.metrics[Slot(e, q)] == s.metrics[Slot(e, q)]
    {
    }
  }

  lemma TotalsKept(s: Db, d: DepartmentId, mode: WeightingMode, s': Db)
    requires CustomTotals(s) && RowsKept(s, d, s')
    requires d in s.departments && s'.departments == s.departments[d := s.departments[d].(mode := mode)]
    requires mode == CUSTOM ==> Sums.SumMap(View(s', d)) == 100
    ensures CustomTotals(s')
  {
    forall e | e in s'.departments && s'.departments[e].mode == CUSTOM
      ensures Sums.SumMap(View(s', e)) == 100
    {
      if e != d {
        OtherViewKept(s, d, s', e);
      }
    }
  }

  /** What the proofs need of the new map: its questions exist and its weights add up. */
  lemma NewViewSound(s: Db, d: DepartmentId, mode: WeightingMode, items: seq<Item>, s': Db)
    requires Verdict(s, d, mode, items).None?
    requires AllHold(s'.questions, Keys(s.questions, items))
    requires View(s', d) == Requested(s'.questions, Keys(s.questions, items), Weights(mode, items))
    ensures forall q :: q in View(s', d) ==> q in s'.questions
    ensures mode == CUSTOM ==> Sums.SumMap(View(s', d)) == 100
    ensures |View(s', d)| == |items|
  {
    AcceptedReads(s, d, mode, items);
    RequestedReads(s'.questions, Keys(s.questions, items), Weights(mode, items));
  }

  lemma AppliedKeepsCounts(s: Db, d: DepartmentId, mode: WeightingMode, items: seq<Item>, s': Db)
    requires RefCounts(s) && BankOk(s) && Verdict(s, d, mode, items).None? && d in s.departments
    requires Applied(s, d, mode, items, s')
    ensures RefCounts(s') && BankOk(s')
  {
    NewViewSound(s, d, mode, items, s');
    assert RefCounts(s') by { RefCountsKept(s, d, s'); }
    assert BankOk(s') by { BankKept(s, items, s'); }
  }

  lemma AppliedKeepsRows(s: Db, d: DepartmentId, mode: WeightingMode, items: seq<Item>, s': Db)
    requires RowsOk(s) && d in s.departments && Applied(s, d, mode, items, s')
    ensures RowsOk(s')
  {
    forall a, b | a in s'.metrics && b in s'.metrics && s'.metrics[a].id == s'.metrics[b].id
      ensures a == b
    {
      assert a in s.metrics <==> b in s.metrics;
    }
  }

  lemma AppliedKeepsEntries(s: Db, d: DepartmentId, mode: WeightingMode, items: seq<Item>, s': Db)
    requires EntriesOk(s) && d in s.departments && Applied(s, d, mode, items, s')
    ensures EntriesOk(s')
  {
    EntriesOkKept(s, d, s');
  }

  lemma AppliedKeepsTotals(s: Db, d: DepartmentId, mode: WeightingMode, items: seq<Item>, s': Db)
    requires CustomTotals(s) && Verdict(s, d, mode, items).None? && d in s.departments
    requires Applied(s, d, mode, items, s')
    ensures CustomTotals(s')
  {
    NewViewSound(s, d, mode, items, s');
    TotalsKept(s, d, mode, s');
  }

  lemma AppliedKeepsInv(s: Db, d: DepartmentId, mode: WeightingMode, items: seq<Item>, s': Db)
    requires Inv(s) && Verdict(s, d, mode, items).None? && d in s.departments
    requires Applied(s, d, mode, items, s')
    ensures Inv(s')
  {
    hide Applied, RefCounts, BankOk, RowsOk, EntriesOk, CustomTotals, Verdict;
    AppliedKeepsCounts(s, d, mode, items, s');
    AppliedKeepsRows(s, d, mode, items, s');
    AppliedKeepsEntries(s, d, mode, items, s');
    AppliedKeepsTotals(s, d, mode, items, s');
  }

  /** Every call, accepted or refused, keeps every invariant. */
  lemma StepKeepsInv(s: Db, op: Op, s': Db)
    requires Inv(s) && Step(s, op, s')
    ensures Inv(s')
  {
    match op
    case SetMetrics(d, mode, items) =>
      if Verdict(s, d, mode, items).None? {
        AppliedKeepsInv(s, d, mode, items, s');
      }
    case RecordEntries(d, list) =>
      RecordKeepsInv(s, d, list, s');
    case CreateDepartment(d) =>
      if d !in s.departments {
        assert forall q :: Slot(d, q) !in s.metrics;
        SameViewsKeepInv(s, s');
      }
    case RemoveDepartment(d) =>
      SameViewsKeepInv(s, s');
  }

  /** The counts, the bank and the rows do not look at departments' modes or at ratings. */
  lemma SameRowsKeepCounts(s: Db, s': Db)
    requires RefCounts(s) && BankOk(s)
    requires s'.questions == s.questions && s'.metrics == s.metrics && s'.nextQuestion == s.nextQuestion
    ensures RefCounts(s') && BankOk(s')
  {
  }

  lemma SameRowsKeepTotals(s: Db, s': Db)
    requires CustomTotals(s) && s'.metrics == s.metrics
    requires forall d :: d in s'.departments && s'.departments[d].mode == CUSTOM ==>
      d in s.departments && s.departments[d].mode == CUSTOM
    ensures CustomTotals(s')
  {
    forall d ensures View(s', d) == View(s, d) {}
  }

  lemma SameViewsKeepInv(s: Db, s': Db)
    requires Inv(s) && s' == s.(departments := s'.departments)
    requires s.departments.Keys <= s'.departments.Keys
    requires forall d :: d in s'.departments && s'.departments[d].mode == CUSTOM ==>
      d in s.departments && s.departments[d].mode == CUSTOM
    ensures Inv(s')
  {
    hide RefCounts, BankOk, CustomTotals;
    SameRowsKeepCounts(s, s');
    SameRowsKeepTotals(s, s');
    forall k | k in s'.entries ensures Owns(s', k.department, k.metric) {
      assert Owns(s, k.department, k.metric);
    }
  }

  lemma RecordKeepsEntries(s: Db, d: DepartmentId, list: seq<Entry>, s': Db)
    requires EntriesOk(s) && AllOwned(s, d, list) && Recorded(s, d, list, s')
    ensures EntriesOk(s')
  {
    forall k | k in s'.entries
      ensures Owns(s', k.department, k.metric)
    {
      if k in s.entries {
        assert Owns(s, k.department, k.metric);
      } else {
        var i :| 0 <= i < |list| && KeyOf(d, list[i]) == k;
        assert Owns(s, d, list[i].metric);
      }
    }
  }

  lemma RecordKeepsInv(s: Db, d: DepartmentId, list: seq<Entry>, s': Db)
    requires Inv(s) && Step(s, RecordEntries(d, list), s')
    ensures Inv(s')
  {
    hide AllOwned, LastWins, EntriesOk, RefCounts, BankOk, CustomTotals;
    if AllOwned(s, d, list) {
      RecordKeepsEntries(s, d, list, s');
      SameRowsKeepCounts(s, s');
      SameRowsKeepTotals(s, s');
    }
  }

  /**
   Over any run, of any length and on any departments: usageCount counts the referencing rows, no two
   questions read the same, ratings hang on live rows and custom weights total 100.
   */
  lemma {:induction false} RunKeepsInv(trace: seq<Db>, ops: seq<Op>, n: nat)
    requires Run(trace, ops) && Inv(trace[0])
    requires n < |trace|
    ensures Inv(trace[n])
  {
    hide Step, Inv;
    if n > 0 {
      RunKeepsInv(trace, ops, n - 1);
      StepKeepsInv(trace[n - 1], ops[n - 1], trace[n]);
    }
  }

  lemma EmptyInv()
    ensures Inv(EMPTY)
  {
  }

  /** No run puts two questions in the bank whose normalised texts are equal ignoring case. */
  lemma NoDuplicateTexts(trace: seq<Db>, ops: seq<Op>, n: nat, p: QuestionId, q: QuestionId)
    requires Run(trace, ops) && trace[0] == EMPTY && n < |trace|
    requires p in trace[n].questions && q in trace[n].questions && p != q
    ensures Text.Lower(Text.Normalise(trace[n].questions[p].text))
         != Text.Lower(Text.Normalise(trace[n].questions[q].text))
  {
    hide Step;
    EmptyInv();
    RunKeepsInv(trace, ops, n);
  }

  // ---------- What one accepted request promises ----------

  /** Under distinct texts, a question is in the requested map exactly when its text is requested. */
  lemma RequestedIff(bank: map<QuestionId, Question>, keys: seq<string>, weights: seq<nat>, q: QuestionId)
    requires |keys| == |weights| && AllHold(bank, keys) && Distinct(keys) && UniqueTexts(bank) && q in bank
    ensures q in Requested(bank, keys, weights) <==> Text.Lower(bank[q].text) in keys
  {
    RequestedReads(bank, keys, weights);
    if i :| 0 <= i < |keys| && keys[i] == Text.Lower(bank[q].text) {
      assert Reads(bank, keys[i], Requested(bank, keys, weights), weights[i]);
      var p :| p in bank && p in Requested(bank, keys, weights) && Text.Lower(bank[p].text) == keys[i];
      assert p == q;
    }
  }

  /** A question is there afterwards exactly when an accepted request asks for its text, or a refused one found it. */
  lemma KeptIffRequested(s: Db, d: DepartmentId, mode: WeightingMode, items: seq<Item>, s': Db, q: QuestionId)
    requires Step(s, SetMetrics(d, mode, items), s') && q in s.questions
    ensures Slot(d, q) in s'.metrics <==>
      if Verdict(s, d, mode, items).None? then Text.Lower(s.questions[q].text) in Keys(s.questions, items)
      else Slot(d, q) in s.metrics
  {
    if Verdict(s, d, mode, items).None? {
      AcceptedReads(s, d, mode, items);
      RequestedIff(s'.questions, Keys(s.questions, items), Weights(mode, items), q);
      assert q in View(s', d) <==> Slot(d, q) in s'.metrics;
    }
  }

  /**
   Kept questions keep their row and all their ratings, dropped ones lose theirs,
   and other departments keep every row and every rating. A refused request drops nothing.
   */
  lemma RatingsSurviveExactly(s: Db, d: DepartmentId, mode: WeightingMode, items: seq<Item>, s': Db,
                              slot: Slot, k: EntryKey)
    requires Inv(s) && Step(s, SetMetrics(d, mode, items), s')
    requires slot in s.metrics && k in s.entries && k.metric == s.metrics[slot].id
    ensures slot in s'.metrics <==>
      || Verdict(s, d, mode, items).Some?
      || slot.department != d
      || Text.Lower(s.questions[slot.question].text) in Keys(s.questions, items)
    ensures slot in s'.metrics ==> s'.metrics[slot].id == s.metrics[slot].id
    ensures k in s'.entries <==> slot in s'.metrics
    ensures k in s'.entries ==> s'.entries[k] == s.entries[k]
  {
    if Verdict(s, d, mode, items).None? {
      if slot.department == d {
        assert slot == Slot(d, slot.question);
        KeptIffRequested(s, d, mode, items, s', slot.question);
      }
      EntryFollowsRow(s, d, s', slot, k);
    }
  }

  lemma EntryFollowsRow(s: Db, d: DepartmentId, s': Db, slot: Slot, k: EntryKey)
    requires RowsOk(s) && RowsKept(s, d, s') && EntriesKept(s, d, s')
    requires slot in s.metrics && k in s.entries && k.metric == s.metrics[slot].id
    ensures k in s'.entries <==> slot in s'.metrics
  {
    if slot !in s'.metrics {
      assert Dropped(s, d, s', k);
    }
  }

  /** One department's request leaves every other department's map and ratings alone. */
  lemma OthersUntouched(s: Db, d: DepartmentId, mode: WeightingMode, items: seq<Item>, s': Db,
                        e: DepartmentId, k: EntryKey)
    requires Inv(s) && Step(s, SetMetrics(d, mode, items), s')
    requires e != d && k.department == e
    ensures View(s', e) == View(s, e)
    ensures k in s'.entries <==> k in s.entries
    ensures k in s.entries ==> s'.entries[k] == s.entries[k]
  {
    if Verdict(s, d, mode, items).None? {
      OtherViewKept(s, d, s', e);
      if k in s.entries {
        assert Owns(s, e, k.metric);
        var slot :| slot in s.metrics && slot.department == e && s.metrics[slot].id == k.metric;
        EntryFollowsRow(s, d, s', slot, k);
      }
    }
  }

  // ---------- Repeating a request ----------

  lemma KeysStable(s: Db, items: seq<Item>, s': Db)
    requires forall q :: q in s.questions ==> q in s'.questions && s'.questions[q].text == s.questions[q].text
    requires forall i :: 0 <= i < |items| && items[i].questionId.Some? ==> items[i].questionId.value in s.questions
    ensures Keys(s'.questions, items) == Keys(s.questions, items)
    ensures forall i :: 0 <= i < |items| ==> Key(s'.questions, items[i]) == Key(s.questions, items[i])
  {
  }

  /** The same request is accepted again. */
  lemma AcceptedAgain(s: Db, d: DepartmentId, mode: WeightingMode, items: seq<Item>, s': Db)
    requires Verdict(s, d, mode, items).None? && d in s.departments
    requires Applied(s, d, mode, items, s')
    ensures Verdict(s', d, mode, items).None?
  {
    AcceptedIff(s, d, mode, items);
    KeysStable(s, items, s');
    AcceptedIff(s', d, mode, items);
  }

  /** Nothing is left to create, so the bank stays as it is. */
  lemma BankSettled(s: Db, items: seq<Item>, s': Db, s'': Db)
    requires BankGrows(s, items, s') && BankGrows(s', items, s'')
    ensures s''.questions.Keys == s'.questions.Keys && s''.nextQuestion == s'.nextQuestion
  {
    forall q | q in s''.questions
      ensures q in s'.questions
    {
      if q !in s'.questions {
        var m :| m in items && m.questionId.None? && HasText(m)
                 && s''.questions[q].text == Text.Normalise(m.questionText.value);
        var i :| 0 <= i < |items| && items[i] == m;
        AlreadyHeld(s, items, s', i);
      }
    }
  }

  lemma AlreadyHeld(s: Db, items: seq<Item>, s': Db, i: nat)
    requires BankGrows(s, items, s') && i < |items|
    ensures Holds(s'.questions, Key(s.questions, items[i]))
  {
    assert Holds(s'.questions, Keys(s.questions, items)[i]);
  }

  lemma SameTextsSameRequest(a: map<QuestionId, Question>, b: map<QuestionId, Question>, keys: seq<string>,
                             ws: seq<nat>)
    requires a.Keys == b.Keys && UniqueTexts(a) && AllHold(a, keys) && |keys| == |ws|
    requires forall q :: q in a ==> a[q].text == b[q].text
    ensures AllHold(b, keys) && Requested(a, keys, ws) == Requested(b, keys, ws)
  {
    forall i | 0 <= i < |keys|
      ensures Holds(b, keys[i]) && Find(a, keys[i]) == Find(b, keys[i])
    {
      assert Holds(a, keys[i]);
      var q := Find(a, keys[i]);
      assert q in b && Text.Lower(b[q].text) == keys[i];
      var p := Find(b, keys[i]);
      assert Text.Lower(a[p].text) == Text.Lower(a[q].text);
    }
    assert Plan(a, keys, ws) == Plan(b, keys, ws);
  }

  /** When the map stays the same, so do the rows, the ratings and the counts. */
  lemma SameViewSameRows(s: Db, d: DepartmentId, s': Db)
    requires RowsKept(s, d, s') && View(s', d) == View(s, d)
    ensures s'.metrics == s.metrics && s'.nextMetric == s.nextMetric
  {
    forall slot: Slot
      ensures slot in s'.metrics <==> slot in s.metrics
      ensures slot in s.metrics ==> s'.metrics[slot] == s.metrics[slot]
    {
      if slot.department == d {
        assert slot == Slot(d, slot.question);
        assert slot in s.metrics <==> slot.question in View(s, d);
        assert slot in s'.metrics <==> slot.question in View(s', d);
        if slot in s.metrics {
          assert View(s', d)[slot.question] == View(s, d)[slot.question];
        }
      }
    }
  }

  lemma SameRowsSameRest(s: Db, d: DepartmentId, s': Db)
    requires s'.metrics == s.metrics && s'.questions.Keys == s.questions.Keys
    requires EntriesKept(s, d, s') && UsageMoves(s, d, s')
    requires forall q :: q in s.questions ==> s'.questions[q].text == s.questions[q].text
    ensures s'.entries == s.entries && s'.questions == s.questions
  {
  }

  lemma SettledView(s: Db, d: DepartmentId, mode: WeightingMode, items: seq<Item>, s': Db, s'': Db)
    requires Verdict(s, d, mode, items).None? && d in s.departments && d in s'.departments
    requires Applied(s, d, mode, items, s') && Applied(s', d, mode, items, s'')
    ensures View(s'', d) == View(s', d)
    ensures s''.questions.Keys == s'.questions.Keys && s''.nextQuestion == s'.nextQuestion
  {
    BankSettled(s, items, s', s'');
    AcceptedReads(s, d, mode, items);
    KeysStable(s, items, s');
    SameTextsSameRequest(s'.questions, s''.questions, Keys(s.questions, items), Weights(mode, items));
  }

  lemma SettledRest(s: Db, d: DepartmentId, mode: WeightingMode, items: seq<Item>, s': Db)
    requires d in s.departments && s.departments[d].mode == mode && Applied(s, d, mode, items, s')
    requires View(s', d) == View(s, d)
    requires s'.questions.Keys == s.questions.Keys && s'.nextQuestion == s.nextQuestion
    ensures s' == s
  {
    hide RowsKept, EntriesKept, UsageMoves, View, Requested, Keys, Weights;
    SameViewSameRows(s, d, s');
    SameRowsSameRest(s, d, s');
    assert s'.departments == s.departments;
  }

  /** Repeating a request, free texts included, changes nothing at all, whether it was accepted or not. */
  lemma Idempotent(s: Db, d: DepartmentId, mode: WeightingMode, items: seq<Item>, s': Db, s'': Db)
    requires Step(s, SetMetrics(d, mode, items), s') && Step(s', SetMetrics(d, mode, items), s'')
    ensures s'' == s'
  {
    if Verdict(s, d, mode, items).None? {
      assert d in s.departments by { AcceptedReads(s, d, mode, items); }
      AcceptedAgain(s, d, mode, items, s');
      SettledView(s, d, mode, items, s', s'');
      SettledRest(s', d, mode, items, s'');
    }
  }
}
