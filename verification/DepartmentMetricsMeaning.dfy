/** The configuration call in the caller's terms: which requests are refused, and what an accepted one leaves behind. */
module DepartmentMetricsMeaning {
  import opened Wrappers
  import opened DepartmentMetrics
  import opened DepartmentMetricsTheorems
  import Sequences
  import Sums
  import Text

  // ---------- Items ----------

  /** The text an item asks for: that of the question it names, or the one it spells out. */
  function Asked(bank: map<QuestionId, Question>, m: Item): string {
    if m.questionId.Some? then if m.questionId.value in bank then bank[m.questionId.value].text else ""
    else if m.questionText.Some? then Text.Normalise(m.questionText.value) else ""
  }

  lemma KeyIsFolded(bank: map<QuestionId, Question>, m: Item)
    ensures Key(bank, m) == Text.Lower(Asked(bank, m))
  {
    assert Text.Lower("") == "";
  }

  /** An identifier, or a text with something to see in it, but not both. */
  predicate NamesOne(m: Item) {
    m.questionId.Some? != (m.questionText.Some? && Text.HasVisible(m.questionText.value))
  }

  lemma NamesOneIff(m: Item)
    ensures NamesOne(m) <==> !Malformed(m)
  {
    if m.questionText.Some? {
      Text.TrimmedIff(m.questionText.value);
    }
  }

  /** The question that an item names, or whose text it spells out up to the case of letters. */
  predicate Names(bank: map<QuestionId, Question>, m: Item, q: QuestionId) {
    && q in bank
    && if m.questionId.Some? then q == m.questionId.value
       else m.questionText.Some? && Text.SameUpToCase(bank[q].text, Text.Normalise(m.questionText.value))
  }

  /** The weights of the request, all of them given. */
  function Given(items: seq<Item>): seq<nat>
    requires forall i :: 0 <= i < |items| ==> items[i].weight.Some?
  {
    seq(|items|, i requires 0 <= i < |items| => items[i].weight.value)
  }

  // ---------- Refusals ----------

  /**
   A request is accepted exactly when the department is there, every item names one thing, custom weights are given
   and total 100, named questions are known, and no two items ask for texts that agree up to the case of letters.
   */
  lemma AcceptedInWords(s: Db, d: DepartmentId, mode: WeightingMode, items: seq<Item>)
    ensures Verdict(s, d, mode, items).None? <==>
      && d in s.departments && !s.departments[d].deleted
      && (forall i :: 0 <= i < |items| ==> NamesOne(items[i]))
      && (mode == CUSTOM ==>
            (forall i :: 0 <= i < |items| ==> items[i].weight.Some?) && Sums.SumSeq(Given(items)) == 100)
      && (forall i :: 0 <= i < |items| && items[i].questionId.Some? ==> items[i].questionId.value in s.questions)
      && (forall i, j :: 0 <= i < j < |items| ==>
            !Text.SameUpToCase(Asked(s.questions, items[i]), Asked(s.questions, items[j])))
  {
    AcceptedIff(s, d, mode, items);
    GivenWeights(mode, items);
    forall i | 0 <= i < |items| ensures NamesOne(items[i]) <==> !Malformed(items[i]) {
      NamesOneIff(items[i]);
    }
    forall i, j | 0 <= i < j < |items|
      ensures Key(s.questions, items[i]) == Key(s.questions, items[j]) <==>
        Text.SameUpToCase(Asked(s.questions, items[i]), Asked(s.questions, items[j]))
    {
      KeyIsFolded(s.questions, items[i]);
      KeyIsFolded(s.questions, items[j]);
      Text.LowerDecidesCase(Asked(s.questions, items[i]), Asked(s.questions, items[j]));
    }
    hide Verdict, NamesOne, Malformed, Key, Asked, Text.SameUpToCase, Given, Weights, Sums.SumSeq;
  }

  lemma GivenWeights(mode: WeightingMode, items: seq<Item>)
    ensures mode == CUSTOM && (forall i :: 0 <= i < |items| ==> items[i].weight.Some?) ==>
      Weights(mode, items) == Given(items)
  {
  }

  /** Each reason for a refusal is given exactly when nothing before it in the order of the checks applies. */
  lemma RefusedAs(s: Db, d: DepartmentId, mode: WeightingMode, items: seq<Item>)
    ensures var v := Verdict(s, d, mode, items);
      var there := d in s.departments && !s.departments[d].deleted;
      var named := forall i :: 0 <= i < |items| ==> NamesOne(items[i]);
      var weighed := forall i :: 0 <= i < |items| ==> items[i].weight.Some?;
      && (v == Some(DepartmentNotFound) <==> !there)
      && (v == Some(NeedsExactlyOne) <==> there && !named)
      && (v == Some(WeightMissing) <==> there && named && mode == CUSTOM && !weighed)
      && (forall n :: v == Some(WrongTotal(n)) <==>
            there && named && mode == CUSTOM && weighed && n != 100 && Sums.SumSeq(Given(items)) == n)
  {
    GivenWeights(mode, items);
    FirstProblemKind(s.questions, items, |items|);
    forall i | 0 <= i < |items| ensures NamesOne(items[i]) <==> !Malformed(items[i]) {
      NamesOneIff(items[i]);
    }
    hide NamesOne, Malformed, Given, Weights, Sums.SumSeq, FirstProblem;
  }

  lemma {:induction false} FirstProblemKind(bank: map<QuestionId, Question>, items: seq<Item>, n: nat)
    requires n <= |items|
    ensures var p := FirstProblem(bank, items, n);
      p == None || p == Some(QuestionGone) || p == Some(DuplicateQuestion)
  {
    if n > 0 {
      FirstProblemKind(bank, items, n - 1);
      hide Key;
    }
  }

  // ---------- What an accepted request leaves behind ----------

  /** The department has a row for a question the item names, at the item's weight; 0 stands for an equal share. */
  ghost predicate IsAssigned(s: Db, d: DepartmentId, mode: WeightingMode, m: Item) {
    exists q ::
      && Names(s.questions, m, q) && Slot(d, q) in s.metrics
      && if mode == CUSTOM then m.weight == Some(s.metrics[Slot(d, q)].weight) else s.metrics[Slot(d, q)].weight == 0
  }

  ghost predicate IsNamed(bank: map<QuestionId, Question>, items: seq<Item>, q: QuestionId) {
    exists i :: 0 <= i < |items| && Names(bank, items[i], q)
  }

  /** A question reads as the item's key exactly when the item names it. */
  lemma NamesIff(before: map<QuestionId, Question>, bank: map<QuestionId, Question>, m: Item, q: QuestionId)
    requires UniqueTexts(bank) && q in bank && NamesOne(m)
    requires forall p :: p in before ==> p in bank && bank[p].text == before[p].text
    requires m.questionId.Some? ==> m.questionId.value in before
    ensures Names(bank, m, q) <==> Text.Lower(bank[q].text) == Key(before, m)
  {
    KeyIsFolded(before, m);
    Text.LowerDecidesCase(bank[q].text, Asked(before, m));
    hide NamesOne, Text.SameUpToCase;
    if m.questionId.None? {
      NamesOneHasText(m);
    }
  }

  lemma NamesOneHasText(m: Item)
    requires NamesOne(m) && m.questionId.None?
    ensures m.questionText.Some?
  {
  }

  /** The parts of an accepted step that the lemmas below read. */
  lemma AcceptedParts(s: Db, d: DepartmentId, mode: WeightingMode, items: seq<Item>, s': Db)
    requires Step(s, SetMetrics(d, mode, items), s') && Verdict(s, d, mode, items).None?
    ensures d in s.departments && BankGrows(s, items, s') && UniqueTexts(s'.questions) && UsageMoves(s, d, s')
    ensures AllHold(s'.questions, Keys(s.questions, items)) && Sequences.Distinct(Keys(s.questions, items))
    ensures View(s', d) == Requested(s'.questions, Keys(s.questions, items), Weights(mode, items))
    ensures s'.departments == s.departments[d := s.departments[d].(mode := mode)]
    ensures forall i :: 0 <= i < |items| ==> NamesOne(items[i])
    ensures mode == CUSTOM ==> forall i :: 0 <= i < |items| ==> items[i].weight.Some?
    ensures forall i :: 0 <= i < |items| && items[i].questionId.Some? ==> items[i].questionId.value in s.questions
    ensures forall p :: p in s.questions ==> p in s'.questions && s'.questions[p].text == s.questions[p].text
  {
    AcceptedReads(s, d, mode, items);
    AcceptedInWords(s, d, mode, items);
    hide Verdict, NamesOne, RowsKept, EntriesKept, UsageMoves, View, Requested, Keys, Weights;
  }

  /** Item by item and row by row: the department's rows are those that the items ask for. */
  lemma AcceptedExactly(s: Db, d: DepartmentId, mode: WeightingMode, items: seq<Item>, s': Db)
    requires Step(s, SetMetrics(d, mode, items), s') && Verdict(s, d, mode, items).None?
    ensures forall i :: 0 <= i < |items| ==> IsAssigned(s', d, mode, items[i])
    ensures forall q :: Slot(d, q) in s'.metrics ==> IsNamed(s'.questions, items, q)
    ensures d in s'.departments && s'.departments[d].mode == mode
    ensures forall e :: e != d ==>
      (e in s'.departments <==> e in s.departments) && (e in s.departments ==> s'.departments[e] == s.departments[e])
  {
    ModeIsSet(s, d, mode, items, s');
    hide Step, Verdict, IsAssigned, IsNamed;
    forall i | 0 <= i < |items| ensures IsAssigned(s', d, mode, items[i]) {
      ItemIsAssigned(s, d, mode, items, s', i);
    }
    forall q | Slot(d, q) in s'.metrics ensures IsNamed(s'.questions, items, q) {
      RowIsNamed(s, d, mode, items, s', q);
    }
  }

  lemma ModeIsSet(s: Db, d: DepartmentId, mode: WeightingMode, items: seq<Item>, s': Db)
    requires Step(s, SetMetrics(d, mode, items), s') && Verdict(s, d, mode, items).None?
    ensures d in s'.departments && s'.departments[d].mode == mode
    ensures forall e :: e != d ==>
      (e in s'.departments <==> e in s.departments) && (e in s.departments ==> s'.departments[e] == s.departments[e])
  {
    AcceptedParts(s, d, mode, items, s');
    hide Step, Verdict, BankGrows, UsageMoves, Requested, UniqueTexts, AllHold;
  }

  lemma ItemIsAssigned(s: Db, d: DepartmentId, mode: WeightingMode, items: seq<Item>, s': Db, i: nat)
    requires Step(s, SetMetrics(d, mode, items), s') && Verdict(s, d, mode, items).None? && i < |items|
    ensures IsAssigned(s', d, mode, items[i])
  {
    AcceptedParts(s, d, mode, items, s');
    hide Step, Verdict, BankGrows, UsageMoves, Requested, UniqueTexts, AllHold;
    var keys, ws := Keys(s.questions, items), Weights(mode, items);
    RequestedReads(s'.questions, keys, ws);
    assert keys[i] == Key(s.questions, items[i]) && Reads(s'.questions, keys[i], View(s', d), ws[i]);
    assert ws[i] == if mode == CUSTOM then Weight(items[i]) else 0;
    hide Keys, Weights, Weight, NamesOne, Text.Lower, Key, Names, Reads, View, IsAssigned;
    var q := WhoReads(s'.questions, keys[i], View(s', d), ws[i]);
    NamesIff(s.questions, s'.questions, items[i], q);
    RowIsAssigned(s', d, mode, items[i], q);
  }

  lemma RowIsAssigned(s: Db, d: DepartmentId, mode: WeightingMode, m: Item, q: QuestionId)
    requires Names(s.questions, m, q) && q in View(s, d) && (mode == CUSTOM ==> m.weight.Some?)
    requires View(s, d)[q] == if mode == CUSTOM then Weight(m) else 0
    ensures IsAssigned(s, d, mode, m)
  {
    hide Names;
    assert Slot(d, q) in s.metrics;
  }

  lemma WhoReads(bank: map<QuestionId, Question>, key: string, view: map<QuestionId, nat>, w: nat)
    returns (q: QuestionId)
    requires Reads(bank, key, view, w)
    ensures q in bank && q in view && Text.Lower(bank[q].text) == key && view[q] == w
  {
    q :| q in bank && q in view && Text.Lower(bank[q].text) == key && view[q] == w;
  }

  lemma RowIsNamed(s: Db, d: DepartmentId, mode: WeightingMode, items: seq<Item>, s': Db, q: QuestionId)
    requires Step(s, SetMetrics(d, mode, items), s') && Verdict(s, d, mode, items).None? && Slot(d, q) in s'.metrics
    ensures IsNamed(s'.questions, items, q)
  {
    AcceptedParts(s, d, mode, items, s');
    hide Step, Verdict, BankGrows, UsageMoves, Requested, UniqueTexts, AllHold;
    var keys, ws := Keys(s.questions, items), Weights(mode, items);
    RequestedReads(s'.questions, keys, ws);
    assert q in View(s', d);
    hide View, NamesOne, Text.Lower, Key, Names;
    var i :| 0 <= i < |keys| && keys[i] == Text.Lower(s'.questions[q].text);
    assert keys[i] == Key(s.questions, items[i]);
    hide Keys, Weights;
    NamesIff(s.questions, s'.questions, items[i], q);
    assert Names(s'.questions, items[i], q);
  }

  /** A known question that an item names is the one that is used, and no other question reads so afterwards. */
  lemma KnownIsReused(s: Db, d: DepartmentId, mode: WeightingMode, items: seq<Item>, s': Db, i: nat, q: QuestionId)
    requires Step(s, SetMetrics(d, mode, items), s') && Verdict(s, d, mode, items).None?
    requires i < |items| && Names(s.questions, items[i], q)
    ensures Slot(d, q) in s'.metrics
    ensures forall p :: p in s'.questions && Text.SameUpToCase(s'.questions[p].text, s.questions[q].text) ==> p == q
  {
    AcceptedParts(s, d, mode, items, s');
    KeptIffRequested(s, d, mode, items, s', q);
    assert Names(s'.questions, items[i], q);
    NamesIff(s.questions, s'.questions, items[i], q);
    assert Keys(s.questions, items)[i] == Key(s.questions, items[i]);
    forall p | p in s'.questions && Text.SameUpToCase(s'.questions[p].text, s.questions[q].text) ensures p == q {
      Text.LowerDecidesCase(s'.questions[p].text, s.questions[q].text);
    }
  }

  /** A new question is stored as some item spells it, when nobody has that text, for this department only. */
  lemma NewQuestionIsAsked(s: Db, d: DepartmentId, mode: WeightingMode, items: seq<Item>, s': Db, q: QuestionId)
    requires RefCounts(s)
    requires Step(s, SetMetrics(d, mode, items), s') && Verdict(s, d, mode, items).None?
    requires q in s'.questions && q !in s.questions
    ensures exists i :: 0 <= i < |items| && items[i].questionId.None? && items[i].questionText.Some?
                        && s'.questions[q].text == Text.Normalise(items[i].questionText.value)
    ensures forall p :: p in s.questions ==> !Text.SameUpToCase(s.questions[p].text, s'.questions[q].text)
    ensures Slot(d, q) in s'.metrics && s'.questions[q].usageCount == 1
  {
    AcceptedParts(s, d, mode, items, s');
    hide Step, Verdict, NamesOne, Weights, Requested, UsageMoves, Sequences.Distinct, View;
    var i := NewTextIsAsked(s, items, s', q);
    NewTextIsNew(s.questions, s'.questions, q);
    hide *;
    NewRowCounts(s, d, Keys(s.questions, items), Weights(mode, items), s', q);
  }

  lemma NewTextIsAsked(s: Db, items: seq<Item>, s': Db, q: QuestionId) returns (i: nat)
    requires BankGrows(s, items, s') && q in s'.questions && q !in s.questions
    ensures i < |items| && items[i].questionId.None? && items[i].questionText.Some?
    ensures s'.questions[q].text == Text.Normalise(items[i].questionText.value)
    ensures Text.Lower(s'.questions[q].text) in Keys(s.questions, items)
  {
    hide Text.Normalise, Text.Lower, Text.Trim, AllHold, UniqueTexts;
    var m :| m in items && m.questionId.None? && HasText(m)
             && s'.questions[q].text == Text.Normalise(m.questionText.value);
    i :| 0 <= i < |items| && items[i] == m;
    assert Keys(s.questions, items)[i] == Text.Lower(s'.questions[q].text);
  }

  lemma NewTextIsNew(bank: map<QuestionId, Question>, bank': map<QuestionId, Question>, q: QuestionId)
    requires UniqueTexts(bank') && q in bank' && q !in bank
    requires forall p :: p in bank ==> p in bank' && bank'[p].text == bank[p].text
    ensures forall p :: p in bank ==> !Text.SameUpToCase(bank[p].text, bank'[q].text)
  {
    hide Text.SameUpToCase, Text.Lower;
    forall p | p in bank ensures !Text.SameUpToCase(bank[p].text, bank'[q].text) {
      Text.LowerDecidesCase(bank[p].text, bank'[q].text);
    }
  }

  lemma NewRowCounts(s: Db, d: DepartmentId, keys: seq<string>, weights: seq<nat>, s': Db, q: QuestionId)
    requires RefCounts(s) && q in s'.questions && q !in s.questions && UniqueTexts(s'.questions) && UsageMoves(s, d, s')
    requires |keys| == |weights| && AllHold(s'.questions, keys) && Sequences.Distinct(keys)
    requires View(s', d) == Requested(s'.questions, keys, weights) && Text.Lower(s'.questions[q].text) in keys
    ensures Slot(d, q) in s'.metrics && s'.questions[q].usageCount == 1
  {
    hide Requested, Text.Lower, AllHold, UniqueTexts, Sequences.Distinct;
    RequestedIff(s'.questions, keys, weights, q);
    assert q in View(s', d);
    assert Slot(d, q) !in s.metrics;
  }

  /** In every reachable state, no two questions of the bank agree up to the case of letters. */
  lemma NoTwins(trace: seq<Db>, ops: seq<Op>, n: nat, p: QuestionId, q: QuestionId)
    requires Run(trace, ops) && trace[0] == EMPTY && n < |trace|
    requires p in trace[n].questions && q in trace[n].questions && p != q
    ensures !Text.SameUpToCase(trace[n].questions[p].text, trace[n].questions[q].text)
    ensures Text.IsSpacedOnce(trace[n].questions[p].text)
  {
    hide Run, Step;
    EmptyInv();
    RunKeepsInv(trace, ops, n);
    hide RefCounts, RowsOk, EntriesOk, CustomTotals;
    Text.LowerDecidesCase(trace[n].questions[p].text, trace[n].questions[q].text);
    Text.NormaliseShape(trace[n].questions[p].text);
  }
}
