/**
 The question bank, the departments' metric rows and the ratings recorded on them,
 as the database holds them, and what one call of the service does to them.
 */
module DepartmentMetrics {
  import opened Wrappers
  import Text
  import Sums

  type DepartmentId = nat
  type QuestionId = nat
  type MetricId = nat

  /** What the request validation lets through. */
  type Rating = r: nat | 1 <= r <= 10 witness 1

  datatype WeightingMode = EQUAL | CUSTOM
  datatype Department = Department(deleted: bool, mode: WeightingMode)
  datatype Question = Question(text: string, usageCount: nat)

  /** The unique key of a metric row. */
  datatype Slot = Slot(department: DepartmentId, question: QuestionId)
  datatype MetricRow = MetricRow(id: MetricId, weight: nat)

  /** The unique key of a rating. */
  datatype EntryKey = EntryKey(department: DepartmentId, metric: MetricId, period: string)

  /** Identifiers from nextQuestion and nextMetric on were never handed out. */
  datatype Db = Db(
    departments: map<DepartmentId, Department>,
    questions: map<QuestionId, Question>,
    metrics: map<Slot, MetricRow>,
    entries: map<EntryKey, Rating>,
    nextQuestion: QuestionId,
    nextMetric: MetricId)

  /** One requested question: an existing one by id, or a text to reuse or create. */
  datatype Item = Item(questionId: Option<QuestionId>, questionText: Option<string>, weight: Option<nat>)

  datatype Assignment = Assignment(question: QuestionId, weight: nat)
  datatype Entry = Entry(metric: MetricId, rating: Rating, period: string)

  datatype Error =
    | DepartmentNotFound
    | NeedsExactlyOne
    | WeightMissing
    | WrongTotal(total: nat)
    | QuestionGone
    | DuplicateQuestion
    | ForeignMetric

  // ---------- Validation of a request ----------

  predicate HasText(m: Item) {
    m.questionText.Some? && Text.Trim(m.questionText.value) != ""
  }

  predicate Malformed(m: Item) {
    m.questionId.Some? == HasText(m)
  }

  function Weight(m: Item): nat {
    if m.weight.Some? then m.weight.value else 0
  }

  function Weights(mode: WeightingMode, items: seq<Item>): (ws: seq<nat>)
    ensures |ws| == |items|
  {
    seq(|items|, i requires 0 <= i < |items| => if mode == CUSTOM then Weight(items[i]) else 0)
  }

  /** The case-folded text an item stands for. */
  function Key(bank: map<QuestionId, Question>, m: Item): string {
    if m.questionId.Some? then
      if m.questionId.value in bank then Text.Lower(bank[m.questionId.value].text) else ""
    else if m.questionText.Some? then Text.Lower(Text.Normalise(m.questionText.value))
    else ""
  }

  function Keys(bank: map<QuestionId, Question>, items: seq<Item>): (ks: seq<string>)
    ensures |ks| == |items|
  {
    seq(|items|, i requires 0 <= i < |items| => Key(bank, items[i]))
  }

  /** What is wrong with item i, given that the items before it were accepted. */
  ghost function ItemProblem(bank: map<QuestionId, Question>, items: seq<Item>, i: nat): Option<Error>
    requires i < |items|
  {
    if items[i].questionId.Some? && items[i].questionId.value !in bank then Some(QuestionGone)
    else if exists j :: 0 <= j < i && Key(bank, items[j]) == Key(bank, items[i]) then Some(DuplicateQuestion)
    else None
  }

  ghost function FirstProblem(bank: map<QuestionId, Question>, items: seq<Item>, n: nat): Option<Error>
    requires n <= |items|
  {
    if n == 0 then None
    else
      var earlier := FirstProblem(bank, items, n - 1);
      if earlier.Some? then earlier else ItemProblem(bank, items, n - 1)
  }

  /** The reason a request is refused, if it is. */
  ghost function Verdict(s: Db, d: DepartmentId, mode: WeightingMode, items: seq<Item>): Option<Error> {
    if d !in s.departments || s.departments[d].deleted then Some(DepartmentNotFound)
    else if exists i :: 0 <= i < |items| && Malformed(items[i]) then Some(NeedsExactlyOne)
    else if mode == CUSTOM && exists i :: 0 <= i < |items| && items[i].weight.None? then Some(WeightMissing)
    else if mode == CUSTOM && Sums.SumSeq(Weights(mode, items)) != 100 then
      Some(WrongTotal(Sums.SumSeq(Weights(mode, items))))
    else FirstProblem(s.questions, items, |items|)
  }

  // ---------- The simple specification ----------

  /** A department's question-to-weight map. */
  ghost function View(s: Db, d: DepartmentId): map<QuestionId, nat> {
    map q | q in QuestionsOf(s.metrics, d) :: s.metrics[Slot(d, q)].weight
  }

  function QuestionsOf(metrics: map<Slot, MetricRow>, d: DepartmentId): (qs: set<QuestionId>)
    ensures forall q :: q in qs <==> Slot(d, q) in metrics
  {
    set slot | slot in metrics && slot.department == d :: slot.question
  }

  ghost predicate Holds(bank: map<QuestionId, Question>, key: string) {
    exists q :: q in bank && Text.Lower(bank[q].text) == key
  }

  ghost function Find(bank: map<QuestionId, Question>, key: string): QuestionId
    requires Holds(bank, key)
  {
    var q :| q in bank && Text.Lower(bank[q].text) == key;
    q
  }

  function PlanMap(plan: seq<Assignment>): map<QuestionId, nat> {
    if plan == [] then map[]
    else PlanMap(plan[..|plan| - 1])[plan[|plan| - 1].question := plan[|plan| - 1].weight]
  }

  ghost predicate AllHold(bank: map<QuestionId, Question>, keys: seq<string>) {
    forall i {:trigger Holds(bank, keys[i])} :: 0 <= i < |keys| ==> Holds(bank, keys[i])
  }

  ghost function Plan(bank: map<QuestionId, Question>, keys: seq<string>, weights: seq<nat>): (plan: seq<Assignment>)
    requires |keys| == |weights| && AllHold(bank, keys)
    ensures |plan| == |keys|
    ensures forall i :: 0 <= i < |keys| ==> plan[i] == Assignment(Find(bank, keys[i]), weights[i])
  {
    seq(|keys|, i requires 0 <= i < |keys| => Assignment(Find(bank, keys[i]), weights[i]))
  }

  /** The map a request asks for, read off the bank it leaves behind. */
  ghost function Requested(bank: map<QuestionId, Question>, keys: seq<string>, weights: seq<nat>): map<QuestionId, nat>
    requires |keys| == |weights| && AllHold(bank, keys)
  {
    PlanMap(Plan(bank, keys, weights))
  }

  /** No two questions read the same when case is ignored. */
  ghost predicate UniqueTexts(bank: map<QuestionId, Question>) {
    forall p, q {:trigger Text.Lower(bank[p].text), Text.Lower(bank[q].text)} | p in bank && q in bank ::
      Text.Lower(bank[p].text) == Text.Lower(bank[q].text) ==> p == q
  }

  /** A number above every identifier the request names. */
  function Above(items: seq<Item>): (n: nat)
    ensures forall i :: 0 <= i < |items| && items[i].questionId.Some? ==> items[i].questionId.value < n
  {
    if items == [] then 0
    else
      var rest := Above(items[..|items| - 1]);
      var last := items[|items| - 1].questionId;
      if last.Some? && rest <= last.value then last.value + 1 else rest
  }

  /** The texts that the request spells out, as they would be stored. */
  function NewTexts(items: seq<Item>): set<string> {
    set m | m in items && m.questionId.None? && HasText(m) :: Text.Normalise(m.questionText.value)
  }

  function Max(a: nat, b: nat): nat {
    if a < b then b else a
  }

  /** Resolving the items keeps every question and adds only texts nobody had. */
  ghost predicate BankGrows(s: Db, items: seq<Item>, s': Db) {
    && (forall q :: q in s.questions ==> q in s'.questions && s'.questions[q].text == s.questions[q].text)
    && (forall q :: q in s'.questions && q !in s.questions ==>
          && Max(s.nextQuestion, Above(items)) <= q < s'.nextQuestion
          && s'.questions[q].text in NewTexts(items))
    && UniqueTexts(s'.questions)
    && AllHold(s'.questions, Keys(s.questions, items))
    && s.nextQuestion <= s'.nextQuestion
    && Above(items) <= s'.nextQuestion
    && (s'.questions.Keys == s.questions.Keys ==> s'.nextQuestion == Max(s.nextQuestion, Above(items)))
  }

  /** Kept rows keep their identifiers, new rows get unused ones, other departments keep everything. */
  ghost predicate RowsKept(s: Db, d: DepartmentId, s': Db) {
    && (forall slot: Slot :: slot.department != d ==> (slot in s.metrics <==> slot in s'.metrics))
    && (forall slot :: slot in s.metrics && slot.department != d ==> s'.metrics[slot] == s.metrics[slot])
    && (forall slot :: slot in s.metrics && slot in s'.metrics ==> s'.metrics[slot].id == s.metrics[slot].id)
    && (forall slot :: slot in s'.metrics && slot !in s.metrics ==> s.nextMetric <= s'.metrics[slot].id < s'.nextMetric)
    && (forall a, b {:trigger s'.metrics[a].id, s'.metrics[b].id} |
          a in s'.metrics && b in s'.metrics && a !in s.metrics && b !in s.metrics ::
          s'.metrics[a].id == s'.metrics[b].id ==> a == b)
    && s.nextMetric <= s'.nextMetric
    && ((forall slot :: slot in s'.metrics ==> slot in s.metrics) ==> s'.nextMetric == s.nextMetric)
  }

  /** The rating's metric row has gone. */
  ghost predicate Dropped(s: Db, d: DepartmentId, s': Db, k: EntryKey) {
    exists slot :: slot in s.metrics && slot.department == d && slot !in s'.metrics && s.metrics[slot].id == k.metric
  }

  ghost predicate EntriesKept(s: Db, d: DepartmentId, s': Db) {
    && (forall k :: k in s'.entries <==> k in s.entries && !Dropped(s, d, s', k))
    && (forall k :: k in s'.entries ==> s'.entries[k] == s.entries[k])
  }

  function UsageAfter(count: nat, was: bool, now: bool): nat {
    if was && !now then if count > 0 then count - 1 else 0
    else if !was && now then count + 1
    else count
  }

  ghost predicate UsageMoves(s: Db, d: DepartmentId, s': Db) {
    forall q :: q in s'.questions ==>
      s'.questions[q].usageCount == UsageAfter(
        if q in s.questions then s.questions[q].usageCount else 0, Slot(d, q) in s.metrics, Slot(d, q) in s'.metrics)
  }

  /** An accepted request: the department's map becomes the requested one, and nothing else moves. */
  ghost predicate Applied(s: Db, d: DepartmentId, mode: WeightingMode, items: seq<Item>, s': Db)
    requires d in s.departments
  {
    && BankGrows(s, items, s')
    && View(s', d) == Requested(s'.questions, Keys(s.questions, items), Weights(mode, items))
    && RowsKept(s, d, s')
    && EntriesKept(s, d, s')
    && UsageMoves(s, d, s')
    && s'.departments == s.departments[d := s.departments[d].(mode := mode)]
  }

  // ---------- Ratings ----------

  ghost predicate Owns(s: Db, d: DepartmentId, m: MetricId) {
    exists slot :: slot in s.metrics && slot.department == d && s.metrics[slot].id == m
  }

  ghost predicate AllOwned(s: Db, d: DepartmentId, list: seq<Entry>) {
    forall i :: 0 <= i < |list| ==> Owns(s, d, list[i].metric)
  }

  function KeyOf(d: DepartmentId, e: Entry): EntryKey {
    EntryKey(d, e.metric, e.period)
  }

  ghost predicate Mentions(d: DepartmentId, list: seq<Entry>, k: EntryKey) {
    exists i :: 0 <= i < |list| && KeyOf(d, list[i]) == k
  }

  /** Nothing after position i rates the same metric in the same period. */
  ghost predicate IsLast(d: DepartmentId, list: seq<Entry>, i: nat)
    requires i < |list|
  {
    forall j :: i < j < |list| ==> KeyOf(d, list[j]) != KeyOf(d, list[i])
  }

  /** The last rating given for a metric and period is the one that stays. */
  ghost predicate LastWins(before: map<EntryKey, Rating>, d: DepartmentId, list: seq<Entry>,
                           after: map<EntryKey, Rating>) {
    && (forall k :: k in after <==> k in before || Mentions(d, list, k))
    && (forall k :: k in before && !Mentions(d, list, k) ==> after[k] == before[k])
    && (forall i :: 0 <= i < |list| && IsLast(d, list, i) ==>
          KeyOf(d, list[i]) in after && after[KeyOf(d, list[i])] == list[i].rating)
  }

  ghost predicate Recorded(s: Db, d: DepartmentId, list: seq<Entry>, s': Db) {
    s' == s.(entries := s'.entries) && LastWins(s.entries, d, list, s'.entries)
  }

  // ---------- Runs ----------

  datatype Op =
    | CreateDepartment(d: DepartmentId)
    | RemoveDepartment(d: DepartmentId)
    | SetMetrics(d: DepartmentId, mode: WeightingMode, items: seq<Item>)
    | RecordEntries(d: DepartmentId, list: seq<Entry>)

  /** A refused call changes nothing. */
  ghost predicate Step(s: Db, op: Op, s': Db) {
    match op
    case CreateDepartment(d) =>
      s' == if d in s.departments then s else s.(departments := s.departments[d := Department(false, EQUAL)])
    case RemoveDepartment(d) =>
      s' == if d in s.departments then s.(departments := s.departments[d := s.departments[d].(deleted := true)]) else s
    case SetMetrics(d, mode, items) =>
      if Verdict(s, d, mode, items).Some? then s' == s else Applied(s, d, mode, items, s')
    case RecordEntries(d, list) =>
      if AllOwned(s, d, list) then Recorded(s, d, list, s') else s' == s
  }

  ghost predicate Run(trace: seq<Db>, ops: seq<Op>) {
    && |trace| == |ops| + 1
    && forall i :: 0 <= i < |ops| ==> Step(trace[i], ops[i], trace[i + 1])
  }

  const EMPTY := Db(map[], map[], map[], map[], 0, 0)

  // ---------- Invariants ----------

  function RowsFor(metrics: map<Slot, MetricRow>, q: QuestionId): (slots: set<Slot>)
    ensures forall slot :: slot in slots <==> slot in metrics && slot.question == q
  {
    set slot | slot in metrics && slot.question == q
  }

  /** usageCount is the number of metric rows that reference the question. */
  ghost predicate RefCounts(s: Db) {
    && (forall slot :: slot in s.metrics ==> slot.question in s.questions)
    && (forall q :: q in s.questions ==> s.questions[q].usageCount == |RowsFor(s.metrics, q)|)
  }

  /** Texts are stored normalised and are pairwise different when case is ignored. */
  ghost predicate BankOk(s: Db) {
    && UniqueTexts(s.questions)
    && (forall q :: q in s.questions ==> Text.Normalise(s.questions[q].text) == s.questions[q].text)
    && (forall q :: q in s.questions ==> q < s.nextQuestion)
  }

  ghost predicate RowsOk(s: Db) {
    && (forall a, b {:trigger s.metrics[a].id, s.metrics[b].id} | a in s.metrics && b in s.metrics ::
          s.metrics[a].id == s.metrics[b].id ==> a == b)
    && (forall slot :: slot in s.metrics ==> s.metrics[slot].id < s.nextMetric && slot.department in s.departments)
  }

  ghost predicate EntriesOk(s: Db) {
    forall k :: k in s.entries ==> Owns(s, k.department, k.metric)
  }

  /** In CUSTOM mode the weights of a department total exactly 100. */
  ghost predicate CustomTotals(s: Db) {
    forall d :: d in s.departments && s.departments[d].mode == CUSTOM ==> Sums.SumMap(View(s, d)) == 100
  }

  ghost predicate Inv(s: Db) {
    RefCounts(s) && BankOk(s) && RowsOk(s) && EntriesOk(s) && CustomTotals(s)
  }
}
