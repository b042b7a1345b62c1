/** The two read-outs of a form's responses (lib/actions/actions.ts):
    `getGroupedResponsesFromUser` (answers bucketed per response, newest
    response first) and `getResponsesFromForm` (the export matrix). */
module ResponseViews {
  import opened Results
  import opened Ids
  import opened Schema
  import opened Seqs
  import opened Sorting
  import opened Tables
  import Submission

  /** An answer with the relations the queries `include`. */
  datatype Joined = Joined(answer: Answer, question: Question, response: Response, options: seq<OptionRow>)

  /** The options an answer is connected to. */
  function ConnectedOptions(options: seq<OptionRow>, a: Answer): seq<OptionRow> {
    Filter(options, (o: OptionRow) => o.id in a.optionIds)
  }

  /** One row of `answer.findMany({ where: { formId, question: { userId } } })`
      with its question, response and options, when the answer qualifies. */
  function JoinAnswer(db: Db, a: Answer, formId: Id, user: Id): Option<Joined> {
    var q := QuestionById(db.questions, a.questionId);
    var r := ResponseById(db.responses, a.responseId);
    if a.formId == formId && q.Some? && q.value.userId == user && r.Some?
    then Some(Joined(a, q.value, r.value, ConnectedOptions(db.options, a)))
    else None
  }

  /** The answers of the form whose question belongs to `user`, in table order. */
  function Selected(db: Db, answers: seq<Answer>, formId: Id, user: Id): (rows: seq<Joined>)
    ensures forall k :: 0 <= k < |rows| ==> rows[k].answer.formId == formId && rows[k].question.userId == user
    decreases |answers|
  {
    if answers == [] then []
    else
      var rest := Selected(db, answers[..|answers| - 1], formId, user);
      match JoinAnswer(db, answers[|answers| - 1], formId, user)
      case None => rest
      case Some(j) => rest + [j]
  }

  function Qualifies(db: Db, formId: Id, user: Id): Answer -> bool {
    (a: Answer) => JoinAnswer(db, a, formId, user).Some?
  }

  /** The query returns one row per qualifying answer of the table: every
      qualifying answer's row is selected, and every selected row is the row
      of an answer in the table. */
  lemma SelectedExactly(db: Db, answers: seq<Answer>, formId: Id, user: Id)
    ensures var rows := Selected(db, answers, formId, user);
      |rows| == |Filter(answers, Qualifies(db, formId, user))|
      && (forall i :: 0 <= i < |answers| && JoinAnswer(db, answers[i], formId, user).Some? ==>
            JoinAnswer(db, answers[i], formId, user).value in rows)
      && (forall k :: 0 <= k < |rows| ==>
            exists i :: 0 <= i < |answers| && JoinAnswer(db, answers[i], formId, user) == Some(rows[k]))
  {
    SelectedCount(db, answers, formId, user);
    SelectedComplete(db, answers, formId, user);
    SelectedSound(db, answers, formId, user);
  }

  lemma {:induction false} SelectedCount(db: Db, answers: seq<Answer>, formId: Id, user: Id)
    ensures |Selected(db, answers, formId, user)| == |Filter(answers, Qualifies(db, formId, user))|
    decreases |answers|
  {
    if answers != [] {
      SelectedCount(db, answers[..|answers| - 1], formId, user);
    }
  }

  lemma {:induction false} SelectedComplete(db: Db, answers: seq<Answer>, formId: Id, user: Id)
    ensures forall i :: 0 <= i < |answers| && JoinAnswer(db, answers[i], formId, user).Some? ==>
      JoinAnswer(db, answers[i], formId, user).value in Selected(db, answers, formId, user)
    decreases |answers|
  {
    if answers != [] {
      var n := |answers| - 1;
      var init := answers[..n];
      SelectedComplete(db, init, formId, user);
      var rest := Selected(db, init, formId, user);
      var rows := Selected(db, answers, formId, user);
      assert rows[..|rest|] == rest;
      forall i | 0 <= i < n && JoinAnswer(db, answers[i], formId, user).Some?
        ensures JoinAnswer(db, answers[i], formId, user).value in rows
      {
        assert answers[i] == init[i];
      }
    }
  }

  lemma SelectedSound(db: Db, answers: seq<Answer>, formId: Id, user: Id)
    ensures var rows := Selected(db, answers, formId, user);
      forall k :: 0 <= k < |rows| ==>
        exists i :: 0 <= i < |answers| && JoinAnswer(db, answers[i], formId, user) == Some(rows[k])
  {
    var rows := Selected(db, answers, formId, user);
    forall k | 0 <= k < |rows|
      ensures exists i :: 0 <= i < |answers| && JoinAnswer(db, answers[i], formId, user) == Some(rows[k])
    {
      var i := SelectedSource(db, answers, formId, user, k);
    }
  }

  /** The answer that selected row `k` was joined from. */
  lemma {:induction false} SelectedSource(db: Db, answers: seq<Answer>, formId: Id, user: Id, k: nat) returns (i: nat)
    requires k < |Selected(db, answers, formId, user)|
    ensures i < |answers| && JoinAnswer(db, answers[i], formId, user) == Some(Selected(db, answers, formId, user)[k])
    decreases |answers|
  {
    var n := |answers| - 1;
    var init := answers[..n];
    var rest := Selected(db, init, formId, user);
    var rows := Selected(db, answers, formId, user);
    assert rows[..|rest|] == rest;
    if k < |rest| {
      assert rows[k] == rest[k];
      i := SelectedSource(db, init, formId, user, k);
      assert answers[i] == init[i];
    } else {
      i := n;
    }
  }

  // ---- bucketing by response ---------------------------------------------

  datatype Bucket = Bucket(id: Id, rows: seq<Joined>)

  function GroupIndex(bs: seq<Bucket>, id: Id): (r: Option<nat>)
    ensures r.Some? ==> r.value < |bs| && bs[r.value].id == id
    ensures r.None? ==> forall i :: 0 <= i < |bs| ==> bs[i].id != id
    decreases |bs|
  {
    if bs == [] then None
    else if bs[|bs| - 1].id == id then Some(|bs| - 1)
    else GroupIndex(bs[..|bs| - 1], id)
  }

  /** `groupedResponses[responseId] ??= ...; push(answer)`: a bucket per
      response id, in the order the ids first occur. */
  function Bucketed(rows: seq<Joined>): seq<Bucket> {
    if rows == [] then []
    else
      var bs := Bucketed(rows[..|rows| - 1]);
      var j := rows[|rows| - 1];
      match GroupIndex(bs, j.answer.responseId)
      case None => bs + [Bucket(j.answer.responseId, [j])]
      case Some(i) => bs[i := bs[i].(rows := bs[i].rows + [j])]
  }

  function Flatten(bs: seq<Bucket>): seq<Joined> {
    if bs == [] then [] else Flatten(bs[..|bs| - 1]) + bs[|bs| - 1].rows
  }

  lemma {:induction false} FlattenUpdate(bs: seq<Bucket>, i: nat, j: Joined)
    requires i < |bs|
    ensures multiset(Flatten(bs[i := bs[i].(rows := bs[i].rows + [j])])) == multiset(Flatten(bs)) + multiset{j}
  {
    var n := |bs| - 1;
    var upd := bs[i := bs[i].(rows := bs[i].rows + [j])];
    assert Flatten(upd) == Flatten(upd[..n]) + upd[n].rows;
    assert Flatten(bs) == Flatten(bs[..n]) + bs[n].rows;
    if i < n {
      assert upd[..n] == bs[..n][i := bs[i].(rows := bs[i].rows + [j])];
      assert upd[n] == bs[n];
      FlattenUpdate(bs[..n], i, j);
    } else {
      assert upd[..n] == bs[..n];
      assert upd[n].rows == bs[n].rows + [j];
    }
  }

  /** Every answer lands in a bucket: the buckets hold exactly the selected
      answers, counted with multiplicity. */
  lemma {:induction false} BucketedKeepsEveryAnswer(rows: seq<Joined>)
    ensures multiset(Flatten(Bucketed(rows))) == multiset(rows)
  {
    if rows != [] {
      var init := rows[..|rows| - 1];
      var j := rows[|rows| - 1];
      var bs := Bucketed(init);
      BucketedKeepsEveryAnswer(init);
      assert rows == init + [j];
      assert multiset(rows) == multiset(init) + multiset{j};
      match GroupIndex(bs, j.answer.responseId)
      case None =>
        var after := bs + [Bucket(j.answer.responseId, [j])];
        assert Bucketed(rows) == after;
        assert after[..|bs|] == bs;
        assert Flatten(after) == Flatten(bs) + [j];
      case Some(i) =>
        assert Bucketed(rows) == bs[i := bs[i].(rows := bs[i].rows + [j])];
        FlattenUpdate(bs, i, j);
    }
  }

  /** ... and in the bucket of its own response: each bucket is non-empty and
      holds only answers of its response ... */
  lemma {:induction false} BucketedByResponse(rows: seq<Joined>)
    ensures forall i, x :: 0 <= i < |Bucketed(rows)| && x in Bucketed(rows)[i].rows ==> x.answer.responseId == Bucketed(rows)[i].id
    ensures forall i :: 0 <= i < |Bucketed(rows)| ==> Bucketed(rows)[i].rows != []
  {
    if rows != [] {
      var init := rows[..|rows| - 1];
      var j := rows[|rows| - 1];
      var bs := Bucketed(init);
      BucketedByResponse(init);
      match GroupIndex(bs, j.answer.responseId)
      case None =>
        assert Bucketed(rows) == bs + [Bucket(j.answer.responseId, [j])];
      case Some(g) =>
        var after := bs[g := bs[g].(rows := bs[g].rows + [j])];
        assert Bucketed(rows) == after;
        forall i, x | 0 <= i < |after| && x in after[i].rows ensures x.answer.responseId == after[i].id {
          if i == g && x !in bs[g].rows {
            assert x == j;
          }
        }
    }
  }

  /** ... and no two buckets share a response. */
  lemma {:induction false} BucketedIdsDistinct(rows: seq<Joined>)
    ensures forall i, k :: 0 <= i < k < |Bucketed(rows)| ==> Bucketed(rows)[i].id != Bucketed(rows)[k].id
  {
    if rows != [] {
      var init := rows[..|rows| - 1];
      var j := rows[|rows| - 1];
      BucketedIdsDistinct(init);
      var bs := Bucketed(init);
      match GroupIndex(bs, j.answer.responseId)
      case None =>
        assert Bucketed(rows) == bs + [Bucket(j.answer.responseId, [j])];
      case Some(g) =>
        assert Bucketed(rows) == bs[g := bs[g].(rows := bs[g].rows + [j])];
    }
  }

  // ---- getGroupedResponsesFromUser ---------------------------------------

  datatype GroupedAnswer = GroupedAnswer(
    questionId: Id, questionText: string, questionOrder: int, answerText: string,
    options: seq<OptionRow>, questionType: QuestionType)

  datatype Group = Group(id: Id, submittedAt: int, answers: seq<GroupedAnswer>)

  function Entry(j: Joined): GroupedAnswer {
    GroupedAnswer(j.question.id, j.question.text, j.question.order, j.answer.answerText, j.options, j.question.qtype)
  }

  function QuestionOrderKey(e: GroupedAnswer): int { e.questionOrder }
  function NewestFirstKey(g: Group): int { -g.submittedAt }

  /** A bucket's answers as the page shows them, in the order they were selected. */
  function Entries(b: Bucket): seq<GroupedAnswer> {
    seq(|b.rows|, k requires 0 <= k < |b.rows| => Entry(b.rows[k]))
  }

  /** A bucket as returned: stamped with its response's time, its answers in question order. */
  function ToGroup(b: Bucket): Group {
    var submittedAt := if b.rows == [] then 0 else b.rows[0].response.submittedAt;
    Group(b.id, submittedAt, SortBy(Entries(b), QuestionOrderKey))
  }

  /** The group keeps its response's id and exactly the bucket's answers, in question order. */
  lemma ToGroupSpec(b: Bucket)
    ensures ToGroup(b).id == b.id && SortedBy(ToGroup(b).answers, QuestionOrderKey)
    ensures multiset(ToGroup(b).answers) == multiset(Entries(b))
  {
    SortBySpec(Entries(b), QuestionOrderKey);
  }

  function GroupedResponses(rows: seq<Joined>): seq<Group> {
    var bs := Bucketed(rows);
    SortBy(seq(|bs|, i requires 0 <= i < |bs| => ToGroup(bs[i])), NewestFirstKey)
  }

  /** The groups come newest first, one per bucket, answers within a group by question order. */
  lemma GroupedResponsesOrdered(rows: seq<Joined>)
    ensures var gs := GroupedResponses(rows);
      |gs| == |Bucketed(rows)|
      && (forall i, k :: 0 <= i < k < |gs| ==> gs[i].submittedAt >= gs[k].submittedAt)
      && (forall i :: 0 <= i < |gs| ==> SortedBy(gs[i].answers, QuestionOrderKey))
  {
    var bs := Bucketed(rows);
    var groups := seq(|bs|, i requires 0 <= i < |bs| => ToGroup(bs[i]));
    var gs := GroupedResponses(rows);
    SortBySpec(groups, NewestFirstKey);
    forall i, k | 0 <= i < k < |gs| ensures gs[i].submittedAt >= gs[k].submittedAt {
      assert NewestFirstKey(gs[i]) <= NewestFirstKey(gs[k]);
    }
    forall k | 0 <= k < |groups| ensures SortedBy(groups[k].answers, QuestionOrderKey) {
      ToGroupSpec(bs[k]);
    }
    PermutedGroupsSorted(groups, gs);
  }

  /** Reordering groups keeps each group's answers as they were. */
  lemma PermutedGroupsSorted(groups: seq<Group>, gs: seq<Group>)
    requires multiset(gs) == multiset(groups)
    requires forall k :: 0 <= k < |groups| ==> SortedBy(groups[k].answers, QuestionOrderKey)
    ensures forall i :: 0 <= i < |gs| ==> SortedBy(gs[i].answers, QuestionOrderKey)
  {
    forall i | 0 <= i < |gs| ensures SortedBy(gs[i].answers, QuestionOrderKey) {
      assert gs[i] in multiset(groups);
      var k :| 0 <= k < |groups| && groups[k] == gs[i];
    }
  }

  /** The groups are exactly the buckets' groups: none lost, none invented. */
  lemma GroupedResponsesAreBuckets(rows: seq<Joined>)
    ensures var gs := GroupedResponses(rows);
      (forall i :: 0 <= i < |Bucketed(rows)| ==> ToGroup(Bucketed(rows)[i]) in gs)
      && (forall i :: 0 <= i < |gs| ==> exists k :: 0 <= k < |Bucketed(rows)| && gs[i] == ToGroup(Bucketed(rows)[k]))
  {
    var bs := Bucketed(rows);
    var groups := seq(|bs|, i requires 0 <= i < |bs| => ToGroup(bs[i]));
    var gs := GroupedResponses(rows);
    SortBySpec(groups, NewestFirstKey);
    forall i | 0 <= i < |bs| ensures ToGroup(bs[i]) in gs {
      assert groups[i] in multiset(gs);
    }
    forall i | 0 <= i < |gs| ensures exists k :: 0 <= k < |bs| && gs[i] == ToGroup(bs[k]) {
      assert gs[i] in multiset(groups);
      var k :| 0 <= k < |groups| && groups[k] == gs[i];
    }
  }

  // ---- getResponsesFromForm ----------------------------------------------

  /** An array slot: a string, or a hole left when an assignment beyond the
      end lengthened the array. */
  datatype Cell = Str(text: string) | Hole

  function Blank(n: nat): (r: seq<Cell>)
    ensures |r| == n && forall i :: 0 <= i < n ==> r[i] == Str("")
  {
    seq(n, _ => Str(""))
  }

  /** `row[index] = value` on a JavaScript array: a negative index only sets a
      property outside the array, an index past the end grows it with holes. */
  function Assign(row: seq<Cell>, index: int, value: string): (r: seq<Cell>)
    ensures 0 <= index < |row| ==> r == row[index := Str(value)]
  {
    if index < 0 then row
    else if index < |row| then row[index := Str(value)]
    else row + seq(index - |row|, _ => Hole) + [Str(value)]
  }

  /** Slot by slot: a negative index changes nothing; otherwise the slot at
      `index` holds the value, every other existing slot is kept, the array is
      just long enough to hold `index`, and any slots it grew by are holes. */
  lemma AssignSlots(row: seq<Cell>, index: int, value: string)
    ensures index < 0 ==> Assign(row, index, value) == row
    ensures 0 <= index ==>
      var r := Assign(row, index, value);
      |r| == (if index < |row| then |row| else index + 1) && r[index] == Str(value)
      && (forall i :: 0 <= i < |row| && i != index ==> r[i] == row[i])
      && (forall i :: |row| <= i < index ==> r[i] == Hole)
  {
  }

  /** The value exported for an answer: the option's text for a single choice
      connected to exactly one option, "" for any other single choice, the
      stored text otherwise (so "" for a multiple choice). */
  function CellText(j: Joined): string {
    if j.question.qtype == SelectOneOption then
      if |j.options| == 1 then j.options[0].optionText else ""
    else j.answer.answerText
  }

  function RowOrderKey(j: Joined): int { j.question.order }

  /** The `forEach` that writes each answer at `order - 1`. */
  function Fill(row: seq<Cell>, js: seq<Joined>): seq<Cell> {
    if js == [] then row
    else
      var last := js[|js| - 1];
      Assign(Fill(row, js[..|js| - 1]), last.question.order - 1, CellText(last))
  }

  /** The text of the last answer for the question at `order`, if any. */
  function LastAt(js: seq<Joined>, order: int): Option<string> {
    if js == [] then None
    else if js[|js| - 1].question.order == order then Some(CellText(js[|js| - 1]))
    else LastAt(js[..|js| - 1], order)
  }

  /** With every order in `1..|row|`, filling keeps the length and slot `i`
      holds the last answer for order `i + 1`, or what it held before. */
  lemma {:induction false} FillSlots(row: seq<Cell>, js: seq<Joined>)
    requires forall k :: 0 <= k < |js| ==> 1 <= js[k].question.order <= |row|
    ensures |Fill(row, js)| == |row|
    ensures forall i :: 0 <= i < |row| ==>
      Fill(row, js)[i] == (if LastAt(js, i + 1).Some? then Str(LastAt(js, i + 1).value) else row[i])
  {
    if js != [] {
      var init := js[..|js| - 1];
      assert forall k :: 0 <= k < |init| ==> init[k] == js[k];
      FillSlots(row, init);
    }
  }

  function QuestionOrder(q: Question): int { q.order }

  /** The form's questions by `order` — selected by form id alone. */
  function HeaderQuestions(db: Db, formId: Id): seq<Question> {
    SortBy(Submission.FormQuestions(db.questions, formId), QuestionOrder)
  }

  function Header(db: Db, formId: Id): (h: seq<Cell>)
    ensures |h| == |HeaderQuestions(db, formId)|
  {
    var qs := HeaderQuestions(db, formId);
    seq(|qs|, i requires 0 <= i < |qs| => Str(qs[i].text))
  }

  function MatrixRow(b: Bucket, n: nat): seq<Cell> {
    Fill(Blank(n), SortBy(b.rows, RowOrderKey))
  }

  /** `[questionsNames].concat(formattedResponses)`: the header, then one row per response. */
  function Matrix(db: Db, formId: Id, user: Id): seq<seq<Cell>> {
    var n := |HeaderQuestions(db, formId)|;
    var bs := Bucketed(Selected(db, db.answers, formId, user));
    [Header(db, formId)] + MatrixRows(bs, n)
  }

  /** One exported row per bucket, each `n` cells wide before its answers are written. */
  function MatrixRows(bs: seq<Bucket>, n: nat): seq<seq<Cell>> {
    seq(|bs|, i requires 0 <= i < |bs| => MatrixRow(bs[i], n))
  }

  /** The export's shape: the header, then one row per response; when every
      answered question's order lies in `1..N`, each row has exactly N cells
      and cell `i` is the last answer (in question order) for order `i + 1`,
      or "" if the response did not answer it. */
  lemma MatrixRowCells(b: Bucket, n: nat)
    requires forall k :: 0 <= k < |b.rows| ==> 1 <= b.rows[k].question.order <= n
    ensures |MatrixRow(b, n)| == n
    ensures forall i :: 0 <= i < n ==>
      var last := LastAt(SortBy(b.rows, RowOrderKey), i + 1);
      MatrixRow(b, n)[i] == Str(if last.Some? then last.value else "")
  {
    var sorted := SortBy(b.rows, RowOrderKey);
    SortBySpec(b.rows, RowOrderKey);
    forall k | 0 <= k < |sorted| ensures 1 <= sorted[k].question.order <= n {
      assert sorted[k] in multiset(b.rows);
    }
    FillSlots(Blank(n), sorted);
  }

  // ---- the loops of the two read-outs -------------------------------------

  /** The loop that fills the per-response dictionary: look the response id
      up, open a bucket for it if there is none, push the answer. */
  method BucketRows(rows: seq<Joined>) returns (buckets: seq<Bucket>)
    ensures buckets == Bucketed(rows)
  {
    buckets := [];
    var k := 0;
    while k < |rows|
      invariant 0 <= k <= |rows|
      invariant buckets == Bucketed(rows[..k])
    {
      assert rows[..k + 1][..k] == rows[..k];
      var j := rows[k];
      match GroupIndex(buckets, j.answer.responseId) {
        case None =>
          buckets := buckets + [Bucket(j.answer.responseId, [j])];
        case Some(i) =>
          buckets := buckets[i := buckets[i].(rows := buckets[i].rows + [j])];
      }
      k := k + 1;
    }
    assert rows[..|rows|] == rows;
  }

  /** `getGroupedResponsesFromUser` after its query: bucket, sort each bucket, sort the buckets. */
  method GroupRows(rows: seq<Joined>) returns (groups: seq<Group>)
    ensures groups == GroupedResponses(rows)
  {
    var bs := BucketRows(rows);
    var values: seq<Group> := [];
    var i := 0;
    while i < |bs|
      invariant 0 <= i <= |bs|
      invariant |values| == i && forall k :: 0 <= k < i ==> values[k] == ToGroup(bs[k])
    {
      values := values + [ToGroup(bs[i])];
      i := i + 1;
    }
    assert values == seq(|bs|, k requires 0 <= k < |bs| => ToGroup(bs[k]));
    groups := SortBy(values, NewestFirstKey);
  }

  /** One exported row: `n` empty strings, then each answer written at its order. */
  method FillRow(b: Bucket, n: nat) returns (row: seq<Cell>)
    ensures row == MatrixRow(b, n)
  {
    var sorted := SortBy(b.rows, RowOrderKey);
    row := Blank(n);
    var k := 0;
    while k < |sorted|
      invariant 0 <= k <= |sorted|
      invariant row == Fill(Blank(n), sorted[..k])
    {
      assert sorted[..k + 1][..k] == sorted[..k];
      row := Assign(row, sorted[k].question.order - 1, CellText(sorted[k]));
      k := k + 1;
    }
    assert sorted[..|sorted|] == sorted;
  }

  /** The rows of `getResponsesFromForm`: each bucket filled in turn. */
  method FillRows(bs: seq<Bucket>, n: nat) returns (formatted: seq<seq<Cell>>)
    ensures formatted == MatrixRows(bs, n)
  {
    formatted := [];
    var i := 0;
    while i < |bs|
      invariant 0 <= i <= |bs|
      invariant |formatted| == i && forall k :: 0 <= k < i ==> formatted[k] == MatrixRow(bs[k], n)
    {
      var row := FillRow(bs[i], n);
      formatted := formatted + [row];
      i := i + 1;
    }
    assert formatted == MatrixRows(bs, n);
  }

  /** `getResponsesFromForm` after its queries: the header, then a row per bucket. */
  method ExportRows(db: Db, formId: Id, user: Id) returns (m: seq<seq<Cell>>)
    ensures m == Matrix(db, formId, user)
  {
    var bs := BucketRows(Selected(db, db.answers, formId, user));
    var formatted := FillRows(bs, |HeaderQuestions(db, formId)|);
    m := [Header(db, formId)] + formatted;
  }
}
