/** `createFormFromTemplate`: a new form titled after the template, then for
    each template question in turn one question row and, for the two select
    types, one option row per listed text. Rows get ids from the counter in
    the order they are created. */
module TemplateInstantiation {
  import opened Results
  import opened Ids
  import opened Schema
  import opened Seqs
  import opened JsText
  import opened Tables
  import opened Catalogue
  import QuestionOrder

  function OfQuestion(questionId: Id): OptionRow -> bool {
    (o: OptionRow) => o.questionId == questionId
  }

  /** The option texts a template question brings: its list, for a select type that has one. */
  function OptionTexts(tq: TemplateQuestion): seq<string> {
    if (tq.qtype == SelectOneOption || tq.qtype == SelectMultipleOptions) && tq.options.Some? then tq.options.value
    else []
  }

  /** The question row made from template question `i`. */
  function NewQuestion(tq: TemplateQuestion, formId: Id, user: Id, i: nat, id: Id): Question {
    Question(id, formId, user, tq.text, OrElse(tq.placeholder, ""), tq.qtype, i + 1, false)
  }

  /** The option rows for one question, ids minted from `next`. */
  function NewOptions(questionId: Id, texts: seq<string>, next: nat): (os: seq<OptionRow>)
    ensures |os| == |texts|
  {
    seq(|texts|, j requires 0 <= j < |texts| => OptionRow(MintId(next + j), questionId, texts[j], j + 1))
  }

  /** Option `j` carries text `j`, order `j + 1` and the `j`-th id from `next`. */
  lemma NewOptionsAt(questionId: Id, texts: seq<string>, next: nat)
    ensures forall j :: 0 <= j < |texts| ==>
      NewOptions(questionId, texts, next)[j] == OptionRow(MintId(next + j), questionId, texts[j], j + 1)
  {
  }

  /** One more text adds one more option row, minted next. */
  lemma NewOptionsSnoc(questionId: Id, texts: seq<string>, next: nat, j: nat)
    requires j < |texts|
    ensures NewOptions(questionId, texts[..j + 1], next)
         == NewOptions(questionId, texts[..j], next) + [OptionRow(MintId(next + j), questionId, texts[j], j + 1)]
  {
    NewOptionsAt(questionId, texts[..j + 1], next);
    NewOptionsAt(questionId, texts[..j], next);
  }

  /** What one pass of the outer loop adds. */
  function AddQuestion(db: Db, formId: Id, user: Id, tq: TemplateQuestion, i: nat): Db {
    var q := NewQuestion(tq, formId, user, i, MintId(db.nextId));
    var texts := OptionTexts(tq);
    db.(questions := db.questions + [q],
        options := db.options + NewOptions(q.id, texts, db.nextId + 1),
        nextId := db.nextId + 1 + |texts|)
  }

  /** What the first `|tqs|` passes of the outer loop add. */
  function AddQuestions(db: Db, formId: Id, user: Id, tqs: seq<TemplateQuestion>): Db
    decreases |tqs|
  {
    if tqs == [] then db
    else AddQuestion(AddQuestions(db, formId, user, tqs[..|tqs| - 1]), formId, user, tqs[|tqs| - 1], |tqs| - 1)
  }

  function NewForm(db: Db, user: Id, t: FormTemplate): Form {
    Form(MintId(db.nextId), user, t.name, false)
  }

  function CreateFormFromTemplate(db: Db, user: Option<Id>, t: FormTemplate): (c: Change<Form>)
    ensures user.None? <==> c == Change(db, Refused(NotAuthenticated))
    ensures c.reply.Ok? <==> user.Some?
    ensures c.reply.Ok? ==> c.reply.value.title == t.name && c.reply.value.userId == user.value
                            && c.db.forms == db.forms + [c.reply.value]
  {
    if user.None? then Change(db, Refused(NotAuthenticated))
    else
      var form := NewForm(db, user.value, t);
      AddQuestionsKeepForms(WithForm(db, form), form.id, user.value, t.questions);
      Change(AddQuestions(WithForm(db, form), form.id, user.value, t.questions), Ok(form))
  }

  lemma {:induction false} AddQuestionsKeepForms(db: Db, formId: Id, user: Id, tqs: seq<TemplateQuestion>)
    ensures AddQuestions(db, formId, user, tqs).forms == db.forms
    decreases |tqs|
  {
    if tqs != [] {
      AddQuestionsKeepForms(db, formId, user, tqs[..|tqs| - 1]);
    }
  }

  /** Question `k` of the new block is template question `k` at order `k + 1`. */
  predicate QuestionFrom(q: Question, tq: TemplateQuestion, formId: Id, user: Id, k: nat) {
    q.formId == formId && q.userId == user && q.text == tq.text && q.qtype == tq.qtype
    && q.placeholder == OrElse(tq.placeholder, "") && q.order == k + 1 && !q.mandatory
  }

  /** A question's options, in table order, carry its texts at orders `1..M`. */
  predicate OptionsFrom(os: seq<OptionRow>, texts: seq<string>) {
    |os| == |texts| && forall j :: 0 <= j < |os| ==> os[j].optionText == texts[j] && os[j].order == j + 1
  }

  /** Row `base + k` of the questions table is template question `k` with its options. */
  predicate BlockAt(after: Db, base: nat, tq: TemplateQuestion, formId: Id, user: Id, k: nat) {
    base + k < |after.questions|
    && QuestionFrom(after.questions[base + k], tq, formId, user, k)
    && OptionsFrom(Filter(after.options, OfQuestion(after.questions[base + k].id)), OptionTexts(tq))
  }

  /** Everything the outer loop promises about the rows it has added so far. */
  predicate Instantiated(before: Db, after: Db, formId: Id, user: Id, tqs: seq<TemplateQuestion>) {
    var n := |before.questions|;
    after.forms == before.forms && after.responses == before.responses && after.answers == before.answers
    && |after.questions| == n + |tqs| && after.questions[..n] == before.questions
    && |before.options| <= |after.options| && after.options[..|before.options|] == before.options
    && (forall k :: 0 <= k < |tqs| ==> BlockAt(after, n, tqs[k], formId, user, k))
    && AddedOptionsOwned(before, after)
  }

  /** The ids of a run of question rows. */
  function IdsOf(qs: seq<Question>): set<Id> {
    set i | 0 <= i < |qs| :: qs[i].id
  }

  /** Every option row added after `before` belongs to one of the question rows added after it. */
  predicate AddedOptionsOwned(before: Db, after: Db) {
    |before.questions| <= |after.questions| && |before.options| <= |after.options|
    && forall i :: |before.options| <= i < |after.options| ==>
         after.options[i].questionId in IdsOf(after.questions[|before.questions|..])
  }

  /** A pass only adds options of the question it adds. */
  lemma AddedOptionsOwnedStep(db: Db, mid: Db, formId: Id, user: Id, tq: TemplateQuestion, n: nat)
    requires AddedOptionsOwned(db, mid)
    ensures AddedOptionsOwned(db, AddQuestion(mid, formId, user, tq, n))
  {
    var after := AddQuestion(mid, formId, user, tq, n);
    var b := |db.questions|;
    var q := NewQuestion(tq, formId, user, n, MintId(mid.nextId));
    var os := NewOptions(q.id, OptionTexts(tq), mid.nextId + 1);
    NewOptionsAt(q.id, OptionTexts(tq), mid.nextId + 1);
    assert after.options == mid.options + os;
    assert after.questions[b..] == mid.questions[b..] + [q];
    forall i | |db.options| <= i < |after.options|
      ensures after.options[i].questionId in IdsOf(after.questions[b..])
    {
      if i < |mid.options| {
        assert after.options[i] == mid.options[i];
        var k :| 0 <= k < |mid.questions[b..]| && mid.questions[b..][k].id == mid.options[i].questionId;
        assert after.questions[b..][k] == mid.questions[b..][k];
      } else {
        assert after.options[i] == os[i - |mid.options|];
        assert after.questions[b..][|mid.questions| - b] == q;
      }
    }
  }

  /** No option of `db` belongs to a question with the fresh id `MintId(n)`. */
  lemma NoOptionsOfFresh(db: Db, n: nat)
    requires Valid(db) && db.nextId <= n
    ensures Filter(db.options, OfQuestion(MintId(n))) == []
  {
    ParseDecimalOfDecimal(n);
    FilterKeepsNone(db.options, OfQuestion(MintId(n)));
  }

  /** One pass keeps the invariant; its question's id is fresh. */
  lemma AddQuestionKeepsValid(db: Db, formId: Id, user: Id, tq: TemplateQuestion, i: nat)
    requires Valid(db) && IdNumber(formId) < db.nextId
    ensures Valid(AddQuestion(db, formId, user, tq, i))
    ensures db.nextId < AddQuestion(db, formId, user, tq, i).nextId
  {
    var after := AddQuestion(db, formId, user, tq, i);
    var q := NewQuestion(tq, formId, user, i, MintId(db.nextId));
    var os := NewOptions(q.id, OptionTexts(tq), db.nextId + 1);
    NewOptionsAt(q.id, OptionTexts(tq), db.nextId + 1);
    WellMintedPush(db.questions, q, QuestionKey, db.nextId);
    WellMintedRaise(db.questions + [q], QuestionKey, db.nextId + 1, after.nextId);
    ConsecutiveWellMinted(os, OptionKey, db.nextId + 1);
    WellMintedRaise(db.options, OptionKey, db.nextId, db.nextId + 1);
    WellMintedConcat(db.options, os, OptionKey, db.nextId + 1, after.nextId);
    WellMintedRaise(db.forms, FormKey, db.nextId, after.nextId);
    WellMintedRaise(db.responses, ResponseKey, db.nextId, after.nextId);
    WellMintedRaise(db.answers, AnswerKey, db.nextId, after.nextId);
    AddQuestionReferences(db, formId, user, tq, i);
  }

  /** After one pass every question still names a minted form, every option a minted question. */
  lemma AddQuestionReferences(db: Db, formId: Id, user: Id, tq: TemplateQuestion, i: nat)
    requires Valid(db) && IdNumber(formId) < db.nextId
    ensures var after := AddQuestion(db, formId, user, tq, i);
      (forall k :: 0 <= k < |after.options| ==> IdNumber(after.options[k].questionId) < after.nextId)
      && (forall k :: 0 <= k < |after.questions| ==> IdNumber(after.questions[k].formId) < after.nextId)
  {
    AddQuestionOptionReferences(db, formId, user, tq, i);
    var after := AddQuestion(db, formId, user, tq, i);
    forall k | 0 <= k < |after.questions| ensures IdNumber(after.questions[k].formId) < after.nextId {
      if k < |db.questions| {
        assert after.questions[k] == db.questions[k];
      }
    }
  }

  lemma AddQuestionOptionReferences(db: Db, formId: Id, user: Id, tq: TemplateQuestion, i: nat)
    requires Valid(db)
    ensures var after := AddQuestion(db, formId, user, tq, i);
      forall k :: 0 <= k < |after.options| ==> IdNumber(after.options[k].questionId) < after.nextId
  {
    var after := AddQuestion(db, formId, user, tq, i);
    var q := NewQuestion(tq, formId, user, i, MintId(db.nextId));
    var os := NewOptions(q.id, OptionTexts(tq), db.nextId + 1);
    NewOptionsAt(q.id, OptionTexts(tq), db.nextId + 1);
    ParseDecimalOfDecimal(db.nextId);
    assert after.options == db.options + os;
    forall k | 0 <= k < |after.options| ensures IdNumber(after.options[k].questionId) < after.nextId {
      if k < |db.options| {
        assert after.options[k] == db.options[k];
      } else {
        assert after.options[k] == os[k - |db.options|];
      }
    }
  }

  lemma {:induction false} AddQuestionsKeepsValid(db: Db, formId: Id, user: Id, tqs: seq<TemplateQuestion>)
    requires Valid(db) && IdNumber(formId) < db.nextId
    ensures Valid(AddQuestions(db, formId, user, tqs))
    ensures db.nextId <= AddQuestions(db, formId, user, tqs).nextId
    decreases |tqs|
  {
    if tqs != [] {
      var n := |tqs| - 1;
      AddQuestionsKeepsValid(db, formId, user, tqs[..n]);
      AddQuestionKeepsValid(AddQuestions(db, formId, user, tqs[..n]), formId, user, tqs[n], n);
    }
  }

  /** The outer loop's promise: question `k` comes from template question `k`
      with order `k + 1`, and has exactly its template's options at orders `1..M`. */
  lemma {:induction false} AddQuestionsInstantiates(db: Db, formId: Id, user: Id, tqs: seq<TemplateQuestion>)
    requires Valid(db) && IdNumber(formId) < db.nextId
    ensures Instantiated(db, AddQuestions(db, formId, user, tqs), formId, user, tqs)
    decreases |tqs|
  {
    if tqs != [] {
      var n := |tqs| - 1;
      AddQuestionsInstantiates(db, formId, user, tqs[..n]);
      var mid := AddQuestions(db, formId, user, tqs[..n]);
      AddQuestionsKeepsValid(db, formId, user, tqs[..n]);
      NoOptionsOfFresh(mid, mid.nextId);
      InstantiatedStep(db, mid, formId, user, tqs);
    }
  }

  lemma InstantiatedStep(db: Db, mid: Db, formId: Id, user: Id, tqs: seq<TemplateQuestion>)
    requires tqs != [] && WellMinted(mid.questions, QuestionKey, mid.nextId)
    requires Filter(mid.options, OfQuestion(MintId(mid.nextId))) == []
    requires Instantiated(db, mid, formId, user, tqs[..|tqs| - 1])
    ensures Instantiated(db, AddQuestion(mid, formId, user, tqs[|tqs| - 1], |tqs| - 1), formId, user, tqs)
  {
    var n := |tqs| - 1;
    var after := AddQuestion(mid, formId, user, tqs[n], n);
    var base := |db.questions|;
    forall k | 0 <= k < n ensures BlockAt(mid, base, tqs[k], formId, user, k) {
      assert tqs[..n][k] == tqs[k];
    }
    assert forall i :: 0 <= i < |mid.questions| ==> IdNumber(QuestionKey(mid.questions[i])) < mid.nextId;
    BlocksStep(mid, base, formId, user, tqs);
    AddedOptionsOwnedStep(db, mid, formId, user, tqs[n], n);
    assert after.questions[..base] == mid.questions[..base];
    assert after.options[..|db.options|] == mid.options[..|db.options|];
  }

  lemma BlocksStep(mid: Db, base: nat, formId: Id, user: Id, tqs: seq<TemplateQuestion>)
    requires tqs != [] && |mid.questions| == base + |tqs| - 1
    requires forall i :: 0 <= i < |mid.questions| ==> IdNumber(mid.questions[i].id) < mid.nextId
    requires Filter(mid.options, OfQuestion(MintId(mid.nextId))) == []
    requires forall k :: 0 <= k < |tqs| - 1 ==> BlockAt(mid, base, tqs[k], formId, user, k)
    ensures var after := AddQuestion(mid, formId, user, tqs[|tqs| - 1], |tqs| - 1);
      forall k :: 0 <= k < |tqs| ==> BlockAt(after, base, tqs[k], formId, user, k)
  {
    var n := |tqs| - 1;
    EarlierBlocksKept(mid, base, formId, user, tqs);
    NewBlock(mid, formId, user, tqs[n], n, base);
  }

  lemma EarlierBlocksKept(mid: Db, base: nat, formId: Id, user: Id, tqs: seq<TemplateQuestion>)
    requires tqs != [] && |mid.questions| == base + |tqs| - 1
    requires forall i :: 0 <= i < |mid.questions| ==> IdNumber(mid.questions[i].id) < mid.nextId
    requires forall k :: 0 <= k < |tqs| - 1 ==> BlockAt(mid, base, tqs[k], formId, user, k)
    ensures var after := AddQuestion(mid, formId, user, tqs[|tqs| - 1], |tqs| - 1);
      forall k :: 0 <= k < |tqs| - 1 ==> BlockAt(after, base, tqs[k], formId, user, k)
  {
    var n := |tqs| - 1;
    forall k | 0 <= k < n ensures BlockAt(AddQuestion(mid, formId, user, tqs[n], n), base, tqs[k], formId, user, k) {
      EarlierBlockKept(mid, formId, user, tqs[n], n, base, tqs[k], k);
    }
  }

  /** A pass leaves every earlier question and its options as they were. */
  lemma EarlierBlockKept(mid: Db, formId: Id, user: Id, tq: TemplateQuestion, n: nat, base: nat, earlier: TemplateQuestion, k: nat)
    requires BlockAt(mid, base, earlier, formId, user, k) && IdNumber(mid.questions[base + k].id) < mid.nextId
    ensures BlockAt(AddQuestion(mid, formId, user, tq, n), base, earlier, formId, user, k)
  {
    var after := AddQuestion(mid, formId, user, tq, n);
    var i := base + k;
    var id := mid.questions[i].id;
    var os := NewOptions(MintId(mid.nextId), OptionTexts(tq), mid.nextId + 1);
    NewOptionsAt(MintId(mid.nextId), OptionTexts(tq), mid.nextId + 1);
    assert after.options == mid.options + os;
    assert after.questions[i] == mid.questions[i];
    FilterAppend(mid.options, os, OfQuestion(id));
    ParseDecimalOfDecimal(mid.nextId);
    FilterKeepsNone(os, OfQuestion(id));
    assert Filter(mid.options, OfQuestion(id)) + [] == Filter(mid.options, OfQuestion(id));
  }

  /** The question a pass adds comes from its template question and owns exactly the options added with it. */
  lemma NewBlock(mid: Db, formId: Id, user: Id, tq: TemplateQuestion, n: nat, base: nat)
    requires |mid.questions| == base + n
    requires Filter(mid.options, OfQuestion(MintId(mid.nextId))) == []
    ensures BlockAt(AddQuestion(mid, formId, user, tq, n), base, tq, formId, user, n)
  {
    var after := AddQuestion(mid, formId, user, tq, n);
    var id := MintId(mid.nextId);
    assert after.questions[base + n] == NewQuestion(tq, formId, user, n, id);
    NewOptionsOnly(mid, formId, user, tq, n);
    var os := NewOptions(id, OptionTexts(tq), mid.nextId + 1);
    NewOptionsAt(id, OptionTexts(tq), mid.nextId + 1);
    assert OptionsFrom(os, OptionTexts(tq));
  }

  lemma NewOptionsOnly(mid: Db, formId: Id, user: Id, tq: TemplateQuestion, n: nat)
    requires Filter(mid.options, OfQuestion(MintId(mid.nextId))) == []
    ensures Filter(AddQuestion(mid, formId, user, tq, n).options, OfQuestion(MintId(mid.nextId)))
         == NewOptions(MintId(mid.nextId), OptionTexts(tq), mid.nextId + 1)
  {
    var after := AddQuestion(mid, formId, user, tq, n);
    var id := MintId(mid.nextId);
    var os := NewOptions(id, OptionTexts(tq), mid.nextId + 1);
    NewOptionsAt(id, OptionTexts(tq), mid.nextId + 1);
    assert after.options == mid.options + os;
    FilterAppend(mid.options, os, OfQuestion(id));
    FilterKeepsAll(os, OfQuestion(id));
    assert [] + os == os;
  }

  /** The database once the form row is written, before any question. */
  function WithForm(db: Db, form: Form): Db {
    db.(forms := db.forms + [form], nextId := db.nextId + 1)
  }

  lemma WithFormKeepsValid(db: Db, user: Id, t: FormTemplate)
    requires Valid(db)
    ensures Valid(WithForm(db, NewForm(db, user, t)))
    ensures IdNumber(NewForm(db, user, t).id) == db.nextId
  {
    ParseDecimalOfDecimal(db.nextId);
    WellMintedPush(db.forms, NewForm(db, user, t), FormKey, db.nextId);
    WellMintedRaise(db.questions, QuestionKey, db.nextId, db.nextId + 1);
    WellMintedRaise(db.options, OptionKey, db.nextId, db.nextId + 1);
    WellMintedRaise(db.responses, ResponseKey, db.nextId, db.nextId + 1);
    WellMintedRaise(db.answers, AnswerKey, db.nextId, db.nextId + 1);
  }

  /** A signed-in call adds the form, then question `k` from template question `k`
      at order `k + 1` with exactly its options at orders `1..M`; a short-response
      question gets no option. */
  lemma TemplateRows(db: Db, user: Id, t: FormTemplate)
    requires Valid(db)
    ensures var c := CreateFormFromTemplate(db, Some(user), t);
      var base := |db.questions|;
      Instantiated(WithForm(db, c.reply.value), c.db, c.reply.value.id, user, t.questions)
      && forall k :: 0 <= k < |t.questions| && t.questions[k].qtype == ShortResponse ==>
           Filter(c.db.options, OfQuestion(c.db.questions[base + k].id)) == []
  {
    var form := NewForm(db, user, t);
    WithFormKeepsValid(db, user, t);
    AddQuestionsInstantiates(WithForm(db, form), form.id, user, t.questions);
    var after := AddQuestions(WithForm(db, form), form.id, user, t.questions);
    forall k | 0 <= k < |t.questions| && t.questions[k].qtype == ShortResponse
      ensures Filter(after.options, OfQuestion(after.questions[|db.questions| + k].id)) == []
    {
      assert BlockAt(after, |db.questions|, t.questions[k], form.id, user, k);
    }
  }

  /** The new form's questions carry the orders `1..N` with N the template's length. */
  lemma NewFormContiguous(db: Db, user: Id, t: FormTemplate)
    requires Valid(db)
    ensures var c := CreateFormFromTemplate(db, Some(user), t);
      QuestionOrder.Contiguous(c.db.questions, c.reply.value.id)
      && QuestionOrder.FormCount(c.db.questions, c.reply.value.id) == |t.questions|
  {
    var form := NewForm(db, user, t);
    WithFormKeepsValid(db, user, t);
    AddQuestionsInstantiates(WithForm(db, form), form.id, user, t.questions);
    FreshFormHasNoQuestions(db, form.id);
    BlockContiguous(WithForm(db, form), AddQuestions(WithForm(db, form), form.id, user, t.questions), form.id, user, t.questions);
  }

  lemma FreshFormHasNoQuestions(db: Db, formId: Id)
    requires Valid(db) && IdNumber(formId) == db.nextId
    ensures forall i :: 0 <= i < |db.questions| ==> db.questions[i].formId != formId
  {
  }

  /** Questions added to a form that had none carry the orders `1..N`. */
  lemma BlockContiguous(before: Db, after: Db, formId: Id, user: Id, tqs: seq<TemplateQuestion>)
    requires Instantiated(before, after, formId, user, tqs)
    requires forall i :: 0 <= i < |before.questions| ==> before.questions[i].formId != formId
    ensures QuestionOrder.Contiguous(after.questions, formId) && QuestionOrder.FormCount(after.questions, formId) == |tqs|
  {
    var base := |before.questions|;
    forall i | base <= i < |after.questions|
      ensures after.questions[i].formId == formId && after.questions[i].order == i - base + 1
    {
      assert BlockAt(after, base, tqs[i - base], formId, user, i - base);
    }
    AppendedBlockContiguous(before.questions, after.questions, formId);
  }

  /** A table whose rows after `prefix` all belong to the form, numbered `1, 2, ...`,
      while no row of `prefix` does, numbers the form `1..N`. */
  lemma AppendedBlockContiguous(prefix: seq<Question>, qs: seq<Question>, formId: Id)
    requires |prefix| <= |qs| && qs[..|prefix|] == prefix
    requires forall i :: 0 <= i < |prefix| ==> prefix[i].formId != formId
    requires forall i :: |prefix| <= i < |qs| ==> qs[i].formId == formId && qs[i].order == i - |prefix| + 1
    ensures QuestionOrder.Contiguous(qs, formId) && QuestionOrder.FormCount(qs, formId) == |qs| - |prefix|
  {
    AppendedBlockCount(prefix, qs, formId);
    forall i | 0 <= i < |prefix| ensures qs[i].formId != formId {
      assert qs[i] == prefix[i];
    }
  }

  lemma AppendedBlockCount(prefix: seq<Question>, qs: seq<Question>, formId: Id)
    requires |prefix| <= |qs| && qs[..|prefix|] == prefix
    requires forall i :: 0 <= i < |prefix| ==> prefix[i].formId != formId
    requires forall i :: |prefix| <= i < |qs| ==> qs[i].formId == formId
    ensures QuestionOrder.FormCount(qs, formId) == |qs| - |prefix|
  {
    var block := qs[|prefix|..];
    assert qs == prefix + block;
    assert forall i :: 0 <= i < |block| ==> block[i] == qs[|prefix| + i];
    QuestionOrder.FormCountAppend(prefix, block, formId);
    QuestionOrder.FormCountNone(prefix, formId);
    QuestionOrder.FormCountAll(block, formId);
  }

  lemma CreateKeepsValid(db: Db, user: Option<Id>, t: FormTemplate)
    requires Valid(db)
    ensures Valid(CreateFormFromTemplate(db, user, t).db)
  {
    if user.Some? {
      var form := NewForm(db, user.value, t);
      WithFormKeepsValid(db, user.value, t);
      AddQuestionsKeepsValid(WithForm(db, form), form.id, user.value, t.questions);
    }
  }
}
