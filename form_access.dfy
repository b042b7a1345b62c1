/** The owner's edits to a form (`tooglePublishFormFromUser`,
    `updateQuestionFromUser`) and the respondent's read gate
    (`getQuestionsFromPublishedFormOrFromAuthor`). */
module FormAccess {
  import opened Results
  import opened Ids
  import opened Schema
  import opened Seqs
  import opened Sorting
  import opened Tables

  const NotPublished: string := "Form is not published"

  // ---------------------------------------------------------------- publish toggle

  function OwnedForm(formId: Id, user: Id): Form -> bool {
    (f: Form) => f.id == formId && f.userId == user
  }

  /** `form.update({ where: { id, userId }, data: { published } })` on every matching row. */
  function SetPublished(forms: seq<Form>, formId: Id, user: Id, published: bool): (r: seq<Form>)
    ensures |r| == |forms|
  {
    seq(|forms|, i requires 0 <= i < |forms| =>
      if OwnedForm(formId, user)(forms[i]) then forms[i].(published := published) else forms[i])
  }

  function TogglePublish(db: Db, user: Option<Id>, formId: Id): (c: Change<Form>)
    ensures user.None? ==> c == Change(db, Refused(NotAuthenticated))
    ensures c.reply.Thrown? <==> user.Some? && Find(db.forms, OwnedForm(formId, user.value)).None?
    ensures !c.reply.Ok? ==> c.db == db
    ensures c.reply.Ok? ==> c.db == db.(forms := c.db.forms)
  {
    if user.None? then Change(db, Refused(NotAuthenticated))
    else
      match Find(db.forms, OwnedForm(formId, user.value))
      case None => Change(db, Thrown(NotFound))
      case Some(form) =>
        var forms := SetPublished(db.forms, formId, user.value, !form.published);
        Change(db.(forms := forms), Ok(form.(published := !form.published)))
  }

  /** In a well-minted table the user's form, when there is one, is a single row. */
  lemma OwnedFormAt(forms: seq<Form>, next: nat, formId: Id, user: Id) returns (k: nat)
    requires WellMinted(forms, FormKey, next) && Find(forms, OwnedForm(formId, user)).Some?
    ensures k < |forms| && forms[k] == Find(forms, OwnedForm(formId, user)).value
    ensures forall i :: 0 <= i < |forms| && i != k ==> !OwnedForm(formId, user)(forms[i])
  {
    var found := Find(forms, OwnedForm(formId, user)).value;
    var j :| 0 <= j < |forms| && forms[j] == found && OwnedForm(formId, user)(forms[j]);
    k := j;
    forall i | 0 <= i < |forms| && i != k ensures !OwnedForm(formId, user)(forms[i]) {
      WellMintedUnique(forms, FormKey, next, i, k);
    }
  }

  /** The toggle flips `published` on the owner's form and changes nothing else. */
  lemma ToggleFlipsOnlyPublished(db: Db, user: Option<Id>, formId: Id)
    requires Valid(db)
    ensures var c := TogglePublish(db, user, formId);
      c.reply.Ok? ==>
        exists k :: 0 <= k < |db.forms| && db.forms[k].id == formId && db.forms[k].userId == user.value
          && c.db.forms == db.forms[k := db.forms[k].(published := !db.forms[k].published)]
          && c.reply.value == c.db.forms[k]
  {
    var c := TogglePublish(db, user, formId);
    if c.reply.Ok? {
      var k := OwnedFormAt(db.forms, db.nextId, formId, user.value);
      assert c.db.forms == db.forms[k := db.forms[k].(published := !db.forms[k].published)];
    }
  }

  /** Toggling twice gives back the database it started from. */
  lemma ToggleTwiceRestores(db: Db, user: Option<Id>, formId: Id)
    requires Valid(db)
    ensures TogglePublish(TogglePublish(db, user, formId).db, user, formId).db == db
  {
    var c := TogglePublish(db, user, formId);
    if c.reply.Ok? {
      var u := user.value;
      var k := OwnedFormAt(db.forms, db.nextId, formId, u);
      var once := c.db.forms;
      assert once == db.forms[k := db.forms[k].(published := !db.forms[k].published)];
      assert OwnedForm(formId, u)(once[k]);
      forall i | 0 <= i < |once| && i != k ensures !OwnedForm(formId, u)(once[i]) {
        assert once[i] == db.forms[i];
      }
      FindNone(once, OwnedForm(formId, u));
      var again := Find(once, OwnedForm(formId, u)).value;
      var j :| 0 <= j < |once| && once[j] == again && OwnedForm(formId, u)(once[j]);
      assert j == k;
      assert SetPublished(once, formId, u, !again.published) == db.forms;
    }
  }

  lemma ToggleKeepsValid(db: Db, user: Option<Id>, formId: Id)
    requires Valid(db)
    ensures Valid(TogglePublish(db, user, formId).db)
  {
    var c := TogglePublish(db, user, formId);
    if c.reply.Ok? {
      WellMintedSameKeys(db.forms, c.db.forms, FormKey, db.nextId);
    }
  }

  // ---------------------------------------------------------------- question edit

  /** The fields the caller passed; `None` stands for `null`. */
  datatype QuestionEdit = QuestionEdit(placeholder: Option<string>, text: Option<string>, mandatory: Option<bool>)

  predicate EmptyEdit(e: QuestionEdit) {
    e.placeholder.None? && e.text.None? && e.mandatory.None?
  }

  /** A row with the passed fields written over it. */
  function Edited(q: Question, e: QuestionEdit): Question {
    q.(text := e.text.GetOr(q.text), placeholder := e.placeholder.GetOr(q.placeholder),
       mandatory := e.mandatory.GetOr(q.mandatory))
  }

  function QuestionOf(formId: Id, questionId: Id, user: Id): Question -> bool {
    (q: Question) => q.formId == formId && q.id == questionId && q.userId == user
  }

  /** Returns the updated row, or `None` when there was nothing to write. */
  function UpdateQuestion(db: Db, user: Option<Id>, formId: Id, questionId: Id, e: QuestionEdit): (c: Change<Option<Question>>)
    ensures user.None? ==> c == Change(db, Refused(NotAuthenticated))
    ensures user.Some? && EmptyEdit(e) ==> c == Change(db, Ok(None))
    ensures c.reply.Thrown? <==> user.Some? && !EmptyEdit(e) && Find(db.questions, QuestionOf(formId, questionId, user.value)).None?
    ensures !c.reply.Ok? ==> c.db == db
    ensures c.reply.Ok? ==> c.db == db.(questions := c.db.questions) && |c.db.questions| == |db.questions|
  {
    if user.None? then Change(db, Refused(NotAuthenticated))
    else if EmptyEdit(e) then Change(db, Ok(None))
    else
      var matches := QuestionOf(formId, questionId, user.value);
      match Find(db.questions, matches)
      case None => Change(db, Thrown(NotFound))
      case Some(q) =>
        var questions := seq(|db.questions|, i requires 0 <= i < |db.questions| =>
          if matches(db.questions[i]) then Edited(db.questions[i], e) else db.questions[i]);
        Change(db.(questions := questions), Ok(Some(Edited(q, e))))
  }

  /** An update rewrites exactly the named question of the named form, only in
      the passed fields, and returns it. */
  lemma UpdateRewritesOneRow(db: Db, user: Option<Id>, formId: Id, questionId: Id, e: QuestionEdit)
    requires Valid(db)
    ensures var c := UpdateQuestion(db, user, formId, questionId, e);
      c.reply.Ok? && c.reply.value.Some? ==>
        exists k :: 0 <= k < |db.questions| && db.questions[k].id == questionId && db.questions[k].formId == formId
          && db.questions[k].userId == user.value
          && c.db.questions == db.questions[k := Edited(db.questions[k], e)]
          && c.reply.value.value == c.db.questions[k]
  {
    var c := UpdateQuestion(db, user, formId, questionId, e);
    if c.reply.Ok? && c.reply.value.Some? {
      var matches := QuestionOf(formId, questionId, user.value);
      var q := Find(db.questions, matches).value;
      var k :| 0 <= k < |db.questions| && db.questions[k] == q && matches(db.questions[k]);
      forall i | 0 <= i < |db.questions| && i != k ensures !matches(db.questions[i]) {
        WellMintedUnique(db.questions, QuestionKey, db.nextId, i, k);
      }
      assert c.db.questions == db.questions[k := Edited(db.questions[k], e)];
    }
  }

  /** Applying the same edit twice leaves what applying it once left. */
  lemma UpdateIdempotent(db: Db, user: Option<Id>, formId: Id, questionId: Id, e: QuestionEdit)
    ensures var once := UpdateQuestion(db, user, formId, questionId, e).db;
      UpdateQuestion(once, user, formId, questionId, e).db == once
  {
    var c := UpdateQuestion(db, user, formId, questionId, e);
    if c.reply.Ok? && c.reply.value.Some? {
      var matches := QuestionOf(formId, questionId, user.value);
      var once := c.db.questions;
      var again := UpdateQuestion(c.db, user, formId, questionId, e).db.questions;
      forall i | 0 <= i < |once| ensures again[i] == once[i] {
        assert matches(once[i]) <==> matches(db.questions[i]);
      }
    }
  }

  lemma UpdateKeepsValid(db: Db, user: Option<Id>, formId: Id, questionId: Id, e: QuestionEdit)
    requires Valid(db)
    ensures Valid(UpdateQuestion(db, user, formId, questionId, e).db)
  {
    var c := UpdateQuestion(db, user, formId, questionId, e);
    if c.reply.Ok? && c.reply.value.Some? {
      WellMintedSameKeys(db.questions, c.db.questions, QuestionKey, db.nextId);
    }
  }

  // ---------------------------------------------------------------- read gate

  /** A question as the respondent's page receives it, with its options. */
  datatype Listed = Listed(question: Question, options: seq<OptionRow>)

  /** The author may always read a form; anyone else only once it is published. */
  predicate MayRead(form: Form, user: Option<Id>) {
    user == Some(form.userId) || form.published
  }

  function QuestionOrderKey(q: Question): int { q.order }
  function OptionOrderKey(o: OptionRow): int { o.order }

  function InFormOf(formId: Id): Question -> bool {
    (q: Question) => q.formId == formId
  }

  function OptionsOf(questionId: Id): OptionRow -> bool {
    (o: OptionRow) => o.questionId == questionId
  }

  function WithOptions(options: seq<OptionRow>, q: Question): Listed {
    Listed(q, SortBy(Filter(options, OptionsOf(q.id)), OptionOrderKey))
  }

  /** The form's questions in ascending order. */
  function QuestionsInOrder(db: Db, formId: Id): (qs: seq<Question>)
    ensures SortedBy(qs, QuestionOrderKey)
    ensures multiset(qs) == multiset(Filter(db.questions, InFormOf(formId)))
  {
    SortBySpec(Filter(db.questions, InFormOf(formId)), QuestionOrderKey);
    SortBy(Filter(db.questions, InFormOf(formId)), QuestionOrderKey)
  }

  function Listing(options: seq<OptionRow>, qs: seq<Question>): (r: seq<Listed>)
    ensures |r| == |qs| && forall i :: 0 <= i < |qs| ==> r[i] == WithOptions(options, qs[i])
  {
    seq(|qs|, i requires 0 <= i < |qs| => WithOptions(options, qs[i]))
  }

  function QuestionsForRespondent(db: Db, user: Option<Id>, formId: Id): (r: Reply<seq<Listed>>)
    ensures r.Ok? <==> FormById(db.forms, formId).Some? && MayRead(FormById(db.forms, formId).value, user)
    ensures r.Refused? ==> r.error == FormMissing || r.error == NotPublished
  {
    match FormById(db.forms, formId)
    case None => Refused(FormMissing)
    case Some(form) =>
      var isTheAuthor := user.Some? && form.userId == user.value;
      if !isTheAuthor && !form.published then Refused(NotPublished)
      else Ok(Listing(db.options, QuestionsInOrder(db, form.id)))
  }

  function QuestionsListed(listed: seq<Listed>): seq<Question> {
    seq(|listed|, i requires 0 <= i < |listed| => listed[i].question)
  }

  /** What a permitted reader receives: the form's questions, each once, in
      ascending order, each with exactly its own options in ascending order. */
  lemma RespondentListing(db: Db, user: Option<Id>, formId: Id)
    requires QuestionsForRespondent(db, user, formId).Ok?
    ensures var listed := QuestionsForRespondent(db, user, formId).value;
      SortedBy(QuestionsListed(listed), QuestionOrderKey)
      && multiset(QuestionsListed(listed)) == multiset(Filter(db.questions, InFormOf(formId)))
      && forall i :: 0 <= i < |listed| ==>
           SortedBy(listed[i].options, OptionOrderKey)
           && multiset(listed[i].options) == multiset(Filter(db.options, OptionsOf(listed[i].question.id)))
  {
    var form := FormById(db.forms, formId).value;
    var qs := QuestionsInOrder(db, form.id);
    var listed := QuestionsForRespondent(db, user, formId).value;
    assert listed == Listing(db.options, qs);
    assert QuestionsListed(listed) == qs;
    forall i | 0 <= i < |listed|
      ensures SortedBy(listed[i].options, OptionOrderKey)
      ensures multiset(listed[i].options) == multiset(Filter(db.options, OptionsOf(listed[i].question.id)))
    {
      SortBySpec(Filter(db.options, OptionsOf(qs[i].id)), OptionOrderKey);
    }
  }
}
