/** `deleteForm`: after the owner checks, one transaction deletes the form's
    answers, options, questions, responses and finally the form, each step
    seeing what the steps before it left. */
module FormDeletion {
  import opened Results
  import opened Ids
  import opened Schema
  import opened Seqs
  import opened Tables

  const Deleted: string := "Form deleted successfully"

  function OtherFormAnswer(formId: Id): Answer -> bool {
    (a: Answer) => a.formId != formId
  }

  /** `option.deleteMany({ where: { question: { formId } } })` keeps the options
      whose question is not one of the form's (or no longer exists). */
  function OptionOutsideForm(questions: seq<Question>, formId: Id): OptionRow -> bool {
    (o: OptionRow) => !exists i :: 0 <= i < |questions| && questions[i].id == o.questionId && questions[i].formId == formId
  }

  function OtherFormQuestion(formId: Id): Question -> bool {
    (q: Question) => q.formId != formId
  }

  /** `response.deleteMany({ where: { answers: { some: { formId } } } })` keeps the
      responses without an answer of the form in the given answers table. */
  function NoAnswerIn(answers: seq<Answer>, formId: Id): Response -> bool {
    (r: Response) => !exists i :: 0 <= i < |answers| && answers[i].responseId == r.id && answers[i].formId == formId
  }

  function OtherForm(formId: Id): Form -> bool {
    (f: Form) => f.id != formId
  }

  /** The owner checks shared by both versions; `None` means the transaction runs. */
  function Refusal(db: Db, user: Option<Id>, formId: Id): (e: Option<string>)
    ensures e.None? <==> user.Some? && FormById(db.forms, formId).Some? && FormById(db.forms, formId).value.userId == user.value
  {
    if user.None? then Some(NotAuthenticated)
    else
      match FormById(db.forms, formId)
      case None => Some(FormMissing)
      case Some(form) => if form.userId != user.value then Some(NotOwner) else None
  }

  /** The transaction as written: the responses are chosen after the answers are gone. */
  function DeleteFormAsWritten(db: Db, user: Option<Id>, formId: Id): (c: Change<string>)
    ensures c.reply.Ok? <==> Refusal(db, user, formId).None?
    ensures !c.reply.Ok? ==> c == Change(db, Refused(Refusal(db, user, formId).value))
  {
    match Refusal(db, user, formId)
    case Some(e) => Change(db, Refused(e))
    case None =>
      var answers := Filter(db.answers, OtherFormAnswer(formId));
      var options := Filter(db.options, OptionOutsideForm(db.questions, formId));
      var questions := Filter(db.questions, OtherFormQuestion(formId));
      var responses := Filter(db.responses, NoAnswerIn(answers, formId));
      var forms := Filter(db.forms, OtherForm(formId));
      Change(Db(forms, questions, options, responses, answers, db.nextId), Ok(Deleted))
  }

  /** The same transaction with the responses chosen before their answers are deleted. */
  function DeleteForm(db: Db, user: Option<Id>, formId: Id): (c: Change<string>)
    ensures c.reply.Ok? <==> Refusal(db, user, formId).None?
    ensures !c.reply.Ok? ==> c == Change(db, Refused(Refusal(db, user, formId).value))
  {
    match Refusal(db, user, formId)
    case Some(e) => Change(db, Refused(e))
    case None =>
      var responses := Filter(db.responses, NoAnswerIn(db.answers, formId));
      var answers := Filter(db.answers, OtherFormAnswer(formId));
      var options := Filter(db.options, OptionOutsideForm(db.questions, formId));
      var questions := Filter(db.questions, OtherFormQuestion(formId));
      var forms := Filter(db.forms, OtherForm(formId));
      Change(Db(forms, questions, options, responses, answers, db.nextId), Ok(Deleted))
  }

  /** As written, the response step never matches: every response survives the delete. */
  lemma AsWrittenKeepsEveryResponse(db: Db, user: Option<Id>, formId: Id)
    ensures DeleteFormAsWritten(db, user, formId).db.responses == db.responses
  {
    if Refusal(db, user, formId).None? {
      var answers := Filter(db.answers, OtherFormAnswer(formId));
      FilterSpec(db.answers, OtherFormAnswer(formId));
      assert forall r :: NoAnswerIn(answers, formId)(r);
      FilterKeepsAll(db.responses, NoAnswerIn(answers, formId));
    }
  }

  /** One form, one submission of it with one answer. */
  const SubmittedDb: Db := Db(
    [Form("0", "u", "Survey", true)],
    [Question("1", "0", "u", "Name", "", ShortResponse, 1, false)],
    [],
    [Response("2", 5)],
    [Answer("3", "1", "0", "2", "Ada", [])],
    4)

  /** As written, deleting that form leaves its submission behind with no answer. */
  lemma AsWrittenOrphanResponse()
    ensures var after := DeleteFormAsWritten(SubmittedDb, Some("u"), "0");
      after.reply == Ok(Deleted) && after.db.forms == [] && after.db.answers == []
      && after.db.responses == [Response("2", 5)]
  {
    var db := SubmittedDb;
    FormByIdExact(db.forms, db.nextId, 0);
    AsWrittenKeepsEveryResponse(db, Some("u"), "0");
    var after := DeleteFormAsWritten(db, Some("u"), "0");
    assert db.answers[..0] == [] && db.forms[..0] == [];
  }

  /** Choosing the responses first removes that submission too. */
  lemma CascadingRemovesSubmission()
    ensures var after := DeleteForm(SubmittedDb, Some("u"), "0");
      after.reply == Ok(Deleted) && after.db.forms == [] && after.db.answers == [] && after.db.responses == []
  {
    var db := SubmittedDb;
    FormByIdExact(db.forms, db.nextId, 0);
    assert db.answers[0].responseId == db.responses[0].id && db.answers[0].formId == "0";
    assert !NoAnswerIn(db.answers, "0")(db.responses[0]);
    assert db.answers[..0] == [] && db.forms[..0] == [] && db.responses[..0] == [];
  }

  /** After the corrected delete nothing of the form is left: no answer, option,
      question or form row of it, and no response that had an answer in it;
      every other row is kept. */
  lemma DeleteFormCascades(db: Db, user: Option<Id>, formId: Id)
    requires DeleteForm(db, user, formId).reply.Ok?
    ensures var after := DeleteForm(db, user, formId).db;
      (forall a :: a in after.answers <==> a in db.answers && a.formId != formId)
      && (forall q :: q in after.questions <==> q in db.questions && q.formId != formId)
      && (forall f :: f in after.forms <==> f in db.forms && f.id != formId)
      && (forall o :: o in after.options <==> o in db.options && OptionOutsideForm(db.questions, formId)(o))
      && (forall r :: r in after.responses <==>
            r in db.responses && !exists a :: a in db.answers && a.responseId == r.id && a.formId == formId)
  {
    var after := DeleteForm(db, user, formId).db;
    FilterSpec(db.answers, OtherFormAnswer(formId));
    FilterSpec(db.questions, OtherFormQuestion(formId));
    FilterSpec(db.forms, OtherForm(formId));
    FilterSpec(db.options, OptionOutsideForm(db.questions, formId));
    FilterSpec(db.responses, NoAnswerIn(db.answers, formId));
    forall r ensures r in after.responses <==>
      r in db.responses && !exists a :: a in db.answers && a.responseId == r.id && a.formId == formId
    {
      if exists a :: a in db.answers && a.responseId == r.id && a.formId == formId {
        var a :| a in db.answers && a.responseId == r.id && a.formId == formId;
        var i :| 0 <= i < |db.answers| && db.answers[i] == a;
        assert !NoAnswerIn(db.answers, formId)(r);
      } else {
        assert r in db.responses ==> NoAnswerIn(db.answers, formId)(r);
      }
    }
  }

  /** Both versions only delete rows, so the invariant survives either. */
  lemma DeleteFormKeepsValid(db: Db, user: Option<Id>, formId: Id)
    requires Valid(db)
    ensures Valid(DeleteForm(db, user, formId).db) && Valid(DeleteFormAsWritten(db, user, formId).db)
  {
    if Refusal(db, user, formId).None? {
      PrunedKeepsValid(db, formId, db.answers);
      PrunedKeepsValid(db, formId, Filter(db.answers, OtherFormAnswer(formId)));
    }
  }

  /** The tables with the form's rows deleted, the responses chosen against `answersSeen`. */
  lemma PrunedKeepsValid(db: Db, formId: Id, answersSeen: seq<Answer>)
    requires Valid(db)
    ensures Valid(Db(Filter(db.forms, OtherForm(formId)), Filter(db.questions, OtherFormQuestion(formId)),
                     Filter(db.options, OptionOutsideForm(db.questions, formId)),
                     Filter(db.responses, NoAnswerIn(answersSeen, formId)),
                     Filter(db.answers, OtherFormAnswer(formId)), db.nextId))
  {
    WellMintedFilter(db.answers, OtherFormAnswer(formId), AnswerKey, db.nextId);
    WellMintedFilter(db.options, OptionOutsideForm(db.questions, formId), OptionKey, db.nextId);
    WellMintedFilter(db.questions, OtherFormQuestion(formId), QuestionKey, db.nextId);
    WellMintedFilter(db.responses, NoAnswerIn(answersSeen, formId), ResponseKey, db.nextId);
    WellMintedFilter(db.forms, OtherForm(formId), FormKey, db.nextId);
    ReferencesKept(db, formId);
  }

  lemma ReferencesKept(db: Db, formId: Id)
    requires Valid(db)
    ensures var qs := Filter(db.questions, OtherFormQuestion(formId));
      forall i :: 0 <= i < |qs| ==> IdNumber(qs[i].formId) < db.nextId
    ensures var os := Filter(db.options, OptionOutsideForm(db.questions, formId));
      forall i :: 0 <= i < |os| ==> IdNumber(os[i].questionId) < db.nextId
  {
    var qs := Filter(db.questions, OtherFormQuestion(formId));
    FilterSpec(db.questions, OtherFormQuestion(formId));
    forall i | 0 <= i < |qs| ensures IdNumber(qs[i].formId) < db.nextId {
      var k :| 0 <= k < |db.questions| && db.questions[k] == qs[i];
    }
    var os := Filter(db.options, OptionOutsideForm(db.questions, formId));
    FilterSpec(db.options, OptionOutsideForm(db.questions, formId));
    forall i | 0 <= i < |os| ensures IdNumber(os[i].questionId) < db.nextId {
      var k :| 0 <= k < |db.options| && db.options[k] == os[i];
    }
  }
}
