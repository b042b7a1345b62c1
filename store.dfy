/** The in-memory store the server actions run against: the five tables and
    the id counter as fields of one object, and each action as a method that
    reads and rewrites them in the source's sequence of steps, except for two
    that follow the corrected order: `SubmitForm` builds every answer row
    before it writes the Response, and `DeleteForm` chooses the responses to
    delete before it deletes their answers. Every method is proved to leave
    the store exactly as the action's function on the database value says,
    and to answer what that function answers; the properties of those
    functions are proved in their own modules. The acting user is a
    parameter (`None` for a request without a session). */
module Store {
  import opened Results
  import opened Ids
  import opened Schema
  import opened Seqs
  import opened JsText
  import opened Tables
  import opened Normaliser
  import opened Catalogue
  import Submission
  import ResponseViews
  import QuestionOrder
  import OptionOrder
  import FormAccess
  import FormDeletion
  import TemplateInstantiation

  /** The checks `submitForm` makes before writing: the form lookup, the
      loop over the form's questions for an unanswered mandatory one, and
      the loop looking up each answer's question. */
  method CheckSubmission(db: Db, ds: seq<Descriptor>, formId: Id) returns (gate: Submission.Gate)
    ensures gate == Submission.Check(db, ds, formId)
  {
    var found := FormById(db.forms, formId);
    if found.None? {
      return Submission.Stopped(NotFound);
    }
    var formQuestions := Submission.FormQuestions(db.questions, formId);
    var answered := QuestionIds(ds);
    var i := 0;
    while i < |formQuestions|
      invariant 0 <= i <= |formQuestions|
      invariant forall k :: 0 <= k < i ==> !(formQuestions[k].mandatory && formQuestions[k].id !in answered)
    {
      var question := formQuestions[i];
      if question.mandatory && question.id !in answered {
        Submission.FirstUnansweredAt(formQuestions, answered, i);
        return Submission.Stopped(Submission.MandatoryMessage(question));
      }
      i := i + 1;
    }
    var k := 0;
    while k < |ds|
      invariant 0 <= k <= |ds|
      invariant Submission.ForeignAnswer(db.questions, ds, formId) == Submission.ForeignAnswer(db.questions, ds[k..], formId)
    {
      assert ds[k..][1..] == ds[k + 1..];
      var question := QuestionById(db.questions, ds[k].questionId);
      if question.None? {
        return Submission.Stopped(NotFound);
      }
      if question.value.formId != formId {
        return Submission.Stopped(Submission.NotInForm);
      }
      k := k + 1;
    }
    return Submission.Cleared(found.value);
  }

  /** `Math.max(...options.map(o => o.order)) + 1`, or 1 without options. */
  method HighestOrderPlusOne(own: seq<OptionRow>) returns (nextOrder: int)
    ensures nextOrder == OptionOrder.NextOrder(own)
  {
    nextOrder := 1;
    var k := 0;
    while k < |own|
      invariant 0 <= k <= |own|
      invariant nextOrder == OptionOrder.NextOrder(own[..k])
    {
      assert own[..k + 1][..k] == own[..k];
      if k == 0 || own[k].order + 1 > nextOrder {
        nextOrder := own[k].order + 1;
      }
      k := k + 1;
    }
    assert own[..|own|] == own;
  }

  /** The batch of `deleteQuestion` over the questions table: each later
      sibling of the target moves up one place, the target goes. */
  method ShiftAndDelete(qs: seq<Question>, formId: Id, target: Question) returns (kept: seq<Question>)
    ensures kept == QuestionOrder.DeleteAndShift(qs, formId, target)
  {
    kept := [];
    var i := 0;
    while i < |qs|
      invariant 0 <= i <= |qs|
      invariant kept == QuestionOrder.DeleteAndShift(qs[..i], formId, target)
    {
      assert qs[..i + 1][..i] == qs[..i];
      var q := qs[i];
      if q.id != target.id {
        kept := kept + [QuestionOrder.Shifted(q, formId, target.order)];
      }
      i := i + 1;
    }
    assert qs[..|qs|] == qs;
  }

  class Store {
    var forms: seq<Form>
    var questions: seq<Question>
    var options: seq<OptionRow>
    var responses: seq<Response>
    var answers: seq<Answer>
    var nextId: nat

    /** The tables as a database value. */
    function Snapshot(): Db
      reads this
    {
      Db(forms, questions, options, responses, answers, nextId)
    }

    constructor()
      ensures Snapshot() == EmptyDb
    {
      forms, questions, options, responses, answers, nextId := [], [], [], [], [], 0;
    }

    // ---------------------------------------------------------------- submitForm

    /** The writes of a planned submission: nothing unless it commits, and
        then the Response and its answers together, followed by the ticket
        fields of a "Ticketing Form". */
    method Settle(plan: Submission.Plan, ds: seq<Descriptor>, now: int, ticketOk: bool)
      returns (reply: Reply<()>, ticket: Option<Submission.TicketFields>)
      modifies this
      ensures var o := Submission.Settle(old(Snapshot()), plan, ds, now, ticketOk);
        Snapshot() == o.db && reply == o.reply && ticket == o.ticket
    {
      match plan {
        case Rejected(e) =>
          return Thrown(e), None;
        case RowsFailed(e) =>
          return Thrown(e), None;
        case Commit(form, rows) =>
          responses := responses + [Response(MintId(nextId), now)];
          answers := answers + rows;
          nextId := nextId + 1 + |rows|;
          if form.title == Submission.TicketingTitle {
            var fields := Submission.ExtractTicketFields(ds, Submission.FormQuestions(questions, form.id));
            ticket := Some(fields);
            reply := if ticketOk then Ok(()) else Thrown(Submission.TicketFailed);
          } else {
            reply, ticket := Ok(()), None;
          }
      }
    }

    /** `submitForm` with every check made and every row built before the
        first write, so that a failure writes nothing. */
    method SubmitForm(answersHash: AnswerMap, formId: Id, now: int, ticketOk: bool)
      returns (reply: Reply<()>, ticket: Option<Submission.TicketFields>)
      modifies this
      ensures var o := Submission.SubmitAtomic(old(Snapshot()), Normalised(answersHash), formId, now, ticketOk);
        Snapshot() == o.db && reply == o.reply && ticket == o.ticket
      ensures old(Valid(Snapshot())) ==> Valid(Snapshot())
    {
      var before := Snapshot();
      var ds := Transform(answersHash);
      if Valid(before) {
        Submission.SubmitAtomicKeepsValid(before, ds, formId, now, ticketOk);
      }
      var gate := CheckSubmission(before, ds, formId);
      var built := Submission.MakeRows(ds, formId, MintId(before.nextId), before.nextId + 1);
      var plan := Submission.PlanFrom(gate, built, before.options);
      Submission.SubmitAtomicSettles(before, ds, formId, now, ticketOk, plan);
      reply, ticket := Settle(plan, ds, now, ticketOk);
    }

    // ---------------------------------------------------------------- read-outs

    /** `getGroupedResponsesFromUser`: refused without a session, otherwise
        the user's answers to the form bucketed per response. */
    method GroupedResponses(user: Option<Id>, formId: Id) returns (r: Reply<seq<ResponseViews.Group>>)
      ensures user.None? <==> r == Refused(NotAuthenticated)
      ensures user.Some? ==>
        r == Ok(ResponseViews.GroupedResponses(ResponseViews.Selected(Snapshot(), answers, formId, user.value)))
    {
      if user.None? {
        return Refused(NotAuthenticated);
      }
      var rows := ResponseViews.Selected(Snapshot(), answers, formId, user.value);
      var groups := ResponseViews.GroupRows(rows);
      return Ok(groups);
    }

    /** `getResponsesFromForm`: refused without a session, otherwise the export matrix. */
    method ResponsesMatrix(user: Option<Id>, formId: Id) returns (r: Reply<seq<seq<ResponseViews.Cell>>>)
      ensures user.None? <==> r == Refused(NotAuthenticated)
      ensures user.Some? ==> r == Ok(ResponseViews.Matrix(Snapshot(), formId, user.value))
    {
      if user.None? {
        return Refused(NotAuthenticated);
      }
      var m := ResponseViews.ExportRows(Snapshot(), formId, user.value);
      return Ok(m);
    }

    // ---------------------------------------------------------------- deleteQuestion

    /** `deleteQuestion`: the guard chain, then the batch that moves every later
        sibling up one place and deletes the question. */
    method DeleteQuestion(user: Option<Id>, formId: Id, questionId: Id) returns (reply: Reply<()>)
      modifies this
      ensures var c := QuestionOrder.DeleteQuestion(old(Snapshot()), user, formId, questionId);
        Snapshot() == c.db && reply == c.reply
      ensures old(Valid(Snapshot())) ==> Valid(Snapshot())
    {
      var before := Snapshot();
      if Valid(before) {
        QuestionOrder.DeleteQuestionKeepsValid(before, user, formId, questionId);
      }
      var refusal := QuestionOrder.Refusal(before, user, formId, questionId);
      if refusal.Some? {
        return Refused(refusal.value);
      }
      var target := QuestionById(before.questions, questionId).value;
      var kept := ShiftAndDelete(before.questions, formId, target);
      questions := kept;
      return Ok(());
    }

    // ---------------------------------------------------------------- createOption

    /** `createOption`: find the user's question, take the highest order among
        its options, append the new option one above it. */
    method CreateOption(user: Option<Id>, questionId: Id, optionText: string) returns (reply: Reply<()>)
      modifies this
      ensures var c := OptionOrder.CreateOption(old(Snapshot()), user, questionId, optionText);
        Snapshot() == c.db && reply == c.reply
      ensures old(Valid(Snapshot())) ==> Valid(Snapshot())
    {
      var before := Snapshot();
      if Valid(before) {
        OptionOrder.CreateOptionKeepsValid(before, user, questionId, optionText);
      }
      if user.None? {
        return Refused(NotAuthenticated);
      }
      var found := Find(before.questions, OptionOrder.OwnedBy(questionId, user.value));
      if found.None? {
        return Thrown(NotFound);
      }
      var nextOrder := HighestOrderPlusOne(Filter(before.options, OptionOrder.OfQuestion(questionId)));
      options := before.options + [OptionRow(MintId(before.nextId), questionId, optionText, nextOrder)];
      nextId := before.nextId + 1;
      return Ok(());
    }

    // ---------------------------------------------------------------- owner edits

    /** `tooglePublishFormFromUser`. */
    method TogglePublish(user: Option<Id>, formId: Id) returns (reply: Reply<Form>)
      modifies this
      ensures var c := FormAccess.TogglePublish(old(Snapshot()), user, formId);
        Snapshot() == c.db && reply == c.reply
      ensures old(Valid(Snapshot())) ==> Valid(Snapshot())
    {
      var before := Snapshot();
      if Valid(before) {
        FormAccess.ToggleKeepsValid(before, user, formId);
      }
      if user.None? {
        return Refused(NotAuthenticated);
      }
      var found := Find(before.forms, FormAccess.OwnedForm(formId, user.value));
      if found.None? {
        return Thrown(NotFound);
      }
      var form := found.value;
      forms := FormAccess.SetPublished(before.forms, formId, user.value, !form.published);
      return Ok(form.(published := !form.published));
    }

    /** `updateQuestionFromUser`. */
    method UpdateQuestion(user: Option<Id>, formId: Id, questionId: Id, e: FormAccess.QuestionEdit)
      returns (reply: Reply<Option<Question>>)
      modifies this
      ensures var c := FormAccess.UpdateQuestion(old(Snapshot()), user, formId, questionId, e);
        Snapshot() == c.db && reply == c.reply
      ensures old(Valid(Snapshot())) ==> Valid(Snapshot())
    {
      var before := Snapshot();
      if Valid(before) {
        FormAccess.UpdateKeepsValid(before, user, formId, questionId, e);
      }
      if user.None? {
        return Refused(NotAuthenticated);
      }
      if FormAccess.EmptyEdit(e) {
        return Ok(None);
      }
      var matches := FormAccess.QuestionOf(formId, questionId, user.value);
      var found := Find(before.questions, matches);
      if found.None? {
        return Thrown(NotFound);
      }
      var qs := before.questions;
      questions := seq(|qs|, i requires 0 <= i < |qs| => if matches(qs[i]) then FormAccess.Edited(qs[i], e) else qs[i]);
      return Ok(Some(FormAccess.Edited(found.value, e)));
    }

    // ---------------------------------------------------------------- deleteForm

    /** `deleteForm` with the responses chosen before their answers are deleted. */
    method DeleteForm(user: Option<Id>, formId: Id) returns (reply: Reply<string>)
      modifies this
      ensures var c := FormDeletion.DeleteForm(old(Snapshot()), user, formId);
        Snapshot() == c.db && reply == c.reply
      ensures old(Valid(Snapshot())) ==> Valid(Snapshot())
    {
      var before := Snapshot();
      if Valid(before) {
        FormDeletion.DeleteFormKeepsValid(before, user, formId);
      }
      var refusal := FormDeletion.Refusal(before, user, formId);
      if refusal.Some? {
        return Refused(refusal.value);
      }
      responses := Filter(before.responses, FormDeletion.NoAnswerIn(before.answers, formId));
      answers := Filter(before.answers, FormDeletion.OtherFormAnswer(formId));
      options := Filter(before.options, FormDeletion.OptionOutsideForm(before.questions, formId));
      questions := Filter(before.questions, FormDeletion.OtherFormQuestion(formId));
      forms := Filter(before.forms, FormDeletion.OtherForm(formId));
      return Ok(FormDeletion.Deleted);
    }

    // ---------------------------------------------------------------- createFormFromTemplate

    /** One pass of the outer loop: the question row for template question
        `i`, then its option rows one by one. */
    method AddTemplateQuestion(formId: Id, user: Id, tq: TemplateQuestion, i: nat)
      modifies this
      ensures Snapshot() == TemplateInstantiation.AddQuestion(old(Snapshot()), formId, user, tq, i)
    {
      var before := Snapshot();
      var question := TemplateInstantiation.NewQuestion(tq, formId, user, i, MintId(before.nextId));
      questions := before.questions + [question];
      nextId := before.nextId + 1;
      var texts := TemplateInstantiation.OptionTexts(tq);
      var j := 0;
      while j < |texts|
        invariant 0 <= j <= |texts|
        invariant forms == before.forms && questions == before.questions + [question]
        invariant responses == before.responses && answers == before.answers
        invariant options == before.options + TemplateInstantiation.NewOptions(question.id, texts[..j], before.nextId + 1)
        invariant nextId == before.nextId + 1 + j
      {
        TemplateInstantiation.NewOptionsSnoc(question.id, texts, before.nextId + 1, j);
        options := options + [OptionRow(MintId(nextId), question.id, texts[j], j + 1)];
        nextId := nextId + 1;
        j := j + 1;
      }
      assert texts[..|texts|] == texts;
    }

    /** The outer loop: every template question in turn. */
    method AddTemplateQuestions(formId: Id, user: Id, tqs: seq<TemplateQuestion>)
      modifies this
      ensures Snapshot() == TemplateInstantiation.AddQuestions(old(Snapshot()), formId, user, tqs)
    {
      var start := Snapshot();
      var i := 0;
      while i < |tqs|
        invariant 0 <= i <= |tqs|
        invariant Snapshot() == TemplateInstantiation.AddQuestions(start, formId, user, tqs[..i])
      {
        assert tqs[..i + 1][..i] == tqs[..i];
        AddTemplateQuestion(formId, user, tqs[i], i);
        i := i + 1;
      }
      assert tqs[..|tqs|] == tqs;
    }

    /** `createFormFromTemplate`: the form, then each template question in turn. */
    method CreateFormFromTemplate(user: Option<Id>, t: FormTemplate) returns (reply: Reply<Form>)
      modifies this
      ensures var c := TemplateInstantiation.CreateFormFromTemplate(old(Snapshot()), user, t);
        Snapshot() == c.db && reply == c.reply
      ensures old(Valid(Snapshot())) ==> Valid(Snapshot())
    {
      var before := Snapshot();
      if Valid(before) {
        TemplateInstantiation.CreateKeepsValid(before, user, t);
      }
      if user.None? {
        return Refused(NotAuthenticated);
      }
      var form := TemplateInstantiation.NewForm(before, user.value, t);
      forms := before.forms + [form];
      nextId := before.nextId + 1;
      AddTemplateQuestions(form.id, user.value, t.questions);
      return Ok(form);
    }
  }
}
