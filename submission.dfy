/** `submitForm` (lib/actions/actions.ts) on the database value: the checks,
    the Response and Answer rows it writes, and the ticket fields it extracts
    from a "Ticketing Form". `SubmitAsWritten` follows the source's order of
    writes; `SubmitAtomic` is the all-or-nothing variant the rest of the model
    relies on. */
module Submission {
  import opened Results
  import opened Ids
  import opened Schema
  import opened Seqs
  import opened JsText
  import opened Tables
  import opened Normaliser
  import Catalogue

  /** What `submitForm` throws when an answer names a question of another form. */
  const NotInForm: string := "Question does not belong to the form"
  /** What the answer transaction throws when it connects an option id that no row has. */
  const ConnectFailed: string := "Connected option does not exist"
  const TicketFailed: string := "Form submitted but ticket creation failed"
  const TicketingTitle: string := "Ticketing Form"

  function MandatoryMessage(q: Question): string {
    "Mandatory question \"" + q.text + "\" must be answered"
  }

  function FormQuestions(questions: seq<Question>, formId: Id): seq<Question> {
    Filter(questions, (q: Question) => q.formId == formId)
  }

  /** The first mandatory question whose id no descriptor carries. */
  function FirstUnanswered(questions: seq<Question>, answered: seq<Id>): (r: Option<Question>)
    ensures r.Some? ==> r.value in questions && r.value.mandatory && r.value.id !in answered
  {
    Find(questions, (q: Question) => q.mandatory && q.id !in answered)
  }

  /** No question is reported exactly when every mandatory one is answered. */
  lemma FirstUnansweredNone(questions: seq<Question>, answered: seq<Id>)
    ensures FirstUnanswered(questions, answered).None?
        <==> forall i :: 0 <= i < |questions| && questions[i].mandatory ==> questions[i].id in answered
  {
    var p := (q: Question) => q.mandatory && q.id !in answered;
    assert FirstUnanswered(questions, answered) == Find(questions, p);
    FindNone(questions, p);
  }

  /** The question with this id exists and is part of the form. */
  predicate BelongsTo(questions: seq<Question>, id: Id, formId: Id) {
    var q := QuestionById(questions, id);
    q.Some? && q.value.formId == formId
  }

  /** The per-answer lookup loop: the first descriptor whose question is
      missing or belongs to another form decides the error. */
  function ForeignAnswer(questions: seq<Question>, ds: seq<Descriptor>, formId: Id): (r: Option<string>)
    ensures r.Some? ==> r.value == NotFound || r.value == NotInForm
    decreases |ds|
  {
    if ds == [] then None
    else
      match QuestionById(questions, ds[0].questionId)
      case None => Some(NotFound)
      case Some(q) => if q.formId != formId then Some(NotInForm) else ForeignAnswer(questions, ds[1..], formId)
  }

  /** The lookup loop passes exactly when every answer's question is in the form. */
  lemma {:induction false} ForeignAnswerNone(questions: seq<Question>, ds: seq<Descriptor>, formId: Id)
    ensures ForeignAnswer(questions, ds, formId).None? <==> forall k :: 0 <= k < |ds| ==> BelongsTo(questions, ds[k].questionId, formId)
    decreases |ds|
  {
    if ds != [] {
      ForeignAnswerNone(questions, ds[1..], formId);
      assert forall k :: 0 < k < |ds| ==> ds[k] == ds[1..][k - 1];
    }
  }

  /** What the checks before the first write decide: the error that stops
      the submission, or the form it goes on with. */
  datatype Gate = Stopped(error: string) | Cleared(form: Form)

  /** All checks made before the first write, in source order. */
  function Check(db: Db, ds: seq<Descriptor>, formId: Id): Gate {
    match FormById(db.forms, formId)
    case None => Stopped(NotFound)
    case Some(form) =>
      match FirstUnanswered(FormQuestions(db.questions, formId), QuestionIds(ds))
      case Some(q) => Stopped(MandatoryMessage(q))
      case None =>
        match ForeignAnswer(db.questions, ds, formId)
        case Some(e) => Stopped(e)
        case None => Cleared(form)
  }

  /** A descriptor an Answer row can be made from. */
  predicate Storable(d: Descriptor) {
    match d.qtype
    case ShortResponse => d.answerText.Some?
    case SelectOneOption => Truthy(d.optionId)
    case SelectMultipleOptions => d.optionIds.Some? && |d.optionIds.value| > 0
  }

  /** What a row stores for its descriptor: the text of a short response, or
      "" and the connected options of a choice. */
  predicate RowMatches(a: Answer, d: Descriptor) {
    Storable(d) &&
    match d.qtype
    case ShortResponse => a.answerText == d.answerText.value && a.optionIds == []
    case SelectOneOption => a.answerText == "" && a.optionIds == [d.optionId.value]
    case SelectMultipleOptions =>
      a.answerText == "" && NoDuplicates(a.optionIds)
      && (forall i :: 0 <= i < |a.optionIds| ==> a.optionIds[i] in d.optionIds.value)
      && (forall i :: 0 <= i < |d.optionIds.value| ==> d.optionIds.value[i] in a.optionIds)
  }

  datatype RowOutcome = Row(answer: Answer) | RowError(message: string)

  /** The row written for one descriptor, or what its `map` callback throws. */
  function AnswerRow(d: Descriptor, formId: Id, responseId: Id, id: Id): (r: RowOutcome)
    ensures r.Row? <==> Storable(d)
    ensures r.Row? ==> r.answer.id == id && r.answer.questionId == d.questionId && r.answer.formId == formId
                       && r.answer.responseId == responseId && RowMatches(r.answer, d)
  {
    match d.qtype
    case ShortResponse =>
      if d.answerText.None? then RowError("Missing answerText for question " + d.questionId)
      else Row(Answer(id, d.questionId, formId, responseId, d.answerText.value, []))
    case SelectOneOption =>
      if !Truthy(d.optionId) then RowError("Missing optionId for question " + d.questionId)
      else Row(Answer(id, d.questionId, formId, responseId, "", [d.optionId.value]))
    case SelectMultipleOptions =>
      if d.optionIds.None? || |d.optionIds.value| == 0 then RowError("Missing optionIds for question " + d.questionId)
      else Row(Answer(id, d.questionId, formId, responseId, "", Dedup(d.optionIds.value)))
  }

  datatype RowsOutcome = Rows(rows: seq<Answer>) | RowsError(message: string)

  /** `answers.map(...)`: one Answer row per descriptor, the first unstorable
      descriptor throwing; row `k` gets the `k`-th id minted from `next`. */
  function BuildRows(ds: seq<Descriptor>, formId: Id, responseId: Id, next: nat): (r: RowsOutcome)
    ensures r.Rows? ==> |r.rows| == |ds|
    decreases |ds|
  {
    if ds == [] then Rows([])
    else
      var init := ds[..|ds| - 1];
      var last := ds[|ds| - 1];
      match BuildRows(init, formId, responseId, next)
      case RowsError(e) => RowsError(e)
      case Rows(rows) =>
        match AnswerRow(last, formId, responseId, MintId(next + |ds| - 1))
        case RowError(e) => RowsError(e)
        case Row(a) => Rows(rows + [a])
  }

  /** The rows are built exactly when every descriptor is storable, and row
      `k` is the row of descriptor `k` under the `k`-th minted id. */
  lemma BuildRowsSpec(ds: seq<Descriptor>, formId: Id, responseId: Id, next: nat)
    ensures var r := BuildRows(ds, formId, responseId, next);
      (r.Rows? <==> forall k :: 0 <= k < |ds| ==> Storable(ds[k]))
      && (r.Rows? ==> forall k :: 0 <= k < |ds| ==> AnswerRow(ds[k], formId, responseId, MintId(next + k)) == Row(r.rows[k]))
  {
    BuildRowsDecides(ds, formId, responseId, next);
    BuildRowsAt(ds, formId, responseId, next);
  }

  lemma {:induction false} BuildRowsDecides(ds: seq<Descriptor>, formId: Id, responseId: Id, next: nat)
    ensures BuildRows(ds, formId, responseId, next).Rows? <==> forall k :: 0 <= k < |ds| ==> Storable(ds[k])
    decreases |ds|
  {
    if ds != [] {
      var init := ds[..|ds| - 1];
      BuildRowsDecides(init, formId, responseId, next);
      assert forall k :: 0 <= k < |init| ==> init[k] == ds[k];
    }
  }

  lemma {:induction false} BuildRowsAt(ds: seq<Descriptor>, formId: Id, responseId: Id, next: nat)
    ensures var r := BuildRows(ds, formId, responseId, next);
      r.Rows? ==> forall k :: 0 <= k < |ds| ==> AnswerRow(ds[k], formId, responseId, MintId(next + k)) == Row(r.rows[k])
    decreases |ds|
  {
    if ds != [] {
      var init := ds[..|ds| - 1];
      BuildRowsAt(init, formId, responseId, next);
      assert forall k :: 0 <= k < |init| ==> init[k] == ds[k];
    }
  }

  predicate OptionExists(options: seq<OptionRow>, id: Id) {
    exists i :: 0 <= i < |options| && options[i].id == id
  }

  /** Every option the rows connect exists, so the answer transaction commits. */
  predicate ConnectsResolve(rows: seq<Answer>, options: seq<OptionRow>) {
    forall k, i :: 0 <= k < |rows| && 0 <= i < |rows[k].optionIds| ==> OptionExists(options, rows[k].optionIds[i])
  }

  // ---- ticket fields -----------------------------------------------------

  datatype TicketFields = TicketFields(seat_no: string, name: string, email: string, subject: string, description: string)

  const BlankTicket: TicketFields := TicketFields("", "", "", "", "")

  /** The question texts the fields are matched on, in field order. */
  const TicketLabels: seq<string> := ["Seat Number", "Name", "Email", "Subject", "Description"]

  /** `questionMap[id]`, the map being built by a `reduce` in which a later question overwrites an earlier one. */
  function QuestionText(questions: seq<Question>, id: Id): Option<string> {
    if questions == [] then None
    else if questions[|questions| - 1].id == id then Some(questions[|questions| - 1].text)
    else QuestionText(questions[..|questions| - 1], id)
  }

  function Field(t: TicketFields, caption: string): string {
    if caption == "Seat Number" then t.seat_no
    else if caption == "Name" then t.name
    else if caption == "Email" then t.email
    else if caption == "Subject" then t.subject
    else if caption == "Description" then t.description
    else ""
  }

  /** One step of the `forEach`: the field labelled like the answer's question takes its text. */
  function Assign(t: TicketFields, caption: Option<string>, value: string): TicketFields {
    if caption == Some("Seat Number") then t.(seat_no := value)
    else if caption == Some("Name") then t.(name := value)
    else if caption == Some("Email") then t.(email := value)
    else if caption == Some("Subject") then t.(subject := value)
    else if caption == Some("Description") then t.(description := value)
    else t
  }

  lemma FieldAfterAssign(t: TicketFields, tag: Option<string>, value: string, caption: string)
    requires caption in TicketLabels
    ensures Field(Assign(t, tag, value), caption) == if tag == Some(caption) then value else Field(t, caption)
  {
  }

  function ExtractTicket(ds: seq<Descriptor>, questions: seq<Question>): TicketFields {
    if ds == [] then BlankTicket
    else
      var last := ds[|ds| - 1];
      Assign(ExtractTicket(ds[..|ds| - 1], questions), QuestionText(questions, last.questionId), OrElse(last.answerText, ""))
  }

  /** Each ticket field is the text of the LAST answer whose question carries
      its caption ("" for a choice or an empty text), or "" when no answer does. */
  lemma {:induction false} ExtractTicketField(ds: seq<Descriptor>, questions: seq<Question>, caption: string)
    requires caption in TicketLabels
    ensures (forall k :: 0 <= k < |ds| ==> QuestionText(questions, ds[k].questionId) != Some(caption))
              ==> Field(ExtractTicket(ds, questions), caption) == ""
    ensures forall k :: 0 <= k < |ds| && QuestionText(questions, ds[k].questionId) == Some(caption)
              && (forall j :: k < j < |ds| ==> QuestionText(questions, ds[j].questionId) != Some(caption))
              ==> Field(ExtractTicket(ds, questions), caption) == OrElse(ds[k].answerText, "")
  {
    if ds != [] {
      var init := ds[..|ds| - 1];
      var last := ds[|ds| - 1];
      ExtractTicketField(init, questions, caption);
      assert forall k :: 0 <= k < |init| ==> init[k] == ds[k];
      FieldAfterAssign(ExtractTicket(init, questions), QuestionText(questions, last.questionId),
                       OrElse(last.answerText, ""), caption);
    }
  }

  /** The catalogue's ticketing template is titled so that its forms take the
      ticket path, and asks exactly the five labelled questions, in order. */
  lemma TicketingTemplateMatchesLabels()
    ensures Catalogue.TicketingTemplate.name == TicketingTitle
    ensures |Catalogue.TicketingTemplate.questions| == |TicketLabels|
    ensures forall i :: 0 <= i < |TicketLabels| ==>
      Catalogue.TicketingTemplate.questions[i].text == TicketLabels[i]
      && Catalogue.TicketingTemplate.questions[i].qtype == ShortResponse
  {
  }

  // ---- the whole submission ----------------------------------------------

  /** The database after the call, what it returned or threw, and the ticket
      fields it posted, if it got that far. */
  datatype Outcome = Outcome(db: Db, reply: Reply<()>, ticket: Option<TicketFields>)

  /** After the answers are committed: the ticket call for a "Ticketing Form";
      `ticketOk` is whether that call answered with an ok status. */
  function AfterCommit(db: Db, form: Form, ds: seq<Descriptor>, ticketOk: bool): Outcome {
    if form.title == TicketingTitle then
      var t := ExtractTicket(ds, FormQuestions(db.questions, form.id));
      Outcome(db, if ticketOk then Ok(()) else Thrown(TicketFailed), Some(t))
    else Outcome(db, Ok(()), None)
  }

  function NewResponse(db: Db, now: int): Response {
    Response(MintId(db.nextId), now)
  }

  /** The database once the Response and its Answer rows are both written. */
  function Committed(db: Db, now: int, rows: seq<Answer>): Db {
    db.(responses := db.responses + [NewResponse(db, now)], answers := db.answers + rows,
        nextId := db.nextId + 1 + |rows|)
  }

  /** How far a submission gets: stopped by a check before any write, failed
      while building or committing its answer rows, or committed with these rows. */
  datatype Plan = Rejected(error: string) | RowsFailed(error: string) | Commit(form: Form, rows: seq<Answer>)

  /** The plan once the checks and the row building have answered. */
  function PlanFrom(gate: Gate, built: RowsOutcome, options: seq<OptionRow>): Plan {
    match gate
    case Stopped(e) => Rejected(e)
    case Cleared(form) =>
      match built
      case RowsError(e) => RowsFailed(e)
      case Rows(rows) => if !ConnectsResolve(rows, options) then RowsFailed(ConnectFailed) else Commit(form, rows)
  }

  /** The plan for a submission to this database. */
  function PlanOf(db: Db, ds: seq<Descriptor>, formId: Id, now: int): Plan {
    PlanFrom(Check(db, ds, formId), BuildRows(ds, formId, NewResponse(db, now).id, db.nextId + 1), db.options)
  }

  /** A submission is rejected exactly when a check fails, which includes a
      missing form; it commits only rows built for every descriptor whose
      connected options all exist. */
  lemma PlanOfDecides(db: Db, ds: seq<Descriptor>, formId: Id, now: int)
    ensures var p := PlanOf(db, ds, formId, now);
      (p.Rejected? <==> Check(db, ds, formId).Stopped?)
      && (!p.Rejected? ==> FormById(db.forms, formId).Some?)
      && (p.Commit? ==> FormById(db.forms, formId) == Some(p.form)
                        && BuildRows(ds, formId, NewResponse(db, now).id, db.nextId + 1) == Rows(p.rows)
                        && ConnectsResolve(p.rows, db.options))
  {
  }

  function WithResponse(db: Db, now: int): Db {
    db.(responses := db.responses + [NewResponse(db, now)], nextId := db.nextId + 1)
  }

  /** `submitForm` in the source's order: the Response is created before the
      answer rows are built and before their transaction runs. */
  function SubmitAsWritten(db: Db, ds: seq<Descriptor>, formId: Id, now: int, ticketOk: bool): Outcome {
    match PlanOf(db, ds, formId, now)
    case Rejected(e) => Outcome(db, Thrown(e), None)
    case RowsFailed(e) => Outcome(WithResponse(db, now), Thrown(e), None)
    case Commit(form, rows) => AfterCommit(Committed(db, now, rows), form, ds, ticketOk)
  }

  /** The same submission with every check made before the first write, so the
      Response and its answers are written together or not at all. */
  function SubmitAtomic(db: Db, ds: seq<Descriptor>, formId: Id, now: int, ticketOk: bool): Outcome {
    Settle(db, PlanOf(db, ds, formId, now), ds, now, ticketOk)
  }

  /** The corrected submission is what its plan settles to. */
  lemma SubmitAtomicSettles(db: Db, ds: seq<Descriptor>, formId: Id, now: int, ticketOk: bool, plan: Plan)
    requires plan == PlanFrom(Check(db, ds, formId), BuildRows(ds, formId, MintId(db.nextId), db.nextId + 1), db.options)
    ensures SubmitAtomic(db, ds, formId, now, ticketOk) == Settle(db, plan, ds, now, ticketOk)
  {
    assert NewResponse(db, now).id == MintId(db.nextId);
    assert PlanOf(db, ds, formId, now) == plan;
  }

  /** What the corrected order does with a plan: write nothing unless it commits. */
  function Settle(db: Db, plan: Plan, ds: seq<Descriptor>, now: int, ticketOk: bool): Outcome {
    match plan
    case Rejected(e) => Outcome(db, Thrown(e), None)
    case RowsFailed(e) => Outcome(db, Thrown(e), None)
    case Commit(form, rows) => AfterCommit(Committed(db, now, rows), form, ds, ticketOk)
  }

  lemma AfterCommitOnlyTicket(db: Db, form: Form, ds: seq<Descriptor>, ticketOk: bool)
    ensures AfterCommit(db, form, ds, ticketOk).db == db
    ensures AfterCommit(db, form, ds, ticketOk).reply.Ok? || AfterCommit(db, form, ds, ticketOk).reply == Thrown(TicketFailed)
  {
  }

  lemma CommittedChanges(db: Db, now: int, rows: seq<Answer>)
    ensures Committed(db, now, rows) != db && WithResponse(db, now) != db
  {
    assert |Committed(db, now, rows).responses| == |db.responses| + 1;
    assert |WithResponse(db, now).responses| == |db.responses| + 1;
  }

  /** Nothing is written unless the form exists, every mandatory question of
      the form is answered and every answer's question is in the form. */
  lemma WritesOnlyAfterChecks(db: Db, ds: seq<Descriptor>, formId: Id, now: int, ticketOk: bool)
    ensures var o := SubmitAsWritten(db, ds, formId, now, ticketOk);
      o.db != db ==>
        FormById(db.forms, formId).Some?
        && (forall i :: 0 <= i < |FormQuestions(db.questions, formId)| && FormQuestions(db.questions, formId)[i].mandatory
              ==> FormQuestions(db.questions, formId)[i].id in QuestionIds(ds))
        && (forall k :: 0 <= k < |ds| ==> BelongsTo(db.questions, ds[k].questionId, formId))
    ensures SubmitAtomic(db, ds, formId, now, ticketOk).db != db ==> SubmitAsWritten(db, ds, formId, now, ticketOk).db != db
  {
    var p := PlanOf(db, ds, formId, now);
    FirstUnansweredNone(FormQuestions(db.questions, formId), QuestionIds(ds));
    ForeignAnswerNone(db.questions, ds, formId);
    if p.Commit? {
      AfterCommitOnlyTicket(Committed(db, now, p.rows), p.form, ds, ticketOk);
    }
  }

  /** The corrected submission is all-or-nothing: a call that throws anything
      but the ticket failure leaves the database as it was, and a call that
      writes adds one Response and exactly one matching Answer per descriptor,
      all pointing at that Response. */
  lemma SubmitAtomicAllOrNothing(db: Db, ds: seq<Descriptor>, formId: Id, now: int, ticketOk: bool)
    ensures var o := SubmitAtomic(db, ds, formId, now, ticketOk);
      (o.reply.Thrown? && o.reply.message != TicketFailed ==> o.db == db)
      && (o.db != db ==>
            var rows := BuildRows(ds, formId, NewResponse(db, now).id, db.nextId + 1);
            rows.Rows? && o.db == Committed(db, now, rows.rows)
            && (o.reply.Ok? || o.reply == Thrown(TicketFailed)))
  {
    var o := SubmitAtomic(db, ds, formId, now, ticketOk);
    match PlanOf(db, ds, formId, now)
    case Rejected(_) => assert o.db == db;
    case RowsFailed(_) => assert o.db == db;
    case Commit(form, rows) =>
      AfterCommitOnlyTicket(Committed(db, now, rows), form, ds, ticketOk);
      assert o.db == Committed(db, now, rows);
  }

  /** The correction changes only the failure paths: whenever the source's
      order commits the answers, both give the same outcome. */
  lemma SubmitAtomicAgreesOnCommit(db: Db, ds: seq<Descriptor>, formId: Id, now: int, ticketOk: bool)
    requires PlanOf(db, ds, formId, now).Commit? || PlanOf(db, ds, formId, now).Rejected?
    ensures SubmitAtomic(db, ds, formId, now, ticketOk) == SubmitAsWritten(db, ds, formId, now, ticketOk)
  {
  }

  /** As written, a descriptor that cannot become a row (or a connect to a
      missing option) throws after the Response was created: the Response
      stays, and no answer is written for it. */
  lemma AsWrittenLeavesResponse(db: Db, ds: seq<Descriptor>, formId: Id, now: int, ticketOk: bool)
    requires Check(db, ds, formId).Cleared?
    requires !(forall k :: 0 <= k < |ds| ==> Storable(ds[k]))
    ensures var o := SubmitAsWritten(db, ds, formId, now, ticketOk);
      o.reply.Thrown? && o.db.responses == db.responses + [NewResponse(db, now)] && o.db.answers == db.answers
  {
    BuildRowsSpec(ds, formId, NewResponse(db, now).id, db.nextId + 1);
  }

  /** A form whose one question is optional, and the map a direct call could
      send it: that question as a short response with a null text. */
  const OrphanDb: Db := Db([Form("0", "u", "F", true)],
                           [Question("1", "0", "u", "Q", "", ShortResponse, 1, false)], [], [], [], 2)
  const NullTextMap: AnswerMap := [("1", RawAnswer(Some(ShortResponse), None, None, None))]

  lemma NullTextPassesChecks()
    ensures Normalised(NullTextMap) == [Descriptor(None, "1", ShortResponse, None, None)]
    ensures PlanOf(OrphanDb, Normalised(NullTextMap), "0", 7) == RowsFailed("Missing answerText for question 1")
  {
    assert NullTextMap[..0] == [];
    var ds := Normalised(NullTextMap);
    assert FormById(OrphanDb.forms, "0") == Some(OrphanDb.forms[0]);
    assert FormQuestions(OrphanDb.questions, "0") == OrphanDb.questions;
    FirstUnansweredNone(OrphanDb.questions, QuestionIds(ds));
    assert QuestionById(OrphanDb.questions, "1") == Some(OrphanDb.questions[0]);
    assert FirstUnanswered(OrphanDb.questions, QuestionIds(ds)).None?;
    assert ds[1..] == [];
    assert ForeignAnswer(OrphanDb.questions, ds, "0").None?;
    assert Check(OrphanDb, ds, "0") == Cleared(OrphanDb.forms[0]);
    assert ds[..|ds| - 1] == [];
    assert BuildRows(ds, "0", NewResponse(OrphanDb, 7).id, 3) == RowsError("Missing answerText for question 1");
    assert PlanOf(OrphanDb, ds, "0", 7) == RowsFailed("Missing answerText for question 1");
  }

  /** As written, that input leaves a Response no answer belongs to. */
  lemma AsWrittenOrphanExample()
    ensures var o := SubmitAsWritten(OrphanDb, Normalised(NullTextMap), "0", 7, true);
      o.reply == Thrown("Missing answerText for question 1")
      && o.db.responses == [Response("2", 7)] && o.db.answers == []
  {
    NullTextPassesChecks();
  }

  /** The same input leaves the database untouched under the corrected order. */
  lemma AtomicOrphanExample()
    ensures var o := SubmitAtomic(OrphanDb, Normalised(NullTextMap), "0", 7, true);
      o.reply == Thrown("Missing answerText for question 1") && o.db == OrphanDb
  {
    NullTextPassesChecks();
  }

  /** Only a short response with a null text is unstorable once normalised;
      the browser never sends one, a direct call to the action can. */
  lemma NormalisedStorableUnlessNullText(m: AnswerMap, k: int)
    requires 0 <= k < |Normalised(m)|
    ensures Storable(Normalised(m)[k]) <==> !(Normalised(m)[k].qtype == ShortResponse && Normalised(m)[k].answerText.None?)
  {
    var d := Normalised(m)[k];
    NormalisedMembers(m, d);
    var j :| 0 <= j < |m| && Emit(m[j].0, m[j].1) == [d];
  }

  /** Both variants keep the store's invariant. */
  lemma SubmitKeepsValid(db: Db, ds: seq<Descriptor>, formId: Id, now: int, ticketOk: bool)
    requires Valid(db)
    ensures Valid(SubmitAsWritten(db, ds, formId, now, ticketOk).db)
  {
    match PlanOf(db, ds, formId, now)
    case Rejected(_) =>
    case RowsFailed(_) => ResponseKeepsValid(db, now);
    case Commit(form, rows) =>
      PlanOfDecides(db, ds, formId, now);
      PlannedCommitKeepsValid(db, ds, formId, now, rows);
      AfterCommitOnlyTicket(Committed(db, now, rows), form, ds, ticketOk);
  }

  lemma SubmitAtomicKeepsValid(db: Db, ds: seq<Descriptor>, formId: Id, now: int, ticketOk: bool)
    requires Valid(db)
    ensures Valid(SubmitAtomic(db, ds, formId, now, ticketOk).db)
  {
    match PlanOf(db, ds, formId, now)
    case Rejected(_) =>
    case RowsFailed(_) =>
    case Commit(form, rows) =>
      PlanOfDecides(db, ds, formId, now);
      PlannedCommitKeepsValid(db, ds, formId, now, rows);
      AfterCommitOnlyTicket(Committed(db, now, rows), form, ds, ticketOk);
  }

  /** The rows a committing plan writes carry the ids minted after the Response's. */
  lemma PlannedCommitKeepsValid(db: Db, ds: seq<Descriptor>, formId: Id, now: int, rows: seq<Answer>)
    requires Valid(db) && BuildRows(ds, formId, NewResponse(db, now).id, db.nextId + 1) == Rows(rows)
    ensures Valid(Committed(db, now, rows))
  {
    BuildRowsIds(ds, formId, NewResponse(db, now).id, db.nextId + 1);
    CommittedKeepsValid(db, now, rows);
  }

  lemma BuildRowsIds(ds: seq<Descriptor>, formId: Id, responseId: Id, next: nat)
    requires BuildRows(ds, formId, responseId, next).Rows?
    ensures var rows := BuildRows(ds, formId, responseId, next).rows;
      forall k :: 0 <= k < |rows| ==> rows[k].id == MintId(next + k)
  {
    var rows := BuildRows(ds, formId, responseId, next).rows;
    BuildRowsSpec(ds, formId, responseId, next);
    forall k | 0 <= k < |rows| ensures rows[k].id == MintId(next + k) {
      assert AnswerRow(ds[k], formId, responseId, MintId(next + k)) == Row(rows[k]);
    }
  }

  lemma ResponseKeepsValid(db: Db, now: int)
    requires Valid(db)
    ensures Valid(WithResponse(db, now))
  {
    WellMintedPush(db.responses, NewResponse(db, now), ResponseKey, db.nextId);
    WellMintedRaise(db.forms, FormKey, db.nextId, db.nextId + 1);
    WellMintedRaise(db.questions, QuestionKey, db.nextId, db.nextId + 1);
    WellMintedRaise(db.options, OptionKey, db.nextId, db.nextId + 1);
    WellMintedRaise(db.answers, AnswerKey, db.nextId, db.nextId + 1);
  }

  lemma CommittedKeepsValid(db: Db, now: int, rows: seq<Answer>)
    requires Valid(db)
    requires forall k :: 0 <= k < |rows| ==> rows[k].id == MintId(db.nextId + 1 + k)
    ensures Valid(Committed(db, now, rows))
  {
    var n := db.nextId + 1 + |rows|;
    WellMintedPush(db.responses, NewResponse(db, now), ResponseKey, db.nextId);
    WellMintedRaise(db.responses + [NewResponse(db, now)], ResponseKey, db.nextId + 1, n);
    ConsecutiveWellMinted(rows, AnswerKey, db.nextId + 1);
    WellMintedConcat(db.answers, rows, AnswerKey, db.nextId, n);
    WellMintedRaise(db.forms, FormKey, db.nextId, n);
    WellMintedRaise(db.questions, QuestionKey, db.nextId, n);
    WellMintedRaise(db.options, OptionKey, db.nextId, n);
  }

  // ---- the loops of `submitForm` ------------------------------------------

  /** A mandatory unanswered question preceded by none is the one reported. */
  lemma FirstUnansweredAt(questions: seq<Question>, answered: seq<Id>, i: int)
    requires 0 <= i < |questions| && questions[i].mandatory && questions[i].id !in answered
    requires forall k :: 0 <= k < i ==> !(questions[k].mandatory && questions[k].id !in answered)
    ensures FirstUnanswered(questions, answered) == Some(questions[i])
  {
    var p := (q: Question) => q.mandatory && q.id !in answered;
    FindNone(questions, p);
    assert p(questions[i]);
    FindFirst(questions, p);
    var j :| 0 <= j < |questions| && questions[j] == Find(questions, p).value && p(questions[j])
             && forall l :: 0 <= l < j ==> !p(questions[l]);
    assert !(j < i) && !(i < j);
  }

  /** Once a prefix of the descriptors fails to become rows, so do all of them, with the same error. */
  lemma {:induction false} BuildRowsErrorPersists(ds: seq<Descriptor>, formId: Id, responseId: Id, next: nat, k: nat)
    requires k <= |ds| && BuildRows(ds[..k], formId, responseId, next).RowsError?
    ensures BuildRows(ds, formId, responseId, next) == BuildRows(ds[..k], formId, responseId, next)
    decreases |ds| - k
  {
    if k == |ds| {
      assert ds[..k] == ds;
    } else {
      var init := ds[..|ds| - 1];
      assert init[..k] == ds[..k];
      BuildRowsErrorPersists(init, formId, responseId, next, k);
    }
  }

  /** `answers.map(...)`: builds the rows one descriptor at a time and stops at
      the first one its callback throws on. */
  method MakeRows(ds: seq<Descriptor>, formId: Id, responseId: Id, next: nat) returns (r: RowsOutcome)
    ensures r == BuildRows(ds, formId, responseId, next)
  {
    var rows: seq<Answer> := [];
    var k := 0;
    while k < |ds|
      invariant 0 <= k <= |ds|
      invariant BuildRows(ds[..k], formId, responseId, next) == Rows(rows)
    {
      assert ds[..k + 1][..k] == ds[..k];
      match AnswerRow(ds[k], formId, responseId, MintId(next + k)) {
        case RowError(e) =>
          BuildRowsErrorPersists(ds, formId, responseId, next, k + 1);
          return RowsError(e);
        case Row(a) =>
          rows := rows + [a];
      }
      k := k + 1;
    }
    assert ds[..|ds|] == ds;
    r := Rows(rows);
  }

  /** The `reduce` into `questionMap` followed by the `forEach` over the answers. */
  method ExtractTicketFields(ds: seq<Descriptor>, questions: seq<Question>) returns (t: TicketFields)
    ensures t == ExtractTicket(ds, questions)
  {
    var questionMap: map<Id, string> := map[];
    var i := 0;
    while i < |questions|
      invariant 0 <= i <= |questions|
      invariant forall id :: QuestionText(questions[..i], id) == (if id in questionMap then Some(questionMap[id]) else None)
    {
      assert questions[..i + 1][..i] == questions[..i];
      questionMap := questionMap[questions[i].id := questions[i].text];
      i := i + 1;
    }
    assert questions[..|questions|] == questions;
    var seat_no, name, email, subject, description := "", "", "", "", "";
    var k := 0;
    while k < |ds|
      invariant 0 <= k <= |ds|
      invariant TicketFields(seat_no, name, email, subject, description) == ExtractTicket(ds[..k], questions)
    {
      assert ds[..k + 1][..k] == ds[..k];
      var answer := ds[k];
      var questionText := if answer.questionId in questionMap then Some(questionMap[answer.questionId]) else None;
      assert questionText == QuestionText(questions, answer.questionId);
      if questionText == Some("Seat Number") {
        seat_no := OrElse(answer.answerText, "");
      } else if questionText == Some("Name") {
        name := OrElse(answer.answerText, "");
      } else if questionText == Some("Email") {
        email := OrElse(answer.answerText, "");
      } else if questionText == Some("Subject") {
        subject := OrElse(answer.answerText, "");
      } else if questionText == Some("Description") {
        description := OrElse(answer.answerText, "");
      }
      k := k + 1;
    }
    assert ds[..|ds|] == ds;
    t := TicketFields(seat_no, name, email, subject, description);
  }
}
