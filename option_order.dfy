/** `createOption`: append an option to a question the user owns, one place
    after the question's highest option order. */
module OptionOrder {
  import opened Results
  import opened Ids
  import opened Schema
  import opened Seqs
  import opened Tables

  function OfQuestion(questionId: Id): OptionRow -> bool {
    (o: OptionRow) => o.questionId == questionId
  }

  /** The `where` of the lookup: the question with this id, owned by the user. */
  function OwnedBy(questionId: Id, user: Id): Question -> bool {
    (q: Question) => q.id == questionId && q.userId == user
  }

  /** The order after the highest existing one, or 1 for a question without options:
      the least value above every existing order when there is one. */
  function NextOrder(os: seq<OptionRow>): (n: int)
    ensures forall i :: 0 <= i < |os| ==> os[i].order < n
    ensures os == [] ==> n == 1
    ensures os != [] ==> exists i :: 0 <= i < |os| && n == os[i].order + 1
    decreases |os|
  {
    if os == [] then 1
    else
      var above := os[|os| - 1].order + 1;
      var rest := NextOrder(os[..|os| - 1]);
      if |os| == 1 || above > rest then above else rest
  }

  /** Two options of the same question never share an order. */
  predicate OrdersDistinct(options: seq<OptionRow>) {
    forall i, j :: 0 <= i < j < |options| && options[i].questionId == options[j].questionId ==>
      options[i].order != options[j].order
  }

  function CreateOption(db: Db, user: Option<Id>, questionId: Id, optionText: string): (c: Change<()>)
    ensures user.None? ==> c == Change(db, Refused(NotAuthenticated))
    ensures user.Some? && Find(db.questions, OwnedBy(questionId, user.value)).None? ==> c == Change(db, Thrown(NotFound))
    ensures c.reply.Ok? <==> user.Some? && Find(db.questions, OwnedBy(questionId, user.value)).Some?
    ensures c.reply.Ok? ==>
      |c.db.options| == |db.options| + 1 && c.db.options[..|db.options|] == db.options
      && c.db == db.(options := c.db.options, nextId := db.nextId + 1)
  {
    if user.None? then Change(db, Refused(NotAuthenticated))
    else
      match Find(db.questions, OwnedBy(questionId, user.value))
      case None => Change(db, Thrown(NotFound))
      case Some(_) =>
        var order := NextOrder(Filter(db.options, OfQuestion(questionId)));
        var added := OptionRow(MintId(db.nextId), questionId, optionText, order);
        Change(db.(options := db.options + [added], nextId := db.nextId + 1), Ok(()))
  }

  /** The added option has the given text and question, a fresh id, and an order
      above every order the question already had. */
  lemma CreatedOption(db: Db, user: Option<Id>, questionId: Id, optionText: string)
    requires CreateOption(db, user, questionId, optionText).reply.Ok?
    ensures var options := CreateOption(db, user, questionId, optionText).db.options;
      var added := options[|options| - 1];
      added.id == MintId(db.nextId) && added.questionId == questionId && added.optionText == optionText
      && (forall i :: 0 <= i < |db.options| && db.options[i].questionId == questionId ==> db.options[i].order < added.order)
      && (added.order == 1 || exists i :: 0 <= i < |db.options| && db.options[i].questionId == questionId && added.order == db.options[i].order + 1)
  {
    var siblings := Filter(db.options, OfQuestion(questionId));
    var order := NextOrder(siblings);
    FilterSpec(db.options, OfQuestion(questionId));
    forall i | 0 <= i < |db.options| && db.options[i].questionId == questionId ensures db.options[i].order < order {
      assert OfQuestion(questionId)(db.options[i]);
      var k :| 0 <= k < |siblings| && siblings[k] == db.options[i];
    }
    if siblings != [] {
      var k :| 0 <= k < |siblings| && order == siblings[k].order + 1;
      var i :| 0 <= i < |db.options| && db.options[i] == siblings[k];
    }
  }

  /** Appending never gives a question two options with the same order. */
  lemma CreateOptionKeepsOrdersDistinct(db: Db, user: Option<Id>, questionId: Id, optionText: string)
    requires OrdersDistinct(db.options)
    ensures OrdersDistinct(CreateOption(db, user, questionId, optionText).db.options)
  {
    var c := CreateOption(db, user, questionId, optionText);
    if c.reply.Ok? {
      CreatedOption(db, user, questionId, optionText);
      var options := c.db.options;
      forall i, j | 0 <= i < j < |options| && options[i].questionId == options[j].questionId
        ensures options[i].order != options[j].order
      {
        if j < |db.options| {
          assert options[i] == db.options[i] && options[j] == db.options[j];
        } else {
          assert options[i] == db.options[i];
        }
      }
    }
  }

  lemma CreateOptionKeepsValid(db: Db, user: Option<Id>, questionId: Id, optionText: string)
    requires Valid(db)
    ensures Valid(CreateOption(db, user, questionId, optionText).db)
  {
    var c := CreateOption(db, user, questionId, optionText);
    if c.reply.Ok? {
      var q := Find(db.questions, OwnedBy(questionId, user.value)).value;
      var k :| 0 <= k < |db.questions| && db.questions[k] == q;
      var added := c.db.options[|db.options|];
      assert c.db.options == db.options + [added];
      WellMintedPush(db.options, added, OptionKey, db.nextId);
      WellMintedRaise(db.forms, FormKey, db.nextId, db.nextId + 1);
      WellMintedRaise(db.questions, QuestionKey, db.nextId, db.nextId + 1);
      WellMintedRaise(db.responses, ResponseKey, db.nextId, db.nextId + 1);
      WellMintedRaise(db.answers, AnswerKey, db.nextId, db.nextId + 1);
      assert IdNumber(q.id) < db.nextId;
    }
  }
}
