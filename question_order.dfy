/** `deleteQuestion`: remove one question of a form and move every later
    sibling up one place, so the form's orders stay `1..N`. */
module QuestionOrder {
  import opened Results
  import opened Ids
  import opened Schema
  import opened Seqs
  import opened Tables

  const QuestionMissing: string := "Question does not exist"
  const WrongForm: string := "Given questionId is not from the given form Id"

  function InForm(formId: Id): Question -> bool {
    (q: Question) => q.formId == formId
  }

  function OtherId(id: Id): Question -> bool {
    (q: Question) => q.id != id
  }

  /** How many questions the form has. */
  function FormCount(qs: seq<Question>, formId: Id): nat
    decreases |qs|
  {
    if qs == [] then 0
    else FormCount(qs[..|qs| - 1], formId) + (if qs[|qs| - 1].formId == formId then 1 else 0)
  }

  lemma {:induction false} FormCountAppend(a: seq<Question>, b: seq<Question>, formId: Id)
    ensures FormCount(a + b, formId) == FormCount(a, formId) + FormCount(b, formId)
    decreases |b|
  {
    if b == [] {
      assert a + b == a;
    } else {
      var n := |b| - 1;
      assert (a + b)[..|a + b| - 1] == a + b[..n];
      FormCountAppend(a, b[..n], formId);
    }
  }

  lemma {:induction false} FormCountNone(qs: seq<Question>, formId: Id)
    requires forall i :: 0 <= i < |qs| ==> qs[i].formId != formId
    ensures FormCount(qs, formId) == 0
    decreases |qs|
  {
    if qs != [] {
      FormCountNone(qs[..|qs| - 1], formId);
    }
  }

  lemma {:induction false} FormCountAll(qs: seq<Question>, formId: Id)
    requires forall i :: 0 <= i < |qs| ==> qs[i].formId == formId
    ensures FormCount(qs, formId) == |qs|
    decreases |qs|
  {
    if qs != [] {
      FormCountAll(qs[..|qs| - 1], formId);
    }
  }

  /** The form's questions carry the orders `1..N`, each once. */
  predicate Contiguous(qs: seq<Question>, formId: Id) {
    (forall i :: 0 <= i < |qs| && qs[i].formId == formId ==> 1 <= qs[i].order <= FormCount(qs, formId))
    && (forall i, j :: 0 <= i < j < |qs| && qs[i].formId == formId && qs[j].formId == formId ==>
          qs[i].order != qs[j].order)
  }

  /** No two rows share an id. */
  predicate UniqueIds(qs: seq<Question>) {
    forall i, j :: 0 <= i < j < |qs| ==> qs[i].id != qs[j].id
  }

  /** The only row carrying the target's id, if any, is the target itself. */
  predicate OnlyRow(qs: seq<Question>, target: Question) {
    forall i :: 0 <= i < |qs| && qs[i].id == target.id ==> qs[i] == target
  }

  lemma WellMintedUniqueIds(qs: seq<Question>, next: nat)
    requires WellMinted(qs, QuestionKey, next)
    ensures UniqueIds(qs)
  {
    forall i, j | 0 <= i < j < |qs| ensures qs[i].id != qs[j].id {
      WellMintedUnique(qs, QuestionKey, next, i, j);
    }
  }

  lemma UniqueOnlyRow(qs: seq<Question>, target: Question)
    requires UniqueIds(qs) && target in qs
    ensures OnlyRow(qs, target)
  {
    var t :| 0 <= t < |qs| && qs[t] == target;
  }

  /** The update each sibling after the removed place receives. */
  function Shifted(q: Question, formId: Id, removed: int): Question {
    if q.formId == formId && q.order > removed then q.(order := q.order - 1) else q
  }

  /** The questions table after the batch: every update, then the delete. */
  function DeleteAndShift(qs: seq<Question>, formId: Id, target: Question): seq<Question>
    decreases |qs|
  {
    if qs == [] then []
    else
      var x := qs[|qs| - 1];
      DeleteAndShift(qs[..|qs| - 1], formId, target)
        + (if x.id != target.id then [Shifted(x, formId, target.order)] else [])
  }

  function ShiftAll(rest: seq<Question>, formId: Id, removed: int): (r: seq<Question>)
    ensures |r| == |rest| && forall a :: 0 <= a < |r| ==> r[a] == Shifted(rest[a], formId, removed)
  {
    seq(|rest|, a requires 0 <= a < |rest| => Shifted(rest[a], formId, removed))
  }

  /** The guard chain before the batch; `None` means the batch runs. */
  function Refusal(db: Db, user: Option<Id>, formId: Id, questionId: Id): (e: Option<string>)
    ensures e.None? <==>
      user.Some? && FormById(db.forms, formId).Some? && FormById(db.forms, formId).value.userId == user.value
      && QuestionById(db.questions, questionId).Some? && QuestionById(db.questions, questionId).value.formId == formId
  {
    if user.None? then Some(NotAuthenticated)
    else
      match FormById(db.forms, formId)
      case None => Some(FormMissing)
      case Some(form) =>
        if form.userId != user.value then Some(NotOwner)
        else
          match QuestionById(db.questions, questionId)
          case None => Some(QuestionMissing)
          case Some(q) => if q.formId != formId then Some(WrongForm) else None
  }

  function DeleteQuestion(db: Db, user: Option<Id>, formId: Id, questionId: Id): (c: Change<()>)
    ensures c.reply.Ok? <==> Refusal(db, user, formId, questionId).None?
    ensures !c.reply.Ok? ==> c.db == db && c.reply == Refused(Refusal(db, user, formId, questionId).value)
    ensures c.reply.Ok? ==>
      c.db == db.(questions := DeleteAndShift(db.questions, formId, QuestionById(db.questions, questionId).value))
  {
    match Refusal(db, user, formId, questionId)
    case Some(e) => Change(db, Refused(e))
    case None =>
      var target := QuestionById(db.questions, questionId).value;
      Change(db.(questions := DeleteAndShift(db.questions, formId, target)), Ok(()))
  }

  /** The result is the table without the target, each row shifted in place. */
  lemma {:induction false} DeleteAndShiftIsShiftedRest(qs: seq<Question>, formId: Id, target: Question)
    ensures DeleteAndShift(qs, formId, target) == ShiftAll(Filter(qs, OtherId(target.id)), formId, target.order)
    decreases |qs|
  {
    if qs != [] {
      var p := qs[..|qs| - 1];
      var x := qs[|qs| - 1];
      DeleteAndShiftIsShiftedRest(p, formId, target);
      var rest := Filter(p, OtherId(target.id));
      if x.id != target.id {
        assert Filter(qs, OtherId(target.id)) == rest + [x];
        assert ShiftAll(rest + [x], formId, target.order)
            == ShiftAll(rest, formId, target.order) + [Shifted(x, formId, target.order)];
      } else {
        assert Filter(qs, OtherId(target.id)) == rest;
      }
    }
  }

  /** The survivors are exactly the other rows, each shifted, and the target is gone. */
  lemma DeleteAndShiftRows(qs: seq<Question>, formId: Id, target: Question)
    ensures forall x :: x in qs && x.id != target.id ==> Shifted(x, formId, target.order) in DeleteAndShift(qs, formId, target)
    ensures forall y :: y in DeleteAndShift(qs, formId, target) ==>
      y.id != target.id && exists x :: x in qs && x.id != target.id && y == Shifted(x, formId, target.order)
  {
    var rest := Filter(qs, OtherId(target.id));
    var r := DeleteAndShift(qs, formId, target);
    DeleteAndShiftIsShiftedRest(qs, formId, target);
    FilterSpec(qs, OtherId(target.id));
    forall x | x in qs && x.id != target.id ensures Shifted(x, formId, target.order) in r {
      var i :| 0 <= i < |qs| && qs[i] == x;
      assert x in rest;
      var a :| 0 <= a < |rest| && rest[a] == x;
      assert r[a] == Shifted(x, formId, target.order);
    }
    forall y | y in r
      ensures y.id != target.id && exists x :: x in qs && x.id != target.id && y == Shifted(x, formId, target.order)
    {
      var a :| 0 <= a < |r| && r[a] == y;
      assert rest[a] in qs && OtherId(target.id)(rest[a]);
    }
  }

  /** Rows of other forms are neither moved nor removed, and keep their order. */
  lemma {:induction false} OtherFormsUntouched(qs: seq<Question>, formId: Id, target: Question, other: Id)
    requires target.formId == formId && other != formId && OnlyRow(qs, target)
    ensures Filter(DeleteAndShift(qs, formId, target), InForm(other)) == Filter(qs, InForm(other))
    decreases |qs|
  {
    if qs != [] {
      var p := qs[..|qs| - 1];
      var x := qs[|qs| - 1];
      OtherFormsUntouched(p, formId, target, other);
      var d := DeleteAndShift(p, formId, target);
      if x.id != target.id {
        var y := Shifted(x, formId, target.order);
        assert (d + [y])[..|d + [y]| - 1] == d;
        assert y.formId == other <==> x.formId == other;
        assert x.formId == other ==> y == x;
      } else {
        assert x == target;
        assert d + [] == d;
      }
    }
  }

  /** With unique ids, deleting a question of the form removes exactly one from its count. */
  lemma DeleteCount(qs: seq<Question>, formId: Id, target: Question, next: nat)
    requires WellMinted(qs, QuestionKey, next) && target in qs && target.formId == formId
    ensures FormCount(DeleteAndShift(qs, formId, target), formId) == FormCount(qs, formId) - 1
  {
    WellMintedUniqueIds(qs, next);
    UniqueOnlyRow(qs, target);
    DeleteCountUpTo(qs, formId, target);
  }

  lemma {:induction false} DeleteCountUpTo(qs: seq<Question>, formId: Id, target: Question)
    requires UniqueIds(qs) && OnlyRow(qs, target) && target.formId == formId
    ensures FormCount(DeleteAndShift(qs, formId, target), formId) == FormCount(qs, formId) - (if target in qs then 1 else 0)
    decreases |qs|
  {
    if qs != [] {
      var p := qs[..|qs| - 1];
      var x := qs[|qs| - 1];
      assert qs == p + [x];
      DeleteCountUpTo(p, formId, target);
      var d := DeleteAndShift(p, formId, target);
      if x.id == target.id {
        assert x == target;
        assert target !in p by {
          forall k | 0 <= k < |p| ensures p[k].id != x.id {
            assert qs[k].id != qs[|qs| - 1].id;
          }
        }
        assert DeleteAndShift(qs, formId, target) == d + [] == d;
        assert FormCount(qs, formId) == FormCount(p, formId) + 1;
      } else {
        assert target in qs <==> target in p;
        var y := Shifted(x, formId, target.order);
        assert DeleteAndShift(qs, formId, target) == d + [y];
        assert (d + [y])[..|d + [y]| - 1] == d;
        assert FormCount(d + [y], formId) == FormCount(d, formId) + (if y.formId == formId then 1 else 0);
      }
    }
  }

  /** Deleting one question of a form whose orders are `1..N` leaves orders `1..N-1`. */
  lemma DeleteKeepsContiguous(qs: seq<Question>, formId: Id, target: Question, next: nat)
    requires WellMinted(qs, QuestionKey, next) && target in qs && target.formId == formId
    requires Contiguous(qs, formId)
    ensures Contiguous(DeleteAndShift(qs, formId, target), formId)
    ensures FormCount(DeleteAndShift(qs, formId, target), formId) == FormCount(qs, formId) - 1
  {
    DeleteCount(qs, formId, target, next);
    DeleteKeepsBounds(qs, formId, target);
    DeleteKeepsDistinct(qs, formId, target, next);
  }

  lemma DeleteKeepsBounds(qs: seq<Question>, formId: Id, target: Question)
    requires target in qs && target.formId == formId && Contiguous(qs, formId)
    ensures var r := DeleteAndShift(qs, formId, target);
      forall a :: 0 <= a < |r| && r[a].formId == formId ==> 1 <= r[a].order <= FormCount(qs, formId) - 1
  {
    var rest := Filter(qs, OtherId(target.id));
    var r := DeleteAndShift(qs, formId, target);
    DeleteAndShiftIsShiftedRest(qs, formId, target);
    var t :| 0 <= t < |qs| && qs[t] == target;
    forall a | 0 <= a < |r| && r[a].formId == formId ensures 1 <= r[a].order <= FormCount(qs, formId) - 1 {
      var i := SurvivorIndex(qs, rest, target, t, a);
      assert r[a] == Shifted(qs[i], formId, target.order);
    }
  }

  lemma DeleteKeepsDistinct(qs: seq<Question>, formId: Id, target: Question, next: nat)
    requires WellMinted(qs, QuestionKey, next) && target in qs && target.formId == formId
    requires Contiguous(qs, formId)
    ensures var r := DeleteAndShift(qs, formId, target);
      forall a, b :: 0 <= a < b < |r| && r[a].formId == formId && r[b].formId == formId ==> r[a].order != r[b].order
  {
    var rest := Filter(qs, OtherId(target.id));
    var r := DeleteAndShift(qs, formId, target);
    DeleteAndShiftIsShiftedRest(qs, formId, target);
    WellMintedFilter(qs, OtherId(target.id), QuestionKey, next);
    var t :| 0 <= t < |qs| && qs[t] == target;
    forall a, b | 0 <= a < b < |r| && r[a].formId == formId && r[b].formId == formId
      ensures r[a].order != r[b].order
    {
      var i := SurvivorIndex(qs, rest, target, t, a);
      var j := SurvivorIndex(qs, rest, target, t, b);
      WellMintedUnique(rest, QuestionKey, next, a, b);
      Apart(qs, formId, i, j);
      ShiftKeepsApart(qs[i], qs[j], formId, target.order);
    }
  }

  /** Two different rows of a contiguous form have different orders. */
  lemma Apart(qs: seq<Question>, formId: Id, i: int, j: int)
    requires Contiguous(qs, formId) && 0 <= i < |qs| && 0 <= j < |qs| && i != j
    requires qs[i].formId == formId && qs[j].formId == formId
    ensures qs[i].order != qs[j].order
  {
    if j < i {
      assert qs[j].order != qs[i].order;
    }
  }

  /** Shifting never makes two different orders, both other than the removed one, equal. */
  lemma ShiftKeepsApart(x: Question, y: Question, formId: Id, removed: int)
    requires x.order != y.order && x.order != removed && y.order != removed
    ensures Shifted(x, formId, removed).order != Shifted(y, formId, removed).order || x.formId != y.formId
  {
  }

  /** Where a survivor came from: a row of the table other than the target,
      whose order therefore differs from the target's. */
  lemma SurvivorIndex(qs: seq<Question>, rest: seq<Question>, target: Question, t: int, a: int) returns (i: int)
    requires rest == Filter(qs, OtherId(target.id)) && 0 <= a < |rest|
    requires 0 <= t < |qs| && qs[t] == target
    requires Contiguous(qs, target.formId)
    ensures 0 <= i < |qs| && qs[i] == rest[a] && i != t
    ensures qs[i].formId == target.formId ==> qs[i].order != target.order
  {
    FilterSpec(qs, OtherId(target.id));
    assert rest[a] in qs && rest[a].id != target.id;
    i :| 0 <= i < |qs| && qs[i] == rest[a];
    if qs[i].formId == target.formId {
      Apart(qs, target.formId, i, t);
    }
  }

  /** Two surviving questions of the form keep their relative order. */
  lemma DeleteKeepsRelativeOrder(qs: seq<Question>, formId: Id, target: Question, x: Question, y: Question)
    requires target in qs && target.formId == formId && Contiguous(qs, formId)
    requires x in qs && y in qs && x.id != target.id && y.id != target.id
    requires x.formId == formId && y.formId == formId
    ensures Shifted(x, formId, target.order).order < Shifted(y, formId, target.order).order <==> x.order < y.order
  {
    var t :| 0 <= t < |qs| && qs[t] == target;
    var i :| 0 <= i < |qs| && qs[i] == x;
    var j :| 0 <= j < |qs| && qs[j] == y;
    Apart(qs, formId, i, t);
    Apart(qs, formId, j, t);
  }

  /** A successful delete keeps every table well minted. */
  lemma DeleteQuestionKeepsValid(db: Db, user: Option<Id>, formId: Id, questionId: Id)
    requires Valid(db)
    ensures Valid(DeleteQuestion(db, user, formId, questionId).db)
  {
    if Refusal(db, user, formId, questionId).None? {
      var target := QuestionById(db.questions, questionId).value;
      var rest := Filter(db.questions, OtherId(target.id));
      WellMintedFilter(db.questions, OtherId(target.id), QuestionKey, db.nextId);
      DeleteAndShiftIsShiftedRest(db.questions, formId, target);
      WellMintedSameKeys(rest, DeleteAndShift(db.questions, formId, target), QuestionKey, db.nextId);
      FilterSpec(db.questions, OtherId(target.id));
      var after := DeleteAndShift(db.questions, formId, target);
      forall i | 0 <= i < |after| ensures IdNumber(after[i].formId) < db.nextId {
        assert after[i] == Shifted(rest[i], formId, target.order);
        var k :| 0 <= k < |db.questions| && db.questions[k] == rest[i];
      }
    }
  }

  /** A successful delete removes the named question and keeps `1..N` contiguous. */
  lemma DeleteQuestionContiguous(db: Db, user: Option<Id>, formId: Id, questionId: Id)
    requires Valid(db) && Contiguous(db.questions, formId)
    requires DeleteQuestion(db, user, formId, questionId).reply.Ok?
    ensures var qs := DeleteQuestion(db, user, formId, questionId).db.questions;
      Contiguous(qs, formId) && FormCount(qs, formId) == FormCount(db.questions, formId) - 1
      && forall i :: 0 <= i < |qs| ==> qs[i].id != questionId
  {
    var target := QuestionById(db.questions, questionId).value;
    DeleteKeepsContiguous(db.questions, formId, target, db.nextId);
    DeleteAndShiftRows(db.questions, formId, target);
    var qs := DeleteQuestion(db, user, formId, questionId).db.questions;
    forall i | 0 <= i < |qs| ensures qs[i].id != questionId {
      assert qs[i] in qs;
    }
  }

  /** A delete, refused or not, leaves the questions of every other form exactly as they were. */
  lemma DeleteQuestionKeepsOtherForms(db: Db, user: Option<Id>, formId: Id, questionId: Id, other: Id)
    requires Valid(db) && other != formId
    ensures Filter(DeleteQuestion(db, user, formId, questionId).db.questions, InForm(other)) == Filter(db.questions, InForm(other))
  {
    if Refusal(db, user, formId, questionId).None? {
      var target := QuestionById(db.questions, questionId).value;
      WellMintedUniqueIds(db.questions, db.nextId);
      UniqueOnlyRow(db.questions, target);
      OtherFormsUntouched(db.questions, formId, target, other);
    }
  }
}
