/** The database as a value: the five tables the actions read and write, and
    the counter ids are minted from. Row ids are decimal strings of counter
    values, so within a table they ascend and stay below the counter. */
module Tables {
  import opened Results
  import opened Ids
  import opened Schema
  import opened Seqs

  datatype Db = Db(
    forms: seq<Form>, questions: seq<Question>, options: seq<OptionRow>,
    responses: seq<Response>, answers: seq<Answer>, nextId: nat)

  const EmptyDb: Db := Db([], [], [], [], [], 0)

  /** The database after a server action, and what the action answered. */
  datatype Change<+T> = Change(db: Db, reply: Reply<T>)

  /** Every key was minted before `next`, and keys ascend in table order. */
  predicate WellMinted<T>(rows: seq<T>, key: T -> Id, next: nat) {
    (forall i, j :: 0 <= i < j < |rows| ==> IdNumber(key(rows[i])) < IdNumber(key(rows[j])))
    && (forall i :: 0 <= i < |rows| ==> IdNumber(key(rows[i])) < next)
  }

  /** Every key was minted at or after `from`. */
  predicate MintedFrom<T>(rows: seq<T>, key: T -> Id, from: nat) {
    forall i :: 0 <= i < |rows| ==> from <= IdNumber(key(rows[i]))
  }

  function FormKey(f: Form): Id { f.id }
  function QuestionKey(q: Question): Id { q.id }
  function OptionKey(o: OptionRow): Id { o.id }
  function ResponseKey(r: Response): Id { r.id }
  function AnswerKey(a: Answer): Id { a.id }

  /** The store's invariant: ids in every table are unique and were minted
      from the counter, and the form of every question and the question of
      every option name ids minted before (the rows they name may since
      have been deleted). */
  predicate Valid(db: Db) {
    WellMinted(db.forms, FormKey, db.nextId)
    && WellMinted(db.questions, QuestionKey, db.nextId)
    && WellMinted(db.options, OptionKey, db.nextId)
    && WellMinted(db.responses, ResponseKey, db.nextId)
    && WellMinted(db.answers, AnswerKey, db.nextId)
    && (forall i :: 0 <= i < |db.questions| ==> IdNumber(db.questions[i].formId) < db.nextId)
    && (forall i :: 0 <= i < |db.options| ==> IdNumber(db.options[i].questionId) < db.nextId)
  }

  lemma WellMintedUnique<T>(rows: seq<T>, key: T -> Id, next: nat, i: int, j: int)
    requires WellMinted(rows, key, next)
    requires 0 <= i < |rows| && 0 <= j < |rows| && i != j
    ensures key(rows[i]) != key(rows[j])
  {
    if i < j {
      assert IdNumber(key(rows[i])) < IdNumber(key(rows[j]));
    } else {
      assert IdNumber(key(rows[j])) < IdNumber(key(rows[i]));
    }
  }

  lemma WellMintedRaise<T>(rows: seq<T>, key: T -> Id, next: nat, later: nat)
    requires WellMinted(rows, key, next) && next <= later
    ensures WellMinted(rows, key, later)
  {
  }

  /** Rows minted after everything already in a table can be appended to it. */
  lemma WellMintedConcat<T>(rows: seq<T>, extra: seq<T>, key: T -> Id, next: nat, later: nat)
    requires WellMinted(rows, key, next)
    requires WellMinted(extra, key, later) && MintedFrom(extra, key, next) && next <= later
    ensures WellMinted(rows + extra, key, later)
  {
    var all := rows + extra;
    forall i, j | 0 <= i < j < |all| ensures IdNumber(key(all[i])) < IdNumber(key(all[j])) {
      if j < |rows| {
      } else if i < |rows| {
        assert all[j] == extra[j - |rows|];
      } else {
        assert all[i] == extra[i - |rows|] && all[j] == extra[j - |rows|];
      }
    }
    forall i | 0 <= i < |all| ensures IdNumber(key(all[i])) < later {
      if i >= |rows| {
        assert all[i] == extra[i - |rows|];
      }
    }
  }

  /** One freshly minted row. */
  lemma WellMintedPush<T>(rows: seq<T>, row: T, key: T -> Id, next: nat)
    requires WellMinted(rows, key, next) && key(row) == MintId(next)
    ensures WellMinted(rows + [row], key, next + 1)
  {
    ParseDecimalOfDecimal(next);
    WellMintedConcat(rows, [row], key, next, next + 1);
  }

  /** Deleting rows keeps the invariant. */
  lemma WellMintedFilter<T>(rows: seq<T>, keep: T -> bool, key: T -> Id, next: nat)
    requires WellMinted(rows, key, next)
    ensures WellMinted(Filter(rows, keep), key, next)
  {
    var before := (a: T, b: T) => IdNumber(key(a)) < IdNumber(key(b));
    FilterKeepsChain(rows, keep, before);
    var r := Filter(rows, keep);
    FilterSpec(rows, keep);
    forall i | 0 <= i < |r| ensures IdNumber(key(r[i])) < next {
      var k :| 0 <= k < |rows| && rows[k] == r[i];
    }
  }

  /** Updating rows in place without touching their ids keeps the invariant. */
  lemma WellMintedSameKeys<T>(rows: seq<T>, updated: seq<T>, key: T -> Id, next: nat)
    requires WellMinted(rows, key, next)
    requires |updated| == |rows| && forall i :: 0 <= i < |rows| ==> key(updated[i]) == key(rows[i])
    ensures WellMinted(updated, key, next)
  {
  }

  /** `findFirst({ where: { id } })` on each table. */
  function FormById(forms: seq<Form>, id: Id): Option<Form> {
    Find(forms, (f: Form) => f.id == id)
  }

  function QuestionById(questions: seq<Question>, id: Id): Option<Question> {
    Find(questions, (q: Question) => q.id == id)
  }

  function ResponseById(responses: seq<Response>, id: Id): Option<Response> {
    Find(responses, (r: Response) => r.id == id)
  }

  /** A lookup by id finds nothing exactly when no row carries the id. */
  lemma QuestionByIdNone(questions: seq<Question>, id: Id)
    ensures QuestionById(questions, id).None? <==> forall i :: 0 <= i < |questions| ==> questions[i].id != id
  {
    var p := (q: Question) => q.id == id;
    assert QuestionById(questions, id) == Find(questions, p);
    FindNone(questions, p);
  }

  lemma FormByIdNone(forms: seq<Form>, id: Id)
    ensures FormById(forms, id).None? <==> forall i :: 0 <= i < |forms| ==> forms[i].id != id
  {
    var p := (f: Form) => f.id == id;
    assert FormById(forms, id) == Find(forms, p);
    FindNone(forms, p);
  }

  /** In a well-minted table a lookup by id finds exactly the row with that id. */
  lemma {:induction false} QuestionByIdExact(questions: seq<Question>, next: nat, i: int)
    requires WellMinted(questions, QuestionKey, next) && 0 <= i < |questions|
    ensures QuestionById(questions, questions[i].id) == Some(questions[i])
  {
    QuestionByIdNone(questions, questions[i].id);
    var r := QuestionById(questions, questions[i].id);
    var k :| 0 <= k < |questions| && questions[k] == r.value;
    if k != i {
      WellMintedUnique(questions, QuestionKey, next, i, k);
    }
  }

  lemma {:induction false} FormByIdExact(forms: seq<Form>, next: nat, i: int)
    requires WellMinted(forms, FormKey, next) && 0 <= i < |forms|
    ensures FormById(forms, forms[i].id) == Some(forms[i])
  {
    FormByIdNone(forms, forms[i].id);
    var r := FormById(forms, forms[i].id);
    var k :| 0 <= k < |forms| && forms[k] == r.value;
    if k != i {
      WellMintedUnique(forms, FormKey, next, i, k);
    }
  }

  /** Rows whose ids were minted one after another from `from`. */
  lemma ConsecutiveWellMinted<T>(rows: seq<T>, key: T -> Id, from: nat)
    requires forall k :: 0 <= k < |rows| ==> key(rows[k]) == MintId(from + k)
    ensures WellMinted(rows, key, from + |rows|) && MintedFrom(rows, key, from)
  {
    forall k | 0 <= k < |rows| ensures IdNumber(key(rows[k])) == from + k {
      ParseDecimalOfDecimal(from + k);
    }
  }
}
