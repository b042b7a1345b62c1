/** `transform` (lib/actions/actions.ts): the submitted answer map, one entry
    per question id, turned into typed answer descriptors. */
module Normaliser {
  import opened Results
  import opened Ids
  import opened Schema
  import opened JsText
  import opened Seqs

  /** One submitted value. `qtype` is `None` when the submitted type string
      is none of the three known ones. */
  datatype RawAnswer = RawAnswer(
    qtype: Option<QuestionType>, text: Option<string>,
    optionId: Option<Id>, optionIds: Option<seq<Id>>)

  /** The submitted map in key order; an object's keys are pairwise distinct. */
  type AnswerMap = seq<(Id, RawAnswer)>

  datatype Descriptor = Descriptor(
    answerText: Option<string>, questionId: Id, qtype: QuestionType,
    optionId: Option<Id>, optionIds: Option<seq<Id>>)

  predicate KeysDistinct(m: AnswerMap) {
    forall i, j :: 0 <= i < j < |m| ==> m[i].0 != m[j].0
  }

  /** Whether an entry is kept: a short response always is, a single choice
      only with a non-empty option id, a multiple choice only with a
      non-empty list. */
  predicate Answered(raw: RawAnswer) {
    match raw.qtype
    case Some(ShortResponse) => true
    case Some(SelectOneOption) => Truthy(raw.optionId)
    case Some(SelectMultipleOptions) => raw.optionIds.Some? && |raw.optionIds.value| > 0
    case None => false
  }

  /** The descriptor of one entry, if it is kept. */
  function Emit(key: Id, raw: RawAnswer): (r: seq<Descriptor>)
    ensures |r| <= 1 && (r != [] <==> Answered(raw))
    ensures r != [] ==> r[0].questionId == key && Some(r[0].qtype) == raw.qtype
    // the text travels only with a short response, the option fields only with their own type
    ensures r != [] ==> (r[0].qtype == ShortResponse <==> r[0].optionId.None? && r[0].optionIds.None?)
    ensures r != [] && r[0].qtype == ShortResponse ==> r[0].answerText == raw.text
    ensures r != [] && r[0].qtype != ShortResponse ==> r[0].answerText.None?
    ensures r != [] && r[0].qtype == SelectOneOption ==> r[0].optionId == raw.optionId && Truthy(r[0].optionId)
    ensures r != [] && r[0].qtype == SelectMultipleOptions ==> r[0].optionIds == raw.optionIds && r[0].optionIds.value != []
  {
    match raw.qtype
    case Some(ShortResponse) => [Descriptor(raw.text, key, ShortResponse, None, None)]
    case Some(SelectOneOption) =>
      if Truthy(raw.optionId) then [Descriptor(None, key, SelectOneOption, raw.optionId, None)] else []
    case Some(SelectMultipleOptions) =>
      if raw.optionIds.Some? && |raw.optionIds.value| > 0
      then [Descriptor(None, key, SelectMultipleOptions, None, raw.optionIds)] else []
    case None => []
  }

  /** The descriptors of a whole map, in key order. */
  function Normalised(m: AnswerMap): seq<Descriptor> {
    if m == [] then [] else
      var last := m[|m| - 1];
      Normalised(m[..|m| - 1]) + Emit(last.0, last.1)
  }

  function QuestionIds(ds: seq<Descriptor>): (ids: seq<Id>)
    ensures |ids| == |ds| && forall i :: 0 <= i < |ds| ==> ids[i] == ds[i].questionId
  {
    seq(|ds|, i requires 0 <= i < |ds| => ds[i].questionId)
  }

  /** A descriptor is produced exactly when some entry of the map produces it. */
  lemma {:induction false} NormalisedMembers(m: AnswerMap, d: Descriptor)
    ensures d in Normalised(m) <==> exists k :: 0 <= k < |m| && Emit(m[k].0, m[k].1) == [d]
  {
    if m != [] {
      var init := m[..|m| - 1];
      NormalisedMembers(init, d);
      assert forall k :: 0 <= k < |init| ==> init[k] == m[k];
      if d in Normalised(m) && d !in Normalised(init) {
        assert Emit(m[|m| - 1].0, m[|m| - 1].1) == [d];
      }
    }
  }

  /** There are never more descriptors than entries. */
  lemma {:induction false} NormalisedShorter(m: AnswerMap)
    ensures |Normalised(m)| <= |m|
  {
    if m != [] {
      NormalisedShorter(m[..|m| - 1]);
    }
  }

  /** Every descriptor belongs to an answered key of the map. */
  lemma NormalisedFromKeys(m: AnswerMap)
    ensures forall d :: d in Normalised(m) ==>
      exists k :: 0 <= k < |m| && m[k].0 == d.questionId && Answered(m[k].1)
  {
    var ds := Normalised(m);
    forall d | d in ds ensures exists k :: 0 <= k < |m| && m[k].0 == d.questionId && Answered(m[k].1) {
      var i :| 0 <= i < |ds| && ds[i] == d;
      var k := DescriptorSource(m, i);
    }
  }

  /** The entry descriptor `i` was emitted for. */
  lemma {:induction false} DescriptorSource(m: AnswerMap, i: nat) returns (k: nat)
    requires i < |Normalised(m)|
    ensures k < |m| && m[k].0 == Normalised(m)[i].questionId && Answered(m[k].1)
    decreases |m|
  {
    var init := m[..|m| - 1];
    var e := Emit(m[|m| - 1].0, m[|m| - 1].1);
    assert Normalised(m) == Normalised(init) + e;
    if i < |Normalised(init)| {
      k := DescriptorSource(init, i);
      assert init[k] == m[k];
    } else {
      assert Normalised(m)[i] == e[0];
      k := |m| - 1;
    }
  }

  /** At most one descriptor per key: with distinct keys (as an object has),
      the descriptors' question ids are distinct. */
  lemma {:induction false} NormalisedOnePerKey(m: AnswerMap)
    requires KeysDistinct(m)
    ensures NoDuplicates(QuestionIds(Normalised(m)))
  {
    if m != [] {
      var init := m[..|m| - 1];
      var last := m[|m| - 1];
      assert KeysDistinct(init);
      NormalisedOnePerKey(init);
      var ids := QuestionIds(Normalised(m));
      var prev := QuestionIds(Normalised(init));
      forall i, j | 0 <= i < j < |ids| ensures ids[i] != ids[j] {
        if j >= |prev| {
          assert ids[j] == last.0;
          assert Normalised(m)[i] == Normalised(init)[i];
          var k := DescriptorSource(init, i);
          assert init[k] == m[k];
        } else {
          assert ids[i] == prev[i] && ids[j] == prev[j];
        }
      }
    }
  }

  /** An entry that is kept yields a descriptor carrying its key; in
      particular every short-response key is answered. */
  lemma KeptEntryIsAnswered(m: AnswerMap, k: int)
    requires 0 <= k < |m| && Answered(m[k].1)
    ensures m[k].0 in QuestionIds(Normalised(m))
  {
    var d := Emit(m[k].0, m[k].1)[0];
    NormalisedMembers(m, d);
    var i :| 0 <= i < |Normalised(m)| && Normalised(m)[i] == d;
    assert QuestionIds(Normalised(m))[i] == m[k].0;
  }

  /** `transform`: a `for…in` loop pushing one descriptor per kept entry. */
  method Transform(m: AnswerMap) returns (result: seq<Descriptor>)
    ensures result == Normalised(m)
  {
    result := [];
    var i := 0;
    while i < |m|
      invariant 0 <= i <= |m|
      invariant result == Normalised(m[..i])
    {
      var (key, raw) := m[i];
      assert m[..i + 1][..i] == m[..i];
      match raw.qtype {
        case Some(ShortResponse) =>
          result := result + [Descriptor(raw.text, key, ShortResponse, None, None)];
        case Some(SelectOneOption) =>
          if raw.optionId.Some? && raw.optionId.value != "" {
            result := result + [Descriptor(None, key, SelectOneOption, raw.optionId, None)];
          }
        case Some(SelectMultipleOptions) =>
          if raw.optionIds.Some? && |raw.optionIds.value| > 0 {
            result := result + [Descriptor(None, key, SelectMultipleOptions, None, raw.optionIds)];
          }
        case None =>
      }
      i := i + 1;
    }
    assert m[..|m|] == m;
  }
}
