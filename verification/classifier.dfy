/** What the sketch does with each answer of the image classifier: record
    an error, or the top candidate with its label normalised, and count the
    answers that match the image's actual label. */
module Classifier {
  import opened Strings
  import opened Catalog

  /** One ranked candidate; the confidence is carried along, never examined. */
  datatype Candidate = Candidate(labelText: string, confidence: real)

  /** The classifier's answer for one image: an error, or its candidates
      best first (a missing list is treated like an empty one). */
  datatype Outcome = Failed | Returned(candidates: seq<Candidate>)

  /** A filled result slot. */
  datatype Prediction = ErrorResult | Predicted(labelText: string, confidence: real)

  /** Raw labels that mean a cat, resp. a dog, once lower-cased. */
  predicate IsClassOne(lower: string) { lower == "class 1" || lower == "class1" }
  predicate IsClassTwo(lower: string) { lower == "class 2" || lower == "class2" }

  /** The label shown and compared: "class 1"/"class1" in any case becomes
      Cat, "class 2"/"class2" in any case becomes Dog, and any other label
      is kept exactly as the classifier spelled it. */
  function NormalizeLabel(raw: string): (r: string)
    ensures r == "Cat" <==> IsClassOne(ToLower(raw)) || raw == "Cat"
    ensures r == "Dog" <==> IsClassTwo(ToLower(raw)) || raw == "Dog"
    ensures r == raw || r == "Cat" || r == "Dog"
  {
    var lower := ToLower(raw);
    if IsClassOne(lower) then "Cat"
    else if IsClassTwo(lower) then "Dog"
    else raw
  }

  /** Normalising twice is normalising once: "Cat" and "Dog" are kept. */
  lemma NormalizeIdempotent(raw: string)
    ensures NormalizeLabel(NormalizeLabel(raw)) == NormalizeLabel(raw)
  {
    var r := NormalizeLabel(raw);
    if r == "Cat" {
      assert ToLower(r) == "cat";
    } else if r == "Dog" {
      assert ToLower(r) == "dog";
    }
  }

  /** Some labels as the sketch treats them: the case of "class" does not
      matter, but a model trained with "cat" is not mapped to "Cat". */
  lemma NormalizeExamples()
    ensures NormalizeLabel("Class 1") == "Cat"
    ensures NormalizeLabel("CLASS2") == "Dog"
    ensures NormalizeLabel("Cat") == "Cat"
    ensures NormalizeLabel("cat") == "cat"
  {
    assert ToLower("Class 1") == "class 1";
    assert ToLower("CLASS2") == "class2";
    assert ToLower("Cat") == "cat";
    assert ToLower("cat") == "cat";
  }

  /** The slot recorded for one answer: an error when the classifier failed
      or gave no candidate, otherwise the first candidate, normalised. */
  function Record(o: Outcome): (p: Prediction)
    ensures p.ErrorResult? <==> o.Failed? || o.candidates == []
    ensures p.Predicted? ==>
              (p.labelText == NormalizeLabel(o.candidates[0].labelText)
               && p.confidence == o.candidates[0].confidence)
  {
    match o
    case Failed => ErrorResult
    case Returned(cs) =>
      if |cs| == 0 then ErrorResult
      else Predicted(NormalizeLabel(cs[0].labelText), cs[0].confidence)
  }

  /** The slots recorded for a sequence of answers. */
  function Records(outcomes: seq<Outcome>): (ps: seq<Prediction>)
    ensures |ps| == |outcomes|
    ensures forall i :: 0 <= i < |outcomes| ==> ps[i] == Record(outcomes[i])
  {
    seq(|outcomes|, i requires 0 <= i < |outcomes| => Record(outcomes[i]))
  }

  /** A slot counts as correct when it holds a label equal to the actual one. */
  predicate IsCorrect(p: Prediction, actual: Label) {
    p.Predicted? && p.labelText == LabelName(actual)
  }

  /** An answer is correct exactly when the classifier gave a candidate whose
      normalised top label is the actual label. */
  lemma RecordCorrect(o: Outcome, actual: Label)
    ensures IsCorrect(Record(o), actual) <==>
      o.Returned? && o.candidates != [] && NormalizeLabel(o.candidates[0].labelText) == LabelName(actual)
  {
  }

  /** The number of correct slots, counted from the front. */
  function CountCorrect(data: seq<Entry>, preds: seq<Prediction>): (n: nat)
    requires |data| == |preds|
    ensures n <= |data|
    decreases |data|
  {
    if |data| == 0 then 0
    else
      CountCorrect(data[..|data| - 1], preds[..|preds| - 1])
      + (if IsCorrect(preds[|preds| - 1], data[|data| - 1].actualLabel) then 1 else 0)
  }

  /** The indices whose slot is correct. */
  function CorrectIndices(data: seq<Entry>, preds: seq<Prediction>): set<nat>
    requires |data| == |preds|
  {
    set i: nat | i < |data| && IsCorrect(preds[i], data[i].actualLabel)
  }

  /** Extending the page by one slot adds that index to the correct ones
      exactly when the slot is correct. */
  lemma CorrectIndicesStep(data: seq<Entry>, preds: seq<Prediction>)
    requires |data| == |preds| && |data| > 0
    ensures var n := |data| - 1;
      CorrectIndices(data, preds)
      == CorrectIndices(data[..n], preds[..n])
         + (if IsCorrect(preds[n], data[n].actualLabel) then {n} else {})
  {
    var n := |data| - 1;
    var d', p' := data[..n], preds[..n];
    var extra: set<nat> := if IsCorrect(preds[n], data[n].actualLabel) then {n} else {};
    forall i: nat
      ensures i in CorrectIndices(data, preds) <==> i in CorrectIndices(d', p') + extra
    {
      if i < n {
        assert d'[i] == data[i] && p'[i] == preds[i];
      }
    }
  }

  /** The running count is the number of correct indices. */
  lemma {:induction false} CountIsCorrectIndices(data: seq<Entry>, preds: seq<Prediction>)
    requires |data| == |preds|
    ensures CountCorrect(data, preds) == |CorrectIndices(data, preds)|
    decreases |data|
  {
    if |data| > 0 {
      var n := |data| - 1;
      CountIsCorrectIndices(data[..n], preds[..n]);
      CorrectIndicesStep(data, preds);
      assert n !in CorrectIndices(data[..n], preds[..n]);
    }
  }

  /** The count is zero exactly when no slot is correct; a page where every
      answer is an error counts zero. */
  lemma {:induction false} CountZero(data: seq<Entry>, preds: seq<Prediction>)
    requires |data| == |preds|
    ensures CountCorrect(data, preds) == 0 <==>
      forall i :: 0 <= i < |data| ==> !IsCorrect(preds[i], data[i].actualLabel)
  {
    CountIsCorrectIndices(data, preds);
    if CountCorrect(data, preds) == 0 {
      assert CorrectIndices(data, preds) == {};
      forall i | 0 <= i < |data| ensures !IsCorrect(preds[i], data[i].actualLabel) {
        assert i !in CorrectIndices(data, preds);
      }
    } else {
      var i :| i in CorrectIndices(data, preds);
    }
  }

  /** The count over a prefix grows by one exactly when the next slot is
      correct. */
  lemma CountStep(data: seq<Entry>, preds: seq<Prediction>, i: nat)
    requires |data| == |preds| && i < |data|
    ensures CountCorrect(data[..i + 1], preds[..i + 1])
      == CountCorrect(data[..i], preds[..i]) + (if IsCorrect(preds[i], data[i].actualLabel) then 1 else 0)
  {
    assert data[..i + 1][..i] == data[..i];
    assert preds[..i + 1][..i] == preds[..i];
  }
}
