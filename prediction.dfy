/**
 * Deriving a prediction and its confidence from one inference vector
 * (the model's probabilities, one entry per category).
 */
module Prediction {

  /** `k` is the first index of a largest entry of `v`. */
  predicate IsFirstMax(v: seq<real>, k: nat)
  {
    k < |v| &&
    (forall j :: 0 <= j < |v| ==> v[j] <= v[k]) &&
    (forall j :: 0 <= j < k ==> v[j] < v[k])
  }

  /**
   * The predicted category: the index of a largest probability, the lowest
   * such index on ties, as `numpy.argmax` chooses it for a non-empty vector.
   */
  function ArgMax(v: seq<real>): (k: nat)
    requires |v| > 0
    ensures k < |v|
    ensures forall j :: 0 <= j < |v| ==> v[j] <= v[k]
    ensures forall j :: 0 <= j < k ==> v[j] < v[k]
  {
    if |v| == 1 then 0
    else
      var k := ArgMax(v[..|v| - 1]);
      if v[|v| - 1] > v[k] then |v| - 1 else k
  }

  /** The confidence of a prediction: the winning probability as a percentage. */
  function Confidence(v: seq<real>): (c: real)
    requires |v| > 0
    ensures forall j :: 0 <= j < |v| ==> v[j] * 100.0 <= c
    ensures exists j :: 0 <= j < |v| && c == v[j] * 100.0
  {
    v[ArgMax(v)] * 100.0
  }

  /** ArgMax is exactly the first maximal index: no other index qualifies. */
  lemma ArgMaxCharacterized(v: seq<real>, k: nat)
    requires |v| > 0
    ensures ArgMax(v) == k <==> IsFirstMax(v, k)
  {
  }

  /** The confidence is the predicted entry scaled by 100. */
  lemma ConfidenceOfPrediction(v: seq<real>)
    requires |v| > 0
    ensures Confidence(v) == v[ArgMax(v)] * 100.0
  {
  }

  /** A clear winner at index 1 with probability 0.9 gives prediction 1, confidence 90. */
  lemma ClearWinnerExample()
    ensures ArgMax([0.05, 0.9, 0.05, 0.0, 0.0, 0.0, 0.0, 0.0, 0.0, 0.0]) == 1
    ensures Confidence([0.05, 0.9, 0.05, 0.0, 0.0, 0.0, 0.0, 0.0, 0.0, 0.0]) == 90.0
  {
    var v: seq<real> := [0.05, 0.9, 0.05, 0.0, 0.0, 0.0, 0.0, 0.0, 0.0, 0.0];
    assert IsFirstMax(v, 1);
    ArgMaxCharacterized(v, 1);
  }

  /** Ties go to the lowest index. */
  lemma TieExample()
    ensures ArgMax([0.25, 0.5, 0.25, 0.5]) == 1
  {
    var v: seq<real> := [0.25, 0.5, 0.25, 0.5];
    assert IsFirstMax(v, 1);
    ArgMaxCharacterized(v, 1);
  }
}
