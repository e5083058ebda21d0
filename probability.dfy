/** The confidence weighting of a group of mithraea: each category label weighs 1, 1/2 or 0,
    a group's weight is the average over its members, and the average picks one of three
    marker colours. */
module Probability {

  /** Marker colours, from least to most certain. */
  const MithraicColors: seq<string> := ["#d7191c", "#fdae61", "#1a9641"]

  function Weight(category: string): real
  {
    if category == "definitive" then 1.0
    else if category == "probable" then 0.5
    else if category == "dubious" then 0.0
    else 0.0
  }

  function Weights(labels: seq<string>): (ws: seq<real>)
    ensures |ws| == |labels|
    ensures forall i :: 0 <= i < |labels| ==> ws[i] == Weight(labels[i])
  {
    seq(|labels|, i requires 0 <= i < |labels| => Weight(labels[i]))
  }

  function Sum(ws: seq<real>): real
  {
    if ws == [] then 0.0 else Sum(ws[..|ws| - 1]) + ws[|ws| - 1]
  }

  /** The arithmetic mean of a non-empty list. */
  function Average(ws: seq<real>): real
    requires |ws| > 0
  {
    Sum(ws) / (|ws| as real)
  }

  /** The summed weights of `labels` lie between 0 and the number of labels; they reach the
      number of labels exactly when every label is "definitive", and 0 exactly when no label is
      "definitive" or "probable". */
  lemma {:induction false} WeightSumBounds(labels: seq<string>)
    ensures 0.0 <= Sum(Weights(labels)) <= |labels| as real
    ensures Sum(Weights(labels)) == |labels| as real <==> forall i :: 0 <= i < |labels| ==> labels[i] == "definitive"
    ensures Sum(Weights(labels)) == 0.0 <==> forall i :: 0 <= i < |labels| ==> labels[i] != "definitive" && labels[i] != "probable"
    decreases |labels|
  {
    if labels != [] {
      var n := |labels| - 1;
      var pre := labels[..n];
      assert Weights(labels)[..n] == Weights(pre);
      WeightSumBounds(pre);
      assert forall i :: 0 <= i < n ==> pre[i] == labels[i];
    }
  }

  /** The weight of a group of mithraea (`weightProbability`): the average weight of its labels. */
  function WeightProbability(labels: seq<string>): (p: real)
    requires |labels| > 0
    ensures 0.0 <= p <= 1.0
    ensures p == 1.0 <==> forall i :: 0 <= i < |labels| ==> labels[i] == "definitive"
    ensures p == 0.0 <==> forall i :: 0 <= i < |labels| ==> labels[i] != "definitive" && labels[i] != "probable"
  {
    WeightSumBounds(labels);
    RatioBounds(Sum(Weights(labels)), |labels| as real);
    Average(Weights(labels))
  }

  lemma RatioBounds(s: real, n: real)
    requires n > 0.0 && 0.0 <= s <= n
    ensures 0.0 <= s / n <= 1.0
    ensures s / n == 1.0 <==> s == n
    ensures s / n == 0.0 <==> s == 0.0
  {
    assert s / n * n == s;
  }

  /** The colour band of an average weight: 2 above 0.66, 1 above 0.33, 0 otherwise. */
  function ColorIndex(avg: real): (k: nat)
    ensures k <= 2
  {
    if avg > 0.66 then 2
    else if avg > 0.33 then 1
    else 0
  }

  /** A larger average never gets a lower colour band. */
  lemma ColorIndexMonotone(a: real, b: real)
    requires a <= b
    ensures ColorIndex(a) <= ColorIndex(b)
  {
  }

  /** The marker colour of a group of mithraea (`colorProbability`). */
  function ColorProbability(labels: seq<string>): (color: string)
    requires |labels| > 0
    ensures color in MithraicColors
    ensures (forall i :: 0 <= i < |labels| ==> labels[i] == "definitive") ==> color == MithraicColors[2]
    ensures (forall i :: 0 <= i < |labels| ==> labels[i] != "definitive" && labels[i] != "probable") ==> color == MithraicColors[0]
  {
    MithraicColors[ColorIndex(WeightProbability(labels))]
  }
}
