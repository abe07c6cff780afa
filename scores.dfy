/** Scores and the evaluator contract: avaliar_exec measured in seconds, or
    float("inf") when the run timed out. */
module Scores {
  import opened Params

  /** An elapsed time, or the timeout sentinel that is worse than every time. */
  datatype Score = Finite(seconds: real) | Inf

  /** Python's `<` on the floats avaliar_exec returns: inf < inf is false. */
  predicate Less(a: Score, b: Score) {
    a.Finite? && (b.Inf? || a.seconds < b.seconds)
  }

  /** a <= b in the same order. */
  predicate AtMost(a: Score, b: Score) {
    !Less(b, a)
  }

  /** Less is a strict total order with Inf as its largest element. */
  lemma LessIsStrictTotalOrder(a: Score, b: Score, c: Score)
    ensures !Less(a, a)
    ensures Less(a, b) && Less(b, c) ==> Less(a, c)
    ensures Less(a, b) || a == b || Less(b, a)
    ensures !Less(Inf, a) && (a.Finite? <==> Less(a, Inf))
  {
  }

  /** A record of best scores that never gets worse. */
  predicate NonIncreasing(bests: seq<Score>) {
    forall g, h :: 0 <= g <= h < |bests| ==> AtMost(bests[h], bests[g])
  }

  /** A record stays non-increasing when a score no worse than its last is
      appended. */
  lemma NonIncreasingExtend(bests: seq<Score>, s: Score)
    requires NonIncreasing(bests) && |bests| > 0 && AtMost(s, bests[|bests| - 1])
    ensures NonIncreasing(bests + [s])
  {
    var bests' := bests + [s];
    forall g, h | 0 <= g <= h < |bests'|
      ensures AtMost(bests'[h], bests'[g])
    {
      if h == |bests| && g < h {
        LessIsStrictTotalOrder(s, bests[|bests| - 1], bests[g]);
      }
    }
  }

  /** i is the index min(range(len(scores)), key=lambda i: scores[i])
      returns: the first index of a lowest score. */
  predicate Lowest(scores: seq<Score>, i: int) {
    && 0 <= i < |scores|
    && (forall j :: 0 <= j < |scores| ==> AtMost(scores[i], scores[j]))
    && (forall j :: 0 <= j < i ==> Less(scores[i], scores[j]))
  }

  /** The index min() returns, scanning left to right and moving only to a
      strictly lower score; pso_search's initial scan for gbest, with the
      same strict <, settles on the same index. */
  function FirstLowest(scores: seq<Score>): (i: nat)
    requires |scores| > 0
    ensures Lowest(scores, i)
    decreases |scores|
  {
    if |scores| == 1 then 0
    else
      var last := |scores| - 1;
      var j := FirstLowest(scores[..last]);
      assert forall l :: 0 <= l < last ==> scores[..last][l] == scores[l];
      if Less(scores[last], scores[j]) then
        assert forall l :: 0 <= l < last ==> AtMost(scores[j], scores[l]);
        LessIsStrictTotalOrder(scores[last], scores[j], scores[j]);
        last
      else
        LessIsStrictTotalOrder(scores[j], scores[last], scores[j]);
        j
  }

  /** The evaluator: a deterministic score for each decoded argument list.
      Running the executable and timing it is not part of this model. */
  type Evaluator = seq<Value> -> Score

  /** The score of a candidate: decode it, then evaluate the arguments. */
  function Cost(params: seq<Param>, eval: Evaluator, c: seq<Value>): Score
    requires Decode(params, c).Ok?
  {
    eval(Decode(params, c).value)
  }

  /** A candidate that decodes and scores strictly better than s. */
  predicate Improves(params: seq<Param>, eval: Evaluator, c: seq<Value>, s: Score) {
    Decode(params, c).Ok? && Less(Cost(params, eval, c), s)
  }
}
