/** ga_search of tunning/tuning.py: a population of individuals (one value per
    parameter), tournament selection, uniform crossover, clamped mutation and
    elitism, for a fixed number of generations. */
module Genetic {
  import opened Params
  import opened Scores

  /** A parameter random_individual can draw a value for. */
  predicate Samplable(p: Param) {
    (p.Categorical? && |p.values| > 0) || (p.IntRange? && p.min <= p.max)
  }

  /** A value an individual holds for parameter p: one of the categorical
      values, or an integer in [min, max]. */
  predicate Gene(p: Param, v: Value) {
    if p.Categorical? then v in p.values
    else p.IntRange? && v.Num? && IsInt(v.x) && p.min as real <= v.x <= p.max as real
  }

  predicate Individual(params: seq<Param>, ind: seq<Value>) {
    |ind| == |params| && forall i :: 0 <= i < |params| ==> Gene(params[i], ind[i])
  }

  predicate Population(params: seq<Param>, pop: seq<seq<Value>>) {
    forall i :: 0 <= i < |pop| ==> Individual(params, pop[i])
  }

  /** Every individual decodes, so fitness never raises. */
  lemma IndividualDecodes(params: seq<Param>, ind: seq<Value>)
    requires Individual(params, ind)
    ensures Decode(params, ind).Ok?
  {
    forall i | 0 <= i < |params| && i < |ind|
      ensures DecodeOne(params[i], ind[i]).Ok?
    {
      assert Gene(params[i], ind[i]);
    }
  }

  lemma PopulationDecodes(params: seq<Param>, pop: seq<seq<Value>>)
    requires Population(params, pop)
    ensures forall i :: 0 <= i < |pop| ==> Decode(params, pop[i]).Ok?
  {
    forall i | 0 <= i < |pop|
      ensures Decode(params, pop[i]).Ok?
    {
      IndividualDecodes(params, pop[i]);
    }
  }

  /** random_individual, drawing the value of parameter i with draw n + i. */
  function RandomIndividual(params: seq<Param>, rs: Draws, n: nat): (r: Result<seq<Value>>)
    requires ValidDraws(rs)
    ensures r.Ok? <==> forall i :: 0 <= i < |params| ==> Samplable(params[i])
    ensures r.Ok? ==> Individual(params, r.value)
    decreases |params|
  {
    if |params| == 0 then Ok([])
    else
      match RandomValue(params[0], rs(n))
      case Err(e) => Err(e)
      case Ok(v) =>
        match RandomIndividual(params[1..], rs, n + 1)
        case Err(e) => Err(e)
        case Ok(rest) => Ok([v] + rest)
  }

  /** Whether random_individual fails does not depend on the draws, and
      when it fails it fails with the same error. */
  lemma {:induction false} RandomIndividualFailsAlike(params: seq<Param>, rs: Draws, n: nat, m: nat)
    requires ValidDraws(rs) && RandomIndividual(params, rs, n).Err?
    ensures RandomIndividual(params, rs, m) == RandomIndividual(params, rs, n)
    decreases |params|
  {
    if RandomValue(params[0], rs(n)).Ok? {
      RandomIndividualFailsAlike(params[1..], rs, n + 1, m + 1);
    }
  }

  /** fitness of every individual: [fitness(ind) for ind in population]. */
  function Fitnesses(params: seq<Param>, eval: Evaluator, pop: seq<seq<Value>>): (s: seq<Score>)
    requires Population(params, pop)
    ensures |s| == |pop|
    ensures (forall args :: eval(args).Finite?) ==> forall i :: 0 <= i < |s| ==> s[i].Finite?
  {
    PopulationDecodes(params, pop);
    seq(|pop|, i requires 0 <= i < |pop| => Cost(params, eval, pop[i]))
  }

  /** The individuals a tournament samples, with random.randrange(len(pop)). */
  function Picks(rs: Draws, n: nat, k: nat, size: nat): (p: seq<int>)
    requires ValidDraws(rs) && (k > 0 ==> size > 0)
    ensures |p| == k && forall j :: 0 <= j < k ==> 0 <= p[j] < size && p[j] == Index(rs(n + j), size)
  {
    var p := seq(k, j requires 0 <= j < k => Index(rs(n + j), size));
    assert forall j :: 0 <= j < k ==> p[j] == Index(rs(n + j), size);
    p
  }

  /** The sample at position j is the first of the best sampled scores. */
  ghost predicate Wins(scores: seq<Score>, picks: seq<int>, j: int)
    requires forall l :: 0 <= l < |picks| ==> 0 <= picks[l] < |scores|
  {
    && 0 <= j < |picks|
    && scores[picks[j]].Finite?
    && (forall l :: 0 <= l < |picks| ==> AtMost(scores[picks[j]], scores[picks[l]]))
    && (forall l :: 0 <= l < j ==> Less(scores[picks[j]], scores[picks[l]]))
  }

  /** Every sampled individual scored inf. */
  predicate AllInf(scores: seq<Score>, picks: seq<int>)
    requires forall l :: 0 <= l < |picks| ==> 0 <= picks[l] < |scores|
  {
    forall j :: 0 <= j < |picks| ==> scores[picks[j]] == Inf
  }

  /** The position among the first j samples that tournament_selection
      holds after j rounds (the first sample with the lowest score), or -1
      while every sample so far scored inf. */
  function Leader(scores: seq<Score>, picks: seq<int>, j: nat): (b: int)
    requires j <= |picks| && forall l :: 0 <= l < |picks| ==> 0 <= picks[l] < |scores|
    ensures -1 <= b < j
    ensures b == -1 <==> forall l :: 0 <= l < j ==> scores[picks[l]] == Inf
    ensures b >= 0 ==>
              && scores[picks[b]].Finite?
              && (forall l :: 0 <= l < j ==> AtMost(scores[picks[b]], scores[picks[l]]))
              && (forall l :: 0 <= l < b ==> Less(scores[picks[b]], scores[picks[l]]))
    decreases j
  {
    if j == 0 then -1
    else
      var b := Leader(scores, picks, j - 1);
      var held := if b < 0 then Inf else scores[picks[b]];
      if Less(scores[picks[j - 1]], held) then
        assert forall l :: 0 <= l < j - 1 ==> AtMost(held, scores[picks[l]]);
        LessIsStrictTotalOrder(scores[picks[j - 1]], held, held);
        j - 1
      else b
  }

  /** The sample tournament_selection holds after j rounds, read from draw
      n on, with its score: a round's sample is kept only when its score is
      strictly below the one held; (None, inf) before any is kept. */
  function Rounds(pop: seq<seq<Value>>, scores: seq<Score>, rs: Draws, n: nat, j: nat): (held: (Option<seq<Value>>, Score))
    requires ValidDraws(rs) && |scores| == |pop| && (j > 0 ==> |pop| > 0)
    ensures held.0.Some? ==> held.0.value in pop
    decreases j
  {
    if j == 0 then (None, Inf)
    else
      var prev := Rounds(pop, scores, rs, n, j - 1);
      var i := Index(rs(n + j - 1), |pop|);
      if Less(scores[i], prev.1) then (Some(pop[i]), scores[i]) else prev
  }

  /** What tournament_selection returns: the sample held after k rounds. */
  function Tournament(pop: seq<seq<Value>>, scores: seq<Score>, k: nat, rs: Draws, n: nat): (winner: Option<seq<Value>>)
    requires ValidDraws(rs) && |scores| == |pop| && (k > 0 ==> |pop| > 0)
    ensures winner.Some? ==> winner.value in pop
  {
    Rounds(pop, scores, rs, n, k).0
  }

  /** After j rounds the held sample is the Leader of the first j picks,
      with its score, or (None, inf) while every pick scored inf. */
  lemma {:induction false} RoundsFollowLeader(pop: seq<seq<Value>>, scores: seq<Score>, k: nat, rs: Draws, n: nat, j: nat)
    requires ValidDraws(rs) && |scores| == |pop| && (k > 0 ==> |pop| > 0) && j <= k
    ensures var picks := Picks(rs, n, k, |pop|);
            var b := Leader(scores, picks, j);
            Rounds(pop, scores, rs, n, j) == if b < 0 then (None, Inf) else (Some(pop[picks[b]]), scores[picks[b]])
    decreases j
  {
    if j > 0 {
      RoundsFollowLeader(pop, scores, k, rs, n, j - 1);
      var picks := Picks(rs, n, k, |pop|);
      var b := Leader(scores, picks, j - 1);
      var prev := Rounds(pop, scores, rs, n, j - 1);
      assert prev.1 == if b < 0 then Inf else scores[picks[b]];
      assert Index(rs(n + j - 1), |pop|) == picks[j - 1];
      assert Leader(scores, picks, j) == if Less(scores[picks[j - 1]], prev.1) then j - 1 else b;
    }
  }

  /** The tournament winner is None exactly when every sample scored inf,
      and otherwise the first sample with the lowest score. */
  lemma TournamentPicksBest(pop: seq<seq<Value>>, scores: seq<Score>, k: nat, rs: Draws, n: nat)
    requires ValidDraws(rs) && |scores| == |pop| && (k > 0 ==> |pop| > 0)
    ensures var winner, picks := Tournament(pop, scores, k, rs, n), Picks(rs, n, k, |pop|);
      && (winner.None? <==> AllInf(scores, picks))
      && (winner.Some? ==> exists j :: Wins(scores, picks, j) && winner.value == pop[picks[j]])
  {
    var picks := Picks(rs, n, k, |pop|);
    RoundsFollowLeader(pop, scores, k, rs, n, k);
    var b := Leader(scores, picks, k);
    if b >= 0 {
      assert Wins(scores, picks, b);
    }
  }

  /** tournament_selection: k rounds of randrange, keeping a sample only
      when its score is strictly below the one held. */
  method TournamentSelection(pop: seq<seq<Value>>, scores: seq<Score>, k: nat, rs: Draws, n: nat)
    returns (winner: Option<seq<Value>>)
    requires ValidDraws(rs) && |scores| == |pop| && (k > 0 ==> |pop| > 0)
    ensures winner == Tournament(pop, scores, k, rs, n)
  {
    winner := None;
    var bestScore := Inf;
    for j := 0 to k
      invariant (winner, bestScore) == Rounds(pop, scores, rs, n, j)
    {
      var i := Index(rs(n + j), |pop|);
      if Less(scores[i], bestScore) {
        bestScore := scores[i];
        winner := Some(pop[i]);
      }
    }
  }

  /** crossover: positions below |params| are swapped where the draw is
      below 0.5, each child keeps its parent's other positions. */
  function Crossover(params: seq<Param>, a: seq<Value>, b: seq<Value>, rs: Draws, n: nat): (children: (seq<Value>, seq<Value>))
    requires |params| <= |a| && |params| <= |b|
    ensures |children.0| == |a| && |children.1| == |b|
    ensures forall i :: 0 <= i < |params| ==>
              (children.0[i] == a[i] && children.1[i] == b[i]) ||
              (children.0[i] == b[i] && children.1[i] == a[i])
    ensures forall i :: |params| <= i < |a| ==> children.0[i] == a[i]
    ensures forall i :: |params| <= i < |b| ==> children.1[i] == b[i]
  {
    (seq(|a|, i requires 0 <= i < |a| => if i < |params| && rs(n + i) < 0.5 then b[i] else a[i]),
     seq(|b|, i requires 0 <= i < |b| => if i < |params| && rs(n + i) < 0.5 then a[i] else b[i]))
  }

  /** Crossing the children again with the same draws gives back the parents. */
  lemma CrossoverInvolution(params: seq<Param>, a: seq<Value>, b: seq<Value>, rs: Draws, n: nat)
    requires |params| <= |a| && |params| <= |b|
    ensures var c := Crossover(params, a, b, rs, n); Crossover(params, c.0, c.1, rs, n) == (a, b)
  {
    var c := Crossover(params, a, b, rs, n);
    var d := Crossover(params, c.0, c.1, rs, n);
    assert d.0 == a;
    assert d.1 == b;
  }

  /** Appending a kept or swapped pair to two sequences that hold the values
      of two others keeps that so. */
  lemma AppendPair(a: seq<Value>, b: seq<Value>, c: seq<Value>, d: seq<Value>, x: Value, y: Value, u: Value, w: Value)
    requires multiset(c) + multiset(d) == multiset(a) + multiset(b)
    requires (u == x && w == y) || (u == y && w == x)
    ensures multiset(c + [u]) + multiset(d + [w]) == multiset(a + [x]) + multiset(b + [y])
  {
    assert multiset(c + [u]) == multiset(c) + multiset{u};
    assert multiset(d + [w]) == multiset(d) + multiset{w};
    assert multiset(a + [x]) == multiset(a) + multiset{x};
    assert multiset(b + [y]) == multiset(b) + multiset{y};
    assert multiset{u} + multiset{w} == multiset{x} + multiset{y};
    calc {
      multiset(c + [u]) + multiset(d + [w]);
      (multiset(c) + multiset(d)) + (multiset{u} + multiset{w});
      (multiset(a) + multiset(b)) + (multiset{x} + multiset{y});
      multiset(a + [x]) + multiset(b + [y]);
    }
  }

  /** Two sequences built position by position from the values of two
      others, each position kept or swapped, hold the same values overall. */
  lemma {:induction false} SwapsKeepValues(a: seq<Value>, b: seq<Value>, c: seq<Value>, d: seq<Value>)
    requires |a| == |b| == |c| == |d|
    requires forall i :: 0 <= i < |a| ==> (c[i] == a[i] && d[i] == b[i]) || (c[i] == b[i] && d[i] == a[i])
    ensures multiset(c) + multiset(d) == multiset(a) + multiset(b)
  {
    if |a| > 0 {
      var m := |a| - 1;
      var a', b', c', d' := a[..m], b[..m], c[..m], d[..m];
      assert forall i :: 0 <= i < m ==> a'[i] == a[i] && b'[i] == b[i] && c'[i] == c[i] && d'[i] == d[i];
      SwapsKeepValues(a', b', c', d');
      AppendPair(a', b', c', d', a[m], b[m], c[m], d[m]);
      LastSplit(a);
      LastSplit(b);
      LastSplit(c);
      LastSplit(d);
    }
  }

  lemma LastSplit(s: seq<Value>)
    requires |s| > 0
    ensures s == s[..|s| - 1] + [s[|s| - 1]]
  {
  }

  /** Crossover neither loses nor invents a gene: the children hold the
      parents' genes between them. */
  lemma CrossoverKeepsGenes(params: seq<Param>, a: seq<Value>, b: seq<Value>, rs: Draws, n: nat)
    requires |params| <= |a| && |a| == |b|
    ensures var c := Crossover(params, a, b, rs, n); multiset(c.0) + multiset(c.1) == multiset(a) + multiset(b)
  {
    var c := Crossover(params, a, b, rs, n);
    SwapsKeepValues(a, b, c.0, c.1);
  }

  /** Crossover of two individuals yields two individuals. */
  lemma CrossoverKeepsIndividuals(params: seq<Param>, a: seq<Value>, b: seq<Value>, rs: Draws, n: nat)
    requires Individual(params, a) && Individual(params, b)
    ensures Individual(params, Crossover(params, a, b, rs, n).0)
    ensures Individual(params, Crossover(params, a, b, rs, n).1)
  {
    var c := Crossover(params, a, b, rs, n);
    assert forall i :: 0 <= i < |params| ==> Gene(params[i], c.0[i]) && Gene(params[i], c.1[i]);
  }

  /** The half-width of an int mutation: max(1, (max - min) // 4). */
  function Span(lo: int, hi: int): (s: int)
    ensures s >= 1
    ensures lo <= hi ==> s <= hi - lo || s == 1
  {
    var q := (hi - lo) / 4;
    if q > 1 then q else 1
  }

  /** What mutate does to one gene, given the draw that decides whether it
      mutates and the draw that picks the new value. */
  function MutatedGene(p: Param, v: Value, rate: real, trigger: real, choice: real): (w: Value)
    requires Gene(p, v) && 0.0 <= choice < 1.0
    ensures Gene(p, w)
    ensures !(trigger < rate) ==> w == v
    ensures p.IntRange? ==> -Span(p.min, p.max) as real <= w.x - v.x <= Span(p.min, p.max) as real
  {
    if !(trigger < rate) then v
    else if p.Categorical? then p.values[Index(choice, |p.values|)]
    else
      var span := Span(p.min, p.max);
      var moved := v.x.Floor + (-span + Index(choice, 2 * span + 1));
      Num(Clamp(p.min, p.max, moved) as real)
  }

  /** Every value of a categorical gene, and every integer of an int gene
      within the span of its current value and inside [min, max], is a
      possible mutation. */
  lemma MutationCovers(p: Param, v: Value, rate: real, w: Value)
    requires Gene(p, v) && Gene(p, w) && 0.0 < rate
    requires p.IntRange? ==> -Span(p.min, p.max) as real <= w.x - v.x <= Span(p.min, p.max) as real
    ensures exists choice: real :: 0.0 <= choice < 1.0 && MutatedGene(p, v, rate, 0.0, choice) == w
  {
    if p.Categorical? {
      var k :| 0 <= k < |p.values| && p.values[k] == w;
      IndexCovers(|p.values|, k);
      var choice: real :| 0.0 <= choice < 1.0 && Index(choice, |p.values|) == k;
      assert MutatedGene(p, v, rate, 0.0, choice) == w;
    } else {
      var span := Span(p.min, p.max);
      var k := w.x.Floor - v.x.Floor + span;
      IndexCovers(2 * span + 1, k);
      var choice: real :| 0.0 <= choice < 1.0 && Index(choice, 2 * span + 1) == k;
      assert MutatedGene(p, v, rate, 0.0, choice) == w;
    }
  }

  /** mutate(ind): gene i mutates when draw n + 2i is below the rate, and
      draw n + 2i + 1 picks its new value. */
  method Mutate(params: seq<Param>, ind: array<Value>, rate: real, rs: Draws, n: nat)
    requires ValidDraws(rs) && Individual(params, ind[..])
    modifies ind
    ensures Individual(params, ind[..])
    ensures forall i :: 0 <= i < ind.Length ==>
              ind[i] == MutatedGene(params[i], old(ind[i]), rate, rs(n + 2 * i), rs(n + 2 * i + 1))
  {
    for i := 0 to ind.Length
      invariant forall j :: 0 <= j < i ==>
                  ind[j] == MutatedGene(params[j], old(ind[j]), rate, rs(n + 2 * j), rs(n + 2 * j + 1))
      invariant forall j :: i <= j < ind.Length ==> ind[j] == old(ind[j])
    {
      assert Gene(params[i], old(ind[i]));
      if rs(n + 2 * i) < rate {
        if params[i].Categorical? {
          ind[i] := params[i].values[Index(rs(n + 2 * i + 1), |params[i].values|)];
        } else {
          var span := Span(params[i].min, params[i].max);
          var moved := ind[i].x.Floor + (-span + Index(rs(n + 2 * i + 1), 2 * span + 1));
          ind[i] := Num(Clamp(params[i].min, params[i].max, moved) as real);
        }
      }
      assert ind[i] == MutatedGene(params[i], old(ind[i]), rate, rs(n + 2 * i), rs(n + 2 * i + 1));
    }
    assert forall i :: 0 <= i < |params| ==> Gene(params[i], ind[..][i]);
  }

  /** What mutate leaves in an individual: gene i is its MutatedGene for
      draws n + 2i and n + 2i + 1. */
  function Mutated(params: seq<Param>, ind: seq<Value>, rate: real, rs: Draws, n: nat): (m: seq<Value>)
    requires ValidDraws(rs) && Individual(params, ind)
    ensures Individual(params, m)
  {
    seq(|ind|, i requires 0 <= i < |ind| => MutatedGene(params[i], ind[i], rate, rs(n + 2 * i), rs(n + 2 * i + 1)))
  }

  /** A mutated copy of an individual (the source mutates a fresh deep copy). */
  method MutateCopy(params: seq<Param>, ind: seq<Value>, rate: real, rs: Draws, n: nat)
    returns (mutated: seq<Value>)
    requires ValidDraws(rs) && Individual(params, ind)
    ensures mutated == Mutated(params, ind, rate, rs, n)
  {
    var genes := new Value[|ind|](i requires 0 <= i < |ind| => ind[i]);
    assert genes[..] == ind;
    Mutate(params, genes, rate, rs, n);
    mutated := genes[..];
  }

  /** min(range(len(scores)), key=lambda i: scores[i]). */
  method ArgMin(scores: seq<Score>) returns (idx: nat)
    requires |scores| > 0
    ensures idx == FirstLowest(scores)
  {
    idx := 0;
    for j := 1 to |scores|
      invariant idx == FirstLowest(scores[..j])
    {
      assert scores[..j + 1][..j] == scores[..j];
      if Less(scores[j], scores[idx]) {
        idx := j;
      }
    }
    assert scores[..|scores|] == scores;
  }

  /** Some gene i would mutate: a draw n + 2i below the rate. */
  predicate AnyMutation(params: seq<Param>, rate: real, rs: Draws, n: nat) {
    exists i :: 0 <= i < |params| && rs(n + 2 * i) < rate
  }

  /** Some position i would be swapped: a draw n + i below 0.5. */
  predicate AnySwap(params: seq<Param>, rs: Draws, n: nat) {
    exists m :: n <= m < n + |params| && rs(m) < 0.5
  }

  /** How many draws one pass of the breeding loop reads. */
  function PassDraws(k: nat, dims: nat): nat {
    2 * k + 1 + 5 * dims
  }

  /** An individual, or the None a tournament returned. */
  predicate Held(params: seq<Param>, c: Option<seq<Value>>) {
    c.Some? ==> Individual(params, c.value)
  }

  /** The two parents after the crossover step: crossed when draw m is below
      the crossover rate, or the TypeError of swapping a position of None. */
  function Crossed(params: seq<Param>, a: Option<seq<Value>>, b: Option<seq<Value>>,
                   crossoverRate: real, rs: Draws, m: nat): (r: Result<(Option<seq<Value>>, Option<seq<Value>>)>)
    requires Held(params, a) && Held(params, b)
    ensures r.Ok? ==> Held(params, r.value.0) && Held(params, r.value.1)
    ensures r.Ok? ==> (r.value.0.None? <==> a.None?) && (r.value.1.None? <==> b.None?)
  {
    var crossed := rs(m) < crossoverRate;
    if crossed && (a.None? || b.None?) && AnySwap(params, rs, m + 1) then Err(NoneValue)
    else if crossed && a.Some? && b.Some? then
      CrossoverKeepsIndividuals(params, a.value, b.value, rs, m + 1);
      var children := Crossover(params, a.value, b.value, rs, m + 1);
      Ok((Some(children.0), Some(children.1)))
    else Ok((a, b))
  }

  /** The mutated children appended to new_pop, c2 only when there is room;
      a None child raises once mutate indexes it or fitness decodes it. */
  function Appended(params: seq<Param>, c1: Option<seq<Value>>, c2: Option<seq<Value>>,
                    mutationRate: real, rs: Draws, m: nat, room: bool): (r: Result<seq<seq<Value>>>)
    requires ValidDraws(rs) && Held(params, c1) && Held(params, c2)
    ensures r.Ok? ==> |r.value| == (if room then 2 else 1) && Population(params, r.value)
    ensures r.Err? <==> c1.None? || (c2.None? && (room || AnyMutation(params, mutationRate, rs, m + 2 * |params|)))
  {
    if c1.None? then Err(NoneValue)
    else if c2.None? then
      if room || AnyMutation(params, mutationRate, rs, m + 2 * |params|) then Err(NoneValue)
      else Ok([Mutated(params, c1.value, mutationRate, rs, m)])
    else if room then
      Ok([Mutated(params, c1.value, mutationRate, rs, m), Mutated(params, c2.value, mutationRate, rs, m + 2 * |params|)])
    else Ok([Mutated(params, c1.value, mutationRate, rs, m)])
  }

  /** The children one pass of the breeding loop appends from the two
      tournament winners a and b, from draw m on: one draw for the crossover
      test, |params| for the swaps, 2 |params| per mutation. */
  function Mated(params: seq<Param>, a: Option<seq<Value>>, b: Option<seq<Value>>,
                 crossoverRate: real, mutationRate: real, rs: Draws, m: nat, room: bool): (r: Result<seq<seq<Value>>>)
    requires ValidDraws(rs) && Held(params, a) && Held(params, b)
    ensures r.Ok? ==> |r.value| == (if room then 2 else 1) && Population(params, r.value)
    ensures r.Err? ==> r.error == NoneValue && (a.None? || b.None?)
  {
    var pair := Crossed(params, a, b, crossoverRate, rs, m);
    if pair.Err? then Err(pair.error)
    else Appended(params, pair.value.0, pair.value.1, mutationRate, rs, m + 1 + |params|, room)
  }

  /** The children one pass of the breeding loop appends, or the TypeError
      a None tournament winner causes. Draws: k and k for the tournaments,
      then those of Mated. */
  function Children(params: seq<Param>, population: seq<seq<Value>>, scores: seq<Score>, k: nat,
                    crossoverRate: real, mutationRate: real, rs: Draws, n: nat, room: bool): (r: Result<seq<seq<Value>>>)
    requires ValidDraws(rs) && Population(params, population) && |scores| == |population| > 0
    ensures r.Ok? ==> |r.value| == (if room then 2 else 1) && Population(params, r.value)
    ensures r.Err? ==> r.error == NoneValue
  {
    var a := Tournament(population, scores, k, rs, n);
    var b := Tournament(population, scores, k, rs, n + k);
    Mated(params, a, b, crossoverRate, mutationRate, rs, n + 2 * k, room)
  }

  /** A pass raises only when one of its tournaments sampled nothing but
      inf. */
  lemma ChildrenFailOnlyOnInf(params: seq<Param>, population: seq<seq<Value>>, scores: seq<Score>, k: nat,
                              crossoverRate: real, mutationRate: real, rs: Draws, n: nat, room: bool)
    requires ValidDraws(rs) && Population(params, population) && |scores| == |population| > 0
    ensures Children(params, population, scores, k, crossoverRate, mutationRate, rs, n, room).Err? ==>
              AllInf(scores, Picks(rs, n, k, |population|)) || AllInf(scores, Picks(rs, n + k, k, |population|))
  {
    TournamentPicksBest(population, scores, k, rs, n);
    TournamentPicksBest(population, scores, k, rs, n + k);
  }

  /** One pass of the loop that fills new_pop: two tournaments, crossover
      with probability crossover_rate, two mutations; the children to append
      (c2 only when there is room for it). */
  method Offspring(params: seq<Param>, population: seq<seq<Value>>, scores: seq<Score>, k: nat,
                   crossoverRate: real, mutationRate: real, rs: Draws, n: nat, room: bool)
    returns (r: Result<seq<seq<Value>>>)
    requires ValidDraws(rs) && Population(params, population) && |scores| == |population| > 0
    ensures r == Children(params, population, scores, k, crossoverRate, mutationRate, rs, n, room)
  {
    var a := TournamentSelection(population, scores, k, rs, n);
    var b := TournamentSelection(population, scores, k, rs, n + k);
    r := Mate(params, a, b, crossoverRate, mutationRate, rs, n + 2 * k, room);
  }

  /** The crossover step on the two winners, then the mutations and appends. */
  method Mate(params: seq<Param>, a: Option<seq<Value>>, b: Option<seq<Value>>,
              crossoverRate: real, mutationRate: real, rs: Draws, m: nat, room: bool)
    returns (r: Result<seq<seq<Value>>>)
    requires ValidDraws(rs) && Held(params, a) && Held(params, b)
    ensures r == Mated(params, a, b, crossoverRate, mutationRate, rs, m, room)
  {
    var pair := Crossed(params, a, b, crossoverRate, rs, m);
    if pair.Err? {
      return Err(pair.error);
    }
    var c1, c2 := pair.value.0, pair.value.1;
    r := MutateChildren(params, c1, c2, mutationRate, rs, m + 1 + |params|, room);
  }

  /** mutate(c1), mutate(c2) and the appends that follow. */
  method MutateChildren(params: seq<Param>, c1: Option<seq<Value>>, c2: Option<seq<Value>>,
                        mutationRate: real, rs: Draws, m: nat, room: bool)
    returns (r: Result<seq<seq<Value>>>)
    requires ValidDraws(rs) && Held(params, c1) && Held(params, c2)
    ensures r == Appended(params, c1, c2, mutationRate, rs, m, room)
  {
    if c1.None? {
      return Err(NoneValue);
    }
    var x1 := MutateCopy(params, c1.value, mutationRate, rs, m);
    if c2.None? {
      if room || AnyMutation(params, mutationRate, rs, m + 2 * |params|) {
        return Err(NoneValue);
      }
      return Ok([x1]);
    }
    var x2 := MutateCopy(params, c2.value, mutationRate, rs, m + 2 * |params|);
    if room {
      return Ok([x1, x2]);
    }
    return Ok([x1]);
  }

  /** The loop that fills new_pop, from the members so far and the next
      unread draw: the finished new_pop with the next unread draw, or the
      TypeError of a pass. */
  function Bred(params: seq<Param>, population: seq<seq<Value>>, scores: seq<Score>, popSize: nat, k: nat,
                crossoverRate: real, mutationRate: real, rs: Draws, newPop: seq<seq<Value>>, n: nat)
    : (r: Result<(seq<seq<Value>>, nat)>)
    requires ValidDraws(rs) && Population(params, population) && |scores| == |population| > 0
    requires Population(params, newPop)
    ensures r.Ok? ==> |r.value.0| == (if |newPop| < popSize then popSize else |newPop|)
    ensures r.Ok? ==> r.value.0[..|newPop|] == newPop && Population(params, r.value.0)
    ensures r.Err? ==> r.error == NoneValue
    decreases popSize - |newPop|
  {
    if |newPop| >= popSize then Ok((newPop, n))
    else
      match Children(params, population, scores, k, crossoverRate, mutationRate, rs, n, |newPop| + 1 < popSize)
      case Err(e) => Err(e)
      case Ok(children) =>
        var r := Bred(params, population, scores, popSize, k, crossoverRate, mutationRate, rs,
                      newPop + children, n + PassDraws(k, |params|));
        assert r.Ok? ==> r.value.0[..|newPop|] == (newPop + children)[..|newPop|];
        r
  }

  /** With k > 0 and no inf score, no pass of the breeding loop raises. */
  lemma {:induction false} BredSucceeds(params: seq<Param>, population: seq<seq<Value>>, scores: seq<Score>,
                                        popSize: nat, k: nat, crossoverRate: real, mutationRate: real, rs: Draws,
                                        newPop: seq<seq<Value>>, n: nat)
    requires ValidDraws(rs) && Population(params, population) && |scores| == |population| > 0
    requires Population(params, newPop)
    requires k > 0 && forall i :: 0 <= i < |scores| ==> scores[i].Finite?
    ensures Bred(params, population, scores, popSize, k, crossoverRate, mutationRate, rs, newPop, n).Ok?
    decreases popSize - |newPop|
  {
    if |newPop| < popSize {
      var room := |newPop| + 1 < popSize;
      var children := Children(params, population, scores, k, crossoverRate, mutationRate, rs, n, room);
      ChildrenFailOnlyOnInf(params, population, scores, k, crossoverRate, mutationRate, rs, n, room);
      var first, second := Picks(rs, n, k, |population|), Picks(rs, n + k, k, |population|);
      assert scores[first[0]].Finite? && scores[second[0]].Finite?;
      assert children.Ok?;
      BredSucceeds(params, population, scores, popSize, k, crossoverRate, mutationRate, rs,
                   newPop + children.value, n + PassDraws(k, |params|));
    }
  }

  /** One pass of the breeding loop that appends children continues the
      same run, with new_pop still a population. */
  lemma BredStep(params: seq<Param>, population: seq<seq<Value>>, scores: seq<Score>, popSize: nat, k: nat,
                 crossoverRate: real, mutationRate: real, rs: Draws, newPop: seq<seq<Value>>, n: nat,
                 children: seq<seq<Value>>)
    requires ValidDraws(rs) && Population(params, population) && |scores| == |population| > 0
    requires Population(params, newPop) && |newPop| < popSize
    requires Children(params, population, scores, k, crossoverRate, mutationRate, rs, n, |newPop| + 1 < popSize)
             == Ok(children)
    ensures Population(params, newPop + children)
    ensures Bred(params, population, scores, popSize, k, crossoverRate, mutationRate, rs, newPop, n)
         == Bred(params, population, scores, popSize, k, crossoverRate, mutationRate, rs,
                 newPop + children, n + PassDraws(k, |params|))
  {
  }

  /** The loop that fills new_pop: the elite first, then children until
      pop_size individuals; also the next unread draw. */
  method Breed(params: seq<Param>, population: seq<seq<Value>>, scores: seq<Score>, elite: seq<Value>,
               popSize: nat, k: nat, crossoverRate: real, mutationRate: real, rs: Draws, n: nat)
    returns (r: Result<seq<seq<Value>>>, next: nat)
    requires ValidDraws(rs) && Population(params, population) && |scores| == |population| > 0
    requires Individual(params, elite)
    ensures var spec := Bred(params, population, scores, popSize, k, crossoverRate, mutationRate, rs, [elite], n);
      && (r.Err? <==> spec.Err?)
      && (r.Err? ==> r.error == spec.error)
      && (r.Ok? ==> spec.value == (r.value, next))
  {
    ghost var spec := Bred(params, population, scores, popSize, k, crossoverRate, mutationRate, rs, [elite], n);
    var newPop := [elite];
    next := n;
    while |newPop| < popSize
      invariant Population(params, newPop)
      invariant Bred(params, population, scores, popSize, k, crossoverRate, mutationRate, rs, newPop, next) == spec
      decreases popSize - |newPop|
    {
      var children := Pass(params, population, scores, popSize, k, crossoverRate, mutationRate, rs, newPop, next);
      if children.Err? {
        return Err(children.error), next + PassDraws(k, |params|);
      }
      newPop := newPop + children.value;
      next := next + PassDraws(k, |params|);
    }
    return Ok(newPop), next;
  }

  /** One pass of the loop that fills new_pop, read from draw n on: the
      children it appends, after which the run goes on as before, or the
      TypeError that ends the run. */
  method Pass(params: seq<Param>, population: seq<seq<Value>>, scores: seq<Score>, popSize: nat, k: nat,
              crossoverRate: real, mutationRate: real, rs: Draws, newPop: seq<seq<Value>>, n: nat)
    returns (r: Result<seq<seq<Value>>>)
    requires ValidDraws(rs) && Population(params, population) && |scores| == |population| > 0
    requires Population(params, newPop) && |newPop| < popSize
    ensures r.Err? ==>
              Bred(params, population, scores, popSize, k, crossoverRate, mutationRate, rs, newPop, n) == Err(r.error)
    ensures r.Ok? ==>
              && |r.value| > 0 && Population(params, newPop + r.value)
              && Bred(params, population, scores, popSize, k, crossoverRate, mutationRate, rs,
                      newPop + r.value, n + PassDraws(k, |params|))
                 == Bred(params, population, scores, popSize, k, crossoverRate, mutationRate, rs, newPop, n)
  {
    var room := |newPop| + 1 < popSize;
    r := Offspring(params, population, scores, k, crossoverRate, mutationRate, rs, n, room);
    if r.Ok? {
      BredStep(params, population, scores, popSize, k, crossoverRate, mutationRate, rs, newPop, n, r.value);
    }
  }

  /** Every individual of a collection decodes and scores no better than s. */
  ghost predicate AllAtLeast(params: seq<Param>, eval: Evaluator, inds: seq<seq<Value>>, s: Score) {
    forall c :: c in inds ==> Individual(params, c) && Decode(params, c).Ok? && AtMost(s, Cost(params, eval, c))
  }

  /** The lowest score ArgMin finds bounds every individual of the population. */
  lemma LowestOfPopulation(params: seq<Param>, eval: Evaluator, pop: seq<seq<Value>>, i: int)
    requires Population(params, pop) && 0 <= i < |pop|
    requires forall j :: 0 <= j < |pop| ==> AtMost(Fitnesses(params, eval, pop)[i], Fitnesses(params, eval, pop)[j])
    ensures AllAtLeast(params, eval, pop, Fitnesses(params, eval, pop)[i])
  {
    var scores := Fitnesses(params, eval, pop);
    PopulationDecodes(params, pop);
    forall c | c in pop
      ensures Individual(params, c) && Decode(params, c).Ok? && AtMost(scores[i], Cost(params, eval, c))
    {
      var j :| 0 <= j < |pop| && pop[j] == c;
      assert scores[j] == Cost(params, eval, c);
    }
  }

  /** Keeping the lower of two bounds bounds both collections together. */
  lemma AllAtLeastJoin(params: seq<Param>, eval: Evaluator, xs: seq<seq<Value>>, ys: seq<seq<Value>>, s: Score, t: Score)
    requires AllAtLeast(params, eval, xs, s) && AllAtLeast(params, eval, ys, t)
    ensures AllAtLeast(params, eval, xs + ys, if Less(t, s) then t else s)
  {
    forall c | c in xs + ys
      ensures Individual(params, c) && Decode(params, c).Ok? &&
              AtMost(if Less(t, s) then t else s, Cost(params, eval, c))
    {
      if c in xs {
        LessIsStrictTotalOrder(t, s, Cost(params, eval, c));
      } else {
        LessIsStrictTotalOrder(s, t, Cost(params, eval, c));
      }
    }
  }

  /** Each generation's elite decodes and holds that generation's best
      score, and each population has pop_size members. */
  ghost predicate Scored(params: seq<Param>, eval: Evaluator, popSize: nat, bests: seq<Score>,
                         elites: seq<seq<Value>>, populations: seq<seq<seq<Value>>>)
    requires |bests| == |elites| == |populations|
  {
    forall g :: 0 <= g < |bests| ==>
      |populations[g]| == popSize && Decode(params, elites[g]).Ok? &&
      Cost(params, eval, elites[g]) == bests[g]
  }

  /** Each population after the first starts with the previous elite. */
  ghost predicate Linked(elites: seq<seq<Value>>, populations: seq<seq<seq<Value>>>)
    requires |elites| == |populations|
  {
    forall g :: 0 < g < |elites| ==> |populations[g]| > 0 && populations[g][0] == elites[g - 1]
  }

  /** The record of the generations so far: one best score, the individual
      holding it and the population per generation; the best scores never
      increase, and each population after the first starts with the
      previous generation's best individual. */
  ghost predicate History(params: seq<Param>, eval: Evaluator, popSize: nat, bests: seq<Score>,
                          elites: seq<seq<Value>>, populations: seq<seq<seq<Value>>>)
  {
    && popSize > 0 && |bests| == |elites| == |populations| > 0
    && NonIncreasing(bests)
    && Scored(params, eval, popSize, bests, elites, populations)
    && Linked(elites, populations)
  }

  lemma ScoredExtends(params: seq<Param>, eval: Evaluator, popSize: nat, bests: seq<Score>,
                      elites: seq<seq<Value>>, populations: seq<seq<seq<Value>>>,
                      population: seq<seq<Value>>, best: seq<Value>, bestScore: Score)
    requires |bests| == |elites| == |populations| && Scored(params, eval, popSize, bests, elites, populations)
    requires |population| == popSize && Decode(params, best).Ok? && Cost(params, eval, best) == bestScore
    ensures Scored(params, eval, popSize, bests + [bestScore], elites + [best], populations + [population])
  {
    var bests', elites', populations' := bests + [bestScore], elites + [best], populations + [population];
    forall g | 0 <= g < |bests'|
      ensures |populations'[g]| == popSize && Decode(params, elites'[g]).Ok? &&
              Cost(params, eval, elites'[g]) == bests'[g]
    {
      if g < |bests| {
        assert populations'[g] == populations[g] && elites'[g] == elites[g] && bests'[g] == bests[g];
      }
    }
  }

  lemma LinkedExtends(elites: seq<seq<Value>>, populations: seq<seq<seq<Value>>>,
                      population: seq<seq<Value>>, best: seq<Value>)
    requires |elites| == |populations| > 0 && Linked(elites, populations)
    requires |population| > 0 && population[0] == elites[|elites| - 1]
    ensures Linked(elites + [best], populations + [population])
  {
    var elites', populations' := elites + [best], populations + [population];
    forall g | 0 < g < |elites'|
      ensures |populations'[g]| > 0 && populations'[g][0] == elites'[g - 1]
    {
      if g < |elites| {
        assert populations'[g] == populations[g] && elites'[g - 1] == elites[g - 1];
      } else {
        assert populations'[g] == population && elites'[g - 1] == elites[|elites| - 1];
      }
    }
  }

  /** A generation that starts with the last elite and keeps a best score no
      worse than the last extends the record. */
  lemma HistoryExtends(params: seq<Param>, eval: Evaluator, popSize: nat, bests: seq<Score>,
                       elites: seq<seq<Value>>, populations: seq<seq<seq<Value>>>,
                       population: seq<seq<Value>>, best: seq<Value>, bestScore: Score)
    requires History(params, eval, popSize, bests, elites, populations)
    requires |population| == popSize && population[0] == elites[|elites| - 1]
    requires Decode(params, best).Ok? && Cost(params, eval, best) == bestScore
    requires AtMost(bestScore, bests[|bests| - 1])
    ensures History(params, eval, popSize, bests + [bestScore], elites + [best], populations + [population])
  {
    NonIncreasingExtend(bests, bestScore);
    ScoredExtends(params, eval, popSize, bests, elites, populations, population, best, bestScore);
    LinkedExtends(elites, populations, population, best);
  }

  /** The first draw of random individual j of generation 0. */
  function IndividualDraws(j: nat, dims: nat): nat {
    j * dims
  }

  lemma IndividualDrawsNext(j: nat, dims: nat)
    ensures IndividualDraws(j + 1, dims) == IndividualDraws(j, dims) + dims
  {
  }

  /** The population of generation 0: pop_size random individuals, the
      j-th from draws j * |params| onward, and the next unread draw; or the
      error of random_individual. */
  method InitialPopulation(params: seq<Param>, popSize: nat, rs: Draws)
    returns (r: Result<seq<seq<Value>>>, next: nat)
    requires ValidDraws(rs)
    ensures r.Err? <==> popSize > 0 && RandomIndividual(params, rs, 0).Err?
    ensures r.Err? ==> r.error == RandomIndividual(params, rs, 0).error
    ensures r.Ok? ==> |r.value| == popSize && Population(params, r.value)
    ensures r.Ok? ==> forall j {:trigger IndividualDraws(j, |params|)} :: 0 <= j < popSize ==>
              RandomIndividual(params, rs, IndividualDraws(j, |params|)) == Ok(r.value[j])
    ensures r.Ok? ==> next == IndividualDraws(popSize, |params|)
  {
    var population: seq<seq<Value>> := [];
    next := 0;
    while |population| < popSize
      invariant |population| <= popSize && Population(params, population)
      invariant |population| > 0 ==> RandomIndividual(params, rs, 0).Ok?
      invariant next == IndividualDraws(|population|, |params|)
      invariant forall j {:trigger IndividualDraws(j, |params|)} :: 0 <= j < |population| ==>
                  RandomIndividual(params, rs, IndividualDraws(j, |params|)) == Ok(population[j])
      decreases popSize - |population|
    {
      var ind := RandomIndividual(params, rs, next);
      if ind.Err? {
        RandomIndividualFailsAlike(params, rs, next, 0);
        return Err(ind.error), next;
      }
      IndividualDrawsNext(|population|, |params|);
      population := population + [ind.value];
      next := next + |params|;
    }
    return Ok(population), next;
  }

  /** Generation 0 as ga_search builds it: the random population drawn from
      the first draws, and its first lowest-scoring individual as best. */
  ghost predicate Founded(params: seq<Param>, eval: Evaluator, popSize: nat, rs: Draws,
                          population: seq<seq<Value>>, best: seq<Value>, bestScore: Score, cursor: nat)
  {
    && ValidDraws(rs) && |population| == popSize && Population(params, population)
    && (forall j {:trigger IndividualDraws(j, |params|)} :: 0 <= j < popSize ==>
          RandomIndividual(params, rs, IndividualDraws(j, |params|)) == Ok(population[j]))
    && cursor == IndividualDraws(popSize, |params|)
    && |population| > 0
    && var i := FirstLowest(Fitnesses(params, eval, population));
       best == population[i] && bestScore == Fitnesses(params, eval, population)[i]
  }

  /** One generation as the loop body computes it: the new population is
      what the breeding loop builds from the old one and its best, and the
      best is replaced by the new population's first lowest-scoring
      individual exactly when that one scores strictly less. */
  ghost predicate Step(params: seq<Param>, eval: Evaluator, popSize: nat, k: nat,
                       crossoverRate: real, mutationRate: real, rs: Draws,
                       population: seq<seq<Value>>, best: seq<Value>, bestScore: Score, cursor: nat,
                       population': seq<seq<Value>>, best': seq<Value>, bestScore': Score, cursor': nat)
  {
    && ValidDraws(rs) && Population(params, population) && |population| > 0 && Individual(params, best)
    && Bred(params, population, Fitnesses(params, eval, population), popSize, k, crossoverRate, mutationRate,
            rs, [best], cursor) == Ok((population', cursor'))
    && var scores' := Fitnesses(params, eval, population');
       var i := FirstLowest(scores');
       if Less(scores'[i], bestScore)
       then best' == population'[i] && bestScore' == scores'[i]
       else best' == best && bestScore' == bestScore
  }

  /** The breeding loop of a generation raises its TypeError. */
  ghost predicate Fails(params: seq<Param>, eval: Evaluator, popSize: nat, k: nat,
                        crossoverRate: real, mutationRate: real, rs: Draws,
                        population: seq<seq<Value>>, best: seq<Value>, cursor: nat)
  {
    && ValidDraws(rs) && Population(params, population) && |population| > 0 && Individual(params, best)
    && Bred(params, population, Fitnesses(params, eval, population), popSize, k, crossoverRate, mutationRate,
            rs, [best], cursor).Err?
  }

  /** Generation g + 1 of the record follows from generation g. */
  ghost predicate StepAt(params: seq<Param>, eval: Evaluator, popSize: nat, k: nat,
                         crossoverRate: real, mutationRate: real, rs: Draws, bests: seq<Score>,
                         elites: seq<seq<Value>>, populations: seq<seq<seq<Value>>>, cursors: seq<nat>, g: nat)
    requires g + 1 < |bests| == |elites| == |populations| == |cursors|
  {
    Step(params, eval, popSize, k, crossoverRate, mutationRate, rs,
         populations[g], elites[g], bests[g], cursors[g],
         populations[g + 1], elites[g + 1], bests[g + 1], cursors[g + 1])
  }

  /** Consecutive generations of the record are Steps: the record without
      its last generation is a Trace, and the last generation is a Step of
      the one before. */
  ghost predicate Trace(params: seq<Param>, eval: Evaluator, popSize: nat, k: nat,
                        crossoverRate: real, mutationRate: real, rs: Draws, bests: seq<Score>,
                        elites: seq<seq<Value>>, populations: seq<seq<seq<Value>>>, cursors: seq<nat>)
    decreases |populations|
  {
    && |bests| == |elites| == |populations| == |cursors| > 0
    && (|populations| > 1 ==>
          var g := |populations| - 2;
          && Trace(params, eval, popSize, k, crossoverRate, mutationRate, rs,
                   bests[..g + 1], elites[..g + 1], populations[..g + 1], cursors[..g + 1])
          && StepAt(params, eval, popSize, k, crossoverRate, mutationRate, rs, bests, elites, populations, cursors, g))
  }

  /** A generation that is a Step of the last one extends the Trace. */
  lemma TraceExtends(params: seq<Param>, eval: Evaluator, popSize: nat, k: nat,
                     crossoverRate: real, mutationRate: real, rs: Draws, bests: seq<Score>,
                     elites: seq<seq<Value>>, populations: seq<seq<seq<Value>>>, cursors: seq<nat>,
                     population: seq<seq<Value>>, best: seq<Value>, bestScore: Score, cursor: nat)
    requires Trace(params, eval, popSize, k, crossoverRate, mutationRate, rs, bests, elites, populations, cursors)
    requires var g := |populations| - 1;
      Step(params, eval, popSize, k, crossoverRate, mutationRate, rs,
           populations[g], elites[g], bests[g], cursors[g], population, best, bestScore, cursor)
    ensures Trace(params, eval, popSize, k, crossoverRate, mutationRate, rs, bests + [bestScore],
                  elites + [best], populations + [population], cursors + [cursor])
  {
    var n := |populations|;
    assert (bests + [bestScore])[..n] == bests && (elites + [best])[..n] == elites;
    assert (populations + [population])[..n] == populations && (cursors + [cursor])[..n] == cursors;
  }

  /** Every individual of every population of the record, in order. */
  ghost function Flatten(populations: seq<seq<seq<Value>>>): seq<seq<Value>> {
    if |populations| == 0 then []
    else Flatten(populations[..|populations| - 1]) + populations[|populations| - 1]
  }

  lemma FlattenOne(population: seq<seq<Value>>)
    ensures Flatten([population]) == population
  {
    assert Flatten([population]) == Flatten([]) + population;
  }

  /** The record ga_search's loop keeps: every generation after the first
      a Step of the one before, the best
      scores never rising, and the last best score bounding every
      individual evaluated so far. */
  ghost predicate Record(params: seq<Param>, eval: Evaluator, popSize: nat, k: nat,
                         crossoverRate: real, mutationRate: real, rs: Draws, evaluated: seq<seq<Value>>,
                         bests: seq<Score>, elites: seq<seq<Value>>, populations: seq<seq<seq<Value>>>, cursors: seq<nat>)
  {
    && Trace(params, eval, popSize, k, crossoverRate, mutationRate, rs, bests, elites, populations, cursors)
    && History(params, eval, popSize, bests, elites, populations)
    && evaluated == Flatten(populations)
    && AllAtLeast(params, eval, evaluated, bests[|bests| - 1])
  }

  /** Generation 0 alone is a record. */
  lemma RecordStarts(params: seq<Param>, eval: Evaluator, popSize: nat, k: nat,
                     crossoverRate: real, mutationRate: real, rs: Draws,
                     population: seq<seq<Value>>, best: seq<Value>, bestScore: Score, cursor: nat)
    requires Founded(params, eval, popSize, rs, population, best, bestScore, cursor)
    requires Individual(params, best) && bestScore == Cost(params, eval, best)
    requires AllAtLeast(params, eval, population, bestScore)
    ensures Record(params, eval, popSize, k, crossoverRate, mutationRate, rs, population,
                   [bestScore], [best], [population], [cursor])
  {
    FlattenOne(population);
    PopulationDecodes(params, [best]);
  }

  /** A generation that is a Step of the last one extends the record. */
  lemma RecordExtends(params: seq<Param>, eval: Evaluator, popSize: nat, k: nat,
                      crossoverRate: real, mutationRate: real, rs: Draws, evaluated: seq<seq<Value>>,
                      bests: seq<Score>, elites: seq<seq<Value>>, populations: seq<seq<seq<Value>>>, cursors: seq<nat>,
                      population: seq<seq<Value>>, best: seq<Value>, bestScore: Score, cursor: nat)
    requires Record(params, eval, popSize, k, crossoverRate, mutationRate, rs, evaluated,
                    bests, elites, populations, cursors)
    requires var g := |populations| - 1;
      Step(params, eval, popSize, k, crossoverRate, mutationRate, rs,
           populations[g], elites[g], bests[g], cursors[g], population, best, bestScore, cursor)
    requires |population| == popSize && population[0] == elites[|elites| - 1]
    requires Decode(params, best).Ok? && bestScore == Cost(params, eval, best)
    requires AtMost(bestScore, bests[|bests| - 1]) && AllAtLeast(params, eval, population, bestScore)
    ensures Record(params, eval, popSize, k, crossoverRate, mutationRate, rs, evaluated + population,
                   bests + [bestScore], elites + [best], populations + [population], cursors + [cursor])
  {
    AllAtLeastJoin(params, eval, evaluated, population, bests[|bests| - 1], bestScore);
    HistoryExtends(params, eval, popSize, bests, elites, populations, population, best, bestScore);
    TraceExtends(params, eval, popSize, k, crossoverRate, mutationRate, rs, bests, elites, populations, cursors,
                 population, best, bestScore, cursor);
    assert (populations + [population])[..|populations|] == populations;
  }

  /** Generation 0: the random population, its scores, and its first
      lowest-scoring individual as best (tuning.py builds best with
      deepcopy); also the next unread draw. */
  method FirstGeneration(params: seq<Param>, eval: Evaluator, popSize: nat, rs: Draws)
    returns (r: Result<(seq<seq<Value>>, seq<Score>, seq<Value>, Score)>, next: nat)
    requires ValidDraws(rs)
    ensures popSize == 0 ==> r == Err(EmptySequence)
    ensures popSize > 0 && RandomIndividual(params, rs, 0).Err? ==> r == Err(RandomIndividual(params, rs, 0).error)
    ensures popSize > 0 && RandomIndividual(params, rs, 0).Ok? ==> r.Ok?
    ensures r.Ok? ==>
              && Founded(params, eval, popSize, rs, r.value.0, r.value.2, r.value.3, next)
              && r.value.1 == Fitnesses(params, eval, r.value.0)
              && Individual(params, r.value.2) && r.value.2 in r.value.0
              && r.value.3 == Cost(params, eval, r.value.2)
              && AllAtLeast(params, eval, r.value.0, r.value.3)
  {
    var initial;
    initial, next := InitialPopulation(params, popSize, rs);
    if initial.Err? {
      return Err(initial.error), next;
    }
    var population := initial.value;
    var scores := Fitnesses(params, eval, population);
    if |scores| == 0 {
      return Err(EmptySequence), next;
    }
    var idx := ArgMin(scores);
    PopulationDecodes(params, population);
    LowestOfPopulation(params, eval, population, idx);
    return Ok((population, scores, population[idx], scores[idx])), next;
  }

  /** One generation of ga_search: breed new_pop from the population and
      the best so far, score it, and keep the best so far unless the new
      population's lowest score is strictly below it. */
  method Generation(params: seq<Param>, eval: Evaluator, popSize: nat, k: nat,
                    crossoverRate: real, mutationRate: real, rs: Draws,
                    population: seq<seq<Value>>, scores: seq<Score>, best: seq<Value>, bestScore: Score, cursor: nat)
    returns (r: Result<(seq<seq<Value>>, seq<Score>, seq<Value>, Score)>, next: nat)
    requires ValidDraws(rs) && Population(params, population) && |population| > 0 && popSize > 0
    requires scores == Fitnesses(params, eval, population)
    requires Individual(params, best) && bestScore == Cost(params, eval, best)
    ensures r.Err? <==> Fails(params, eval, popSize, k, crossoverRate, mutationRate, rs, population, best, cursor)
    ensures r.Err? ==> r.error == NoneValue
    ensures r.Ok? ==>
              Step(params, eval, popSize, k, crossoverRate, mutationRate, rs,
                   population, best, bestScore, cursor, r.value.0, r.value.2, r.value.3, next)
    ensures r.Ok? ==>
              && |r.value.0| == popSize && Population(params, r.value.0) && r.value.0[0] == best
              && r.value.1 == Fitnesses(params, eval, r.value.0)
              && Individual(params, r.value.2) && r.value.3 == Cost(params, eval, r.value.2)
              && AtMost(r.value.3, bestScore)
              && (r.value.2 == best || (Less(r.value.3, bestScore) && r.value.2 in r.value.0))
              && AllAtLeast(params, eval, r.value.0, r.value.3)
    ensures k > 0 && (forall args :: eval(args).Finite?) ==> r.Ok?
  {
    if k > 0 && (forall args :: eval(args).Finite?) {
      BredSucceeds(params, population, scores, popSize, k, crossoverRate, mutationRate, rs, [best], cursor);
    }
    var bred;
    bred, next := Breed(params, population, scores, best, popSize, k, crossoverRate, mutationRate, rs, cursor);
    if bred.Err? {
      return Err(bred.error), next;
    }
    var population' := bred.value;
    assert population'[0] == population'[..1][0];
    var scores' := Fitnesses(params, eval, population');
    PopulationDecodes(params, population');
    var i := ArgMin(scores');
    LowestOfPopulation(params, eval, population', i);
    var best', bestScore' := best, bestScore;
    if Less(scores'[i], bestScore) {
      best', bestScore' := population'[i], scores'[i];
    } else {
      LessIsStrictTotalOrder(bestScore, scores'[i], bestScore);
      forall c | c in population'
        ensures Individual(params, c) && Decode(params, c).Ok? && AtMost(bestScore, Cost(params, eval, c))
      {
        LessIsStrictTotalOrder(Cost(params, eval, c), scores'[i], bestScore);
      }
    }
    return Ok((population', scores', best', bestScore')), next;
  }

  /** One pass of ga_search's generation loop over the record: the next
      generation, which extends the record by one Step, or the breeding
      loop's TypeError with the record's last generation as the one that
      Fails. */
  method Advance(params: seq<Param>, eval: Evaluator, popSize: nat, k: nat,
                 crossoverRate: real, mutationRate: real, rs: Draws,
                 population: seq<seq<Value>>, scores: seq<Score>, best: seq<Value>, bestScore: Score, cursor: nat,
                 ghost evaluated: seq<seq<Value>>, ghost bests: seq<Score>, ghost elites: seq<seq<Value>>,
                 ghost populations: seq<seq<seq<Value>>>, ghost cursors: seq<nat>)
    returns (r: Result<(seq<seq<Value>>, seq<Score>, seq<Value>, Score)>, next: nat,
             ghost evaluated': seq<seq<Value>>, ghost bests': seq<Score>, ghost elites': seq<seq<Value>>,
             ghost populations': seq<seq<seq<Value>>>, ghost cursors': seq<nat>)
    requires ValidDraws(rs) && popSize > 0 && |population| == popSize && Population(params, population)
    requires scores == Fitnesses(params, eval, population)
    requires Individual(params, best) && bestScore == Cost(params, eval, best)
    requires Record(params, eval, popSize, k, crossoverRate, mutationRate, rs, evaluated,
                    bests, elites, populations, cursors)
    requires var g := |populations| - 1;
      populations[g] == population && elites[g] == best && bests[g] == bestScore && cursors[g] == cursor
    ensures r.Err? ==>
              && r.error == NoneValue
              && Fails(params, eval, popSize, k, crossoverRate, mutationRate, rs, population, best, cursor)
              && (evaluated', bests', elites', populations', cursors') == (evaluated, bests, elites, populations, cursors)
    ensures r.Ok? ==>
              && |r.value.0| == popSize && Population(params, r.value.0)
              && r.value.1 == Fitnesses(params, eval, r.value.0)
              && Individual(params, r.value.2) && r.value.3 == Cost(params, eval, r.value.2)
              && r.value.2 in r.value.0
              && Record(params, eval, popSize, k, crossoverRate, mutationRate, rs, evaluated',
                        bests', elites', populations', cursors')
              && |populations'| == |populations| + 1
              && var g := |populations|;
                 && populations'[g] == r.value.0 && elites'[g] == r.value.2
                 && bests'[g] == r.value.3 && cursors'[g] == next
                 && populations'[0] == populations[0] && elites'[0] == elites[0]
                 && bests'[0] == bests[0] && cursors'[0] == cursors[0]
    ensures k > 0 && (forall args :: eval(args).Finite?) ==> r.Ok?
  {
    r, next := Generation(params, eval, popSize, k, crossoverRate, mutationRate, rs,
                          population, scores, best, bestScore, cursor);
    evaluated', bests', elites', populations', cursors' := evaluated, bests, elites, populations, cursors;
    if r.Ok? {
      PopulationDecodes(params, [r.value.2]);
      RecordExtends(params, eval, popSize, k, crossoverRate, mutationRate, rs, evaluated, bests, elites, populations,
                    cursors, r.value.0, r.value.2, r.value.3, next);
      evaluated', bests', elites', populations', cursors' :=
        evaluated + r.value.0, bests + [r.value.3], elites + [r.value.2], populations + [r.value.0], cursors + [next];
    }
  }

  /** The generation loop of ga_search, from generation 0 on: `generations`
      generations, each one keeping the best individual so far as its first
      member. The ghost outputs record, per generation, the best score, the
      individual holding it, the population and the next unread draw, and
      every individual evaluated. */
  method Evolve(params: seq<Param>, eval: Evaluator, popSize: nat, generations: nat,
                crossoverRate: real, mutationRate: real, k: nat, rs: Draws,
                population0: seq<seq<Value>>, scores0: seq<Score>, best0: seq<Value>, bestScore0: Score, cursor0: nat)
    returns (r: Result<(seq<Value>, Score)>, ghost evaluated: seq<seq<Value>>, ghost bests: seq<Score>,
             ghost elites: seq<seq<Value>>, ghost populations: seq<seq<seq<Value>>>, ghost cursors: seq<nat>)
    requires Founded(params, eval, popSize, rs, population0, best0, bestScore0, cursor0)
    requires scores0 == Fitnesses(params, eval, population0)
    requires Individual(params, best0) && best0 in population0 && bestScore0 == Cost(params, eval, best0)
    requires AllAtLeast(params, eval, population0, bestScore0)
    ensures Record(params, eval, popSize, k, crossoverRate, mutationRate, rs, evaluated,
                   bests, elites, populations, cursors)
    ensures populations[0] == population0 && elites[0] == best0 && bests[0] == bestScore0 && cursors[0] == cursor0
    ensures r.Ok? ==>
              && |populations| == generations + 1
              && r.value == (elites[generations], bests[generations])
              && Individual(params, r.value.0) && Decode(params, r.value.0).Ok?
              && r.value.1 == Cost(params, eval, r.value.0)
              && r.value.0 in populations[generations]
              && AllAtLeast(params, eval, evaluated, r.value.1)
    ensures r.Err? ==>
              && r.error == NoneValue
              && |populations| <= generations
              && var g := |populations| - 1;
                 Fails(params, eval, popSize, k, crossoverRate, mutationRate, rs, populations[g], elites[g], cursors[g])
    ensures k > 0 && (forall args :: eval(args).Finite?) ==> r.Ok?
  {
    var population, scores, best, bestScore, cur := population0, scores0, best0, bestScore0, cursor0;
    evaluated, bests, elites, populations, cursors := population, [bestScore], [best], [population], [cur];
    RecordStarts(params, eval, popSize, k, crossoverRate, mutationRate, rs, population, best, bestScore, cur);
    for gen := 1 to generations + 1
      invariant |population| == popSize && Population(params, population)
      invariant scores == Fitnesses(params, eval, population)
      invariant Individual(params, best) && bestScore == Cost(params, eval, best) && best in population
      invariant Record(params, eval, popSize, k, crossoverRate, mutationRate, rs, evaluated,
                       bests, elites, populations, cursors)
      invariant |populations| == gen && populations[gen - 1] == population && cursors[gen - 1] == cur
      invariant bests[gen - 1] == bestScore && elites[gen - 1] == best
      invariant populations[0] == population0 && elites[0] == best0
      invariant bests[0] == bestScore0 && cursors[0] == cursor0
    {
      var next, after;
      next, after, evaluated, bests, elites, populations, cursors :=
        Advance(params, eval, popSize, k, crossoverRate, mutationRate, rs, population, scores, best, bestScore, cur,
                evaluated, bests, elites, populations, cursors);
      if next.Err? {
        return Err(next.error), evaluated, bests, elites, populations, cursors;
      }
      population, scores, best, bestScore, cur := next.value.0, next.value.1, next.value.2, next.value.3, after;
    }
    return Ok((best, bestScore)), evaluated, bests, elites, populations, cursors;
  }

  /** ga_search: generation 0 of pop_size random individuals, then
      `generations` generations (Evolve). */
  method Search(params: seq<Param>, eval: Evaluator, popSize: nat, generations: nat,
                crossoverRate: real, mutationRate: real, k: nat, rs: Draws)
    returns (r: Result<(seq<Value>, Score)>, ghost evaluated: seq<seq<Value>>, ghost bests: seq<Score>,
             ghost elites: seq<seq<Value>>, ghost populations: seq<seq<seq<Value>>>, ghost cursors: seq<nat>)
    requires ValidDraws(rs)
    ensures popSize == 0 ==> r == Err(EmptySequence)
    ensures popSize > 0 && RandomIndividual(params, rs, 0).Err? ==> r == Err(RandomIndividual(params, rs, 0).error)
    ensures r.Err? ==> popSize == 0 || r.error == NoneValue || RandomIndividual(params, rs, 0).Err?
    ensures popSize > 0 && RandomIndividual(params, rs, 0).Ok? ==>
              && Record(params, eval, popSize, k, crossoverRate, mutationRate, rs, evaluated,
                        bests, elites, populations, cursors)
              && Founded(params, eval, popSize, rs, populations[0], elites[0], bests[0], cursors[0])
    ensures r.Ok? ==>
              && |populations| == generations + 1
              && r.value == (elites[generations], bests[generations])
              && Individual(params, r.value.0) && Decode(params, r.value.0).Ok?
              && r.value.1 == Cost(params, eval, r.value.0)
              && r.value.0 in populations[generations]
              && AllAtLeast(params, eval, evaluated, r.value.1)
    ensures r.Err? && popSize > 0 && RandomIndividual(params, rs, 0).Ok? ==>
              && |populations| <= generations
              && var g := |populations| - 1;
                 Fails(params, eval, popSize, k, crossoverRate, mutationRate, rs, populations[g], elites[g], cursors[g])
    ensures (popSize > 0 && (forall i :: 0 <= i < |params| ==> Samplable(params[i])) &&
             k > 0 && (forall args :: eval(args).Finite?)) ==> r.Ok?
  {
    evaluated, bests, elites, populations, cursors := [], [], [], [], [];
    var first, cur := FirstGeneration(params, eval, popSize, rs);
    if first.Err? {
      return Err(first.error), evaluated, bests, elites, populations, cursors;
    }
    r, evaluated, bests, elites, populations, cursors :=
      Evolve(params, eval, popSize, generations, crossoverRate, mutationRate, k, rs,
             first.value.0, first.value.1, first.value.2, first.value.3, cur);
  }
}
