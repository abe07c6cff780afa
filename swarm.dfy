/** pso_search of tunning/tuning.py: particles are vectors of numbers (an
    index for a categorical parameter, a value for an int one) that move with
    a velocity pulled towards their personal best and the global best, are
    clamped back into the box after each move, and are scored by decoding. */
module Swarm {
  import opened Params
  import opened Scores

  predicate AllUsable(params: seq<Param>) {
    forall i :: 0 <= i < |params| ==> Usable(params[i])
  }

  /** A position seen as a candidate vector: every coordinate is a number. */
  function AsCandidate(pos: seq<real>): (c: seq<Value>)
    ensures |c| == |pos| && forall i :: 0 <= i < |pos| ==> c[i] == Num(pos[i])
  {
    seq(|pos|, i requires 0 <= i < |pos| => Num(pos[i]))
  }

  /** Every position decodes when every parameter is usable. */
  lemma PositionDecodes(params: seq<Param>, pos: seq<real>)
    requires AllUsable(params)
    ensures Decode(params, AsCandidate(pos)).Ok?
  {
    var c := AsCandidate(pos);
    forall i | 0 <= i < |params| && i < |c|
      ensures DecodeOne(params[i], c[i]).Ok?
    {
      assert Usable(params[i]);
    }
  }

  /** The score of a position: decode it, then evaluate. */
  function PositionCost(params: seq<Param>, eval: Evaluator, pos: seq<real>): Score
    requires AllUsable(params)
  {
    PositionDecodes(params, pos);
    Cost(params, eval, AsCandidate(pos))
  }

  lemma NonNegativeProduct(a: real, b: real)
    requires 0.0 <= a && 0.0 <= b
    ensures 0.0 <= a * b
  {
  }

  /** A draw r in [0, 1) scales d to a number between 0 and d. */
  function Scale(d: real, r: real): (y: real)
    requires 0.0 <= r < 1.0
    ensures 0.0 <= d ==> 0.0 <= y <= d
    ensures d < 0.0 ==> d <= y <= 0.0
  {
    if 0.0 <= d then
      NonNegativeProduct(d, r);
      NonNegativeProduct(d, 1.0 - r);
      d * r
    else
      NonNegativeProduct(-d, r);
      NonNegativeProduct(-d, 1.0 - r);
      d * r
  }

  /** random.uniform(a, b) with its draw r: a + (b - a) * r, between a and
      b whichever is larger. */
  function Uniform(a: real, b: real, r: real): (x: real)
    requires 0.0 <= r < 1.0
    ensures a <= b ==> a <= x <= b
    ensures b < a ==> b <= x <= a
  {
    a + Scale(b - a, r)
  }

  /** One coordinate of rand_position: random.randint(0, len(values) - 1)
      for a categorical parameter, random.uniform(min, max) for an int one. */
  function RandCoordinate(p: Param, r: real): (x: Result<real>)
    requires 0.0 <= r < 1.0
    ensures x.Ok? <==> Usable(p)
    ensures x.Err? ==> x.error == (if p.Unknown? then UnknownType else EmptyRange)
    ensures x.Ok? && p.Categorical? ==> IsInt(x.value) && 0.0 <= x.value < |p.values| as real
    ensures x.Ok? && p.IntRange? && p.min <= p.max ==> p.min as real <= x.value <= p.max as real
    ensures x.Ok? && p.IntRange? && p.max < p.min ==> p.max as real <= x.value <= p.min as real
  {
    match p
    case Categorical(values) =>
      if |values| == 0 then Err(EmptyRange) else Ok(Index(r, |values|) as real)
    case IntRange(lo, hi) =>
      Ok(Uniform(lo as real, hi as real, r))
    case Unknown(_) => Err(UnknownType)
  }

  /** rand_position, coordinate i drawn with draw n + i. */
  function RandPosition(params: seq<Param>, rs: Draws, n: nat): (r: Result<seq<real>>)
    requires ValidDraws(rs)
    ensures r.Ok? <==> AllUsable(params)
    ensures r.Err? ==> r.error == UnknownType || r.error == EmptyRange
    ensures r.Ok? ==>
              |r.value| == |params| &&
              forall i :: 0 <= i < |params| ==> RandCoordinate(params[i], rs(n + i)) == Ok(r.value[i])
    decreases |params|
  {
    if |params| == 0 then Ok([])
    else
      match RandCoordinate(params[0], rs(n))
      case Err(e) => Err(e)
      case Ok(x) =>
        match RandPosition(params[1..], rs, n + 1)
        case Err(e) => Err(e)
        case Ok(rest) =>
          assert forall i :: 1 <= i < |params| ==> params[i] == params[1..][i - 1];
          Ok([x] + rest)
  }

  /** Coordinate x lies in the box of parameter p: a valid index for a
      categorical parameter, a number in [min, max] for an int one (min
      itself when the range is empty, as max(min, min(max, x)) gives). */
  predicate InBoxAt(p: Param, x: real)
    requires Usable(p)
  {
    if p.Categorical? then IsInt(x) && 0.0 <= x <= (|p.values| - 1) as real
    else if p.min <= p.max then p.min as real <= x <= p.max as real
    else x == p.min as real
  }

  predicate InBox(params: seq<Param>, pos: seq<real>)
    requires AllUsable(params)
  {
    |pos| == |params| && forall i :: 0 <= i < |params| ==> InBoxAt(params[i], pos[i])
  }

  /** What clamp_position does to one coordinate. */
  function ClampedCoordinate(p: Param, x: real): (y: real)
    requires Usable(p)
    ensures InBoxAt(p, y)
    ensures InBoxAt(p, x) ==> y == x
  {
    if p.Categorical? then Clamp(0, |p.values| - 1, Round(x)) as real
    else ClampReal(p.min as real, p.max as real, x)
  }

  function ClampedPosition(params: seq<Param>, pos: seq<real>): (r: seq<real>)
    requires AllUsable(params) && |pos| == |params|
    ensures InBox(params, r)
  {
    seq(|pos|, i requires 0 <= i < |pos| => ClampedCoordinate(params[i], pos[i]))
  }

  /** Clamping leaves a position already in the box unchanged, so clamping
      twice is clamping once. */
  lemma ClampFixesBox(params: seq<Param>, pos: seq<real>)
    requires AllUsable(params) && InBox(params, pos)
    ensures ClampedPosition(params, pos) == pos
  {
    var c := ClampedPosition(params, pos);
    forall i | 0 <= i < |pos|
      ensures c[i] == pos[i]
    {
      assert InBoxAt(params[i], pos[i]);
    }
  }

  lemma ClampIdempotent(params: seq<Param>, pos: seq<real>)
    requires AllUsable(params) && |pos| == |params|
    ensures ClampedPosition(params, ClampedPosition(params, pos)) == ClampedPosition(params, pos)
  {
    ClampFixesBox(params, ClampedPosition(params, pos));
  }

  /** Clamping a coordinate does not change the token decode_candidate makes
      of it. */
  lemma ClampKeepsToken(p: Param, x: real)
    requires Usable(p)
    ensures DecodeOne(p, Num(ClampedCoordinate(p, x))) == DecodeOne(p, Num(x))
  {
    var y := ClampedCoordinate(p, x);
    if p.Categorical? {
      var k := Clamp(0, |p.values| - 1, Round(x));
      assert Round(k as real) == k;
    } else {
      var lo, hi := p.min, p.max;
      if lo <= hi {
        if x > hi as real {
          assert y == hi as real && Round(y) == hi;
          assert Round(x) >= hi;
        } else if x < lo as real {
          assert y == lo as real && Round(y) == lo;
          assert Round(x) <= lo;
        }
      }
    }
  }

  /** clamp_position never changes what a particle decodes to, hence never
      its score. */
  lemma ClampKeepsDecode(params: seq<Param>, pos: seq<real>)
    requires AllUsable(params) && |pos| == |params|
    ensures Decode(params, AsCandidate(ClampedPosition(params, pos))) == Decode(params, AsCandidate(pos))
  {
    var a, b := AsCandidate(ClampedPosition(params, pos)), AsCandidate(pos);
    PositionDecodes(params, pos);
    PositionDecodes(params, ClampedPosition(params, pos));
    var da, db := Decode(params, a).value, Decode(params, b).value;
    forall i | 0 <= i < |params|
      ensures da[i] == db[i]
    {
      assert a[i] == Num(ClampedCoordinate(params[i], pos[i])) && b[i] == Num(pos[i]);
      ClampKeepsToken(params[i], pos[i]);
    }
    assert da == db;
  }

  lemma ClampKeepsCost(params: seq<Param>, eval: Evaluator, pos: seq<real>)
    requires AllUsable(params) && |pos| == |params|
    ensures PositionCost(params, eval, ClampedPosition(params, pos)) == PositionCost(params, eval, pos)
  {
    ClampKeepsDecode(params, pos);
  }

  /** clamp_position(pos), in place. */
  method ClampPosition(params: seq<Param>, pos: array<real>)
    requires AllUsable(params) && pos.Length == |params|
    modifies pos
    ensures pos[..] == ClampedPosition(params, old(pos[..]))
  {
    for i := 0 to |params|
      invariant forall j :: 0 <= j < i ==> pos[j] == ClampedCoordinate(params[j], old(pos[j]))
      invariant forall j :: i <= j < pos.Length ==> pos[j] == old(pos[j])
    {
      if params[i].Categorical? {
        pos[i] := Clamp(0, |params[i].values| - 1, Round(pos[i])) as real;
      } else {
        pos[i] := ClampReal(params[i].min as real, params[i].max as real, pos[i]);
      }
    }
  }

  /** The new velocity of one coordinate: inertia plus the pulls towards
      the personal and the global best. */
  function Velocity(w: real, c1: real, c2: real, v: real, x: real, pb: real, g: real, r1: real, r2: real): real {
    w * v + c1 * r1 * (pb - x) + c2 * r2 * (g - x)
  }

  /** The new velocities of a particle, coordinate d using draws n + 2d and
      n + 2d + 1. */
  function Velocities(w: real, c1: real, c2: real, v: seq<real>, x: seq<real>, pb: seq<real>, g: seq<real>,
                      rs: Draws, n: nat): (r: seq<real>)
    requires |v| == |x| == |pb| == |g|
    ensures |r| == |v|
  {
    seq(|v|, d requires 0 <= d < |v| => Velocity(w, c1, c2, v[d], x[d], pb[d], g[d], rs(n + 2 * d), rs(n + 2 * d + 1)))
  }

  function Plus(x: seq<real>, v: seq<real>): (r: seq<real>)
    requires |x| == |v|
    ensures |r| == |x| && forall d :: 0 <= d < |x| ==> r[d] == x[d] + v[d]
  {
    seq(|x|, d requires 0 <= d < |x| => x[d] + v[d])
  }

  /** One particle's move: its velocity and position updated coordinate by
      coordinate, then clamp_position. */
  method MoveParticle(params: seq<Param>, x: seq<real>, v: seq<real>, pb: seq<real>, g: seq<real>,
                      w: real, c1: real, c2: real, rs: Draws, n: nat)
    returns (x': seq<real>, v': seq<real>)
    requires AllUsable(params) && |x| == |v| == |pb| == |g| == |params|
    ensures v' == Velocities(w, c1, c2, v, x, pb, g, rs, n)
    ensures x' == ClampedPosition(params, Plus(x, v'))
    ensures InBox(params, x')
  {
    var pos := new real[|x|](d requires 0 <= d < |x| => x[d]);
    var vel := new real[|v|](d requires 0 <= d < |v| => v[d]);
    ghost var target := Velocities(w, c1, c2, v, x, pb, g, rs, n);
    for d := 0 to |params|
      invariant forall e :: 0 <= e < d ==> vel[e] == target[e] && pos[e] == x[e] + target[e]
      invariant forall e :: d <= e < |params| ==> vel[e] == v[e] && pos[e] == x[e]
    {
      var r1, r2 := rs(n + 2 * d), rs(n + 2 * d + 1);
      var velocity := Velocity(w, c1, c2, vel[d], pos[d], pb[d], g[d], r1, r2);
      assert velocity == target[d];
      vel[d] := velocity;
      pos[d] := pos[d] + velocity;
    }
    assert vel[..] == target;
    assert pos[..] == Plus(x, target);
    ClampPosition(params, pos);
    x', v' := pos[..], vel[..];
  }

  /** The state of the swarm between two particle updates. */
  datatype State = State(
    particles: seq<seq<real>>,
    velocities: seq<seq<real>>,
    pbest: seq<seq<real>>,
    pbestScores: seq<Score>,
    gbest: Option<seq<real>>,
    gbestScore: Score)

  /** Every personal best is scored, the global best is no worse than any
      personal best, and the global best is None exactly while its score is
      inf. */
  ghost predicate Valid(params: seq<Param>, eval: Evaluator, popSize: nat, s: State) {
    && AllUsable(params)
    && |s.particles| == |s.velocities| == |s.pbest| == |s.pbestScores| == popSize
    && (forall j :: 0 <= j < popSize ==>
          |s.particles[j]| == |s.velocities[j]| == |s.pbest[j]| == |params|)
    && (forall j :: 0 <= j < popSize ==>
          s.pbestScores[j] == PositionCost(params, eval, s.pbest[j]) && AtMost(s.gbestScore, s.pbestScores[j]))
    && (s.gbest.None? <==> s.gbestScore == Inf)
    && (s.gbest.Some? ==>
          |s.gbest.value| == |params| && s.gbestScore == PositionCost(params, eval, s.gbest.value))
  }

  /** Every position in the list decodes and scores no better than s. */
  ghost predicate AllAtLeast(params: seq<Param>, eval: Evaluator, positions: seq<seq<real>>, s: Score) {
    forall p :: p in positions ==> AllUsable(params) && AtMost(s, PositionCost(params, eval, p))
  }

  /** The best-so-far update after x is scored against the best (b, bs): x
      takes over only with a strictly lower score. pso_search applies it to
      the global best and to each personal best alike. */
  function Promote(params: seq<Param>, eval: Evaluator, b: Option<seq<real>>, bs: Score, x: seq<real>)
    : (Option<seq<real>>, Score)
    requires AllUsable(params)
  {
    if Less(PositionCost(params, eval, x), bs) then (Some(x), PositionCost(params, eval, x)) else (b, bs)
  }

  /** The global best after the positions ps are scored in order, starting
      from (g, gs). */
  function Lead(params: seq<Param>, eval: Evaluator, g: Option<seq<real>>, gs: Score, ps: seq<seq<real>>)
    : (Option<seq<real>>, Score)
    requires AllUsable(params)
    decreases |ps|
  {
    if |ps| == 0 then (g, gs)
    else
      var prev := Lead(params, eval, g, gs, ps[..|ps| - 1]);
      Promote(params, eval, prev.0, prev.1, ps[|ps| - 1])
  }

  /** Scoring one more position promotes it against the lead so far. */
  lemma LeadExtend(params: seq<Param>, eval: Evaluator, g: Option<seq<real>>, gs: Score, ps: seq<seq<real>>, x: seq<real>)
    requires AllUsable(params)
    ensures var prev := Lead(params, eval, g, gs, ps);
            Lead(params, eval, g, gs, ps + [x]) == Promote(params, eval, prev.0, prev.1, x)
  {
    assert (ps + [x])[..|ps|] == ps;
  }

  /** The score of each position. */
  function Costs(params: seq<Param>, eval: Evaluator, ps: seq<seq<real>>): (cs: seq<Score>)
    requires AllUsable(params)
    ensures |cs| == |ps|
  {
    seq(|ps|, j requires 0 <= j < |ps| => PositionCost(params, eval, ps[j]))
  }

  /** Scanned from no global best, the positions leave the first one of
      lowest score as the global best, the index min() with a key returns,
      and none while that score is inf. */
  lemma {:induction false} LeadIsFirstLowest(params: seq<Param>, eval: Evaluator, ps: seq<seq<real>>)
    requires AllUsable(params) && |ps| > 0
    ensures var costs := Costs(params, eval, ps);
            var i := FirstLowest(costs);
            Lead(params, eval, None, Inf, ps) == (if costs[i] == Inf then None else Some(ps[i]), costs[i])
  {
    var costs := Costs(params, eval, ps);
    if |ps| > 1 {
      var last := |ps| - 1;
      LeadIsFirstLowest(params, eval, ps[..last]);
      assert Costs(params, eval, ps[..last]) == costs[..last];
    }
  }

  /** The initial swarm: particle j drawn with draws j * dim onward. */
  method InitialParticles(params: seq<Param>, popSize: nat, rs: Draws) returns (r: Result<seq<seq<real>>>)
    requires ValidDraws(rs)
    ensures r.Err? <==> popSize > 0 && !AllUsable(params)
    ensures r.Err? ==> r.error == UnknownType || r.error == EmptyRange
    ensures r.Ok? ==>
              |r.value| == popSize &&
              forall j :: 0 <= j < popSize ==> RandPosition(params, rs, j * |params|) == Ok(r.value[j])
  {
    var particles: seq<seq<real>> := [];
    for j := 0 to popSize
      invariant |particles| == j
      invariant forall l :: 0 <= l < j ==> RandPosition(params, rs, l * |params|) == Ok(particles[l])
    {
      var pos := RandPosition(params, rs, j * |params|);
      if pos.Err? {
        return Err(pos.error);
      }
      particles := particles + [pos.value];
    }
    if popSize > 0 {
      assert RandPosition(params, rs, 0 * |params|).Ok?;
    }
    return Ok(particles);
  }

  /** The score of initial particle j. */
  function InitialScore(params: seq<Param>, eval: Evaluator, rs: Draws, j: nat): Score
    requires ValidDraws(rs) && AllUsable(params)
  {
    PositionCost(params, eval, RandPosition(params, rs, j * |params|).value)
  }

  /** The initial evaluation loop: each particle's score becomes its
      personal best score, and the global best is promoted in order. */
  method ScoreParticles(params: seq<Param>, eval: Evaluator, particles: seq<seq<real>>)
    returns (pbestScores: seq<Score>, gbest: Option<seq<real>>, gbestScore: Score)
    requires AllUsable(params) && forall j :: 0 <= j < |particles| ==> |particles[j]| == |params|
    ensures |pbestScores| == |particles|
    ensures forall j :: 0 <= j < |particles| ==>
              pbestScores[j] == PositionCost(params, eval, particles[j]) && AtMost(gbestScore, pbestScores[j])
    ensures gbest.None? <==> gbestScore == Inf
    ensures gbest.Some? ==>
              gbest.value in particles && |gbest.value| == |params| &&
              gbestScore == PositionCost(params, eval, gbest.value)
    ensures (gbest, gbestScore) == Lead(params, eval, None, Inf, particles)
  {
    var popSize := |particles|;
    pbestScores := seq(popSize, _ => Inf);
    gbest, gbestScore := None, Inf;
    for i := 0 to popSize
      invariant |pbestScores| == popSize
      invariant forall j :: 0 <= j < i ==>
                  pbestScores[j] == PositionCost(params, eval, particles[j]) && AtMost(gbestScore, pbestScores[j])
      invariant gbest.None? <==> gbestScore == Inf
      invariant gbest.Some? ==>
                  gbest.value in particles && |gbest.value| == |params| &&
                  gbestScore == PositionCost(params, eval, gbest.value)
      invariant (gbest, gbestScore) == Lead(params, eval, None, Inf, particles[..i])
    {
      assert particles[..i + 1] == particles[..i] + [particles[i]];
      LeadExtend(params, eval, None, Inf, particles[..i], particles[i]);
      var sc := PositionCost(params, eval, particles[i]);
      pbestScores := pbestScores[i := sc];
      if Less(sc, gbestScore) {
        gbestScore := sc;
        gbest := Some(particles[i]);
      }
    }
    assert particles[..popSize] == particles;
  }

  /** The initial evaluation: every personal best is the particle itself
      with its score, the global best the first particle of lowest score
      below inf. */
  method EvaluateInitial(params: seq<Param>, eval: Evaluator, particles: seq<seq<real>>) returns (s: State)
    requires AllUsable(params) && forall j :: 0 <= j < |particles| ==> |particles[j]| == |params|
    ensures Valid(params, eval, |particles|, s)
    ensures s.particles == s.pbest == particles
    ensures forall j :: 0 <= j < |particles| ==> s.pbestScores[j] == PositionCost(params, eval, particles[j])
    ensures s.gbest.None? <==> forall j :: 0 <= j < |particles| ==> s.pbestScores[j] == Inf
    ensures s.gbest.Some? ==> s.gbest.value in particles
    ensures (s.gbest, s.gbestScore) == Lead(params, eval, None, Inf, particles)
    ensures s.gbest.Some? ==> |particles| > 0 && s.gbest.value == particles[FirstLowest(Costs(params, eval, particles))]
    ensures forall j :: 0 <= j < |particles| ==> s.velocities[j] == seq(|params|, _ => 0.0)
  {
    var pbestScores, gbest, gbestScore := ScoreParticles(params, eval, particles);
    if |particles| > 0 {
      LeadIsFirstLowest(params, eval, particles);
    }
    var velocities := seq(|particles|, _ => seq(|params|, _ => 0.0));
    s := State(particles, velocities, particles, pbestScores, gbest, gbestScore);
  }

  /** The swarm pso_search starts its iterations from: particle j drawn
      with draws j * dim onward and scored, zero velocities, every personal
      best the particle itself with its score, and as global best the first
      particle of lowest score, None while every score is inf. */
  ghost predicate Initial(params: seq<Param>, eval: Evaluator, popSize: nat, rs: Draws, s: State)
    requires ValidDraws(rs)
  {
    && AllUsable(params) && Valid(params, eval, popSize, s)
    && (forall j :: 0 <= j < popSize ==> RandPosition(params, rs, j * |params|) == Ok(s.particles[j]))
    && s.pbest == s.particles
    && (forall j :: 0 <= j < popSize ==> s.pbestScores[j] == InitialScore(params, eval, rs, j))
    && (forall j :: 0 <= j < popSize ==> s.velocities[j] == seq(|params|, _ => 0.0))
    && (s.gbest.None? <==> forall j :: 0 <= j < popSize ==> s.pbestScores[j] == Inf)
    && (s.gbest.Some? ==> s.gbest.value in s.particles)
    && (s.gbest, s.gbestScore) == Lead(params, eval, None, Inf, s.particles)
    && (s.gbest.Some? ==> popSize > 0 && s.gbest.value == s.particles[FirstLowest(Costs(params, eval, s.particles))])
  }

  /** How many draws the initial swarm reads. */
  function InitialDraws(popSize: nat, dims: nat): nat {
    popSize * dims
  }

  /** The first draw of pass t when each pass reads per draws and the
      first starts at n. */
  function Offset(n: nat, t: nat, per: nat): nat {
    n + t * per
  }

  /** How many draws one pass over the particles reads. */
  function PassDraws(popSize: nat, dims: nat): nat {
    2 * popSize * dims
  }

  /** The pbest/gbest update after particle i scored sc at position x: the
      personal best is replaced on a strict improvement, and inside that
      branch the global best too. */
  method RecordScore(pbest: seq<seq<real>>, pbestScores: seq<Score>, gbest: Option<seq<real>>, gbestScore: Score,
                     i: nat, x: seq<real>, sc: Score)
    returns (pbest': seq<seq<real>>, pbestScores': seq<Score>, gbest': Option<seq<real>>, gbestScore': Score)
    requires |pbest| == |pbestScores| && i < |pbest|
    requires forall j :: 0 <= j < |pbest| ==> AtMost(gbestScore, pbestScores[j])
    requires gbest.None? <==> gbestScore == Inf
    ensures |pbest'| == |pbestScores'| == |pbest|
    ensures forall j :: 0 <= j < |pbest| && j != i ==> pbest'[j] == pbest[j] && pbestScores'[j] == pbestScores[j]
    ensures Less(sc, pbestScores[i]) ==> pbest'[i] == x && pbestScores'[i] == sc
    ensures !Less(sc, pbestScores[i]) ==> pbest'[i] == pbest[i] && pbestScores'[i] == pbestScores[i]
    ensures Less(sc, gbestScore) ==> gbest' == Some(x) && gbestScore' == sc
    ensures !Less(sc, gbestScore) ==> gbest' == gbest && gbestScore' == gbestScore
    ensures forall j :: 0 <= j < |pbest| ==> AtMost(gbestScore', pbestScores'[j])
    ensures forall j :: 0 <= j < |pbest| ==> AtMost(pbestScores'[j], pbestScores[j])
    ensures AtMost(gbestScore', sc) && AtMost(gbestScore', gbestScore)
    ensures gbest'.None? <==> gbestScore' == Inf
  {
    pbest', pbestScores', gbest', gbestScore' := pbest, pbestScores, gbest, gbestScore;
    if Less(sc, pbestScores[i]) {
      pbestScores' := pbestScores'[i := sc];
      pbest' := pbest'[i := x];
      if Less(sc, gbestScore) {
        gbestScore' := sc;
        gbest' := Some(x);
      }
    }
    LessIsStrictTotalOrder(sc, gbestScore, pbestScores[i]);
    LessIsStrictTotalOrder(sc, pbestScores[i], sc);
    forall j | 0 <= j < |pbest|
      ensures AtMost(gbestScore', pbestScores'[j])
    {
      LessIsStrictTotalOrder(gbestScore', gbestScore, pbestScores[j]);
    }
  }

  /** The global best the velocity pulls towards. Before one exists only a
      swarm of dimension 0 moves, and no coordinate reads it. */
  function Guide(params: seq<Param>, g: Option<seq<real>>): seq<real> {
    if g.Some? then g.value else seq(|params|, _ => 0.0)
  }

  /** One particle's turn: it moves, is clamped and scored, and the bests
      are updated. */
  method UpdateParticle(params: seq<Param>, eval: Evaluator, popSize: nat, s: State, i: nat,
                        w: real, c1: real, c2: real, rs: Draws, n: nat)
    returns (s': State)
    requires Valid(params, eval, popSize, s) && i < popSize && (s.gbest.Some? || |params| == 0)
    ensures Valid(params, eval, popSize, s')
    ensures s'.velocities == s.velocities[i := Velocities(w, c1, c2, s.velocities[i], s.particles[i], s.pbest[i],
                                                          Guide(params, s.gbest), rs, n)]
    ensures s'.particles == s.particles[i := ClampedPosition(params, Plus(s.particles[i], s'.velocities[i]))]
    ensures forall j :: 0 <= j < popSize && j != i ==> s'.pbest[j] == s.pbest[j] && s'.pbestScores[j] == s.pbestScores[j]
    ensures (Some(s'.pbest[i]), s'.pbestScores[i]) ==
            Promote(params, eval, Some(s.pbest[i]), s.pbestScores[i], s'.particles[i])
    ensures (s'.gbest, s'.gbestScore) == Promote(params, eval, s.gbest, s.gbestScore, s'.particles[i])
    ensures AtMost(s'.gbestScore, s.gbestScore) && (s.gbest.Some? ==> s'.gbest.Some?)
    ensures forall j :: 0 <= j < popSize ==> AtMost(s'.pbestScores[j], s.pbestScores[j])
    ensures InBox(params, s'.particles[i])
    ensures AtMost(s'.gbestScore, PositionCost(params, eval, s'.particles[i]))
    ensures s'.gbest == s.gbest || s'.gbest == Some(s'.particles[i])
  {
    var g := Guide(params, s.gbest);
    var x, v := MoveParticle(params, s.particles[i], s.velocities[i], s.pbest[i], g, w, c1, c2, rs, n);
    var sc := PositionCost(params, eval, x);
    var pbest, pbestScores, gbest, gbestScore := RecordScore(s.pbest, s.pbestScores, s.gbest, s.gbestScore, i, x, sc);
    var particles, velocities := s.particles[i := x], s.velocities[i := v];
    forall j | 0 <= j < popSize
      ensures |particles[j]| == |velocities[j]| == |pbest[j]| == |params|
      ensures pbestScores[j] == PositionCost(params, eval, pbest[j])
    {
      if j != i {
        assert particles[j] == s.particles[j] && velocities[j] == s.velocities[j];
      }
    }
    s' := State(particles, velocities, pbest, pbestScores, gbest, gbestScore);
  }

  /** After i turns of an iteration that started from s, the positions
      scored so far being moved. */
  ghost predicate Progress(params: seq<Param>, eval: Evaluator, popSize: nat, w: real, c1: real, c2: real,
                           rs: Draws, n: nat, s: State, st: State, moved: seq<seq<real>>, i: nat)
  {
    && Advanced(params, eval, popSize, s, st, moved, i)
    && Tracked(params, eval, popSize, w, c1, c2, rs, n, s, st, moved, i)
  }

  /** After i turns from s: the state is valid, no best got worse, and
      moved lists the first i particles as they now are, each in its box
      and scoring no better than the global best. */
  ghost predicate Advanced(params: seq<Param>, eval: Evaluator, popSize: nat, s: State, st: State,
                           moved: seq<seq<real>>, i: nat)
  {
    && Valid(params, eval, popSize, st) && i <= popSize && |s.pbestScores| == popSize
    && AtMost(st.gbestScore, s.gbestScore) && (s.gbest.Some? ==> st.gbest.Some?)
    && (forall j :: 0 <= j < popSize ==> AtMost(st.pbestScores[j], s.pbestScores[j]))
    && |moved| == i
    && (forall j :: 0 <= j < i ==> moved[j] == st.particles[j] && InBox(params, moved[j]))
    && AllAtLeast(params, eval, moved, st.gbestScore)
    && (st.gbest == s.gbest || (st.gbest.Some? && st.gbest.value in moved))
  }

  /** A turn that moves particle i into its box, lowers no best and keeps
      the global best or hands it to i extends Advanced by i's position. */
  lemma AdvancedExtends(params: seq<Param>, eval: Evaluator, popSize: nat, s: State, st: State, st': State,
                        moved: seq<seq<real>>, i: nat)
    requires Advanced(params, eval, popSize, s, st, moved, i) && i < popSize
    requires Valid(params, eval, popSize, st')
    requires AtMost(st'.gbestScore, st.gbestScore) && (st.gbest.Some? ==> st'.gbest.Some?)
    requires forall j :: 0 <= j < popSize ==> AtMost(st'.pbestScores[j], st.pbestScores[j])
    requires forall j :: 0 <= j < popSize && j != i ==> st'.particles[j] == st.particles[j]
    requires InBox(params, st'.particles[i]) && AtMost(st'.gbestScore, PositionCost(params, eval, st'.particles[i]))
    requires st'.gbest == st.gbest || st'.gbest == Some(st'.particles[i])
    ensures Advanced(params, eval, popSize, s, st', moved + [st'.particles[i]], i + 1)
  {
    forall j | 0 <= j < popSize
      ensures AtMost(st'.pbestScores[j], s.pbestScores[j])
    {
      LessIsStrictTotalOrder(st'.pbestScores[j], st.pbestScores[j], s.pbestScores[j]);
    }
    LessIsStrictTotalOrder(st'.gbestScore, st.gbestScore, s.gbestScore);
    AllAtLeastExtend(params, eval, moved, st'.particles[i], st.gbestScore, st'.gbestScore);
  }

  /** Turn j of an iteration from s whose draws start at n: particle j's
      velocity follows the update rule with draws n + j * 2 * dim onward,
      pulled towards the personal best it had when the iteration began and
      the global best the turns before it left, and it lands at moved[j],
      its old position plus that velocity, clamped. */
  ghost predicate Moved(params: seq<Param>, eval: Evaluator, w: real, c1: real, c2: real, rs: Draws, n: nat,
                        s: State, st: State, moved: seq<seq<real>>, j: nat)
    requires AllUsable(params) && j < |moved|
    requires j < |s.particles| && j < |s.velocities| && j < |s.pbest| && j < |st.velocities|
  {
    var g := Guide(params, Lead(params, eval, s.gbest, s.gbestScore, moved[..j]).0);
    && |s.velocities[j]| == |s.particles[j]| == |s.pbest[j]| == |g| == |params|
    && st.velocities[j] == Velocities(w, c1, c2, s.velocities[j], s.particles[j], s.pbest[j], g,
                                      rs, Offset(n, j, 2 * |params|))
    && moved[j] == ClampedPosition(params, Plus(s.particles[j], st.velocities[j]))
  }

  /** A later turn changes neither particle j's velocity nor the positions
      scored before j's turn, so j's turn is still as Moved says. */
  lemma MovedKept(params: seq<Param>, eval: Evaluator, w: real, c1: real, c2: real, rs: Draws, n: nat,
                  s: State, st: State, st': State, moved: seq<seq<real>>, x: seq<real>, j: nat)
    requires AllUsable(params) && j < |moved|
    requires j < |s.particles| && j < |s.velocities| && j < |s.pbest| && j < |st.velocities| && j < |st'.velocities|
    requires Moved(params, eval, w, c1, c2, rs, n, s, st, moved, j)
    requires st'.velocities[j] == st.velocities[j]
    ensures Moved(params, eval, w, c1, c2, rs, n, s, st', moved + [x], j)
  {
    assert (moved + [x])[..j] == moved[..j] && (moved + [x])[j] == moved[j];
  }

  /** Turn i, taken from st after the positions moved were scored, with
      particle i still as it was in s, is as Moved says. */
  lemma MovedNow(params: seq<Param>, eval: Evaluator, popSize: nat, w: real, c1: real, c2: real, rs: Draws, n: nat,
                 s: State, st: State, st': State, moved: seq<seq<real>>, i: nat)
    requires Valid(params, eval, popSize, st) && |moved| == i < popSize
    requires |s.particles| == |s.velocities| == |s.pbest| == popSize
    requires |st'.particles| == |st'.velocities| == popSize
    requires st.particles[i] == s.particles[i] && st.velocities[i] == s.velocities[i] && st.pbest[i] == s.pbest[i]
    requires st.gbest == Lead(params, eval, s.gbest, s.gbestScore, moved).0
    requires st'.velocities[i] == Velocities(w, c1, c2, st.velocities[i], st.particles[i], st.pbest[i],
                                             Guide(params, st.gbest), rs, Offset(n, i, 2 * |params|))
    requires st'.particles[i] == ClampedPosition(params, Plus(st.particles[i], st'.velocities[i]))
    ensures Moved(params, eval, w, c1, c2, rs, n, s, st', moved + [st'.particles[i]], i)
  {
    assert (moved + [st'.particles[i]])[..i] == moved;
  }

  /** After i turns from s: the particles from i on have not moved yet, and
      each personal best of the first i, and the global best, took over
      exactly where the positions scored so far were strictly better. */
  ghost predicate Promoted(params: seq<Param>, eval: Evaluator, popSize: nat, s: State, st: State,
                           moved: seq<seq<real>>, i: nat)
  {
    && AllUsable(params) && |moved| == i <= popSize
    && |s.particles| == |s.velocities| == |s.pbest| == |s.pbestScores| == popSize
    && |st.particles| == |st.velocities| == |st.pbest| == |st.pbestScores| == popSize
    && (forall j :: i <= j < popSize ==>
          && st.particles[j] == s.particles[j] && st.velocities[j] == s.velocities[j]
          && st.pbest[j] == s.pbest[j] && st.pbestScores[j] == s.pbestScores[j])
    && (forall j :: 0 <= j < i ==>
          (Some(st.pbest[j]), st.pbestScores[j]) == Promote(params, eval, Some(s.pbest[j]), s.pbestScores[j], moved[j]))
    && (st.gbest, st.gbestScore) == Lead(params, eval, s.gbest, s.gbestScore, moved)
  }

  /** A turn that changes only particle i and promotes its personal best and
      the global best by its new position extends Promoted by that position. */
  lemma PromotedExtends(params: seq<Param>, eval: Evaluator, popSize: nat, s: State, st: State, st': State,
                        moved: seq<seq<real>>, i: nat)
    requires Promoted(params, eval, popSize, s, st, moved, i) && i < popSize
    requires |st'.particles| == |st'.velocities| == |st'.pbest| == |st'.pbestScores| == popSize
    requires forall j :: 0 <= j < popSize && j != i ==>
               && st'.particles[j] == st.particles[j] && st'.velocities[j] == st.velocities[j]
               && st'.pbest[j] == st.pbest[j] && st'.pbestScores[j] == st.pbestScores[j]
    requires (Some(st'.pbest[i]), st'.pbestScores[i]) ==
             Promote(params, eval, Some(st.pbest[i]), st.pbestScores[i], st'.particles[i])
    requires (st'.gbest, st'.gbestScore) == Promote(params, eval, st.gbest, st.gbestScore, st'.particles[i])
    ensures Promoted(params, eval, popSize, s, st', moved + [st'.particles[i]], i + 1)
  {
    var moved' := moved + [st'.particles[i]];
    assert moved'[..i] == moved;
    forall j | 0 <= j <= i
      ensures (Some(st'.pbest[j]), st'.pbestScores[j]) ==
              Promote(params, eval, Some(s.pbest[j]), s.pbestScores[j], moved'[j])
    {
      if j < i {
        assert moved'[j] == moved[j];
      }
    }
  }

  /** After i turns from s: the first i particles moved as Moved says. */
  ghost predicate Followed(params: seq<Param>, eval: Evaluator, w: real, c1: real, c2: real,
                           rs: Draws, n: nat, s: State, st: State, moved: seq<seq<real>>, i: nat)
  {
    && AllUsable(params) && |moved| == i
    && i <= |s.particles| && i <= |s.velocities| && i <= |s.pbest| && i <= |st.velocities|
    && (forall j :: 0 <= j < i ==> Moved(params, eval, w, c1, c2, rs, n, s, st, moved, j))
  }

  /** A turn that moves particle i, still as it was in s, by the update rule
      with draws n + i * 2 * dim onward and leaves the velocities before it
      alone extends Followed by its new position. */
  lemma FollowedExtends(params: seq<Param>, eval: Evaluator, popSize: nat, w: real, c1: real, c2: real,
                        rs: Draws, n: nat, s: State, st: State, st': State, moved: seq<seq<real>>, i: nat)
    requires Followed(params, eval, w, c1, c2, rs, n, s, st, moved, i)
    requires Valid(params, eval, popSize, st) && i < popSize
    requires |s.particles| == |s.velocities| == |s.pbest| == popSize
    requires |st'.particles| == |st'.velocities| == popSize
    requires st.particles[i] == s.particles[i] && st.velocities[i] == s.velocities[i] && st.pbest[i] == s.pbest[i]
    requires st.gbest == Lead(params, eval, s.gbest, s.gbestScore, moved).0
    requires st'.velocities[i] == Velocities(w, c1, c2, st.velocities[i], st.particles[i], st.pbest[i],
                                             Guide(params, st.gbest), rs, Offset(n, i, 2 * |params|))
    requires st'.particles[i] == ClampedPosition(params, Plus(st.particles[i], st'.velocities[i]))
    requires forall j :: 0 <= j < i ==> st'.velocities[j] == st.velocities[j]
    ensures Followed(params, eval, w, c1, c2, rs, n, s, st', moved + [st'.particles[i]], i + 1)
  {
    forall j | 0 <= j <= i
      ensures Moved(params, eval, w, c1, c2, rs, n, s, st', moved + [st'.particles[i]], j)
    {
      if j < i {
        MovedKept(params, eval, w, c1, c2, rs, n, s, st, st', moved, st'.particles[i], j);
      } else {
        MovedNow(params, eval, popSize, w, c1, c2, rs, n, s, st, st', moved, i);
      }
    }
  }

  /** After i turns from s: Promoted and Followed. */
  ghost predicate Tracked(params: seq<Param>, eval: Evaluator, popSize: nat, w: real, c1: real, c2: real,
                          rs: Draws, n: nat, s: State, st: State, moved: seq<seq<real>>, i: nat)
  {
    && Promoted(params, eval, popSize, s, st, moved, i)
    && Followed(params, eval, w, c1, c2, rs, n, s, st, moved, i)
  }

  /** Particle i's turn within an iteration whose draws start at n. */
  method Turn(params: seq<Param>, eval: Evaluator, popSize: nat, s: State, st: State, ghost moved: seq<seq<real>>,
              i: nat, w: real, c1: real, c2: real, rs: Draws, n: nat)
    returns (st': State, ghost moved': seq<seq<real>>)
    requires Progress(params, eval, popSize, w, c1, c2, rs, n, s, st, moved, i) && i < popSize
    requires st.gbest.Some? || |params| == 0
    ensures Progress(params, eval, popSize, w, c1, c2, rs, n, s, st', moved', i + 1)
  {
    st' := UpdateParticle(params, eval, popSize, st, i, w, c1, c2, rs, Offset(n, i, 2 * |params|));
    AdvancedExtends(params, eval, popSize, s, st, st', moved, i);
    PromotedExtends(params, eval, popSize, s, st, st', moved, i);
    FollowedExtends(params, eval, popSize, w, c1, c2, rs, n, s, st, st', moved, i);
    moved' := moved + [st'.particles[i]];
  }

  /** s' follows s by one iteration, reading draws n onward, that scored
      the positions in moved: s' is valid, neither the global best nor any
      personal best got worse, a global best once found stays found, moved
      lists the particles as they now are, each in its box and scoring no
      better than the global best, and the global best is the old one or one
      of the moved positions. Exactly: particle j moved as Moved says, its
      personal best was promoted by its new position, and the global best
      by the new positions in turn. */
  ghost predicate Iteration(params: seq<Param>, eval: Evaluator, popSize: nat, w: real, c1: real, c2: real,
                            rs: Draws, n: nat, s: State, s': State, moved: seq<seq<real>>)
  {
    && Valid(params, eval, popSize, s) && Valid(params, eval, popSize, s')
    && AtMost(s'.gbestScore, s.gbestScore)
    && (s.gbest.Some? ==> s'.gbest.Some?)
    && (forall j :: 0 <= j < popSize ==> AtMost(s'.pbestScores[j], s.pbestScores[j]))
    && |moved| == popSize && s'.particles == moved
    && (forall j :: 0 <= j < popSize ==> InBox(params, moved[j]))
    && AllAtLeast(params, eval, moved, s'.gbestScore)
    && (s'.gbest == s.gbest || (s'.gbest.Some? && s'.gbest.value in moved))
    && (forall j :: 0 <= j < popSize ==>
          (Some(s'.pbest[j]), s'.pbestScores[j]) == Promote(params, eval, Some(s.pbest[j]), s.pbestScores[j], moved[j]))
    && (s'.gbest, s'.gbestScore) == Lead(params, eval, s.gbest, s.gbestScore, moved)
    && (forall j :: 0 <= j < popSize ==> Moved(params, eval, w, c1, c2, rs, n, s, s', moved, j))
  }

  /** The record of a run whose first iteration reads draws n onward:
      each state follows the one before by an Iteration, which scored the
      positions of the matching entry of moves and read the pass of draws
      after those of the iterations before it. */
  ghost predicate Iterations(params: seq<Param>, eval: Evaluator, popSize: nat, w: real, c1: real, c2: real,
                             rs: Draws, n: nat, states: seq<State>, moves: seq<seq<seq<real>>>)
    decreases |moves|
  {
    && |states| == |moves| + 1
    && (|moves| > 0 ==>
          var t := |moves| - 1;
          && Iterations(params, eval, popSize, w, c1, c2, rs, n, states[..t + 1], moves[..t])
          && Iteration(params, eval, popSize, w, c1, c2, rs, Offset(n, t, PassDraws(popSize, |params|)),
                       states[t], states[t + 1], moves[t]))
  }

  /** An Iteration from the last state, reading the pass of draws after
      those of the iterations so far, extends the record. */
  lemma IterationsExtend(params: seq<Param>, eval: Evaluator, popSize: nat, w: real, c1: real, c2: real,
                         rs: Draws, n: nat, states: seq<State>, moves: seq<seq<seq<real>>>,
                         s: State, moved: seq<seq<real>>)
    requires Iterations(params, eval, popSize, w, c1, c2, rs, n, states, moves)
    requires Iteration(params, eval, popSize, w, c1, c2, rs, Offset(n, |moves|, PassDraws(popSize, |params|)),
                       states[|states| - 1], s, moved)
    ensures Iterations(params, eval, popSize, w, c1, c2, rs, n, states + [s], moves + [moved])
  {
    assert (states + [s])[..|states|] == states && (moves + [moved])[..|moves|] == moves;
  }

  /** Every position of every entry, in order. */
  ghost function Flatten(moves: seq<seq<seq<real>>>): seq<seq<real>> {
    if |moves| == 0 then []
    else Flatten(moves[..|moves| - 1]) + moves[|moves| - 1]
  }

  /** One iteration: every particle takes its turn in order. With no global
      best yet, the first move subscripts None. */
  method Iterate(params: seq<Param>, eval: Evaluator, popSize: nat, s: State,
                 w: real, c1: real, c2: real, rs: Draws, n: nat)
    returns (r: Result<State>, ghost moved: seq<seq<real>>)
    requires Valid(params, eval, popSize, s)
    ensures r.Err? <==> s.gbest.None? && |params| > 0 && popSize > 0
    ensures r.Err? ==> r.error == NoneValue
    ensures r.Ok? ==> Iteration(params, eval, popSize, w, c1, c2, rs, n, s, r.value, moved)
  {
    if s.gbest.None? && |params| > 0 && popSize > 0 {
      return Err(NoneValue), [];
    }
    var st := s;
    moved := [];
    for i := 0 to popSize
      invariant Progress(params, eval, popSize, w, c1, c2, rs, n, s, st, moved, i)
      invariant s.gbest.None? && popSize > 0 ==> |params| == 0
    {
      st, moved := Turn(params, eval, popSize, s, st, moved, i, w, c1, c2, rs, n);
    }
    assert moved == st.particles;
    return Ok(st), moved;
  }

  /** Lowering the bound to t, no more than x's score, keeps every position
      bounded once x is added. */
  lemma AllAtLeastExtend(params: seq<Param>, eval: Evaluator, positions: seq<seq<real>>, x: seq<real>, s: Score, t: Score)
    requires AllUsable(params) && AllAtLeast(params, eval, positions, s)
    requires AtMost(t, s) && AtMost(t, PositionCost(params, eval, x))
    ensures AllAtLeast(params, eval, positions + [x], t)
  {
    forall p | p in positions + [x]
      ensures AtMost(t, PositionCost(params, eval, p))
    {
      if p in positions {
        LessIsStrictTotalOrder(PositionCost(params, eval, p), t, s);
      }
    }
  }

  /** Joining two lists of positions, the second bounded by a score no
      worse than the first's bound. */
  lemma AllAtLeastJoin(params: seq<Param>, eval: Evaluator, a: seq<seq<real>>, b: seq<seq<real>>, s: Score, t: Score)
    requires AllAtLeast(params, eval, a, s) && AllAtLeast(params, eval, b, t) && AtMost(t, s)
    ensures AllAtLeast(params, eval, a + b, t)
  {
    forall p | p in a + b
      ensures AllUsable(params) && AtMost(t, PositionCost(params, eval, p))
    {
      if p in a {
        LessIsStrictTotalOrder(PositionCost(params, eval, p), t, s);
      }
    }
  }

  /** The ghost record of a run from s0 up to its last state: the
      Iterations, every position scored so far, the global best score of
      each state, and what they give about the last state: it is valid, its
      global best score bounds everything scored and is no worse than s0's,
      and its global best is s0's or a scored position. */
  ghost predicate Record(params: seq<Param>, eval: Evaluator, popSize: nat, w: real, c1: real, c2: real,
                         rs: Draws, n: nat, s0: State, evaluated: seq<seq<real>>,
                         history: seq<Score>, states: seq<State>, moves: seq<seq<seq<real>>>)
  {
    && Iterations(params, eval, popSize, w, c1, c2, rs, n, states, moves) && states[0] == s0
    && evaluated == Flatten(moves)
    && |history| == |states| && (forall t :: 0 <= t < |states| ==> history[t] == states[t].gbestScore)
    && NonIncreasing(history)
    && var s := states[|states| - 1];
       && Valid(params, eval, popSize, s)
       && AllAtLeast(params, eval, evaluated, s.gbestScore)
       && AtMost(s.gbestScore, s0.gbestScore)
       && (s.gbest == s0.gbest || (s.gbest.Some? && s.gbest.value in evaluated))
  }

  /** An Iteration from the last state extends the Record. */
  lemma RecordExtends(params: seq<Param>, eval: Evaluator, popSize: nat, w: real, c1: real, c2: real,
                      rs: Draws, n: nat, s0: State, evaluated: seq<seq<real>>,
                      history: seq<Score>, states: seq<State>, moves: seq<seq<seq<real>>>,
                      next: State, moved: seq<seq<real>>)
    requires Record(params, eval, popSize, w, c1, c2, rs, n, s0, evaluated, history, states, moves)
    requires Iteration(params, eval, popSize, w, c1, c2, rs, Offset(n, |moves|, PassDraws(popSize, |params|)),
                       states[|states| - 1], next, moved)
    ensures Record(params, eval, popSize, w, c1, c2, rs, n, s0, evaluated + moved, history + [next.gbestScore],
                   states + [next], moves + [moved])
  {
    var s := states[|states| - 1];
    AllAtLeastJoin(params, eval, evaluated, moved, s.gbestScore, next.gbestScore);
    NonIncreasingExtend(history, next.gbestScore);
    LessIsStrictTotalOrder(next.gbestScore, s.gbestScore, s0.gbestScore);
    IterationsExtend(params, eval, popSize, w, c1, c2, rs, n, states, moves, next, moved);
    assert Flatten(moves + [moved]) == Flatten(moves) + moved by {
      assert (moves + [moved])[..|moves|] == moves;
    }
  }

  /** The iterations of pso_search from the scored initial swarm s0, the
      first reading draws n onward. The ghost outputs record the state
      before the first iteration and after each (states), the positions each
      iteration scored (moves, all of them in evaluated) and the global best
      score of each state (history). */
  method Run(params: seq<Param>, eval: Evaluator, popSize: nat, s0: State, iterations: nat,
             w: real, c1: real, c2: real, rs: Draws, n: nat)
    returns (r: Result<State>, ghost evaluated: seq<seq<real>>, ghost history: seq<Score>,
             ghost states: seq<State>, ghost moves: seq<seq<seq<real>>>)
    requires Valid(params, eval, popSize, s0) && popSize > 0
    ensures r.Err? <==> iterations > 0 && s0.gbest.None? && |params| > 0
    ensures r.Err? ==> r.error == NoneValue && states == [s0]
    ensures Iterations(params, eval, popSize, w, c1, c2, rs, n, states, moves) && states[0] == s0
    ensures evaluated == Flatten(moves)
    ensures |history| == |states| && forall t :: 0 <= t < |states| ==> history[t] == states[t].gbestScore
    ensures r.Ok? ==>
              && |states| == iterations + 1 && states[iterations] == r.value
              && Valid(params, eval, popSize, r.value)
              && AllAtLeast(params, eval, evaluated, r.value.gbestScore)
              && AtMost(r.value.gbestScore, s0.gbestScore)
              && (r.value.gbest == s0.gbest || (r.value.gbest.Some? && r.value.gbest.value in evaluated))
              && NonIncreasing(history)
  {
    var s := s0;
    evaluated, history, states, moves := [], [s0.gbestScore], [s0], [];
    for it := 0 to iterations
      invariant Record(params, eval, popSize, w, c1, c2, rs, n, s0, evaluated, history, states, moves)
      invariant |states| == it + 1 && states[it] == s
      invariant it > 0 ==> !(s0.gbest.None? && |params| > 0) && (s.gbest.Some? || |params| == 0)
      invariant it == 0 ==> s == s0 && states == [s0]
    {
      var next, moved := Iterate(params, eval, popSize, s, w, c1, c2, rs, Offset(n, it, PassDraws(popSize, |params|)));
      if next.Err? {
        return Err(next.error), evaluated, history, states, moves;
      }
      RecordExtends(params, eval, popSize, w, c1, c2, rs, n, s0, evaluated, history, states, moves, next.value, moved);
      evaluated := evaluated + moved;
      history := history + [next.value.gbestScore];
      states := states + [next.value];
      moves := moves + [moved];
      s := next.value;
    }
    return Ok(s), evaluated, history, states, moves;
  }

  /** The initialisation of pso_search: pop_size particles are drawn and
      scored into the Initial swarm, whose global best score bounds every
      particle's; drawing fails on an unusable parameter. */
  method Initialize(params: seq<Param>, eval: Evaluator, popSize: nat, rs: Draws) returns (r: Result<State>)
    requires ValidDraws(rs) && popSize > 0
    ensures r.Err? <==> !AllUsable(params)
    ensures r.Err? ==> r.error == UnknownType || r.error == EmptyRange
    ensures r.Ok? ==> Initial(params, eval, popSize, rs, r.value)
    ensures r.Ok? ==> AllAtLeast(params, eval, r.value.particles, r.value.gbestScore)
    ensures r.Ok? ==> forall j :: 0 <= j < popSize ==> AtMost(r.value.gbestScore, InitialScore(params, eval, rs, j))
  {
    var init := InitialParticles(params, popSize, rs);
    if init.Err? {
      return Err(init.error);
    }
    var s0 := EvaluateInitial(params, eval, init.value);
    assert forall j :: 0 <= j < popSize ==> InitialScore(params, eval, rs, j) == s0.pbestScores[j];
    assert AllAtLeast(params, eval, init.value, s0.gbestScore);
    return Ok(s0);
  }

  /** pso_search: the initial swarm is drawn and scored, then each
      iteration moves every particle once. Returns gbest and its score;
      evaluated lists every position scored and history the global best
      score after initialisation and after each iteration. Particle j of the
      initial swarm reads draws j * dim onward, the iterations the draws
      after them. */
  method Search(params: seq<Param>, eval: Evaluator, popSize: nat, iterations: nat,
                w: real, c1: real, c2: real, rs: Draws)
    returns (r: Result<(Option<seq<real>>, Score)>, ghost evaluated: seq<seq<real>>, ghost history: seq<Score>,
             ghost states: seq<State>, ghost moves: seq<seq<seq<real>>>)
    requires ValidDraws(rs)
    ensures popSize == 0 ==> r == Ok((None, Inf))
    ensures popSize > 0 && !AllUsable(params) ==> r.Err? && (r.error == UnknownType || r.error == EmptyRange)
    ensures popSize > 0 && AllUsable(params) ==>
              (r.Err? <==> iterations > 0 && |params| > 0 &&
                           forall j :: 0 <= j < popSize ==> InitialScore(params, eval, rs, j) == Inf)
    ensures r.Err? && AllUsable(params) ==> r.error == NoneValue
    ensures r.Ok? ==> (r.value.0.None? <==> r.value.1 == Inf)
    ensures r.Ok? && r.value.0.Some? ==>
              && AllUsable(params) && |r.value.0.value| == |params|
              && r.value.0.value in evaluated
              && r.value.1 == PositionCost(params, eval, r.value.0.value)
    ensures r.Ok? && popSize > 0 ==>
              && AllAtLeast(params, eval, evaluated, r.value.1)
              && (forall j :: 0 <= j < popSize ==> AtMost(r.value.1, InitialScore(params, eval, rs, j)))
              && |history| == iterations + 1 && NonIncreasing(history)
              && history[iterations] == r.value.1
    ensures r.Ok? && popSize > 0 ==>
              && Iterations(params, eval, popSize, w, c1, c2, rs, InitialDraws(popSize, |params|), states, moves)
              && |states| == iterations + 1
              && Initial(params, eval, popSize, rs, states[0])
              && r.value == (states[iterations].gbest, states[iterations].gbestScore)
              && evaluated == states[0].particles + Flatten(moves)
  {
    if popSize == 0 {
      // Both loops run over range(pop_size): nothing is drawn or scored.
      return Ok((None, Inf)), [], [Inf], [], [];
    }
    var start := Initialize(params, eval, popSize, rs);
    if start.Err? {
      return Err(start.error), [], [], [], [];
    }
    var s0 := start.value;
    var s; ghost var moved;
    s, moved, history, states, moves :=
      Run(params, eval, popSize, s0, iterations, w, c1, c2, rs, InitialDraws(popSize, |params|));
    if s.Err? {
      return Err(s.error), s0.particles, history, states, moves;
    }
    AllAtLeastJoin(params, eval, s0.particles, moved, s0.gbestScore, s.value.gbestScore);
    evaluated := s0.particles + moved;
    forall j | 0 <= j < popSize
      ensures AtMost(s.value.gbestScore, InitialScore(params, eval, rs, j))
    {
      LessIsStrictTotalOrder(s.value.gbestScore, s0.gbestScore, InitialScore(params, eval, rs, j));
    }
    return Ok((s.value.gbest, s.value.gbestScore)), evaluated, history, states, moves;
  }
}
