/** pattern_search of tunning/tuning.py: a coordinate search that tries every
    value of each categorical parameter and cand[i] -/+ step, clamped, for each
    int parameter, keeps the first strict improvement it meets and halves the
    step after a sweep that improved nothing, until the step drops below 1. */
module PatternSearch {
  import opened Params
  import opened Scores

  /** The vector pattern_search builds when it is given no initial vector:
      values[0] for a categorical parameter, (min + max) // 2 for an int one. */
  function DefaultStart(params: seq<Param>): (r: Result<seq<Value>>)
    ensures r.Ok? <==> forall i :: 0 <= i < |params| ==> Usable(params[i])
    ensures r.Ok? ==> |r.value| == |params|
    ensures r.Ok? ==> forall i :: 0 <= i < |params| ==>
              (params[i].Categorical? ==> r.value[i] == params[i].values[0]) &&
              (params[i].IntRange? ==>
                 r.value[i].Num? && IsInt(r.value[i].x) &&
                 (params[i].min <= params[i].max ==>
                    params[i].min as real <= r.value[i].x <= params[i].max as real))
    decreases |params|
  {
    if |params| == 0 then Ok([])
    else
      var first: Result<Value> :=
        match params[0]
        case Categorical(values) =>
          if |values| == 0 then Err(IndexOutOfRange) else Ok(values[0])
        case IntRange(lo, hi) => Ok(Num(((lo + hi) / 2) as real))
        case Unknown(_) => Err(UnknownType);
      match first
      case Err(e) => Err(e)
      case Ok(v) =>
        match DefaultStart(params[1..])
        case Err(e) => Err(e)
        case Ok(rest) => Ok([v] + rest)
  }

  /** The vector the search starts from and scores first, or the exception
      raised before the first evaluation completes. */
  function Start(params: seq<Param>, initial: Option<seq<Value>>): (r: Result<seq<Value>>)
    ensures r.Ok? ==> Decode(params, r.value).Ok?
    ensures initial.None? ==> (r.Ok? <==> forall i :: 0 <= i < |params| ==> Usable(params[i]))
    ensures initial.None? && r.Ok? ==> |r.value| == |params|
    ensures initial.Some? ==> (r.Ok? <==> Decode(params, initial.value).Ok?)
    ensures initial.Some? && r.Ok? ==> r.value == initial.value
  {
    match initial
    case Some(c) =>
      var d := Decode(params, c);
      if d.Ok? then Ok(c) else Err(d.error)
    case None =>
      var d := DefaultStart(params);
      if d.Ok? then DefaultStartDecodes(params); Ok(d.value) else d
  }

  lemma DefaultStartDecodes(params: seq<Param>)
    requires DefaultStart(params).Ok?
    ensures Decode(params, DefaultStart(params).value).Ok?
  {
    var c := DefaultStart(params).value;
    forall i | 0 <= i < |params| && i < |c|
      ensures DecodeOne(params[i], c[i]).Ok?
    {
      assert Usable(params[i]);
    }
  }

  /** One int trial: max(min, min(max, v + delta)). */
  function Shifted(p: Param, v: Value, delta: int): Value
    requires p.IntRange? && v.Num?
  {
    Num(ClampReal(p.min as real, p.max as real, v.x + delta as real))
  }

  /** c with its int component i moved by step, down or up, and clamped to
      [min, max]: the trial of delta = -step or delta = step. */
  function Move(params: seq<Param>, c: seq<Value>, i: int, step: int, up: bool): seq<Value>
    requires 0 <= i < |params| && i < |c| && params[i].IntRange? && c[i].Num?
  {
    c[i := Shifted(params[i], c[i], if up then step else -step)]
  }

  /** No trial of sweep position i, with this step, improves on score s. */
  ghost predicate TrialsFail(params: seq<Param>, eval: Evaluator, c: seq<Value>, s: Score, i: int, step: int)
    requires 0 <= i < |params| <= |c|
  {
    if params[i].Categorical? then ValuesFail(params, eval, c, s, i, |params[i].values|)
    else
      params[i].IntRange? && c[i].Num? ==>
        !Improves(params, eval, Move(params, c, i, step, false), s) &&
        !Improves(params, eval, Move(params, c, i, step, true), s)
  }

  /** No trial of the first n sweep positions improves on score s. */
  ghost predicate FirstTrialsFail(params: seq<Param>, eval: Evaluator, c: seq<Value>, s: Score, n: int, step: int)
    requires |params| <= |c|
  {
    forall j :: 0 <= j < n && j < |params| ==> TrialsFail(params, eval, c, s, j, step)
  }

  lemma FirstTrialsFailExtend(params: seq<Param>, eval: Evaluator, c: seq<Value>, s: Score, n: int, step: int)
    requires 0 <= n < |params| <= |c|
    requires FirstTrialsFail(params, eval, c, s, n, step) && TrialsFail(params, eval, c, s, n, step)
    ensures FirstTrialsFail(params, eval, c, s, n + 1, step)
  {
  }

  /** None of the first n values of categorical position i improves on s. */
  ghost predicate ValuesFail(params: seq<Param>, eval: Evaluator, c: seq<Value>, s: Score, i: int, n: int)
    requires 0 <= i < |params| <= |c| && params[i].Categorical? && n <= |params[i].values|
  {
    forall l :: 0 <= l < n ==> !Improves(params, eval, c[i := params[i].values[l]], s)
  }

  lemma ValuesFailExtend(params: seq<Param>, eval: Evaluator, c: seq<Value>, s: Score, i: int, n: int)
    requires 0 <= i < |params| <= |c| && params[i].Categorical? && 0 <= n < |params[i].values|
    requires ValuesFail(params, eval, c, s, i, n)
    requires !Improves(params, eval, c[i := params[i].values[n]], s)
    ensures ValuesFail(params, eval, c, s, i, n + 1)
  {
  }

  /** No single categorical change and no int move by one improves on s. */
  ghost predicate LocalOptimum(params: seq<Param>, eval: Evaluator, c: seq<Value>, s: Score) {
    |params| <= |c| && forall i :: 0 <= i < |params| ==> TrialsFail(params, eval, c, s, i, 1)
  }

  /** The search keeps component v of parameter p: its start value x0, one
      of the categorical values, or a number its clamp leaves unchanged. */
  predicate Reached(p: Param, x0: Value, v: Value) {
    v == x0 ||
    (p.Categorical? && v in p.values) ||
    (p.IntRange? && v.Num? && ClampReal(p.min as real, p.max as real, v.x) == v.x)
  }

  // The finite set of vectors the search can visit, for its termination.

  function IntValue(k: int): Value { Num(k as real) }

  function ShiftValue(x: real, k: int): Value { Num(x + k as real) }

  ghost function Integers(lo: int, hi: int): set<Value> {
    set k: int | lo <= k <= hi :: IntValue(k)
  }

  ghost function Shifts(x: real, lo: int, hi: int): set<Value> {
    set k: int | lo - x.Floor - 1 <= k <= hi - x.Floor + 1 && lo as real <= x + k as real <= hi as real
      :: ShiftValue(x, k)
  }

  ghost function Slot(p: Param, x0: Value): set<Value> {
    if p.Categorical? then (set v | v in p.values) + {x0}
    else if p.IntRange? && x0.Num? then
      {x0, Num(p.min as real)} + Integers(p.min, p.max) + Shifts(x0.x, p.min, p.max)
    else {x0}
  }

  ghost function Slots(params: seq<Param>, start: seq<Value>): (r: seq<set<Value>>)
    ensures |r| == |start|
  {
    seq(|start|, i requires 0 <= i < |start| =>
      if i < |params| then Slot(params[i], start[i]) else {start[i]})
  }

  ghost function Product(slots: seq<set<Value>>): set<seq<Value>>
    decreases |slots|
  {
    if |slots| == 0 then {[]}
    else set x, t | x in slots[0] && t in Product(slots[1..]) :: [x] + t
  }

  ghost function Space(params: seq<Param>, start: seq<Value>): set<seq<Value>> {
    Product(Slots(params, start))
  }

  ghost function Better(params: seq<Param>, eval: Evaluator, space: set<seq<Value>>, s: Score): set<seq<Value>> {
    set c | c in space && Improves(params, eval, c, s)
  }

  lemma {:induction false} ProductMember(slots: seq<set<Value>>, c: seq<Value>)
    ensures c in Product(slots) <==> |c| == |slots| && forall i :: 0 <= i < |c| ==> c[i] in slots[i]
    decreases |slots|
  {
    if |slots| > 0 {
      if c in Product(slots) {
        var x, t :| x in slots[0] && t in Product(slots[1..]) && c == [x] + t;
        ProductMember(slots[1..], t);
      }
      if |c| == |slots| && forall i :: 0 <= i < |c| ==> c[i] in slots[i] {
        ProductMember(slots[1..], c[1..]);
        assert c == [c[0]] + c[1..];
      }
    }
  }

  /** Every int trial from a visited value lands on a value of the same slot. */
  lemma SlotClosed(p: Param, x0: Value, v: Value, d: int)
    requires p.IntRange? && x0.Num? && v in Slot(p, x0)
    ensures v.Num? && Shifted(p, v, d) in Slot(p, x0)
  {
    var lo, hi := p.min, p.max;
    if v == x0 || v == Num(lo as real) {
    } else if v in Integers(lo, hi) {
      var k :| lo <= k <= hi && v == IntValue(k);
    } else {
      var k :| lo - x0.x.Floor - 1 <= k <= hi - x0.x.Floor + 1 && v == ShiftValue(x0.x, k);
    }
    assert v.Num?;
    var y := v.x + d as real;
    var w := Shifted(p, v, d);
    if lo > hi || y <= lo as real {
      assert w == Num(lo as real);
    } else if y >= hi as real {
      assert w == IntValue(hi);
    } else {
      assert w == Num(y);
      if v == x0 || v in Shifts(x0.x, lo, hi) {
        var k: int :| v.x == x0.x + k as real;
        var k' := k + d;
        assert lo - x0.x.Floor - 1 <= k' <= hi - x0.x.Floor + 1;
        assert w == ShiftValue(x0.x, k');
      } else {
        var k := v.x.Floor;
        assert v.x == k as real;
        assert w == IntValue(k + d);
      }
    }
  }

  lemma SlotReached(p: Param, x0: Value, v: Value)
    requires v in Slot(p, x0)
    ensures Reached(p, x0, v)
  {
    if p.IntRange? && x0.Num? && v != x0 && v != Num(p.min as real) {
      if v in Integers(p.min, p.max) {
        var k :| p.min <= k <= p.max && v == IntValue(k);
      } else {
        var k :| p.min as real <= x0.x + k as real <= p.max as real && v == ShiftValue(x0.x, k);
      }
    }
  }

  /** c is in the space, stated position by position: each component is in
      its parameter's slot, and components past the parameters keep their
      start values. */
  ghost predicate InSpace(params: seq<Param>, start: seq<Value>, c: seq<Value>) {
    |c| == |start| &&
    forall i :: 0 <= i < |c| ==> if i < |params| then c[i] in Slot(params[i], start[i]) else c[i] == start[i]
  }

  /** InSpace is membership in the finite space. */
  lemma InSpaceIsSpace(params: seq<Param>, start: seq<Value>, c: seq<Value>)
    ensures InSpace(params, start, c) <==> c in Space(params, start)
  {
    ProductMember(Slots(params, start), c);
  }

  /** What a vector of the space holds, position by position. */
  lemma SpaceReached(params: seq<Param>, start: seq<Value>, c: seq<Value>)
    requires InSpace(params, start, c) && |params| <= |start|
    ensures |c| == |start|
    ensures forall i :: 0 <= i < |params| ==> Reached(params[i], start[i], c[i])
    ensures forall i :: |params| <= i < |c| ==> c[i] == start[i]
  {
    forall i | 0 <= i < |params|
      ensures Reached(params[i], start[i], c[i])
    {
      SlotReached(params[i], start[i], c[i]);
    }
  }

  lemma SpaceMember(params: seq<Param>, start: seq<Value>, c: seq<Value>, i: int)
    requires InSpace(params, start, c) && 0 <= i < |params| && i < |start|
    ensures c[i] in Slot(params[i], start[i])
  {
  }

  lemma SpaceUpdate(params: seq<Param>, start: seq<Value>, c: seq<Value>, i: int, v: Value)
    requires InSpace(params, start, c) && 0 <= i < |params| <= |start|
    requires v in Slot(params[i], start[i])
    ensures InSpace(params, start, c[i := v])
  {
  }

  /** Every vector of the space decodes, so no trial raises. */
  lemma SpaceDecodes(params: seq<Param>, start: seq<Value>, c: seq<Value>)
    requires Decode(params, start).Ok? && |params| <= |start|
    requires InSpace(params, start, c)
    ensures Decode(params, c).Ok?
  {
    forall i | 0 <= i < |params| && i < |c|
      ensures DecodeOne(params[i], c[i]).Ok?
    {
      SpaceMember(params, start, c, i);
      SlotDecodes(params[i], start[i], c[i]);
    }
  }

  /** A value of the slot of a start value that decodes decodes too. */
  lemma SlotDecodes(p: Param, x0: Value, v: Value)
    requires DecodeOne(p, x0).Ok? && v in Slot(p, x0)
    ensures DecodeOne(p, v).Ok?
  {
    if p.IntRange? {
      SlotClosed(p, x0, v, 0);
    }
  }

  /** A strict improvement removes at least the new incumbent from the set
      of vectors that beat the incumbent. */
  lemma BetterShrinks(params: seq<Param>, eval: Evaluator, space: set<seq<Value>>, c: seq<Value>, s: Score)
    requires c in space && Improves(params, eval, c, s)
    ensures |Better(params, eval, space, Cost(params, eval, c))| < |Better(params, eval, space, s)|
  {
    var t := Cost(params, eval, c);
    var smaller, larger := Better(params, eval, space, t), Better(params, eval, space, s);
    forall d | d in smaller
      ensures d in larger
    {
      LessIsStrictTotalOrder(Cost(params, eval, d), t, s);
    }
    assert c in larger;
    LessIsStrictTotalOrder(t, t, t);
    assert c !in smaller;
    ProperSubsetSmaller(smaller, larger, c);
  }

  /** A subset that misses an element of the larger set is smaller. */
  lemma ProperSubsetSmaller(smaller: set<seq<Value>>, larger: set<seq<Value>>, c: seq<Value>)
    requires smaller <= larger && c in larger && c !in smaller
    ensures |smaller| < |larger|
  {
    var rest := larger - smaller;
    assert larger == smaller + rest && smaller * rest == {};
    assert rest == {c} + (rest - {c});
  }

  /** The search state: an incumbent vector of the space and its score. */
  ghost predicate Incumbent(params: seq<Param>, eval: Evaluator, start: seq<Value>, c: seq<Value>, s: Score) {
    && Decode(params, start).Ok? && |params| <= |start|
    && InSpace(params, start, c)
    && Decode(params, c).Ok? && s == Cost(params, eval, c)
  }

  /** c' differs from c at most at position i: a sweep position's trials
      copy the incumbent and set only cand[i]. */
  predicate SameBut(c: seq<Value>, c': seq<Value>, i: int) {
    |c'| == |c| && forall j :: 0 <= j < |c| && j != i ==> c'[j] == c[j]
  }

  /** One trial: cand replaces the incumbent only when it scores strictly less. */
  method Try(params: seq<Param>, eval: Evaluator, ghost start: seq<Value>, candidate: seq<Value>, melhor: Score, cand: seq<Value>)
    returns (candidate': seq<Value>, melhor': Score, improved: bool)
    requires Incumbent(params, eval, start, candidate, melhor)
    requires InSpace(params, start, cand)
    ensures Incumbent(params, eval, start, candidate', melhor')
    ensures improved == Improves(params, eval, cand, melhor)
    ensures improved ==> candidate' == cand && Less(melhor', melhor)
    ensures !improved ==> candidate' == candidate && melhor' == melhor
  {
    SpaceDecodes(params, start, cand);
    var t := Cost(params, eval, cand);
    if Less(t, melhor) {
      candidate', melhor', improved := cand, t, true;
    } else {
      candidate', melhor', improved := candidate, melhor, false;
    }
  }

  /** The trial that sets position i of the incumbent to a value of its
      categorical parameter. */
  method TryValue(params: seq<Param>, eval: Evaluator, ghost start: seq<Value>,
                  candidate: seq<Value>, melhor: Score, i: int, v: Value)
    returns (candidate': seq<Value>, melhor': Score, improved: bool)
    requires Incumbent(params, eval, start, candidate, melhor) && 0 <= i < |params|
    requires params[i].Categorical? && v in params[i].values
    ensures Incumbent(params, eval, start, candidate', melhor')
    ensures improved == Improves(params, eval, candidate[i := v], melhor)
    ensures improved ==> Less(melhor', melhor)
    ensures improved ==> candidate' == candidate[i := v] && melhor' == Cost(params, eval, candidate[i := v])
    ensures !improved ==> candidate' == candidate && melhor' == melhor
  {
    assert v in Slot(params[i], start[i]);
    SpaceUpdate(params, start, candidate, i, v);
    candidate', melhor', improved := Try(params, eval, start, candidate, melhor, candidate[i := v]);
  }

  /** The categorical trials of position i: cand[i] = val for every val in
      values, in order. */
  method TryValues(params: seq<Param>, eval: Evaluator, ghost start: seq<Value>,
                   candidate: seq<Value>, melhor: Score, i: int)
    returns (candidate': seq<Value>, melhor': Score, improved: bool)
    requires Incumbent(params, eval, start, candidate, melhor) && 0 <= i < |params|
    requires params[i].Categorical?
    ensures Incumbent(params, eval, start, candidate', melhor')
    ensures SameBut(candidate, candidate', i)
    ensures candidate'[i] == candidate[i] || candidate'[i] in params[i].values
    ensures melhor' == melhor || Less(melhor', melhor)
    ensures improved <==> Less(melhor', melhor)
    ensures !improved ==> candidate' == candidate && TrialsFail(params, eval, candidate, melhor, i, 0)
  {
    candidate', melhor', improved := candidate, melhor, false;
    var values := params[i].values;
    for l := 0 to |values|
      invariant Incumbent(params, eval, start, candidate', melhor')
      invariant SameBut(candidate, candidate', i)
      invariant candidate'[i] == candidate[i] || candidate'[i] in values
      invariant melhor' == melhor || Less(melhor', melhor)
      invariant improved <==> Less(melhor', melhor)
      invariant !improved ==> candidate' == candidate
      invariant !improved ==> ValuesFail(params, eval, candidate, melhor, i, l)
    {
      var better;
      candidate', melhor', better := TryValue(params, eval, start, candidate', melhor', i, values[l]);
      if !improved && !better {
        ValuesFailExtend(params, eval, candidate, melhor, i, l);
      }
      improved := improved || better;
    }
  }

  /** The trial that moves int position i of the incumbent by step, down
      or up, clamped to [min, max]. */
  method TryMove(params: seq<Param>, eval: Evaluator, ghost start: seq<Value>,
                 candidate: seq<Value>, melhor: Score, i: int, step: int, up: bool)
    returns (candidate': seq<Value>, melhor': Score, improved: bool)
    requires Incumbent(params, eval, start, candidate, melhor) && 0 <= i < |params|
    requires params[i].IntRange? && start[i].Num?
    ensures |params| <= |candidate| && candidate[i].Num?
    ensures Incumbent(params, eval, start, candidate', melhor')
    ensures improved == Improves(params, eval, Move(params, candidate, i, step, up), melhor)
    ensures improved ==> Less(melhor', melhor)
    ensures improved ==> candidate' == Move(params, candidate, i, step, up)
                         && melhor' == Cost(params, eval, Move(params, candidate, i, step, up))
    ensures !improved ==> candidate' == candidate && melhor' == melhor
  {
    var delta := if up then step else -step;
    SpaceMember(params, start, candidate, i);
    SlotClosed(params[i], start[i], candidate[i], delta);
    var v := Shifted(params[i], candidate[i], delta);
    SpaceUpdate(params, start, candidate, i, v);
    candidate', melhor', improved := Try(params, eval, start, candidate, melhor, candidate[i := v]);
  }

  /** The int trials of position i: cand[i] - step, then cand[i] + step,
      each clamped to [min, max]. */
  method TryMoves(params: seq<Param>, eval: Evaluator, ghost start: seq<Value>,
                  candidate: seq<Value>, melhor: Score, i: int, step: int)
    returns (candidate': seq<Value>, melhor': Score, improved: bool)
    requires Incumbent(params, eval, start, candidate, melhor) && 0 <= i < |params|
    requires params[i].IntRange? && start[i].Num?
    ensures Incumbent(params, eval, start, candidate', melhor')
    ensures SameBut(candidate, candidate', i)
    ensures melhor' == melhor || Less(melhor', melhor)
    ensures improved <==> Less(melhor', melhor)
    ensures !improved ==> candidate' == candidate && TrialsFail(params, eval, candidate, melhor, i, step)
  {
    var c, s, down := TryMove(params, eval, start, candidate, melhor, i, step, false);
    var up;
    candidate', melhor', up := TryMove(params, eval, start, c, s, i, step, true);
    if down && up {
      LessIsStrictTotalOrder(melhor', s, melhor);
    }
    improved := down || up;
  }

  /** The trials of sweep position i: its values for a categorical
      parameter, the two moves for an int one. */
  method TryPosition(params: seq<Param>, eval: Evaluator, ghost start: seq<Value>,
                     candidate: seq<Value>, melhor: Score, i: int, step: int)
    returns (candidate': seq<Value>, melhor': Score, improved: bool)
    requires Incumbent(params, eval, start, candidate, melhor) && 0 <= i < |params|
    ensures Incumbent(params, eval, start, candidate', melhor')
    ensures SameBut(candidate, candidate', i)
    ensures melhor' == melhor || Less(melhor', melhor)
    ensures improved <==> Less(melhor', melhor)
    ensures !improved ==> candidate' == candidate && TrialsFail(params, eval, candidate, melhor, i, step)
  {
    SpaceMember(params, start, candidate, i);
    assert DecodeOne(params[i], start[i]).Ok?;
    if params[i].Categorical? {
      candidate', melhor', improved := TryValues(params, eval, start, candidate, melhor, i);
    } else {
      candidate', melhor', improved := TryMoves(params, eval, start, candidate, melhor, i, step);
    }
  }

  /** One sweep over every parameter with the same step; improved tells
      whether any trial beat the incumbent (melhorou). */
  method Sweep(params: seq<Param>, eval: Evaluator, ghost start: seq<Value>,
               candidate: seq<Value>, melhor: Score, step: int)
    returns (candidate': seq<Value>, melhor': Score, improved: bool)
    requires Incumbent(params, eval, start, candidate, melhor)
    ensures Incumbent(params, eval, start, candidate', melhor')
    ensures melhor' == melhor || Less(melhor', melhor)
    ensures improved <==> Less(melhor', melhor)
    ensures !improved ==> candidate' == candidate
    ensures !improved ==> forall j :: 0 <= j < |params| ==> TrialsFail(params, eval, candidate, melhor, j, step)
  {
    candidate', melhor', improved := candidate, melhor, false;
    for i := 0 to |params|
      invariant Incumbent(params, eval, start, candidate', melhor')
      invariant melhor' == melhor || Less(melhor', melhor)
      invariant improved <==> Less(melhor', melhor)
      invariant !improved ==> candidate' == candidate
      invariant !improved ==> FirstTrialsFail(params, eval, candidate, melhor, i, step)
    {
      var c, s, better := TryPosition(params, eval, start, candidate', melhor', i, step);
      LessIsStrictTotalOrder(s, melhor', melhor);
      if !improved && !better {
        FirstTrialsFailExtend(params, eval, candidate, melhor, i, step);
      }
      candidate', melhor', improved := c, s, improved || better;
    }
  }

  /** The search proper from a start vector that covers every parameter:
      the while loop over the step, from step_initial down. */
  method Descend(params: seq<Param>, eval: Evaluator, start: seq<Value>, stepInitial: int)
    returns (best: seq<Value>, score: Score)
    requires Decode(params, start).Ok? && |params| <= |start|
    ensures Decode(params, best).Ok? && score == Cost(params, eval, best)
    ensures score == Cost(params, eval, start) || Less(score, Cost(params, eval, start))
    ensures score == Cost(params, eval, start) ==> best == start
    ensures |best| == |start|
    ensures forall i :: |params| <= i < |best| ==> best[i] == start[i]
    ensures forall i :: 0 <= i < |params| ==> Reached(params[i], start[i], best[i])
    ensures stepInitial < 1 ==> best == start
    ensures stepInitial >= 1 ==> LocalOptimum(params, eval, best, score)
  {
    ghost var space := Space(params, start);
    assert InSpace(params, start, start);

    var candidate := start;
    var melhor := Cost(params, eval, candidate);
    var step := stepInitial;
    while step >= 1
      invariant step <= stepInitial
      invariant Incumbent(params, eval, start, candidate, melhor)
      invariant melhor == Cost(params, eval, start) || Less(melhor, Cost(params, eval, start))
      invariant melhor == Cost(params, eval, start) ==> candidate == start
      invariant stepInitial < 1 ==> candidate == start
      invariant stepInitial >= 1 && step < 1 ==> LocalOptimum(params, eval, candidate, melhor)
      decreases step, |Better(params, eval, space, melhor)|
    {
      ghost var sweepScore := melhor;
      var melhorou;
      candidate, melhor, melhorou := Sweep(params, eval, start, candidate, melhor, step);
      if !melhorou {
        if step == 1 {
          assert LocalOptimum(params, eval, candidate, melhor);
        }
        step := step / 2;
      } else {
        InSpaceIsSpace(params, start, candidate);
        BetterShrinks(params, eval, space, candidate, sweepScore);
      }
    }

    SpaceReached(params, start, candidate);
    return candidate, melhor;
  }

  /** The first sweep visits every position; position i at or past the end
      of a vector of length n raises IndexError there, unless it is a
      categorical parameter with no values, whose loop never runs. */
  predicate Overruns(params: seq<Param>, n: nat) {
    exists i :: n <= i < |params| && !(params[i].Categorical? && |params[i].values| == 0)
  }

  /** pattern_search(executable, params, initial, step_initial): the best
      vector found and its score, or the exception raised on the way. A
      start vector shorter than the parameters is searched over the
      parameters it covers when no position past its end raises. */
  method Search(params: seq<Param>, eval: Evaluator, initial: Option<seq<Value>>, stepInitial: int)
    returns (r: Result<(seq<Value>, Score)>)
    ensures r.Err? <==>
              Start(params, initial).Err? ||
              (stepInitial >= 1 && Overruns(params, |Start(params, initial).value|))
    ensures r.Err? ==>
              r.error == if Start(params, initial).Err? then Start(params, initial).error else IndexOutOfRange
    ensures r.Ok? ==>
      var start, best, score := Start(params, initial).value, r.value.0, r.value.1;
      var covered := params[..Min(|params|, |start|)];
      && Decode(params, best).Ok?
      && score == Cost(params, eval, best)
      && (score == Cost(params, eval, start) || Less(score, Cost(params, eval, start)))
      && (score == Cost(params, eval, start) ==> best == start)
      && |best| == |start|
      && (forall i :: |covered| <= i < |best| ==> best[i] == start[i])
      && (forall i :: 0 <= i < |covered| ==> Reached(params[i], start[i], best[i]))
      && (stepInitial < 1 ==> best == start)
      && (stepInitial >= 1 ==> LocalOptimum(covered, eval, best, score))
  {
    var st := Start(params, initial);
    if st.Err? {
      return Err(st.error);
    }
    var start := st.value;
    if stepInitial >= 1 && Overruns(params, |start|) {
      return Err(IndexOutOfRange);
    }
    var covered := params[..Min(|params|, |start|)];
    if |start| < |params| {
      DecodePrefix(params, start);
    } else {
      assert covered == params;
    }
    var best, score := Descend(covered, eval, start, stepInitial);
    if |start| < |params| {
      DecodePrefix(params, best);
    }
    return Ok((best, score));
  }
}
