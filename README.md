# Auto-tuning search engine of `tunning/tuning.py`, modelled in Dafny

`tunning/tuning.py` tunes the command-line parameters of an executable.
It minimises the executable's run time with one of three searches:

- **Pattern search.** A coordinate search with a halving step.
- **Genetic algorithm (GA).** Tournament selection, uniform crossover,
  clamped mutation and elitism.
- **Particle swarm optimisation (PSO).** Particles move through a box of
  parameter values and keep personal and global bests.

The three searches share two helpers:

- `decode_candidate` turns an internal vector into argument tokens. It
  rounds and clamps ints, and reads numbers given for a categorical
  parameter as indices.
- `random_value_for_param` draws a value for one parameter.

The project has five modules:

- `Params` (`params.dfy`): parameters, values and Python's `round`. It
  holds the codec (`DecodeOne`, `Decode`) and the random draw of a
  parameter value.
- `Scores` (`scores.dfy`): a score is a time in seconds or `inf`, ordered by
  Python's float `<`. The evaluator is a deterministic function from
  decoded arguments to a score.
- `PatternSearch` (`pattern_search.dfy`): the start vector and the trials. A
  sweep over all parameters is a method with loop invariants. The `while
  step >= 1` loop is proved to terminate: its measure is the step, then the
  number of vectors of a finite space that score below the incumbent.
- `Genetic` (`genetic.dfy`): `random_individual`, the fitness list,
  `tournament_selection`, `crossover`, and `mutate` (in place on an
  array). Also the loop that fills `new_pop` and the generation loop with
  its record of best scores.
- `Swarm` (`swarm.dfy`): `rand_position` and `clamp_position` (in place on
  an array). Also the velocity and position update, the initial
  evaluation, the pbest/gbest update, the iterations and `pso_search`.

Randomness is a parameter `rs: nat -> real` that gives every draw a value
in `[0, 1)`. `random.choice`, `randint`, `randrange` and `uniform` are
derived from one draw each. Each operation reads fixed draw positions,
given in its doc comment. Lemmas such as `RandomValueCovers` and
`MutationCovers` show that every outcome the source can produce is still
reachable.

Errors the source raises are modelled as `Err(e)` results, with `e` naming
the Python exception:

- `ValueError`: an unknown type, an empty `randint` range, or `min()` of
  an empty population.
- `IndexError`: choosing from or indexing an empty list, or indexing past
  the end of a list.
- `TypeError`: rounding a string, or using the `None` that a tournament
  or `gbest` can hold.

Where the code and its prose description differ, the model follows the
code:

- A categorical value that is itself a number is read as an index by
  `decode_candidate`. With values `[16, 32, 64]`, the value `16` decodes
  to `64` (`NumericCategoricalValueReadAsIndex`).
- The `step` field of an int parameter is never read by pattern search.

## Model

| member | source | states |
|---|---|---|
| Params.Clamp | tunning/tuning.py:76 | max(lo, min(hi, x)) lies in [lo, hi] when lo <= hi, is lo otherwise, and is x when x is already in range |
| Params.ClampReal | tunning/tuning.py:270 | max(min, min(max, x)) on floats lies in [min, max] when min <= max, is min otherwise, and is x when x is already in range |
| Params.Round | tunning/tuning.py:75 | round() is within 0.5 of its argument and is the identity on integers |
| Params.DecodeOne | tunning/tuning.py:72-86 | an int token is an integer in [min, max] whenever the range is not empty; a numeric categorical component gives a member of values, or IndexError when values is empty; a non-numeric categorical component passes through unchanged; text for an int parameter raises TypeError; an unknown type raises ValueError |
| Params.DecodeCategoricalIndex | tunning/tuning.py:74-77 | an index in range selects that value; an index below the range selects the first value and one above it the last |
| Params.DecodeIntFixesInRange | tunning/tuning.py:80-84 | an integer already in [min, max] decodes to itself |
| Params.NumericCategoricalValueReadAsIndex | tunning/tuning.py:72-77 | with values [16, 32, 64] the value 16 decodes to 64: numeric values are always indices |
| Params.Decode | tunning/tuning.py:65-87 | succeeds exactly when every zipped pair decodes; then there is one token per pair, in order, each DecodeOne's token; otherwise the error is that of the first pair that fails |
| Params.DecodePrefix | tunning/tuning.py:71 | zip stops at the shorter list: a short vector decodes against the parameters as against the first parameters it covers |
| Params.DecodeUpdate | tunning/tuning.py:65-87 | replacing one component by a value that decodes keeps the vector decodable |
| Params.IndexCovers | tunning/tuning.py:59 | every one of n choices is selected by some draw in [0, 1) |
| Params.RandomValue | tunning/tuning.py:57-63 | a categorical draw is a member of values, or IndexError when values is empty; an int draw is an integer in [min, max], or ValueError when min > max; an unknown type raises ValueError |
| Params.RandomValueCovers | tunning/tuning.py:57-63 | every categorical value and every integer of [min, max] is drawn by some draw |
| Scores.LessIsStrictTotalOrder | tunning/tuning.py:138 | float `<` on times and inf is irreflexive, transitive and total, with inf above every time and inf < inf false |
| Scores.NonIncreasingExtend | tunning/tuning.py:237-239 | appending a score no worse than the last keeps a record of best scores non-increasing |
| PatternSearch.DefaultStart | tunning/tuning.py:113-119 | with no initial vector, each categorical parameter starts at values[0] and each int one at an integer, inside [min, max] whenever min <= max; it fails exactly when some parameter is unusable |
| PatternSearch.Start | tunning/tuning.py:112-126 | a given initial vector is kept as it is and accepted exactly when it decodes; with none, the default vector is used, with one value per parameter, and accepted exactly when every parameter is usable; an accepted start always decodes |
| PatternSearch.DefaultStartDecodes | tunning/tuning.py:113-126 | the default start vector always decodes |
| PatternSearch.SlotClosed | tunning/tuning.py:146 | every clamped int trial from a reachable value lands on a value of the same finite slot, so the search space is finite |
| PatternSearch.SpaceDecodes | tunning/tuning.py:137 | every vector of the search space decodes, so no trial raises |
| PatternSearch.SpaceReached | tunning/tuning.py:135-146 | each component of a reachable vector is its start value, a categorical value, or a number in [min, max] |
| PatternSearch.BetterShrinks | tunning/tuning.py:138-140 | a strict improvement shrinks the set of vectors that beat the incumbent, the second part of the loop's termination measure |
| PatternSearch.Try | tunning/tuning.py:137-140 | a trial replaces the incumbent exactly when it scores strictly less, and then the score is the trial's |
| PatternSearch.TryValue | tunning/tuning.py:135-140 | the trial cand[i] = val improves exactly when that vector scores strictly below the incumbent; then it becomes the incumbent, with its score |
| PatternSearch.TryValues | tunning/tuning.py:133-141 | after all values of a categorical position the score never rose; only position i can change, and it ends at its old value or at one of values; if nothing improved, no value of that position improves on the incumbent |
| PatternSearch.TryMove | tunning/tuning.py:145-150 | the trial cand[i] = max(min, min(max, cand[i] +/- step)) improves exactly when it scores strictly below the incumbent; then it becomes the incumbent, with its score |
| PatternSearch.TryMoves | tunning/tuning.py:143-151 | after the trials -step then +step the score never rose; only position i can change; if nothing improved, neither move improves |
| PatternSearch.TryPosition | tunning/tuning.py:132-151 | a position's trials never raise the score and change no other position; melhorou is set exactly when the score fell; if not, none of the position's trials improves |
| PatternSearch.Sweep | tunning/tuning.py:130-151 | a full sweep never raises the score; melhorou holds exactly when it fell; without improvement every trial of every position fails |
| PatternSearch.Descend | tunning/tuning.py:124-156 | terminates; returns a vector and its evaluator score, no worse than the start's and equal only when the vector is the start; every component is reachable; with step_initial >= 1 the result is a local optimum for step 1, and with step_initial < 1 it is the start |
| PatternSearch.Search | tunning/tuning.py:111-156 | pattern_search: the start's exception, or IndexError when the first sweep reaches a position past the end of a short initial vector; otherwise the properties of Descend over the parameters the vector covers |
| Genetic.IndividualDecodes | tunning/tuning.py:172-175 | an individual of genes always decodes, so fitness never raises |
| Genetic.RandomIndividual | tunning/tuning.py:163-170 | succeeds exactly when every parameter can be sampled, and then yields an individual: one gene per parameter, from its values or an integer in [min, max] |
| Genetic.RandomIndividualFailsAlike | tunning/tuning.py:208 | whether random_individual fails, and with which error, does not depend on the draws |
| Genetic.Fitnesses | tunning/tuning.py:209 | one score per individual; all finite when the evaluator never returns inf |
| Genetic.Picks | tunning/tuning.py:181-182 | the k samples are randrange(len(pop)) of draws n to n + k - 1, in order, each an index into the population |
| Genetic.Leader | tunning/tuning.py:181-185 | after j rounds the held sample is none exactly when every sample so far scored inf; otherwise it is a finite sample no worse than any sample so far and strictly better than every earlier one |
| Genetic.Tournament | tunning/tuning.py:177-186 | a tournament winner is a member of the population |
| Genetic.RoundsFollowLeader | tunning/tuning.py:179-185 | after j rounds the held sample and best_score are the Leader of the first j samples and its score, or (None, inf) while every sample so far scored inf |
| Genetic.TournamentPicksBest | tunning/tuning.py:177-186 | the winner is None exactly when every sampled score is inf; otherwise it is the individual of a sample that Wins: finite, no worse than any sample, strictly better than every earlier one |
| Genetic.TournamentSelection | tunning/tuning.py:177-186 | the k rounds of randrange return exactly the Tournament winner |
| Genetic.Crossover | tunning/tuning.py:188-194 | lengths kept; at each parameter position the children hold the parents' two genes, kept or swapped; other positions kept |
| Genetic.CrossoverInvolution | tunning/tuning.py:188-194 | crossing the children again with the same draws gives back the parents |
| Genetic.SwapsKeepValues | tunning/tuning.py:191-193 | position-wise keeping or swapping preserves the multiset of the two sequences' values |
| Genetic.CrossoverKeepsGenes | tunning/tuning.py:188-194 | the children hold exactly the parents' genes between them (multiset) |
| Genetic.CrossoverKeepsIndividuals | tunning/tuning.py:188-194 | crossover of two individuals gives two individuals |
| Genetic.Span | tunning/tuning.py:203 | the mutation half-width max(1, (max - min) // 4) is at least 1 and, past 1, at most max - min |
| Genetic.MutatedGene | tunning/tuning.py:197-205 | a mutated gene is still a gene (an int one stays in [min, max]); it is unchanged unless its draw is below the rate; an int gene moves by at most the span |
| Genetic.MutationCovers | tunning/tuning.py:199-205 | every categorical value, and every integer in [min, max] within the span, is a possible mutation |
| Genetic.Mutate | tunning/tuning.py:196-205 | in place: each gene becomes its MutatedGene, and the individual stays an individual |
| Genetic.Mutated | tunning/tuning.py:196-205 | mutating an individual gene by gene gives an individual |
| Genetic.MutateCopy | tunning/tuning.py:227-228 | mutating a fresh copy of an individual gives exactly its Mutated genes |
| Scores.FirstLowest | tunning/tuning.py:211 | the index min() returns is Lowest: its score is no worse than any and strictly below every earlier one |
| Genetic.ArgMin | tunning/tuning.py:211 | the scan over range(len(scores)) returns exactly FirstLowest |
| Genetic.Crossed | tunning/tuning.py:223-226 | ensures: after the crossover step both parents are still individuals, and None exactly where they were None. Defines: the TypeError of swapping a position of None |
| Genetic.Appended | tunning/tuning.py:227-231 | ensures: two children are appended, or one without room, and all are individuals; TypeError exactly when c1 is None, or c2 is None and is appended or has a gene mutated |
| Genetic.Children | tunning/tuning.py:220-231 | one pass appends two individuals, or one without room; the only error is TypeError |
| Genetic.Mated | tunning/tuning.py:223-231 | the crossover and mutations of a pass give two individuals, or one without room; they fail only with TypeError, and only when a tournament winner is None |
| Genetic.ChildrenFailOnlyOnInf | tunning/tuning.py:177-186 | a pass raises only when one of its tournaments sampled nothing but inf |
| Genetic.Offspring | tunning/tuning.py:221-231 | one pass of the new_pop loop gives exactly Children |
| Genetic.Mate | tunning/tuning.py:223-231 | the crossover step, the mutations and the appends give exactly Mated |
| Genetic.MutateChildren | tunning/tuning.py:227-231 | mutating and appending the two children gives exactly Appended |
| Genetic.Bred | tunning/tuning.py:220-231 | the while loop ends with max(pop_size, len(new_pop)) individuals and keeps the members new_pop already had as its prefix; the only error is TypeError |
| Genetic.BredSucceeds | tunning/tuning.py:220-231 | with k > 0 and no inf score, the breeding loop never raises |
| Genetic.BredStep | tunning/tuning.py:220-231 | one successful pass keeps new_pop a population and continues the same run of the loop |
| Genetic.Pass | tunning/tuning.py:220-231 | one pass appends at least one individual, after which the loop runs on exactly as before it, or raises the TypeError that ends the loop |
| Genetic.Breed | tunning/tuning.py:217-231 | the loop from [best] fails exactly when Bred fails, with its error, and otherwise returns Bred's new_pop and next draw |
| Genetic.LowestOfPopulation | tunning/tuning.py:234-236 | the score ArgMin picks bounds every individual of the population |
| Genetic.AllAtLeastJoin | tunning/tuning.py:236-239 | keeping the lower of two bounds bounds every individual evaluated so far |
| Genetic.ScoredExtends | tunning/tuning.py:236-239 | each generation's elite decodes and holds that generation's best score |
| Genetic.LinkedExtends | tunning/tuning.py:219 | each population after the first starts with the previous generation's elite |
| Genetic.HistoryExtends | tunning/tuning.py:216-239 | a generation that starts with the last elite and keeps a score no worse extends the record |
| Genetic.InitialPopulation | tunning/tuning.py:208 | random_individual's error exactly when pop_size > 0 and the first draw fails; otherwise pop_size individuals, individual j being the random_individual drawn from draw j * len(params) |
| Genetic.TraceExtends | tunning/tuning.py:216-239 | a generation that is a Step of the last one extends the Trace |
| Genetic.RecordStarts | tunning/tuning.py:207-213 | generation 0 alone is a Record |
| Genetic.RecordExtends | tunning/tuning.py:216-239 | a Step that starts with the last best, keeps a best score no worse and bounds its population extends the Record: Trace, non-increasing best scores, evaluated list, bound on everything evaluated |
| Genetic.FirstGeneration | tunning/tuning.py:207-213 | ValueError of min() for pop_size 0; random_individual's error; otherwise Founded: the population drawn from the first draws, best its first lowest-scoring individual with that score, which bounds the population |
| Genetic.Generation | tunning/tuning.py:216-239 | TypeError exactly when the breeding loop Fails; otherwise a Step: new_pop is Bred from the population and best, and best is replaced by new_pop's first lowest-scoring individual exactly when its score is strictly lower; so new_pop has pop_size individuals and starts with the old best, the best score never rises, and the new best is the old one or a strictly better member of new_pop; never fails with k > 0 and an evaluator that never gives inf |
| Genetic.Advance | tunning/tuning.py:216-239 | one pass of the generation loop extends the Record by one generation, or raises TypeError where the current generation Fails |
| Genetic.Evolve | tunning/tuning.py:216-245 | from generation 0, a Record of generations + 1 generations whose last elite and best score are returned, a decodable individual of the last population that bounds everything evaluated; or TypeError, with the last recorded generation the one that Fails |
| Genetic.Search | tunning/tuning.py:161-245 | ga_search: ValueError for pop_size 0; random_individual's error; otherwise generation 0 is Founded on the first draws and every later generation is a Step of the one before (the Record); the result is the last generation's best and its score, no worse than any individual evaluated, and evaluated lists every population in order; the only other error is TypeError, where a generation Fails; never fails with samplable parameters, k > 0 and an evaluator that never gives inf |
| Swarm.PositionDecodes | tunning/tuning.py:307 | every position decodes when every parameter is usable |
| Swarm.Scale | tunning/tuning.py:262 | a draw in [0, 1) scales d to a number between 0 and d |
| Swarm.Uniform | tunning/tuning.py:262 | random.uniform(a, b) lies between a and b, whichever is larger |
| Swarm.RandCoordinate | tunning/tuning.py:258-262 | a categorical coordinate is an integer index below len(values), or ValueError when values is empty; an int coordinate lies between min and max |
| Swarm.RandPosition | tunning/tuning.py:256-263 | rand_position succeeds exactly when every parameter is usable, with one coordinate per parameter |
| Swarm.ClampedCoordinate | tunning/tuning.py:266-270 | a clamped coordinate is in its box (an integer index in [0, len(values) - 1], or a number in [min, max]), and a coordinate already in the box is unchanged |
| Swarm.ClampedPosition | tunning/tuning.py:265-271 | clamp_position puts every coordinate in its box |
| Swarm.ClampFixesBox | tunning/tuning.py:265-271 | clamping a position already in the box leaves it unchanged |
| Swarm.ClampIdempotent | tunning/tuning.py:265-271 | clamping twice is clamping once |
| Swarm.ClampKeepsToken | tunning/tuning.py:266-270 | clamping a coordinate does not change the token decode_candidate makes of it |
| Swarm.ClampKeepsDecode | tunning/tuning.py:265-271 | clamping a position does not change its decoded arguments |
| Swarm.ClampKeepsCost | tunning/tuning.py:304-308 | clamping a position does not change its score |
| Swarm.ClampPosition | tunning/tuning.py:265-271 | in place: the array becomes ClampedPosition of its old contents |
| Swarm.MoveParticle | tunning/tuning.py:294-304 | the new velocities are w*v + c1*r1*(pbest - x) + c2*r2*(gbest - x), coordinate by coordinate, and the new position is x + v clamped into the box |
| Swarm.InitialParticles | tunning/tuning.py:274 | pop_size particles from rand_position, or its error |
| Swarm.LeadExtend | tunning/tuning.py:311-318 | scoring one more position promotes it against the global best so far, taking over only on a strictly lower score |
| Swarm.LeadIsFirstLowest | tunning/tuning.py:283-288 | the scan with strict < from (None, inf) leaves as global best the first position of lowest score (Scores.FirstLowest of the scores), and None while that score is inf |
| Swarm.ScoreParticles | tunning/tuning.py:282-288 | each pbest score is its particle's score and bounded by gbest_score; gbest is None exactly when its score is inf, otherwise a particle with that score; (gbest, gbest_score) is the Lead of the particles in order |
| Swarm.EvaluateInitial | tunning/tuning.py:275-288 | each personal best is its particle with its score and every velocity is zero; gbest is None exactly when every score is inf; (gbest, gbest_score) is the Lead of the particles in order, so gbest is the first particle of lowest score (strict <: a later tie never takes over) |
| Swarm.Initialize | tunning/tuning.py:273-288 | the initialisation fails exactly when a parameter is unusable, with ValueError; otherwise it gives the Initial swarm, whose gbest_score bounds every particle's score |
| Swarm.RecordScore | tunning/tuning.py:311-318 | a personal best changes exactly on a strict improvement and then holds the particle and its score; the global best changes exactly when the score is strictly below gbest_score, which stays no worse than every pbest score; no score rises |
| Swarm.UpdateParticle | tunning/tuning.py:292-318 | one particle's turn: its velocity becomes w*v + c1*r1*(pbest - x) + c2*r2*(gbest - x) with its draws, its position x + v clamped, and no other particle or velocity changes; its personal best, and the global best, are replaced by the new position exactly when it scores strictly lower (Promote), no other personal best changes; the swarm stays valid, no score rises, the moved particle is in its box and scores no better than the global best |
| Swarm.Turn | tunning/tuning.py:292-318 | particle i's turn extends the Progress of an iteration by one particle: the swarm stays valid, no score rises, the moved particle is listed, in its box and bounded below by gbest_score, it moved as Moved says, and its personal best and the global best were promoted by its position |
| Swarm.AdvancedExtends | tunning/tuning.py:292-318 | a turn that moves particle i into its box, lowers no best and keeps the global best or hands it to i keeps the swarm valid and every scored position bounded |
| Swarm.PromotedExtends | tunning/tuning.py:311-318 | a turn that promotes particle i's personal best and the global best by its new position keeps every personal best, and the global best, the strict-< promotion by the positions scored so far |
| Swarm.MovedKept | tunning/tuning.py:292-304 | a later turn does not change how an earlier particle moved |
| Swarm.MovedNow | tunning/tuning.py:294-304 | turn i, taken from the state the earlier turns left, moves particle i by the update rule with the global best those turns left and its own draws |
| Swarm.FollowedExtends | tunning/tuning.py:292-304 | a turn that moves particle i by the update rule, with its draws and the global best so far, extends the record of how each particle moved |
| Swarm.Iterate | tunning/tuning.py:292-318 | one iteration: TypeError exactly when gbest is None, with particles and parameters; otherwise an Iteration: particle j moved by the update rule with its own draws, towards its personal best and the global best the particles before it left, and was clamped; each personal best was promoted by its new position exactly on a strictly lower score, and the global best by the new positions in order; the invariant is kept, no score rises, and every moved particle is in its box and bounded below by gbest_score |
| Swarm.IterationsExtend | tunning/tuning.py:291-318 | a state that follows the last one by an Iteration reading the next pass of draws extends the record of iterations |
| Swarm.AllAtLeastExtend | tunning/tuning.py:316-318 | lowering the bound keeps every scored position bounded |
| Swarm.AllAtLeastJoin | tunning/tuning.py:291-318 | a lower bound after an iteration bounds every position scored before it too |
| Swarm.RecordExtends | tunning/tuning.py:291-318 | an Iteration from the last state, reading the next pass of draws, extends the record of a run: the iterations, the positions scored, the non-increasing global best scores and their bound on every scored position |
| Swarm.Run | tunning/tuning.py:291-322 | the iterations: TypeError exactly when there is an iteration, gbest starts None, and there are parameters; the recorded states start at the initial swarm and each follows the one before by an Iteration that read the next pass of draws and scored the matching moved positions, all of them listed in evaluated; on success the last state is the result, the invariant holds, gbest_score never rises, and it bounds every position scored |
| Swarm.Search | tunning/tuning.py:250-324 | pso_search: (None, inf) for pop_size 0; rand_position's error; TypeError exactly when iterating with parameters while every initial score is inf; otherwise gbest is None exactly when its score is inf; a gbest is a scored position whose score it is; the score is no worse than any position scored; the record of best scores is non-increasing; the recorded states start with the Initial swarm drawn and scored from the first draws, whose gbest is the first particle of lowest score; each later one follows by an Iteration reading the draws after those, the result is the last state's gbest and score, and evaluated lists the initial particles and then every moved position |

## Left out

- `avaliar_exec` runs a subprocess and times it, with an optional
  timeout. It is an abstract deterministic evaluator from decoded
  arguments to a time or `inf`. Wall-clock time, timeouts and repeated runs
  giving different times are not modelled.
- Tokens are kept as values. The `str()` rendering of a token and Python's
  int/float distinction are not modelled. Floats are real numbers, with no
  rounding error and no NaN.
- `random` is replaced by the draw sequence `rs`, read at fixed positions
  per operation. The source consumes draws only as it needs them, so its
  exact sequence of draws is not reproduced. Only the reachable outcomes
  are kept. Seeding in `main` is out.
- `load_config`, `main`/argparse and every `print` are not part of this
  model. Neither is the repository's other code
  (`tunning/configurator.py`, `Rafael/calculos.py`).
- The `name` and `step` fields of a parameter are not modelled. The core
  never reads them.
- A parameter of unknown type is `Unknown`. pattern_search's default
  vector, ga_search's `random_individual` and PSO's `rand_position` treat
  it like an int parameter and read its `min` and `max`. They raise
  `KeyError` when those are missing. If they are present, the source goes
  on to the next parameter, and the search later fails in
  `decode_candidate` with `ValueError`.
- Genetic.RandomIndividual, PatternSearch.DefaultStart, Swarm.RandPosition:
  the model reports `UnknownType` (`ValueError`) at the first parameter of
  unknown type. The source's exception can differ from this. One case is
  a `KeyError` for missing `min`/`max`. Another is a later parameter that
  fails first. For `[{"type": "float", "min": 0, "max": 1},
  {"type": "categorical", "values": []}]` the source raises `IndexError`
  at the empty categorical (tuning.py:167 in the GA, tuning.py:117 in
  pattern search), where the model reports `UnknownType`.
- PatternSearch.Descend: `step_initial` is an integer. The source also
  accepts a float: 2.5 tries moves of +/- 2.5, then `//` gives 1.0.
  Float steps are not modelled.
- `avaliar_exec` catches only `TimeoutExpired`. A launch failure, such
  as a missing executable, raises out of every search. The model's
  evaluator always returns a score. No search passes a timeout, so as
  written `inf` never arises. The model keeps `inf` as a possible score
  because `avaliar_exec` can return it.
- PatternSearch.Search: a position past the end of a short initial vector
  raises `IndexError` in the source, or `KeyError` for an unknown type
  without `min`. The model reports IndexOutOfRange for both.
- Genetic.TournamentSelection: requires a non-empty population when
  k > 0, because `randrange(0)` raises `ValueError`. ga_search only calls
  it on populations of pop_size >= 1.
- Genetic.Offspring: with a `None` parent, the source may raise its
  `TypeError` later, in mutate or in fitness. The model raises it when the
  pass ends. The same exception is raised either way.
- Python's `deepcopy` and list aliasing become value semantics. The
  in-place updates of `mutate` and `clamp_position`, and the coordinate
  loop of the velocity and position update, work on arrays. Every other
  list is a value.
