# NSGA-II cloud task scheduler, modelled in Dafny

The scheduler assigns each cloud task to one virtual machine. A candidate
assignment is an `Individual`: a schedule, which is a list of VM indices
with one gene per task. The NSGA-II optimiser improves a population of
candidates against three minimised objectives:

- makespan, the largest total task length on any VM;
- total cost, the sum of VM price times task length;
- load balance, the standard deviation of each VM's requested-to-capacity ratio.

Each generation runs as follows:

1. Binary tournaments choose parents.
2. Single-point crossover combines two parents, and per-gene mutation changes the children.
3. The children are evaluated.
4. Parents and offspring are sorted together into Pareto fronts, and each front gets crowding distances.
5. Whole fronts are kept while they fit. The front that does not fit is cut by decreasing crowding distance.

The modules follow the source:

| module | file | part of the source |
|---|---|---|
| `Models` | models.dfy | the `Task` and `VM` records, the objective triple, the crowding distance (a real or infinity), and the mutable `Individual` class |
| `Evaluation` | evaluation.dfy | `evaluate_individual` |
| `Dominance` | dominance.dfy | `dominates` |
| `NonDominatedSort` | ndsort.dfy | the fast non-dominated sort over any strict partial order, on indices |
| `Ordering` | ordering.dfy | a stable sort of positions by a key; it stands in for Python's `list.sort` |
| `Crowding` | crowding.dfy | `crowding_distance_assignment` |
| `Operators` | operators.dfy | tournament selection, crossover, mutation and the initial population |
| `Offspring` | offspring.dfy | the offspring loop of one generation |
| `Selection` | selection.dfy | the survivor loop over the fronts |
| `Nsga2` | nsga2.dfy | the sort on individuals, `extract_pareto_front`, one generation, and `nsga2` |

Individuals are objects whose fields the operations update in place:

- the evaluation writes `objs`;
- the sort writes `rank`;
- the crowding pass writes `crowding`;
- mutation rewrites `schedule`.

Every such method names the fields it changes in `modifies`. Its contract relates the new state to a specification function of the old one:

- `Evaluation` for the objectives;
- `Ranked` and `Partition` for the fronts;
- `Order` and `Dist` for the crowding pass;
- `Brood` and `Plan` for the offspring;
- `NewPopulation` for the survivors.

Lemmas then state what the source promises about those functions.

Random draws are parameters:

- `random.sample(population, 2)` gives two different positions;
- `random.random()` gives a real;
- `random.randint` gives an integer in its range.

One pass of the offspring loop consumes one `PairDraws` record. `nsga2` takes the initial schedules and one list of records per generation. `np.std` is a parameter `std: seq<real> -> real`.

## Model

| member | source | states |
|---|---|---|
| Models.Individual.constructor | src/scheduler/models.py:27-31 | the new candidate holds the given schedule, no objectives, no rank and crowding distance 0.0 |
| Models.Individual.Copy | src/scheduler/models.py:33-38 | a fresh object with the same schedule, objectives, rank and crowding distance; the original is not changed |
| Models.MaxOfIsMaximum | src/scheduler/nsga2.py:19 | `max` of a non-empty list is at least every element and is one of them |
| Models.MinOfIsMinimum | src/scheduler/nsga2.py:85 | `min` of a non-empty list is at most every element and is one of them |
| Evaluation.EvaluateSchedule | src/scheduler/nsga2.py:6-25 | the accumulation loops over the schedule and over the VMs return the objective triple `Evaluation` specifies |
| Evaluation.EvaluateIndividual | src/scheduler/nsga2.py:6-26 | the candidate's objectives become the evaluation of its schedule; only `objs` changes |
| Evaluation.MakespanIsMaximumLoad | src/scheduler/nsga2.py:13-19 | the makespan bounds every VM's total task length and equals one of them |
| Evaluation.CostsSumToTaskCost | src/scheduler/nsga2.py:17-20 | the per-VM costs add up to the sum of price times length over all tasks |
| Evaluation.IdleVmHasNoLoad | src/scheduler/nsga2.py:9-16 | a VM that no gene names has load 0 |
| Evaluation.ZeroCapacityHasZeroRatio | src/scheduler/nsga2.py:23 | a VM with capacity at most 0 has ratio 0 instead of a division |
| Evaluation.SumOfBump | src/scheduler/nsga2.py:16-17 | adding c to one accumulator adds c to the sum |
| Evaluation.ExampleEvaluation | tests/test_nsga2.py:12-25 | for the test's two tasks and two VMs with schedule [0, 1]: makespan 200, cost 1.9, ratios 1/36 and 1/36 |
| Dominance.DominatesFromMeaning | src/scheduler/nsga2.py:30-38 | the early-exit loop is true exactly when no remaining objective is worse and, counting the flag carried in, one is better |
| Dominance.DominatesIff | src/scheduler/nsga2.py:28-38 | `dominates` is Pareto dominance: no worse in every objective and better in one |
| Dominance.DominatesIrreflexive | src/scheduler/nsga2.py:28-38 | no triple dominates itself |
| Dominance.DominatesAsymmetric | src/scheduler/nsga2.py:28-38 | dominance never holds both ways |
| Dominance.DominatesTransitive | src/scheduler/nsga2.py:28-38 | dominance is transitive |
| NonDominatedSort.Compare | src/scheduler/nsga2.py:46-54 | the inner loop for p yields the list of entries p dominates, in order, and the count of entries dominating p, skipping p itself |
| NonDominatedSort.Tabulate | src/scheduler/nsga2.py:45-57 | after the first loop the tables hold every entry's dominated list and dominator count, and the entries with count 0 form the first front, with rank 0 |
| NonDominatedSort.Release | src/scheduler/nsga2.py:61-66 | releasing p decrements the counts of the entries it dominates and appends each that reaches 0 to the next front, with the next rank; the loop invariant is kept |
| NonDominatedSort.Decrement | src/scheduler/nsga2.py:62-66 | the loop over the entries p dominates keeps the release invariant from the first entry to the last |
| NonDominatedSort.DecrementEntry | src/scheduler/nsga2.py:63-66 | one entry loses a pending dominator and, when none is left, is ranked one above the current front and appended to the next front |
| NonDominatedSort.Sort | src/scheduler/nsga2.py:40-70 | the fronts are non-empty, repeat nothing, cover every index once and match the ranks; a dominator has a lower rank; every entry of rank k > 0 is dominated by one of rank k - 1; rank 0 holds exactly the undominated entries |
| Nsga2.DominanceOrder | src/scheduler/nsga2.py:28-38 | dominance is a strict partial order on any list of triples, which is what the sort needs |
| Nsga2.FastNonDominatedSort | src/scheduler/nsga2.py:40-70 | on individuals: the fronts are the Pareto layers of their objectives, each individual's rank is its front index, and only ranks change |
| Nsga2.WriteRanks | src/scheduler/nsga2.py:56-64 | every individual's rank field becomes its computed front index; nothing else changes |
| Nsga2.FirstFrontUndominated | src/scheduler/nsga2.py:55-57 | in a non-empty list, front 0 holds exactly the indices that no member Pareto-dominates |
| Nsga2.ExtractParetoFront | src/scheduler/nsga2.py:160-163 | every member's rank becomes its Pareto layer, as the sort writes it; the result is non-empty, has no repeats, holds members with rank 0 only, and holds a member exactly when nothing in the population dominates it |
| Nsga2.ArrangedMembers | src/scheduler/nsga2.py:57 | a front built from distinct positions holds a member exactly when its position is listed |
| Ordering.StableOrderCorrect | src/scheduler/nsga2.py:81 | the sort of positions by a total preorder is a permutation, ordered by key, with equal keys kept in input order (Python's sort is stable) |
| Crowding.CrowdingDistanceAssignment | src/scheduler/nsga2.py:72-90 | after the three passes the list is in the order of the last sort and each member holds the distance `Dist` specifies; only crowding changes |
| Crowding.ResetDistances | src/scheduler/nsga2.py:77-78 | every member of the front starts with distance 0 |
| Crowding.AllPasses | src/scheduler/nsga2.py:79-90 | the loop over the objectives takes the state before any pass to the state after all three |
| Crowding.SortAndAdd | src/scheduler/nsga2.py:80-90 | one pass per objective takes the state after m passes to the state after m + 1 |
| Crowding.AddObjective | src/scheduler/nsga2.py:82-90 | after the sort: both ends become infinite; a constant objective adds nothing; every inner member adds its neighbours' gap over the range |
| Crowding.AddGaps | src/scheduler/nsga2.py:89-90 | the inner members add their neighbours' gap over the range and the two ends keep their distance |
| Crowding.OrderPermutation | src/scheduler/nsga2.py:81 | every composite order of the front is a permutation of its positions |
| Crowding.OrderSorted | src/scheduler/nsga2.py:81 | the pass for objective m lists the front by non-decreasing objective m, and equal values keep the order of the previous pass |
| Crowding.DistEndsInfinite | src/scheduler/nsga2.py:82-83 | the first and last member of each sort get an infinite distance |
| Crowding.ExtremesInfinite | src/scheduler/nsga2.py:82-83 | those extreme members are still infinite after all passes |
| Crowding.InfStaysInf | src/scheduler/nsga2.py:82-90 | a distance that is infinite after some pass stays infinite after every later pass, since adding to inf gives inf |
| Crowding.ExtremesHoldMinMax | src/scheduler/nsga2.py:81-86 | the first member of a sort holds the objective's minimum and the last holds its maximum |
| Crowding.ContributionBounds | src/scheduler/nsga2.py:87-90 | when the range is not zero, an inner member's share lies in [0, 1] |
| Crowding.DistBounds | src/scheduler/nsga2.py:77-90 | every distance is infinite or a finite value in [0, m] after m passes |
| Crowding.SmallFrontInfinite | src/scheduler/nsga2.py:82-83 | in a front of one or two members every distance is infinite |
| Operators.KeyLessStrict | src/scheduler/nsga2.py:95 | the key `(rank, -crowding)` is a strict order |
| Operators.KeyLessMeaning | src/scheduler/nsga2.py:95 | a lower rank wins; with equal ranks the larger crowding distance wins |
| Operators.PickWins | src/scheduler/nsga2.py:94-96 | the winner is one of the two candidates and neither has a smaller key |
| Operators.TournamentSelection | src/scheduler/nsga2.py:92-96 | the winner is a candidate whose key is not beaten; the second candidate wins only with a strictly smaller key |
| Operators.RecombineGenes | src/scheduler/nsga2.py:104-105 | for parents of equal length, gene t of the child comes from the first parent before the cut and from the second from the cut on |
| Operators.RecombineSwaps | src/scheduler/nsga2.py:104-105 | the two children hold the parents' genes between them, as a multiset |
| Operators.RecombineInRange | src/scheduler/nsga2.py:104-105 | children of parents with valid VM indices have valid VM indices |
| Operators.Crossover | src/scheduler/nsga2.py:98-106 | two fresh, different children: recombined at the cut when the draw is below the probability, otherwise the parents' schedules; annotations copied; the parents are not changed |
| Operators.MutatedGenes | src/scheduler/nsga2.py:110-112 | genes whose draw is not below the probability are kept; valid VM indices stay valid |
| Operators.NoDrawNoChange | src/scheduler/nsga2.py:110-112 | when no draw falls below the probability the schedule is unchanged |
| Operators.Mutation | src/scheduler/nsga2.py:108-113 | the same individual is returned, with its schedule replaced gene by gene where the draw is below the probability |
| Operators.CreateInitialPopulation | src/scheduler/nsga2.py:115-122 | `popSize` fresh, distinct individuals with the drawn schedules and no annotations |
| Offspring.CrossedGenes | src/scheduler/nsga2.py:102-105 | crossover keeps the schedule length and the VM range |
| Offspring.ChildrenGenes | src/scheduler/nsga2.py:135-139 | a child's unmutated gene comes from the first winner before the cut and from the second from the cut on (from its own winner without crossover); without any mutation the two children hold exactly the winners' genes |
| Offspring.Brood | src/scheduler/nsga2.py:133-144 | the first p passes yield 2p schedules, each with one valid VM index per task |
| Offspring.BroodAt | src/scheduler/nsga2.py:142-144 | pass p contributes children 2p and 2p + 1, in that order |
| Offspring.Mate | src/scheduler/nsga2.py:135-137 | the two tournaments and the crossover yield fresh copies of the winners, recombined as the draw says |
| Offspring.Breed | src/scheduler/nsga2.py:135-141 | one pass yields two fresh children holding the pass's schedules and their evaluations |
| Offspring.PlanExists | src/scheduler/nsga2.py:133-144 | some lists of schedules and scores follow every pass |
| Offspring.PlanIsBrood | src/scheduler/nsga2.py:133-144 | the planned schedules are the brood of all passes |
| Offspring.PlanAt | src/scheduler/nsga2.py:142-144 | entry q of the planned schedules is entry q of the brood |
| Offspring.PlanScores | src/scheduler/nsga2.py:140-141 | the planned scores are the evaluations of the planned schedules |
| Offspring.PassOfPlan | src/scheduler/nsga2.py:135-144 | the plan lists, for pass p, the brood's two children and their evaluations |
| Offspring.BreedPass | src/scheduler/nsga2.py:135-141 | pass p yields two fresh children with the planned schedules and scores |
| Offspring.MakeOffspring | src/scheduler/nsga2.py:133-144 | from (popSize + 1) / 2 passes, exactly `popSize` fresh, distinct children, the first `popSize` of the brood, each evaluated; the second child of the last pass is dropped when popSize is odd |
| Selection.SelectSurvivors | src/scheduler/nsga2.py:147-156 | every front up to the cut gets its crowding pass; the new population is `NewPopulation` of the fronts; later fronts are not touched |
| Selection.CrowdFront | src/scheduler/nsga2.py:149 | the crowding pass on front k lists it in crowding order with the specified distances and keeps the distances of the other fronts |
| Selection.PassOn | src/scheduler/nsga2.py:149 | the pass on front k changes no member of any other front |
| Selection.TruncationSorted | src/scheduler/nsga2.py:153 | the truncation sort permutes the front and lists it by non-increasing distance, with ties kept in order |
| Selection.NewPopulationSize | src/scheduler/nsga2.py:147-156 | the new population has `popSize` members, or all of them when the fronts hold fewer |
| Selection.NewPopulationDistinct | src/scheduler/nsga2.py:147-156 | the new population repeats nobody |
| Selection.NewPopulationMembers | src/scheduler/nsga2.py:147-156 | every survivor is a member of the fronts |
| Selection.FillMembers | src/scheduler/nsga2.py:148-156 | a member survives exactly when it is in a front before the cut, or in the head of the cut front's truncation order |
| Selection.FillLength | src/scheduler/nsga2.py:150-155 | the loop fills up to `popSize` members or takes all of them |
| Selection.FillDistinct | src/scheduler/nsga2.py:150-155 | filling from separate fronts repeats nobody |
| Selection.DistinctConcat | src/scheduler/nsga2.py:145 | two lists without repeats and without common members concatenate without repeats |
| Selection.FrontOfMember | src/scheduler/nsga2.py:148-156 | a member of front k survives exactly when k is before the cut, or k is the cut and the member is in the head of the truncation order |
| Selection.Elitism | src/scheduler/nsga2.py:148-156 | when a member of front j survives, every member of every earlier front survives |
| Selection.CrowdingPreference | src/scheduler/nsga2.py:152-155 | in the cut front, every survivor's distance is at least the distance of every member left out |
| Nsga2.Vary | src/scheduler/nsga2.py:133-145 | the combined list is the population followed by `popSize` fresh offspring: the planned schedules, each scored; no member repeats |
| Nsga2.RankCombined | src/scheduler/nsga2.py:146 | the combined list is split into Pareto layers and each member's rank is its layer |
| Nsga2.SelectNext | src/scheduler/nsga2.py:147-156 | `Selected`: the survivors are `NewPopulation` of the fronts, fronts up to the cut hold `Dist` and later fronts keep their distances; the survivors are distinct, at most `popSize`, each scored and ranked |
| Nsga2.Survive | src/scheduler/nsga2.py:146-157 | the next population is `NewPopulation` of the Pareto layers of the combined list, of size min(combined, popSize), without repeats, drawn from the combined list; fronts up to the cut hold `Dist` |
| Nsga2.LiftPartition | src/scheduler/nsga2.py:146 | fronts of individuals built from index fronts are separate, have the fronts' shape and hold every member once |
| Nsga2.LiftScored | src/scheduler/nsga2.py:146 | the fronts hold only scored members when the list does |
| Nsga2.LiftLayered | src/scheduler/nsga2.py:146 | every member of front k has rank k |
| Nsga2.MembersScored | src/scheduler/nsga2.py:155-157 | survivors taken from scored, layered fronts are scored and ranked |
| Nsga2.Generation | src/scheduler/nsga2.py:133-157 | a generation yields `popSize` distinct members, each scored and ranked, each from the old population or newly made |
| Nsga2.Nsga2 | src/scheduler/nsga2.py:124-158 | `popSize` distinct, scored individuals; with no generation they are the evaluated initial schedules with no rank; after a generation every member is ranked |
| Nsga2.RanksUniform | src/scheduler/nsga2.py:95 | a population whose ranks are all missing or all present has comparable tournament keys |

## Left out

- Floating point: objectives and crowding distances are exact reals. Rounding in the sums and divisions is not modelled, so `ExampleEvaluation` gives the exact cost 1.9.
- `np.std` is the parameter `std`. No property of the load-balance value beyond its input `Ratios` is stated.
- Randomness: every random draw is a parameter. `ValidPair` states the ranges the draws can take; the distribution is not modelled.
- The progress `print` every tenth generation is output only and is not modelled.
- cli.py, visualization.py and setup.py are not part of this model.
- Individuals are a Dafny class and lists are sequences of references. The source's dictionaries `S` and `n`, keyed by object identity, become tables indexed by position.
- Members are required to be distinct objects. The source never lists one object twice.
- Nsga2.FastNonDominatedSort: the ranks are written after the index sort has finished, not inside its loops. The final state is the same.
- The sort is generic over any irreflexive, transitive relation. `DominanceOrder` shows that `dominates` is one.
- Python's Timsort is modelled by a stable insertion sort of positions (`Ordering.StableOrder`). Both produce the one stable order.
- In-place list sorts are modelled as the rearranged sequence, which callers then use.
- Models.Individual.Copy copies objectives, rank and crowding distance, as src/scheduler/models.py:35-37 does. Children keep their parents' annotations until they are evaluated and sorted again.
- Copied schedules are values, so the aliasing of `self.schedule.copy()` cannot arise and is not modelled.
- Evaluation.EvaluateIndividual requires `|schedule| <= |tasks|` and every gene in `[0, |vms|)`. Python lets a gene in `[-|vms|, -1]` index from the end of the VM list; the model excludes such genes, and the source never produces them, since genes come from `random.randint(0, num_vms - 1)` and from crossover and mutation of such genes. A gene of at least `|vms|` or below `-|vms|`, or more genes than tasks, raises IndexError in the source.
- Evaluation requires at least one VM: the source's `max` of an empty list raises ValueError.
- Operators.TournamentSelection requires both ranks missing or both present. Python's tuple comparison raises TypeError on `None < int`. `RanksUniform` shows that the populations of the generation loop meet this.
- Offspring.ValidPair requires two different positions for each tournament, so a population of one cannot run a generation. `random.sample` raises ValueError there.
- Offspring.ValidPair requires a cut point in [1, length - 1] only when crossover happens. For a one-gene schedule, `randint(1, 0)` raises ValueError.
- Nsga2.ExtractParetoFront requires a non-empty population. The source indexes an empty list of fronts.
- The second child of the last pass is evaluated even when it is dropped. The model evaluates it too, and its object is then discarded.
- Mutation's replacement genes are listed for every gene. A gene whose draw is not below the probability ignores its replacement, just as the source draws nothing for it.
- Nsga2.Nsga2: with popSize 0 the model skips each generation, which yields the same empty population as the source. It also needs no VMs then.
- Nsga2.Survive does not restate that the fronts after the cut keep the distances they had. `Nsga2.SelectNext` states it for the fronts it is given. The source drops those members, so nothing downstream reads their distances.
- Nsga2.Nsga2 and Nsga2.Generation state size, distinctness, scores and ranks of each generation. The exact survivors are stated by `Nsga2.Survive` and `Selection.SelectSurvivors`, one generation at a time.
- Crowding.CrowdingDistanceAssignment requires evaluated, distinct members. The source reads `objs[m]` of every member, and every front it passes in is evaluated and repeats nobody.
