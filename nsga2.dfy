/** The optimiser itself: the non-dominated sort over individuals, the
    extraction of the first front, the elitist survivor selection and the
    generation loop. */
module Nsga2 {
  import opened Models
  import opened Dominance
  import opened NonDominatedSort
  import opened Ordering
  import opened Crowding
  import opened Evaluation
  import opened Operators
  import opened Offspring
  import opened Selection

  /** Every index of every front is a position of the population. */
  predicate IndexFronts(n: nat, idx: seq<seq<nat>>) {
    forall k, j :: 0 <= k < |idx| && 0 <= j < |idx[k]| ==> idx[k][j] < n
  }

  /** The index fronts turned into lists of the entries they name. */
  function Lift<T>(xs: seq<T>, idx: seq<seq<nat>>): (r: seq<seq<T>>)
    requires IndexFronts(|xs|, idx)
    ensures |r| == |idx|
    ensures forall k :: 0 <= k < |idx| ==> r[k] == Arrange(xs, idx[k])
  {
    seq(|idx|, k requires 0 <= k < |idx| => Arrange(xs, idx[k]))
  }

  /** Pareto dominance is a strict partial order on any list of triples. */
  lemma DominanceOrder(os: seq<Objectives>)
    ensures Irreflexive(os, Dominates) && Transitive(os, Dominates)
  {
    forall i | 0 <= i < |os|
      ensures !Dominates(os[i], os[i])
    {
      DominatesIrreflexive(os[i]);
    }
    forall i, j, k | 0 <= i < |os| && 0 <= j < |os| && 0 <= k < |os| && Dominates(os[i], os[j]) && Dominates(os[j], os[k])
      ensures Dominates(os[i], os[k])
    {
      DominatesTransitive(os[i], os[j], os[k]);
    }
  }

  /** fast_non_dominated_sort on individuals: the fronts are the Pareto
      layers of their objective triples, and every individual's rank is
      the index of its front. Only the rank fields change. */
  method FastNonDominatedSort(population: seq<Individual>)
    returns (fronts: seq<seq<Individual>>, ghost idx: seq<seq<nat>>, ghost rank: seq<nat>)
    requires Evaluated(population) && Distinct(population)
    modifies population`rank
    ensures Partition(idx, rank) && Ranked(old(ObjectivesOf(population)), Dominates, rank)
    ensures IndexFronts(|population|, idx) && fronts == Lift(population, idx)
    ensures forall q :: 0 <= q < |population| ==> population[q].rank == Some(rank[q])
  {
    var os := ObjectivesOf(population);
    DominanceOrder(os);
    var fr, rk := Sort(os, Dominates);
    WriteRanks(population, rk);
    idx, rank := fr, rk;
    fronts := Lift(population, fr);
  }

  /** The source's loop that stores each individual's front index. */
  method WriteRanks(population: seq<Individual>, rk: seq<nat>)
    requires Distinct(population) && |rk| == |population|
    modifies population`rank
    ensures forall q :: 0 <= q < |population| ==> population[q].rank == Some(rk[q])
  {
    for q := 0 to |population|
      invariant forall p :: 0 <= p < q ==> population[p].rank == Some(rk[p])
    {
      population[q].rank := Some(rk[q]);
    }
  }

  /** No member of the list Pareto-dominates member q. */
  ghost predicate Undominated(os: seq<Objectives>, q: nat)
    requires q < |os|
  {
    forall r :: 0 <= r < |os| ==> !ParetoDominates(os[r], os[q])
  }

  /** In the first front are exactly the indices nothing dominates, in the
      textbook sense of Pareto dominance. */
  lemma FirstFrontUndominated(os: seq<Objectives>, idx: seq<seq<nat>>, rank: seq<nat>)
    requires Partition(idx, rank) && Ranked(os, Dominates, rank) && |os| > 0
    ensures |idx| > 0
    ensures forall q :: 0 <= q < |os| ==> (q in idx[0] <==> Undominated(os, q))
  {
    assert rank[0] < |idx|;
    forall q | 0 <= q < |os|
      ensures q in idx[0] <==> Undominated(os, q)
    {
      forall r | 0 <= r < |os|
        ensures Dominates(os[r], os[q]) <==> ParetoDominates(os[r], os[q])
      {
        DominatesIff(os[r], os[q]);
      }
      if q in idx[0] {
        var j :| 0 <= j < |idx[0]| && idx[0][j] == q;
        assert rank[q] == 0;
      }
    }
  }

  /** extract_pareto_front: the first front of the sorted population, which
      holds exactly the members no other member Pareto-dominates. The
      population must not be empty (the source indexes an empty list). */
  method ExtractParetoFront(population: seq<Individual>) returns (front: seq<Individual>, ghost idx: seq<seq<nat>>, ghost rank: seq<nat>)
    requires Evaluated(population) && Distinct(population) && |population| > 0
    modifies population`rank
    ensures Partition(idx, rank) && Ranked(old(ObjectivesOf(population)), Dominates, rank)
    ensures forall q :: 0 <= q < |population| ==> population[q].rank == Some(rank[q])
    ensures |front| > 0 && Distinct(front) && forall x :: x in front ==> x in population && x.rank == Some(0)
    ensures forall q :: 0 <= q < |population| ==>
      (population[q] in front <==> Undominated(old(ObjectivesOf(population)), q))
  {
    ghost var os := ObjectivesOf(population);
    var fronts;
    fronts, idx, rank := FastNonDominatedSort(population);
    FirstFrontUndominated(os, idx, rank);
    front := fronts[0];
    ArrangedMembers(population, idx[0]);
    LiftPartition(population, idx, rank);
    SeparateFrontDistinct(fronts, 0);
  }

  /** Each front of a separate list repeats nobody. */
  lemma SeparateFrontDistinct(fronts: seq<seq<Individual>>, k: nat)
    requires Separate(fronts) && k < |fronts|
    ensures Distinct(fronts[k])
  {
  }

  /** In a list without repeats, the member at q is among the arranged
      members exactly when q is among the positions. */
  lemma ArrangedMembers(population: seq<Individual>, positions: seq<nat>)
    requires Distinct(population) && forall j :: 0 <= j < |positions| ==> positions[j] < |population|
    ensures forall x :: x in Arrange(population, positions) ==> x in population
    ensures forall q :: 0 <= q < |population| ==> (population[q] in Arrange(population, positions) <==> q in positions)
  {
    var front := Arrange(population, positions);
    forall q | 0 <= q < |population|
      ensures population[q] in front <==> q in positions
    {
      if population[q] in front {
        var j :| 0 <= j < |front| && front[j] == population[q];
        assert positions[j] == q;
      }
    }
  }

  /** The candidate has `|tasks|` VM indices as genes and its objectives
      are the evaluation of its schedule. */
  predicate Scored(x: Individual, tasks: seq<Task>, vms: seq<VM>, std: seq<real> -> real)
    reads x`schedule, x`objs
  {
    && |vms| > 0 && |x.schedule| == |tasks| && GenesInRange(x.schedule, |vms|)
    && x.objs == Some(Evaluation.Evaluation(x.schedule, tasks, vms, std))
  }

  /** A scored population's schedules are genomes over the VMs, and its
      schedules and keys snapshot it. */
  lemma ScoredSnapshot(population: seq<Individual>, tasks: seq<Task>, vms: seq<VM>, std: seq<real> -> real)
    requires forall q :: 0 <= q < |population| ==> Scored(population[q], tasks, vms, std)
    ensures Genomes(Schedules(population), |tasks|, |vms|)
    ensures Snapshot(population, Schedules(population), Keys(population))
  {
    var schedules := Schedules(population);
    forall q | 0 <= q < |schedules|
      ensures |schedules[q]| == |tasks| && GenesInRange(schedules[q], |vms|)
    {
      assert Scored(population[q], tasks, vms, std);
    }
  }

  /** Scored members are evaluated. */
  lemma ScoredEvaluated(population: seq<Individual>, tasks: seq<Task>, vms: seq<VM>, std: seq<real> -> real)
    requires forall q :: 0 <= q < |population| ==> Scored(population[q], tasks, vms, std)
    ensures Evaluated(population)
  {
  }

  /** Children that follow a plan are scored. */
  lemma PlannedScored(schedules: seq<seq<int>>, keys: seq<Key>, draws: seq<PairDraws>,
                      crossoverProb: real, mutationProb: real, tasks: seq<Task>, vms: seq<VM>, std: seq<real> -> real,
                      want: seq<seq<int>>, scores: seq<Objectives>, offspring: seq<Individual>)
    requires |vms| > 0 && |keys| == |schedules| && Uniform(keys) && Genomes(schedules, |tasks|, |vms|)
    requires ValidDraws(draws, |schedules|, |tasks|, |vms|, crossoverProb)
    requires Plan(schedules, keys, draws, crossoverProb, mutationProb, tasks, vms, std, want, scores)
    requires |offspring| <= |want|
    requires forall q :: 0 <= q < |offspring| ==> offspring[q].schedule == want[q] && offspring[q].objs == Some(scores[q])
    ensures forall q :: 0 <= q < |offspring| ==> Scored(offspring[q], tasks, vms, std)
  {
    PlanScores(schedules, keys, draws, crossoverProb, mutationProb, tasks, vms, std, want, scores);
  }

  /** Lists of lists of the same shape have the same total length. */
  lemma {:induction false} SameShapeTotal<A, B>(a: seq<seq<A>>, b: seq<seq<B>>)
    requires |a| == |b| && forall k :: 0 <= k < |a| ==> |a[k]| == |b[k]|
    ensures TotalLength(a) == TotalLength(b)
    decreases |a|
  {
    if a != [] {
      SameShapeTotal(a[..|a| - 1], b[..|b| - 1]);
    }
  }

  /** Lifting a list by a partition of its positions: the fronts have the
      index fronts' shape, hold every entry once in all, and repeat nobody
      when the list does not. */
  lemma LiftPartition(xs: seq<Individual>, idx: seq<seq<nat>>, rank: seq<nat>)
    requires Partition(idx, rank) && |rank| == |xs| && Distinct(xs)
    ensures IndexFronts(|xs|, idx)
    ensures TotalLength(Lift(xs, idx)) == |xs|
    ensures Separate(Lift(xs, idx))
    ensures forall x :: x in Members(Lift(xs, idx)) ==> x in xs
  {
    var fronts: seq<seq<Individual>> := Lift(xs, idx);
    SameShapeTotal(fronts, idx);
    forall k, i, k', j |
      && 0 <= k < |fronts| && 0 <= i < |fronts[k]| && 0 <= k' < |fronts| && 0 <= j < |fronts[k']|
      && fronts[k][i] == fronts[k'][j]
      ensures k == k' && i == j
    {
      assert idx[k][i] == idx[k'][j];
    }
    forall x | x in Members(fronts)
      ensures x in xs
    {
      var k, i :| 0 <= k < |fronts| && 0 <= i < |fronts[k]| && fronts[k][i] == x;
      assert xs[idx[k][i]] == x;
    }
  }

  /** The lifted fronts of an evaluated list carry the lifted triples. */
  lemma LiftCarrying(xs: seq<Individual>, idx: seq<seq<nat>>)
    requires IndexFronts(|xs|, idx) && Evaluated(xs)
    ensures Shaped(Lift(xs, idx), Lift(ObjectivesOf(xs), idx))
    ensures Carrying(Lift(xs, idx), Lift(ObjectivesOf(xs), idx))
  {
    var fronts: seq<seq<Individual>> := Lift(xs, idx);
    var fos: seq<seq<Objectives>> := Lift(ObjectivesOf(xs), idx);
    LiftShaped(xs, ObjectivesOf(xs), idx);
    forall k, i | 0 <= k < |fronts| && 0 <= i < |fronts[k]|
      ensures fronts[k][i].objs == Some(fos[k][i])
    {
      LiftEntry(xs, idx, k, i);
    }
  }

  /** Two lists of one length lifted by the same index fronts have one shape. */
  lemma LiftShaped<T>(xs: seq<Individual>, ys: seq<T>, idx: seq<seq<nat>>)
    requires IndexFronts(|xs|, idx) && |ys| == |xs|
    ensures Shaped(Lift(xs, idx), Lift(ys, idx))
  {
    var fronts := Lift(xs, idx);
    var fos := Lift(ys, idx);
    forall k | 0 <= k < |fronts|
      ensures |fos[k]| == |fronts[k]|
    {
      assert fronts[k] == Arrange(xs, idx[k]) && fos[k] == Arrange(ys, idx[k]);
    }
  }

  /** Entry i of lifted front k is the evaluated member at position idx[k][i]. */
  lemma LiftEntry(xs: seq<Individual>, idx: seq<seq<nat>>, k: nat, i: nat)
    requires IndexFronts(|xs|, idx) && Evaluated(xs) && k < |idx| && i < |idx[k]|
    ensures Lift(xs, idx)[k][i].objs == Some(Lift(ObjectivesOf(xs), idx)[k][i])
  {
    assert Lift(xs, idx)[k][i] == xs[idx[k][i]];
  }

  /** The offspring loop of one generation followed by `combined =
      population + offspring`: the offspring follow the plan drawn from the
      parents' schedules and keys, and every member of the combined list is
      scored and occurs once. */
  method Vary(population: seq<Individual>, tasks: seq<Task>, vms: seq<VM>, std: seq<real> -> real,
              popSize: nat, crossoverProb: real, mutationProb: real, draws: seq<PairDraws>)
    returns (combined: seq<Individual>, ghost offspring: seq<Individual>, ghost want: seq<seq<int>>,
             ghost scores: seq<Objectives>)
    requires |vms| > 0 && |population| == popSize && Distinct(population)
    requires forall q :: 0 <= q < popSize ==> Scored(population[q], tasks, vms, std)
    requires Uniform(Keys(population))
    requires |draws| == (popSize + 1) / 2 && ValidDraws(draws, popSize, |tasks|, |vms|, crossoverProb)
    ensures Genomes(Schedules(population), |tasks|, |vms|)
    ensures Plan(Schedules(population), Keys(population), draws, crossoverProb, mutationProb, tasks, vms, std,
                 want, scores)
    ensures combined == population + offspring && |offspring| == popSize
    ensures forall q :: 0 <= q < popSize ==>
      && fresh(offspring[q]) && offspring[q].schedule == want[q] && offspring[q].objs == Some(scores[q])
    ensures Distinct(combined) && Evaluated(combined)
    ensures forall q :: 0 <= q < |combined| ==> Scored(combined[q], tasks, vms, std)
    ensures forall x :: x in combined ==> x in population || fresh(x)
  {
    ScoredSnapshot(population, tasks, vms, std);
    ghost var schedules := Schedules(population);
    ghost var keys := Keys(population);
    var children;
    children, want, scores := MakeOffspring(population, schedules, keys, tasks, vms, std, popSize,
                                            crossoverProb, mutationProb, draws);
    offspring := children;
    PlannedScored(schedules, keys, draws, crossoverProb, mutationProb, tasks, vms, std, want, scores, children);
    DistinctConcat(population, children);
    combined := population + children;
    ScoredEvaluated(combined, tasks, vms, std);
    forall x | x in combined
      ensures x in population || fresh(x)
    {
      if x !in population {
        var i :| 0 <= i < |children| && children[i] == x;
      }
    }
  }

  /** Every member of the fronts is scored. */
  predicate FrontsScored(fronts: seq<seq<Individual>>, tasks: seq<Task>, vms: seq<VM>, std: seq<real> -> real)
    reads Members(fronts)`schedule, Members(fronts)`objs
  {
    forall k, i :: 0 <= k < |fronts| && 0 <= i < |fronts[k]| ==> Scored(fronts[k][i], tasks, vms, std)
  }

  /** Every member of front k carries rank k. */
  predicate Layered(fronts: seq<seq<Individual>>)
    reads Members(fronts)`rank
  {
    forall k, i :: 0 <= k < |fronts| && 0 <= i < |fronts[k]| ==> fronts[k][i].rank == Some(k)
  }

  /** Lifting a scored list gives scored fronts. */
  lemma LiftScored(xs: seq<Individual>, idx: seq<seq<nat>>, tasks: seq<Task>, vms: seq<VM>, std: seq<real> -> real)
    requires IndexFronts(|xs|, idx)
    requires forall q :: 0 <= q < |xs| ==> Scored(xs[q], tasks, vms, std)
    ensures FrontsScored(Lift(xs, idx), tasks, vms, std)
  {
    var fronts: seq<seq<Individual>> := Lift(xs, idx);
    forall k, i | 0 <= k < |fronts| && 0 <= i < |fronts[k]|
      ensures Scored(fronts[k][i], tasks, vms, std)
    {
      assert fronts[k][i] == xs[idx[k][i]];
    }
  }

  /** Lifting a list whose ranks are the partition's gives layered fronts. */
  lemma LiftLayered(xs: seq<Individual>, idx: seq<seq<nat>>, rank: seq<nat>)
    requires Partition(idx, rank) && |rank| == |xs| && IndexFronts(|xs|, idx)
    requires forall q :: 0 <= q < |xs| ==> xs[q].rank == Some(rank[q])
    ensures Layered(Lift(xs, idx))
  {
    var fronts: seq<seq<Individual>> := Lift(xs, idx);
    forall k, i | 0 <= k < |fronts| && 0 <= i < |fronts[k]|
      ensures fronts[k][i].rank == Some(k)
    {
      assert fronts[k][i] == xs[idx[k][i]];
    }
  }

  /** The sort step of survivor selection: `fast_non_dominated_sort` on the
      combined list, with the fronts lifted to the individuals and to their
      triples, ready for the front loop. Only ranks change, and every member
      of front k now has rank k. */
  method RankCombined(combined: seq<Individual>)
    returns (fronts: seq<seq<Individual>>, ghost fos: seq<seq<Objectives>>, ghost idx: seq<seq<nat>>, ghost rank: seq<nat>)
    requires Distinct(combined) && Evaluated(combined)
    modifies combined`rank
    ensures Partition(idx, rank) && |rank| == |combined| && IndexFronts(|combined|, idx)
    ensures Ranked(old(ObjectivesOf(combined)), Dominates, rank)
    ensures forall q :: 0 <= q < |combined| ==> combined[q].rank == Some(rank[q])
    ensures fronts == Lift(combined, idx) && fos == Lift(old(ObjectivesOf(combined)), idx)
    ensures Shaped(fronts, fos) && Separate(fronts) && Carrying(fronts, fos) && Layered(fronts)
    ensures TotalLength(fronts) == |combined| && forall x :: x in Members(fronts) ==> x in combined
  {
    ghost var os := ObjectivesOf(combined);
    fronts, idx, rank := FastNonDominatedSort(combined);
    LiftPartition(combined, idx, rank);
    LiftCarrying(combined, idx);
    LiftLayered(combined, idx, rank);
    fos := Lift(os, idx);
  }

  /** The front loop of survivor selection, with what it yields: the new
      population the fronts determine, of the size of the fronts' total
      capped at `popSize`, each member once and from the fronts. */
  method SelectNext(fronts: seq<seq<Individual>>, popSize: nat, ghost fos: seq<seq<Objectives>>,
                    ghost tasks: seq<Task>, ghost vms: seq<VM>, ghost std: seq<real> -> real)
    returns (next: seq<Individual>)
    requires Shaped(fronts, fos) && Separate(fronts) && Carrying(fronts, fos)
    requires FrontsScored(fronts, tasks, vms, std) && Layered(fronts)
    modifies Members(fronts)`crowding
    ensures Selected(fronts, fos, popSize, next, old(CrowdingTable(fronts)))
    ensures |next| == if TotalLength(fronts) <= popSize then TotalLength(fronts) else popSize
    ensures Distinct(next) && forall x :: x in next ==> x in Members(fronts)
    ensures forall q :: 0 <= q < |next| ==> Scored(next[q], tasks, vms, std) && next[q].rank.Some?
  {
    next := SelectSurvivors(fronts, popSize, fos);
    NewPopulationSize(fronts, fos, popSize);
    NewPopulationDistinct(fronts, fos, popSize);
    NewPopulationMembers(fronts, fos, popSize);
    MembersScored(fronts, next, tasks, vms, std);
  }

  /** Members of scored, layered fronts are scored and ranked. */
  lemma MembersScored(fronts: seq<seq<Individual>>, next: seq<Individual>, tasks: seq<Task>, vms: seq<VM>, std: seq<real> -> real)
    requires FrontsScored(fronts, tasks, vms, std) && Layered(fronts)
    requires forall x :: x in next ==> x in Members(fronts)
    ensures forall q :: 0 <= q < |next| ==> Scored(next[q], tasks, vms, std) && next[q].rank.Some?
  {
    forall q | 0 <= q < |next|
      ensures Scored(next[q], tasks, vms, std) && next[q].rank.Some?
    {
      assert next[q] in Members(fronts);
      var k, i :| 0 <= k < |fronts| && 0 <= i < |fronts[k]| && fronts[k][i] == next[q];
    }
  }

  /** Survivor selection of one generation: the combined list is sorted
      into fronts (writing every rank), and the next population is the
      list the front loop builds from them. Only ranks and crowding
      distances change; the survivors are scored, ranked members of the
      combined list, each once. */
  method Survive(combined: seq<Individual>, tasks: seq<Task>, vms: seq<VM>, std: seq<real> -> real, popSize: nat)
    returns (next: seq<Individual>, ghost idx: seq<seq<nat>>, ghost rank: seq<nat>)
    requires Distinct(combined) && Evaluated(combined)
    requires forall q :: 0 <= q < |combined| ==> Scored(combined[q], tasks, vms, std)
    modifies combined`rank, combined`crowding
    ensures Partition(idx, rank) && |rank| == |combined| && IndexFronts(|combined|, idx)
    ensures Ranked(old(ObjectivesOf(combined)), Dominates, rank)
    ensures next == NewPopulation(Lift(combined, idx), Lift(old(ObjectivesOf(combined)), idx), popSize)
    ensures CrowdedBelow(Lift(combined, idx), Lift(old(ObjectivesOf(combined)), idx),
                         PassEnd(Lift(combined, idx), 0, 0, popSize))
    ensures |next| == if |combined| <= popSize then |combined| else popSize
    ensures Distinct(next) && forall x :: x in next ==> x in combined
    ensures forall q :: 0 <= q < |next| ==> Scored(next[q], tasks, vms, std) && next[q].rank.Some?
  {
    var fronts;
    ghost var fos;
    fronts, fos, idx, rank := RankCombined(combined);
    LiftScored(combined, idx, tasks, vms, std);
    next := SelectNext(fronts, popSize, fos, tasks, vms, std);
  }

  /** One pass of the generation loop: the offspring loop and survivor
      selection, seen from the loop around them. The next population has
      `popSize` distinct members, each scored and ranked, each a member of
      the old population or a newly made offspring. */
  method Generation(population: seq<Individual>, tasks: seq<Task>, vms: seq<VM>, std: seq<real> -> real,
                    popSize: nat, crossoverProb: real, mutationProb: real, draws: seq<PairDraws>)
    returns (next: seq<Individual>)
    requires |vms| > 0 && |population| == popSize && Distinct(population)
    requires forall q :: 0 <= q < popSize ==> Scored(population[q], tasks, vms, std)
    requires Uniform(Keys(population))
    requires |draws| == (popSize + 1) / 2 && ValidDraws(draws, popSize, |tasks|, |vms|, crossoverProb)
    modifies population`rank, population`crowding
    ensures |next| == popSize && Distinct(next)
    ensures forall q :: 0 <= q < popSize ==> Scored(next[q], tasks, vms, std) && next[q].rank.Some?
    ensures forall q :: 0 <= q < popSize ==> next[q] in population || fresh(next[q])
  {
    var combined;
    ghost var offspring, want, scores;
    combined, offspring, want, scores := Vary(population, tasks, vms, std, popSize, crossoverProb, mutationProb, draws);
    ghost var idx, rank;
    next, idx, rank := Survive(combined, tasks, vms, std, popSize);
  }

  /** nsga2: `popSize` random individuals (schedules `initial`) are
      evaluated, then each of the `generations` passes breeds `popSize`
      offspring from the population (pass g uses `draws[g]`) and keeps the
      survivors of parents and offspring together. The result is a list of
      `popSize` distinct scored individuals; after at least one pass every
      member carries a rank, and with no pass it is the evaluated initial
      population. */
  method Nsga2(tasks: seq<Task>, vms: seq<VM>, std: seq<real> -> real, popSize: nat, generations: nat,
               crossoverProb: real, mutationProb: real, initial: seq<seq<int>>, draws: seq<seq<PairDraws>>)
    returns (population: seq<Individual>)
    requires popSize > 0 ==> |vms| > 0
    requires |initial| == popSize
    requires forall p :: 0 <= p < popSize ==> |initial[p]| == |tasks| && GenesInRange(initial[p], |vms|)
    requires |draws| == generations
    requires forall g :: 0 <= g < generations ==>
      |draws[g]| == (popSize + 1) / 2 && ValidDraws(draws[g], popSize, |tasks|, |vms|, crossoverProb)
    ensures |population| == popSize && Distinct(population)
    ensures forall q :: 0 <= q < popSize ==> Scored(population[q], tasks, vms, std)
    ensures generations == 0 ==> forall q :: 0 <= q < popSize ==>
      population[q].schedule == initial[q] && population[q].rank.None?
    ensures generations > 0 ==> forall q :: 0 <= q < popSize ==> population[q].rank.Some?
  {
    population := CreateInitialPopulation(popSize, |tasks|, |vms|, initial);
    for q := 0 to popSize
      invariant forall p :: 0 <= p < popSize ==> population[p].schedule == initial[p] && population[p].rank.None?
      invariant forall p :: 0 <= p < q ==> Scored(population[p], tasks, vms, std)
    {
      EvaluateIndividual(population[q], tasks, vms, std);
    }
    for g := 0 to generations
      invariant |population| == popSize && Distinct(population)
      invariant forall q :: 0 <= q < popSize ==> fresh(population[q])
      invariant forall q :: 0 <= q < popSize ==> Scored(population[q], tasks, vms, std)
      invariant g == 0 ==> forall q :: 0 <= q < popSize ==>
        population[q].schedule == initial[q] && population[q].rank.None?
      invariant g > 0 ==> forall q :: 0 <= q < popSize ==> population[q].rank.Some?
    {
      if popSize > 0 {
        RanksUniform(population);
        population := Generation(population, tasks, vms, std, popSize, crossoverProb, mutationProb, draws[g]);
      }
    }
  }

  /** Keys whose ranks are all missing or all present can be compared. */
  lemma RanksUniform(population: seq<Individual>)
    requires (forall q :: 0 <= q < |population| ==> population[q].rank.None?) ||
             (forall q :: 0 <= q < |population| ==> population[q].rank.Some?)
    ensures Uniform(Keys(population))
  {
  }
}
