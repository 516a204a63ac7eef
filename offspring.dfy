/** The offspring loop of a generation: pairs of tournaments, crossover,
    mutation of both children and their evaluation, until the offspring
    list holds as many members as the population (the second child of the
    last pair is dropped when the size is odd). The random draws of one
    pair are a `PairDraws` value. */
module Offspring {
  import opened Models
  import opened Evaluation
  import opened Operators

  /** The draws consumed by one pass of the offspring loop: the two
      positions each tournament samples, the crossover draw and cut point,
      and for each child the per-gene mutation draws and replacement genes. */
  datatype PairDraws = PairDraws(i1: nat, j1: nat, i2: nat, j2: nat, cross: real, point: int,
                                 mut1: seq<real>, genes1: seq<int>, mut2: seq<real>, genes2: seq<int>)

  /** Draws the source's random calls can produce for a population of
      `popSize` schedules of `numTasks` genes: `random.sample` gives two
      different positions; `randint(1, numTasks - 1)` is only drawn when
      crossover happens; the replacement genes are VM indices. */
  predicate ValidPair(d: PairDraws, popSize: nat, numTasks: nat, numVms: nat, crossoverProb: real) {
    && d.i1 < popSize && d.j1 < popSize && d.i1 != d.j1
    && d.i2 < popSize && d.j2 < popSize && d.i2 != d.j2
    && (d.cross < crossoverProb ==> 1 <= d.point <= numTasks - 1)
    && |d.mut1| == numTasks && |d.genes1| == numTasks && GenesInRange(d.genes1, numVms)
    && |d.mut2| == numTasks && |d.genes2| == numTasks && GenesInRange(d.genes2, numVms)
  }

  /** Every pair's draws are valid. */
  predicate ValidDraws(draws: seq<PairDraws>, popSize: nat, numTasks: nat, numVms: nat, crossoverProb: real) {
    forall p :: 0 <= p < |draws| ==> ValidPair(draws[p], popSize, numTasks, numVms, crossoverProb)
  }

  /** Every two tournament keys can be compared. */
  predicate Uniform(keys: seq<Key>) {
    forall a, b :: 0 <= a < |keys| && 0 <= b < |keys| ==> Comparable(keys[a], keys[b])
  }

  /** Every schedule has `numTasks` genes, each a VM index. */
  predicate Genomes(schedules: seq<seq<int>>, numTasks: nat, numVms: nat) {
    forall q :: 0 <= q < |schedules| ==> |schedules[q]| == numTasks && GenesInRange(schedules[q], numVms)
  }

  /** The schedules of the members, in list order. */
  function Schedules(population: seq<Individual>): (r: seq<seq<int>>)
    reads population
    ensures |r| == |population| && forall q :: 0 <= q < |population| ==> r[q] == population[q].schedule
  {
    if population == [] then []
    else Schedules(population[..|population| - 1]) + [population[|population| - 1].schedule]
  }

  /** The tournament keys of the members, in list order. */
  function Keys(population: seq<Individual>): (r: seq<Key>)
    reads population
    ensures |r| == |population| && forall q :: 0 <= q < |population| ==> r[q] == KeyOf(population[q])
  {
    if population == [] then []
    else Keys(population[..|population| - 1]) + [KeyOf(population[|population| - 1])]
  }

  /** The winners of the pair's two tournaments. */
  function Parents(keys: seq<Key>, d: PairDraws): (r: (nat, nat))
    requires Uniform(keys)
    requires d.i1 < |keys| && d.j1 < |keys| && d.i1 != d.j1 && d.i2 < |keys| && d.j2 < |keys| && d.i2 != d.j2
    ensures r.0 < |keys| && r.1 < |keys|
  {
    (Pick(d.i1, d.j1, keys[d.i1], keys[d.j1]), Pick(d.i2, d.j2, keys[d.i2], keys[d.j2]))
  }

  /** The winners' schedules after the crossover step: cut at the point
      and the tails swapped when the draw is below the probability,
      unchanged otherwise. */
  function Crossed(p1: seq<int>, p2: seq<int>, d: PairDraws, crossoverProb: real): (seq<int>, seq<int>)
    requires d.cross < crossoverProb ==> d.point >= 0
  {
    if d.cross < crossoverProb then (Recombine(p1, p2, d.point), Recombine(p2, p1, d.point)) else (p1, p2)
  }

  /** The two children of one pass: the winners' schedules, crossed, then
      mutated gene by gene. */
  function Children(schedules: seq<seq<int>>, keys: seq<Key>, d: PairDraws, crossoverProb: real, mutationProb: real,
                    numTasks: nat, numVms: nat): (r: (seq<int>, seq<int>))
    requires |keys| == |schedules| && Uniform(keys) && Genomes(schedules, numTasks, numVms)
    requires ValidPair(d, |schedules|, numTasks, numVms, crossoverProb)
    ensures |r.0| == numTasks && GenesInRange(r.0, numVms)
    ensures |r.1| == numTasks && GenesInRange(r.1, numVms)
  {
    var parents := Parents(keys, d);
    var c := Crossed(schedules[parents.0], schedules[parents.1], d, crossoverProb);
    CrossedGenes(schedules[parents.0], schedules[parents.1], d.cross, crossoverProb, d.point, numVms);
    MutatedGenes(c.0, mutationProb, d.mut1, d.genes1, numVms);
    MutatedGenes(c.1, mutationProb, d.mut2, d.genes2, numVms);
    (Mutated(c.0, mutationProb, d.mut1, d.genes1), Mutated(c.1, mutationProb, d.mut2, d.genes2))
  }

  /** Crossover of two equal-length genomes keeps the length and the range. */
  lemma CrossedGenes(p1: seq<int>, p2: seq<int>, cross: real, crossoverProb: real, point: int, numVms: nat)
    requires |p1| == |p2| && GenesInRange(p1, numVms) && GenesInRange(p2, numVms)
    requires cross < crossoverProb ==> 0 <= point <= |p1|
    ensures cross < crossoverProb ==>
      && |Recombine(p1, p2, point)| == |p1| && GenesInRange(Recombine(p1, p2, point), numVms)
      && |Recombine(p2, p1, point)| == |p1| && GenesInRange(Recombine(p2, p1, point), numVms)
  {
    if cross < crossoverProb {
      RecombineGenes(p1, p2, point);
      RecombineGenes(p2, p1, point);
      RecombineInRange(p1, p2, point, numVms);
      RecombineInRange(p2, p1, point, numVms);
    }
  }

  /** The children's genes: a gene whose mutation draw is not below the
      probability comes from the first winner before the cut and from the
      second from the cut on (from the first throughout without crossover);
      without any mutation the two children hold exactly the winners' genes. */
  lemma ChildrenGenes(schedules: seq<seq<int>>, keys: seq<Key>, d: PairDraws, crossoverProb: real, mutationProb: real,
                      numTasks: nat, numVms: nat)
    requires |keys| == |schedules| && Uniform(keys) && Genomes(schedules, numTasks, numVms)
    requires ValidPair(d, |schedules|, numTasks, numVms, crossoverProb)
    ensures var r := Children(schedules, keys, d, crossoverProb, mutationProb, numTasks, numVms);
            var p1 := schedules[Parents(keys, d).0];
            var p2 := schedules[Parents(keys, d).1];
            var crossed := d.cross < crossoverProb;
            && (forall t :: 0 <= t < numTasks && d.mut1[t] >= mutationProb ==>
                  r.0[t] == if crossed && t >= d.point then p2[t] else p1[t])
            && (forall t :: 0 <= t < numTasks && d.mut2[t] >= mutationProb ==>
                  r.1[t] == if crossed && t >= d.point then p1[t] else p2[t])
            && ((forall t :: 0 <= t < numTasks ==> d.mut1[t] >= mutationProb && d.mut2[t] >= mutationProb) ==>
                  multiset(r.0) + multiset(r.1) == multiset(p1) + multiset(p2))
  {
    var parents := Parents(keys, d);
    var p1 := schedules[parents.0];
    var p2 := schedules[parents.1];
    var c := Crossed(p1, p2, d, crossoverProb);
    assert Children(schedules, keys, d, crossoverProb, mutationProb, numTasks, numVms) ==
      (Mutated(c.0, mutationProb, d.mut1, d.genes1), Mutated(c.1, mutationProb, d.mut2, d.genes2));
    PairGenes(p1, p2, d, crossoverProb, mutationProb, numTasks);
  }

  /** `ChildrenGenes` for two winners' schedules p1 and p2. */
  lemma PairGenes(p1: seq<int>, p2: seq<int>, d: PairDraws, crossoverProb: real, mutationProb: real, numTasks: nat)
    requires |p1| == numTasks && |p2| == numTasks
    requires |d.mut1| == numTasks && |d.genes1| == numTasks && |d.mut2| == numTasks && |d.genes2| == numTasks
    requires d.cross < crossoverProb ==> 0 <= d.point <= numTasks
    ensures var c := Crossed(p1, p2, d, crossoverProb);
            |c.0| == numTasks && |c.1| == numTasks &&
            var r0 := Mutated(c.0, mutationProb, d.mut1, d.genes1);
            var r1 := Mutated(c.1, mutationProb, d.mut2, d.genes2);
            var crossed := d.cross < crossoverProb;
            && (forall t :: 0 <= t < numTasks && d.mut1[t] >= mutationProb ==>
                  r0[t] == if crossed && t >= d.point then p2[t] else p1[t])
            && (forall t :: 0 <= t < numTasks && d.mut2[t] >= mutationProb ==>
                  r1[t] == if crossed && t >= d.point then p1[t] else p2[t])
            && ((forall t :: 0 <= t < numTasks ==> d.mut1[t] >= mutationProb && d.mut2[t] >= mutationProb) ==>
                  multiset(r0) + multiset(r1) == multiset(p1) + multiset(p2))
  {
    var c := Crossed(p1, p2, d, crossoverProb);
    var crossed := d.cross < crossoverProb;
    assert c.0 == if crossed then Recombine(p1, p2, d.point) else p1;
    assert c.1 == if crossed then Recombine(p2, p1, d.point) else p2;
    ChildKeeps(p1, p2, crossed, d.point, mutationProb, d.mut1, d.genes1, numTasks);
    ChildKeeps(p2, p1, crossed, d.point, mutationProb, d.mut2, d.genes2, numTasks);
    if forall t :: 0 <= t < numTasks ==> d.mut1[t] >= mutationProb && d.mut2[t] >= mutationProb {
      PairUnmutated(p1, p2, d, crossoverProb, mutationProb, numTasks);
    }
  }

  /** Without any mutation the two children hold exactly the winners' genes. */
  lemma PairUnmutated(p1: seq<int>, p2: seq<int>, d: PairDraws, crossoverProb: real, mutationProb: real, numTasks: nat)
    requires |p1| == numTasks && |p2| == numTasks
    requires |d.mut1| == numTasks && |d.genes1| == numTasks && |d.mut2| == numTasks && |d.genes2| == numTasks
    requires d.cross < crossoverProb ==> 0 <= d.point <= numTasks
    requires forall t :: 0 <= t < numTasks ==> d.mut1[t] >= mutationProb && d.mut2[t] >= mutationProb
    ensures var c := Crossed(p1, p2, d, crossoverProb);
            |c.0| == numTasks && |c.1| == numTasks &&
            multiset(Mutated(c.0, mutationProb, d.mut1, d.genes1)) + multiset(Mutated(c.1, mutationProb, d.mut2, d.genes2))
              == multiset(p1) + multiset(p2)
  {
    var c := Crossed(p1, p2, d, crossoverProb);
    if d.cross < crossoverProb {
      RecombineGenes(p1, p2, d.point);
      RecombineGenes(p2, p1, d.point);
      RecombineSwaps(p1, p2, d.point);
    }
    NoDrawNoChange(c.0, mutationProb, d.mut1, d.genes1);
    NoDrawNoChange(c.1, mutationProb, d.mut2, d.genes2);
  }

  /** One child's genes: where its mutation draw is not below the
      probability, a gene comes from `a` before the cut and from `b` from
      the cut on (from `a` throughout without crossover). */
  lemma ChildKeeps(a: seq<int>, b: seq<int>, crossed: bool, point: int, mutationProb: real,
                   mut: seq<real>, genes: seq<int>, numTasks: nat)
    requires |a| == numTasks && |b| == numTasks && |mut| == numTasks && |genes| == numTasks
    requires crossed ==> 0 <= point <= numTasks
    ensures var c := if crossed then Recombine(a, b, point) else a;
      |c| == numTasks &&
      forall t :: 0 <= t < numTasks && mut[t] >= mutationProb ==>
        Mutated(c, mutationProb, mut, genes)[t] == if crossed && t >= point then b[t] else a[t]
  {
    var c := if crossed then Recombine(a, b, point) else a;
    if crossed {
      RecombineGenes(a, b, point);
    }
    MutatedGenes(c, mutationProb, mut, genes, 0);
  }

  /** The children of the first p passes, two per pass, in order. */
  function Brood(schedules: seq<seq<int>>, keys: seq<Key>, draws: seq<PairDraws>, p: nat,
                 crossoverProb: real, mutationProb: real, numTasks: nat, numVms: nat): (r: seq<seq<int>>)
    requires |keys| == |schedules| && Uniform(keys) && Genomes(schedules, numTasks, numVms)
    requires ValidDraws(draws, |schedules|, numTasks, numVms, crossoverProb) && p <= |draws|
    ensures |r| == 2 * p && Genomes(r, numTasks, numVms)
  {
    if p == 0 then []
    else
      var c := Children(schedules, keys, draws[p - 1], crossoverProb, mutationProb, numTasks, numVms);
      Brood(schedules, keys, draws, p - 1, crossoverProb, mutationProb, numTasks, numVms) + [c.0, c.1]
  }

  /** Pass p (of the first n) contributes children 2p and 2p + 1 of the brood. */
  lemma {:induction false} BroodAt(schedules: seq<seq<int>>, keys: seq<Key>, draws: seq<PairDraws>, n: nat, p: nat,
                                   crossoverProb: real, mutationProb: real, numTasks: nat, numVms: nat)
    requires |keys| == |schedules| && Uniform(keys) && Genomes(schedules, numTasks, numVms)
    requires ValidDraws(draws, |schedules|, numTasks, numVms, crossoverProb) && p < n <= |draws|
    ensures var c := Children(schedules, keys, draws[p], crossoverProb, mutationProb, numTasks, numVms);
            var r := Brood(schedules, keys, draws, n, crossoverProb, mutationProb, numTasks, numVms);
            r[2 * p] == c.0 && r[2 * p + 1] == c.1
    decreases n
  {
    var last := Children(schedules, keys, draws[n - 1], crossoverProb, mutationProb, numTasks, numVms);
    var before := Brood(schedules, keys, draws, n - 1, crossoverProb, mutationProb, numTasks, numVms);
    assert Brood(schedules, keys, draws, n, crossoverProb, mutationProb, numTasks, numVms) == before + [last.0, last.1];
    if p < n - 1 {
      BroodAt(schedules, keys, draws, n - 1, p, crossoverProb, mutationProb, numTasks, numVms);
    }
  }

  /** The two tournaments and the crossover of one pass: fresh copies of
      the winners, crossed. */
  method Mate(population: seq<Individual>, ghost schedules: seq<seq<int>>, ghost keys: seq<Key>,
              numTasks: nat, numVms: nat, d: PairDraws, crossoverProb: real)
    returns (child1: Individual, child2: Individual)
    requires Snapshot(population, schedules, keys) && Genomes(schedules, numTasks, numVms)
    requires Uniform(keys) && ValidPair(d, |population|, numTasks, numVms, crossoverProb)
    ensures fresh(child1) && fresh(child2) && child1 != child2
    ensures var parents := Parents(keys, d);
            (child1.schedule, child2.schedule) == Crossed(schedules[parents.0], schedules[parents.1], d, crossoverProb)
  {
    ghost var parents := Parents(keys, d);
    var parent1 := TournamentSelection(population, d.i1, d.j1);
    var parent2 := TournamentSelection(population, d.i2, d.j2);
    assert parent1.schedule == schedules[parents.0] && parent2.schedule == schedules[parents.1];
    child1, child2 := Crossover(parent1, parent2, crossoverProb, d.cross, d.point);
  }

  /** One pass of the offspring loop: two tournaments, crossover, mutation
      of both children and their evaluation. The ghost `schedules` and
      `keys` are the members' schedules and tournament keys. Only the fresh
      children are written. */
  method Breed(population: seq<Individual>, ghost schedules: seq<seq<int>>, ghost keys: seq<Key>,
               tasks: seq<Task>, vms: seq<VM>, std: seq<real> -> real,
               d: PairDraws, crossoverProb: real, mutationProb: real)
    returns (child1: Individual, child2: Individual)
    requires |vms| > 0 && Snapshot(population, schedules, keys) && Genomes(schedules, |tasks|, |vms|)
    requires Uniform(keys) && ValidPair(d, |population|, |tasks|, |vms|, crossoverProb)
    ensures fresh(child1) && fresh(child2) && child1 != child2
    ensures var c := Children(schedules, keys, d, crossoverProb, mutationProb, |tasks|, |vms|);
            && child1.schedule == c.0 && child1.objs == Some(Evaluation.Evaluation(c.0, tasks, vms, std))
            && child2.schedule == c.1 && child2.objs == Some(Evaluation.Evaluation(c.1, tasks, vms, std))
  {
    ghost var parents := Parents(keys, d);
    child1, child2 := Mate(population, schedules, keys, |tasks|, |vms|, d, crossoverProb);
    ghost var c := Crossed(schedules[parents.0], schedules[parents.1], d, crossoverProb);
    CrossedGenes(schedules[parents.0], schedules[parents.1], d.cross, crossoverProb, d.point, |vms|);
    MutatedGenes(c.0, mutationProb, d.mut1, d.genes1, |vms|);
    MutatedGenes(c.1, mutationProb, d.mut2, d.genes2, |vms|);
    child1 := Mutation(child1, |vms|, mutationProb, d.mut1, d.genes1);
    child2 := Mutation(child2, |vms|, mutationProb, d.mut2, d.genes2);
    EvaluateIndividual(child1, tasks, vms, std);
    EvaluateIndividual(child2, tasks, vms, std);
  }

  /** The evaluations of a list of schedules, in order. */
  function Evaluations(schedules: seq<seq<int>>, tasks: seq<Task>, vms: seq<VM>, std: seq<real> -> real): (r: seq<Objectives>)
    requires |vms| > 0 && Genomes(schedules, |tasks|, |vms|)
    ensures |r| == |schedules|
  {
    seq(|schedules|, q requires 0 <= q < |schedules| => Evaluation.Evaluation(schedules[q], tasks, vms, std))
  }

  /** Entry q of the evaluations is the evaluation of schedule q. */
  lemma EvaluationsAt(schedules: seq<seq<int>>, tasks: seq<Task>, vms: seq<VM>, std: seq<real> -> real, q: nat)
    requires |vms| > 0 && Genomes(schedules, |tasks|, |vms|) && q < |schedules|
    ensures Evaluations(schedules, tasks, vms, std)[q] == Evaluation.Evaluation(schedules[q], tasks, vms, std)
  {
  }

  /** Pass p of the offspring loop yields the schedules `want[2p]` and
      `want[2p + 1]`, whose evaluations are `scores[2p]` and `scores[2p + 1]`. */
  ghost predicate PassYields(schedules: seq<seq<int>>, keys: seq<Key>, draws: seq<PairDraws>, p: nat,
                             crossoverProb: real, mutationProb: real, tasks: seq<Task>, vms: seq<VM>, std: seq<real> -> real,
                             want: seq<seq<int>>, scores: seq<Objectives>)
    requires |vms| > 0 && |keys| == |schedules| && Uniform(keys) && Genomes(schedules, |tasks|, |vms|)
    requires ValidDraws(draws, |schedules|, |tasks|, |vms|, crossoverProb) && p < |draws|
    requires |want| == 2 * |draws| && |scores| == |want|
  {
    var c := Children(schedules, keys, draws[p], crossoverProb, mutationProb, |tasks|, |vms|);
    && want[2 * p] == c.0 && scores[2 * p] == Evaluation.Evaluation(c.0, tasks, vms, std)
    && want[2 * p + 1] == c.1 && scores[2 * p + 1] == Evaluation.Evaluation(c.1, tasks, vms, std)
  }

  /** `want` and `scores` list, pass by pass, what every pass of the
      offspring loop yields. */
  ghost predicate Plan(schedules: seq<seq<int>>, keys: seq<Key>, draws: seq<PairDraws>,
                       crossoverProb: real, mutationProb: real, tasks: seq<Task>, vms: seq<VM>, std: seq<real> -> real,
                       want: seq<seq<int>>, scores: seq<Objectives>)
    requires |vms| > 0 && |keys| == |schedules| && Uniform(keys) && Genomes(schedules, |tasks|, |vms|)
    requires ValidDraws(draws, |schedules|, |tasks|, |vms|, crossoverProb)
  {
    && |want| == 2 * |draws| && |scores| == |want|
    && forall p :: 0 <= p < |draws| ==>
         PassYields(schedules, keys, draws, p, crossoverProb, mutationProb, tasks, vms, std, want, scores)
  }

  /** Some lists follow the plan: the brood of all passes and its
      evaluations (PlanIsBrood shows they are the only ones). */
  lemma PlanExists(schedules: seq<seq<int>>, keys: seq<Key>, draws: seq<PairDraws>,
                         crossoverProb: real, mutationProb: real, tasks: seq<Task>, vms: seq<VM>, std: seq<real> -> real)
    returns (want: seq<seq<int>>, scores: seq<Objectives>)
    requires |vms| > 0 && |keys| == |schedules| && Uniform(keys) && Genomes(schedules, |tasks|, |vms|)
    requires ValidDraws(draws, |schedules|, |tasks|, |vms|, crossoverProb)
    ensures Plan(schedules, keys, draws, crossoverProb, mutationProb, tasks, vms, std, want, scores)
  {
    want := Brood(schedules, keys, draws, |draws|, crossoverProb, mutationProb, |tasks|, |vms|);
    scores := Evaluations(want, tasks, vms, std);
    forall p | 0 <= p < |draws|
      ensures PassYields(schedules, keys, draws, p, crossoverProb, mutationProb, tasks, vms, std, want, scores)
    {
      BroodAt(schedules, keys, draws, |draws|, p, crossoverProb, mutationProb, |tasks|, |vms|);
      PassEvaluated(schedules, keys, draws, p, crossoverProb, mutationProb, tasks, vms, std, want, scores);
    }
  }

  /** Pass p yields its two entries of `want` and their evaluations. */
  lemma PassEvaluated(schedules: seq<seq<int>>, keys: seq<Key>, draws: seq<PairDraws>, p: nat,
                      crossoverProb: real, mutationProb: real, tasks: seq<Task>, vms: seq<VM>, std: seq<real> -> real,
                      want: seq<seq<int>>, scores: seq<Objectives>)
    requires |vms| > 0 && |keys| == |schedules| && Uniform(keys) && Genomes(schedules, |tasks|, |vms|)
    requires ValidDraws(draws, |schedules|, |tasks|, |vms|, crossoverProb) && p < |draws|
    requires |want| == 2 * |draws| && Genomes(want, |tasks|, |vms|) && scores == Evaluations(want, tasks, vms, std)
    requires var c := Children(schedules, keys, draws[p], crossoverProb, mutationProb, |tasks|, |vms|);
             want[2 * p] == c.0 && want[2 * p + 1] == c.1
    ensures PassYields(schedules, keys, draws, p, crossoverProb, mutationProb, tasks, vms, std, want, scores)
  {
    EvaluationsAt(want, tasks, vms, std, 2 * p);
    EvaluationsAt(want, tasks, vms, std, 2 * p + 1);
  }

  /** The plan fixes its schedules: they are the brood of all passes. */
  lemma PlanIsBrood(schedules: seq<seq<int>>, keys: seq<Key>, draws: seq<PairDraws>,
                    crossoverProb: real, mutationProb: real, tasks: seq<Task>, vms: seq<VM>, std: seq<real> -> real,
                    want: seq<seq<int>>, scores: seq<Objectives>)
    requires |vms| > 0 && |keys| == |schedules| && Uniform(keys) && Genomes(schedules, |tasks|, |vms|)
    requires ValidDraws(draws, |schedules|, |tasks|, |vms|, crossoverProb)
    requires Plan(schedules, keys, draws, crossoverProb, mutationProb, tasks, vms, std, want, scores)
    ensures want == Brood(schedules, keys, draws, |draws|, crossoverProb, mutationProb, |tasks|, |vms|)
  {
    forall q | 0 <= q < |want|
      ensures want[q] == Brood(schedules, keys, draws, |draws|, crossoverProb, mutationProb, |tasks|, |vms|)[q]
    {
      PlanAt(schedules, keys, draws, crossoverProb, mutationProb, tasks, vms, std, want, scores, q);
    }
  }

  /** Entry q of the plan's schedules is entry q of the brood. */
  lemma PlanAt(schedules: seq<seq<int>>, keys: seq<Key>, draws: seq<PairDraws>,
               crossoverProb: real, mutationProb: real, tasks: seq<Task>, vms: seq<VM>, std: seq<real> -> real,
               want: seq<seq<int>>, scores: seq<Objectives>, q: nat)
    requires |vms| > 0 && |keys| == |schedules| && Uniform(keys) && Genomes(schedules, |tasks|, |vms|)
    requires ValidDraws(draws, |schedules|, |tasks|, |vms|, crossoverProb)
    requires Plan(schedules, keys, draws, crossoverProb, mutationProb, tasks, vms, std, want, scores) && q < |want|
    ensures want[q] == Brood(schedules, keys, draws, |draws|, crossoverProb, mutationProb, |tasks|, |vms|)[q]
  {
    var p := q / 2;
    PassOfPlan(schedules, keys, draws, crossoverProb, mutationProb, tasks, vms, std, want, scores, p);
    if q != 2 * p {
      assert q == 2 * p + 1;
    }
  }

  /** The plan fixes its scores: they are the evaluations of its schedules. */
  lemma PlanScores(schedules: seq<seq<int>>, keys: seq<Key>, draws: seq<PairDraws>,
                   crossoverProb: real, mutationProb: real, tasks: seq<Task>, vms: seq<VM>, std: seq<real> -> real,
                   want: seq<seq<int>>, scores: seq<Objectives>)
    requires |vms| > 0 && |keys| == |schedules| && Uniform(keys) && Genomes(schedules, |tasks|, |vms|)
    requires ValidDraws(draws, |schedules|, |tasks|, |vms|, crossoverProb)
    requires Plan(schedules, keys, draws, crossoverProb, mutationProb, tasks, vms, std, want, scores)
    ensures Genomes(want, |tasks|, |vms|) && scores == Evaluations(want, tasks, vms, std)
  {
    PlanIsBrood(schedules, keys, draws, crossoverProb, mutationProb, tasks, vms, std, want, scores);
    forall q | 0 <= q < |want|
      ensures scores[q] == Evaluation.Evaluation(want[q], tasks, vms, std)
    {
      var p := q / 2;
      PassOfPlan(schedules, keys, draws, crossoverProb, mutationProb, tasks, vms, std, want, scores, p);
      if q != 2 * p {
        assert q == 2 * p + 1;
      }
    }
  }

  /** What the plan lists for pass p is what the brood holds there. */
  lemma PassOfPlan(schedules: seq<seq<int>>, keys: seq<Key>, draws: seq<PairDraws>,
                   crossoverProb: real, mutationProb: real, tasks: seq<Task>, vms: seq<VM>, std: seq<real> -> real,
                   want: seq<seq<int>>, scores: seq<Objectives>, p: nat)
    requires |vms| > 0 && |keys| == |schedules| && Uniform(keys) && Genomes(schedules, |tasks|, |vms|)
    requires ValidDraws(draws, |schedules|, |tasks|, |vms|, crossoverProb) && p < |draws|
    requires Plan(schedules, keys, draws, crossoverProb, mutationProb, tasks, vms, std, want, scores)
    ensures var brood := Brood(schedules, keys, draws, |draws|, crossoverProb, mutationProb, |tasks|, |vms|);
            want[2 * p] == brood[2 * p] && want[2 * p + 1] == brood[2 * p + 1]
    ensures scores[2 * p] == Evaluation.Evaluation(want[2 * p], tasks, vms, std)
    ensures scores[2 * p + 1] == Evaluation.Evaluation(want[2 * p + 1], tasks, vms, std)
  {
    assert PassYields(schedules, keys, draws, p, crossoverProb, mutationProb, tasks, vms, std, want, scores);
    BroodAt(schedules, keys, draws, |draws|, p, crossoverProb, mutationProb, |tasks|, |vms|);
  }

  /** Pass p of the offspring loop yields the children the plan lists for it. */
  method BreedPass(population: seq<Individual>, ghost schedules: seq<seq<int>>, ghost keys: seq<Key>,
                   tasks: seq<Task>, vms: seq<VM>, std: seq<real> -> real,
                   draws: seq<PairDraws>, p: nat, crossoverProb: real, mutationProb: real,
                   ghost want: seq<seq<int>>, ghost scores: seq<Objectives>)
    returns (child1: Individual, child2: Individual)
    requires |vms| > 0 && Snapshot(population, schedules, keys) && Genomes(schedules, |tasks|, |vms|) && Uniform(keys)
    requires ValidDraws(draws, |population|, |tasks|, |vms|, crossoverProb) && p < |draws|
    requires Plan(schedules, keys, draws, crossoverProb, mutationProb, tasks, vms, std, want, scores)
    ensures fresh(child1) && fresh(child2) && child1 != child2
    ensures child1.schedule == want[2 * p] && child1.objs == Some(scores[2 * p])
    ensures child2.schedule == want[2 * p + 1] && child2.objs == Some(scores[2 * p + 1])
  {
    child1, child2 := Breed(population, schedules, keys, tasks, vms, std, draws[p], crossoverProb, mutationProb);
    assert PassYields(schedules, keys, draws, p, crossoverProb, mutationProb, tasks, vms, std, want, scores);
  }

  /** `schedules` and `keys` list the members' schedules and tournament keys. */
  ghost predicate Snapshot(population: seq<Individual>, schedules: seq<seq<int>>, keys: seq<Key>)
    reads population
  {
    && |schedules| == |population| && |keys| == |population|
    && forall q :: 0 <= q < |population| ==> schedules[q] == population[q].schedule && keys[q] == KeyOf(population[q])
  }

  /** The offspring loop: `popSize` fresh children, the first `popSize`
      schedules of the plan (the brood of all passes, by PlanIsBrood), each
      carrying its evaluation. */
  method MakeOffspring(population: seq<Individual>, ghost schedules: seq<seq<int>>, ghost keys: seq<Key>,
                       tasks: seq<Task>, vms: seq<VM>, std: seq<real> -> real,
                       popSize: nat, crossoverProb: real, mutationProb: real, draws: seq<PairDraws>)
    returns (offspring: seq<Individual>, ghost want: seq<seq<int>>, ghost scores: seq<Objectives>)
    requires |vms| > 0 && |population| == popSize && Snapshot(population, schedules, keys)
    requires Genomes(schedules, |tasks|, |vms|) && Uniform(keys)
    requires |draws| == (popSize + 1) / 2 && ValidDraws(draws, popSize, |tasks|, |vms|, crossoverProb)
    ensures Plan(schedules, keys, draws, crossoverProb, mutationProb, tasks, vms, std, want, scores)
    ensures |offspring| == popSize && Distinct(offspring)
    ensures forall q :: 0 <= q < popSize ==> fresh(offspring[q])
    ensures forall q :: 0 <= q < popSize ==> offspring[q].schedule == want[q] && offspring[q].objs == Some(scores[q])
  {
    want, scores := PlanExists(schedules, keys, draws, crossoverProb, mutationProb, tasks, vms, std);
    offspring := [];
    var p := 0;
    while |offspring| < popSize
      invariant p <= |draws| && |offspring| == if 2 * p <= popSize then 2 * p else popSize
      invariant Distinct(offspring)
      invariant forall q :: 0 <= q < |offspring| ==> fresh(offspring[q])
      invariant forall q :: 0 <= q < |offspring| ==> offspring[q].schedule == want[q] && offspring[q].objs == Some(scores[q])
      decreases popSize - |offspring|
    {
      var child1, child2 := BreedPass(population, schedules, keys, tasks, vms, std, draws, p, crossoverProb, mutationProb, want, scores);
      offspring := offspring + [child1];
      if |offspring| < popSize {
        offspring := offspring + [child2];
      }
      p := p + 1;
    }
  }
}
