/** The variation operators of the optimiser: binary tournament selection,
    single-point crossover, per-gene mutation and the random initial
    population. Every random draw is a parameter: `random.sample` becomes
    two distinct positions, `random.random()` a real in [0, 1), and
    `random.randint(a, b)` an integer in [a, b]. */
module Operators {
  import opened Models

  /** The tournament key `(rank, -crowding_distance)`. */
  datatype Key = Key(rank: Option<nat>, crowding: Distance)

  function KeyOf(ind: Individual): Key
    reads ind
  {
    Key(ind.rank, ind.crowding)
  }

  /** Python can compare the two keys: both ranks are None or both are
      integers (None against an int raises TypeError). */
  predicate Comparable(a: Key, b: Key) {
    a.rank.None? == b.rank.None?
  }

  /** `x > y` on crowding distances, with inf above every finite value. */
  predicate Wider(x: Distance, y: Distance) {
    (x.Inf? && y.Fin?) || (x.Fin? && y.Fin? && x.value > y.value)
  }

  /** Python's tuple order on `(rank, -crowding)`: the rank decides first,
      equal ranks (None equals None) fall through to the larger crowding. */
  predicate KeyLess(a: Key, b: Key)
    requires Comparable(a, b)
  {
    if a.rank.Some? && a.rank != b.rank then a.rank.value < b.rank.value
    else Wider(a.crowding, b.crowding)
  }

  /** The key order is a strict order: never `a < a`, never both ways. */
  lemma KeyLessStrict(a: Key, b: Key)
    requires Comparable(a, b)
    ensures !KeyLess(a, a)
    ensures KeyLess(a, b) ==> !KeyLess(b, a)
  {
  }

  /** A lower rank always wins; with equal ranks the wider crowding wins. */
  lemma KeyLessMeaning(a: Key, b: Key)
    requires Comparable(a, b)
    ensures a.rank.Some? && a.rank.value < b.rank.value ==> KeyLess(a, b)
    ensures a.rank == b.rank ==> (KeyLess(a, b) <==> Wider(a.crowding, b.crowding))
  {
  }

  /** The position that wins a tournament between positions i (sampled
      first) and j with keys ki and kj: j only with a strictly smaller key. */
  function Pick(i: nat, j: nat, ki: Key, kj: Key): nat
    requires Comparable(ki, kj)
  {
    if KeyLess(kj, ki) then j else i
  }

  /** The picked position is one of the two, and neither key is smaller
      than the winner's. */
  lemma PickWins(i: nat, j: nat, ki: Key, kj: Key)
    requires i != j && Comparable(ki, kj)
    ensures var r := Pick(i, j, ki, kj);
            && (r == i || r == j)
            && !KeyLess(ki, if r == i then ki else kj) && !KeyLess(kj, if r == i then ki else kj)
  {
    KeyLessStrict(ki, kj);
    KeyLessStrict(kj, ki);
  }

  /** tournament_selection: the two sampled candidates (positions i and j,
      i sampled first) are sorted stably by key and the first is returned, so
      the second candidate wins only with a strictly smaller key. */
  method TournamentSelection(population: seq<Individual>, i: nat, j: nat) returns (winner: Individual)
    requires i < |population| && j < |population| && i != j
    requires Comparable(KeyOf(population[i]), KeyOf(population[j]))
    ensures winner == population[i] || winner == population[j]
    ensures !KeyLess(KeyOf(population[i]), KeyOf(winner)) && !KeyLess(KeyOf(population[j]), KeyOf(winner))
    ensures winner != population[i] ==> KeyLess(KeyOf(population[j]), KeyOf(population[i]))
    ensures winner == population[Pick(i, j, KeyOf(population[i]), KeyOf(population[j]))]
  {
    var first := population[i];
    var second := population[j];
    KeyLessStrict(KeyOf(first), KeyOf(second));
    if KeyLess(KeyOf(second), KeyOf(first)) {
      winner := second;
    } else {
      winner := first;
    }
  }

  /** Python's `s[:k]` for k >= 0: the first k genes, or all of them. */
  function Take(s: seq<int>, k: nat): (r: seq<int>)
    ensures |r| == if k <= |s| then k else |s|
    ensures forall t :: 0 <= t < |r| ==> r[t] == s[t]
  {
    if k <= |s| then s[..k] else s
  }

  /** Python's `s[k:]` for k >= 0: the genes from k on, or none. */
  function Drop(s: seq<int>, k: nat): (r: seq<int>)
    ensures |r| == if k <= |s| then |s| - k else 0
    ensures forall t :: 0 <= t < |r| ==> r[t] == s[k + t]
  {
    if k <= |s| then s[k..] else []
  }

  /** The child schedule `a[:point] + b[point:]`. */
  function Recombine(a: seq<int>, b: seq<int>, point: nat): seq<int> {
    Take(a, point) + Drop(b, point)
  }

  /** For parents of equal length, the child takes gene t from the first
      parent before the cut and from the second from the cut on. */
  lemma RecombineGenes(a: seq<int>, b: seq<int>, point: nat)
    requires |a| == |b| && point <= |a|
    ensures |Recombine(a, b, point)| == |a|
    ensures forall t :: 0 <= t < |a| ==> Recombine(a, b, point)[t] == if t < point then a[t] else b[t]
  {
  }

  /** The two children of equal-length parents hold exactly the parents'
      genes between them, position by position. */
  lemma RecombineSwaps(a: seq<int>, b: seq<int>, point: nat)
    requires |a| == |b| && point <= |a|
    ensures multiset(Recombine(a, b, point)) + multiset(Recombine(b, a, point)) == multiset(a) + multiset(b)
  {
    assert a == a[..point] + a[point..];
    assert b == b[..point] + b[point..];
  }

  /** Children of parents whose genes are VM indices have VM indices as genes. */
  lemma RecombineInRange(a: seq<int>, b: seq<int>, point: nat, numVms: int)
    requires GenesInRange(a, numVms) && GenesInRange(b, numVms)
    ensures GenesInRange(Recombine(a, b, point), numVms)
  {
    var r := Recombine(a, b, point);
    forall t | 0 <= t < |r|
      ensures 0 <= r[t] < numVms
    {
      if t >= |Take(a, point)| {
        assert r[t] == Drop(b, point)[t - |Take(a, point)|];
      }
    }
  }

  /** crossover: two fresh copies of the parents; when the draw falls below
      the crossover probability, their schedules are cut at `point` (drawn
      from [1, len(parent1) - 1]) and the tails swapped. */
  method Crossover(parent1: Individual, parent2: Individual, crossoverProb: real, draw: real, point: int)
    returns (child1: Individual, child2: Individual)
    requires draw < crossoverProb ==> 1 <= point <= |parent1.schedule| - 1
    ensures fresh(child1) && fresh(child2) && child1 != child2
    ensures draw < crossoverProb ==>
      child1.schedule == Recombine(parent1.schedule, parent2.schedule, point) &&
      child2.schedule == Recombine(parent2.schedule, parent1.schedule, point)
    ensures draw >= crossoverProb ==> child1.schedule == parent1.schedule && child2.schedule == parent2.schedule
    ensures child1.objs == parent1.objs && child1.rank == parent1.rank && child1.crowding == parent1.crowding
    ensures child2.objs == parent2.objs && child2.rank == parent2.rank && child2.crowding == parent2.crowding
  {
    child1 := parent1.Copy();
    child2 := parent2.Copy();
    if draw < crossoverProb {
      child1.schedule := Recombine(parent1.schedule, parent2.schedule, point);
      child2.schedule := Recombine(parent2.schedule, parent1.schedule, point);
    }
  }

  /** The schedule after mutation: gene t becomes `genes[t]` exactly when
      its draw falls below the mutation probability. */
  function Mutated(s: seq<int>, mutationProb: real, draws: seq<real>, genes: seq<int>): (r: seq<int>)
    requires |draws| == |s| && |genes| == |s|
    ensures |r| == |s|
  {
    seq(|s|, t requires 0 <= t < |s| => if draws[t] < mutationProb then genes[t] else s[t])
  }

  /** Mutation changes only drawn genes, and keeps every gene a VM index
      when the replacements are VM indices. */
  lemma MutatedGenes(s: seq<int>, mutationProb: real, draws: seq<real>, genes: seq<int>, numVms: int)
    requires |draws| == |s| && |genes| == |s|
    ensures forall t :: 0 <= t < |s| && draws[t] >= mutationProb ==> Mutated(s, mutationProb, draws, genes)[t] == s[t]
    ensures GenesInRange(s, numVms) && (forall t :: 0 <= t < |s| && draws[t] < mutationProb ==> 0 <= genes[t] < numVms) ==>
      GenesInRange(Mutated(s, mutationProb, draws, genes), numVms)
  {
  }

  /** Every draw at or above the mutation probability leaves the schedule alone. */
  lemma NoDrawNoChange(s: seq<int>, mutationProb: real, draws: seq<real>, genes: seq<int>)
    requires |draws| == |s| && |genes| == |s|
    requires forall t :: 0 <= t < |s| ==> draws[t] >= mutationProb
    ensures Mutated(s, mutationProb, draws, genes) == s
  {
  }

  /** mutation: walks the schedule and replaces gene t by `genes[t]` (the
      randint draw) when `draws[t]` (the random() draw) is below the
      probability; returns the same individual. */
  method Mutation(individual: Individual, numVms: int, mutationProb: real, draws: seq<real>, genes: seq<int>)
    returns (r: Individual)
    requires |draws| == |individual.schedule| && |genes| == |individual.schedule|
    modifies individual`schedule
    ensures r == individual
    ensures individual.schedule == Mutated(old(individual.schedule), mutationProb, draws, genes)
  {
    ghost var s := individual.schedule;
    for t := 0 to |individual.schedule|
      invariant |individual.schedule| == |s|
      invariant forall u :: 0 <= u < |s| ==>
        individual.schedule[u] == if u < t then Mutated(s, mutationProb, draws, genes)[u] else s[u]
    {
      if draws[t] < mutationProb {
        individual.schedule := individual.schedule[t := genes[t]];
      }
    }
    r := individual;
  }

  /** create_initial_population: `popSize` fresh individuals whose schedule
      p is `genes[p]`, numTasks randint draws from [0, numVms - 1]. */
  method CreateInitialPopulation(popSize: nat, numTasks: nat, numVms: int, genes: seq<seq<int>>)
    returns (population: seq<Individual>)
    requires |genes| == popSize
    requires forall p :: 0 <= p < popSize ==> |genes[p]| == numTasks && GenesInRange(genes[p], numVms)
    ensures |population| == popSize && Distinct(population)
    ensures forall p :: 0 <= p < popSize ==> fresh(population[p])
    ensures forall p :: 0 <= p < popSize ==>
      && population[p].schedule == genes[p]
      && population[p].objs.None? && population[p].rank.None? && population[p].crowding == Fin(0.0)
  {
    population := [];
    for p := 0 to popSize
      invariant |population| == p && Distinct(population)
      invariant forall k :: 0 <= k < p ==> fresh(population[k])
      invariant forall k :: 0 <= k < p ==>
        && population[k].schedule == genes[k]
        && population[k].objs.None? && population[k].rank.None? && population[k].crowding == Fin(0.0)
    {
      var individual := new Individual(genes[p]);
      population := population + [individual];
    }
  }
}
