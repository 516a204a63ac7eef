/** The survivor selection at the end of a generation: the fronts are taken
    whole, in rank order and each in the order its crowding pass left it,
    while they fit; the first front that does not fit is sorted stably by
    decreasing crowding distance and cut to the room that is left. */
module Selection {
  import opened Models
  import opened Ordering
  import opened NonDominatedSort
  import opened Crowding

  /** The truncation sort's order, `key=-crowding_distance`: a may come
      before b when b's distance is at most a's. */
  predicate Descending(a: Distance, b: Distance) {
    b.AtMost(a)
  }

  lemma DescendingTotal(keys: seq<Distance>)
    ensures TotalPreorder(keys, Descending)
  {
  }

  /** The distances of a front's members in the list order the crowding
      passes leave. */
  function ListedDistances(os: seq<Objectives>): (r: seq<Distance>)
    ensures |r| == |os|
  {
    Arrange(Dist(os, NumObjectives), Order(os, NumObjectives))
  }

  /** The positions of a front in the order of the truncation sort. */
  function TruncationOrder(os: seq<Objectives>): (r: seq<nat>)
    ensures |r| == |os| && forall i :: 0 <= i < |r| ==> r[i] < |os|
  {
    Arrange(Order(os, NumObjectives), StableOrder(ListedDistances(os), Descending))
  }

  /** Each front comes with one entry per member. */
  predicate Shaped<T>(fronts: seq<seq<Individual>>, fos: seq<seq<T>>) {
    |fos| == |fronts| && forall k :: 0 <= k < |fronts| ==> |fos[k]| == |fronts[k]|
  }

  /** No individual occurs twice in the fronts, within a front or across two. */
  predicate Separate(fronts: seq<seq<Individual>>) {
    forall k, i, k', j ::
      && 0 <= k < |fronts| && 0 <= i < |fronts[k]| && 0 <= k' < |fronts| && 0 <= j < |fronts[k']|
      && fronts[k][i] == fronts[k'][j]
      ==> k == k' && i == j
  }

  /** Every individual of every front. */
  function Members(fronts: seq<seq<Individual>>): set<Individual> {
    set k, i | 0 <= k < |fronts| && 0 <= i < |fronts[k]| :: fronts[k][i]
  }

  /** Every front in the order its crowding pass leaves it. */
  function Listed(fronts: seq<seq<Individual>>, fos: seq<seq<Objectives>>): (r: seq<seq<Individual>>)
    requires Shaped(fronts, fos)
    ensures Shaped(fronts, r)
  {
    seq(|fronts|, k requires 0 <= k < |fronts| => Arrange(fronts[k], Order(fos[k], NumObjectives)))
  }

  /** Every front in the order of the truncation sort that follows its pass. */
  function Truncated(fronts: seq<seq<Individual>>, fos: seq<seq<Objectives>>): (r: seq<seq<Individual>>)
    requires Shaped(fronts, fos)
    ensures Shaped(fronts, r)
  {
    seq(|fronts|, k requires 0 <= k < |fronts| => Arrange(fronts[k], TruncationOrder(fos[k])))
  }

  /** The new population after the fronts from k on are added to `acc`:
      whole fronts (as `listed`) while they fit in `popSize`, then the head
      of the first misfit (as `truncated`) up to `popSize`. */
  function Fill(listed: seq<seq<Individual>>, truncated: seq<seq<Individual>>, k: nat,
                acc: seq<Individual>, popSize: nat): seq<Individual>
    requires Shaped(listed, truncated) && k <= |listed| && |acc| <= popSize
    decreases |listed| - k
  {
    if k == |listed| then acc
    else if |acc| + |listed[k]| <= popSize then Fill(listed, truncated, k + 1, acc + listed[k], popSize)
    else acc + truncated[k][..popSize - |acc|]
  }

  /** The end of the fronts that get a crowding pass, from front k on with
      `used` places taken: every front that fits, and the first that does not. */
  function PassEnd<T>(fronts: seq<seq<T>>, k: nat, used: nat, popSize: nat): (e: nat)
    requires k <= |fronts|
    ensures k <= e <= |fronts|
    decreases |fronts| - k
  {
    if k == |fronts| then k
    else if used + |fronts[k]| <= popSize then PassEnd(fronts, k + 1, used + |fronts[k]|, popSize)
    else k + 1
  }

  /** The new population chosen from the fronts `fronts` with triples `fos`. */
  function NewPopulation(fronts: seq<seq<Individual>>, fos: seq<seq<Objectives>>, popSize: nat): seq<Individual>
    requires Shaped(fronts, fos)
  {
    Fill(Listed(fronts, fos), Truncated(fronts, fos), 0, [], popSize)
  }

  /** The crowding distances of the members, in list order. */
  function Crowdings(s: seq<Individual>): (r: seq<Distance>)
    reads s`crowding
    ensures |r| == |s| && forall i :: 0 <= i < |s| ==> r[i] == s[i].crowding
  {
    if s == [] then [] else Crowdings(s[..|s| - 1]) + [s[|s| - 1].crowding]
  }

  /** The members of every front carry the triples `fos`. */
  ghost predicate Carrying(fronts: seq<seq<Individual>>, fos: seq<seq<Objectives>>)
    reads Members(fronts)`objs
    requires Shaped(fronts, fos)
  {
    forall k, i :: 0 <= k < |fronts| && 0 <= i < |fronts[k]| ==> fronts[k][i].objs == Some(fos[k][i])
  }

  /** Front k of a carrying list is evaluated and its triples are `fos[k]`. */
  lemma FrontCarries(fronts: seq<seq<Individual>>, fos: seq<seq<Objectives>>, k: nat)
    requires Shaped(fronts, fos) && Carrying(fronts, fos) && k < |fronts|
    ensures Evaluated(fronts[k]) && ObjectivesOf(fronts[k]) == fos[k]
  {
    assert forall i :: 0 <= i < |fronts[k]| ==> fronts[k][i] in Members(fronts);
  }

  /** The crowding distance of every member of every front. */
  ghost function CrowdingTable(fronts: seq<seq<Individual>>): (r: seq<seq<Distance>>)
    reads Members(fronts)
    ensures Shaped(fronts, r) && forall k, i :: 0 <= k < |fronts| && 0 <= i < |fronts[k]| ==> r[k][i] == fronts[k][i].crowding
  {
    seq(|fronts|, k requires 0 <= k < |fronts| reads Members(fronts) =>
      assert forall i :: 0 <= i < |fronts[k]| ==> fronts[k][i] in Members(fronts);
      Crowdings(fronts[k]))
  }

  /** The fronts before c hold their `Dist` distances. */
  ghost predicate CrowdedBelow(fronts: seq<seq<Individual>>, fos: seq<seq<Objectives>>, c: nat)
    reads Members(fronts)`crowding
  {
    && Shaped(fronts, fos) && c <= |fronts|
    && forall k, i :: 0 <= k < c && 0 <= i < |fronts[k]| ==> fronts[k][i].crowding == Dist(fos[k], NumObjectives)[i]
  }

  /** The fronts from c on hold the distances `before`. */
  ghost predicate UntouchedFrom(fronts: seq<seq<Individual>>, c: nat, before: seq<seq<Distance>>)
    reads Members(fronts)`crowding
  {
    && Shaped(fronts, before) && c <= |fronts|
    && forall k, i :: c <= k < |fronts| && 0 <= i < |fronts[k]| ==> fronts[k][i].crowding == before[k][i]
  }

  /** The survivor loop after k fronts: `newPop` followed by what the rest
      of the fronts contribute, with the room left, is the whole result. */
  predicate Progress(fronts: seq<seq<Individual>>, listed: seq<seq<Individual>>, truncated: seq<seq<Individual>>,
                     popSize: nat, k: nat, newPop: seq<Individual>)
  {
    && Shaped(fronts, listed) && Shaped(listed, truncated)
    && k <= |fronts| && |newPop| <= popSize
    && Fill(listed, truncated, k, newPop, popSize) == Fill(listed, truncated, 0, [], popSize)
    && PassEnd(fronts, k, |newPop|, popSize) == PassEnd(fronts, 0, 0, popSize)
  }

  /** The outcome of the survivor loop: the new population is
      `NewPopulation`, the fronts that got a pass hold their `Dist`
      distances and the others still hold `before`. */
  ghost predicate Selected(fronts: seq<seq<Individual>>, fos: seq<seq<Objectives>>, popSize: nat,
                           newPop: seq<Individual>, before: seq<seq<Distance>>)
    reads Members(fronts)`crowding
  {
    && Shaped(fronts, fos)
    && newPop == NewPopulation(fronts, fos, popSize)
    && CrowdedBelow(fronts, fos, PassEnd(fronts, 0, 0, popSize))
    && UntouchedFrom(fronts, PassEnd(fronts, 0, 0, popSize), before)
  }

  /** The loop over the fronts: each front in turn gets its crowding pass;
      it is appended whole when it fits, otherwise it is sorted by
      decreasing distance, the room left is filled from its head and the
      loop stops. */
  method SelectSurvivors(fronts: seq<seq<Individual>>, popSize: nat, ghost fos: seq<seq<Objectives>>)
    returns (newPop: seq<Individual>)
    requires Shaped(fronts, fos) && Separate(fronts) && Carrying(fronts, fos)
    modifies Members(fronts)`crowding
    ensures Selected(fronts, fos, popSize, newPop, old(CrowdingTable(fronts)))
  {
    ghost var before := CrowdingTable(fronts);
    ghost var listed := Listed(fronts, fos);
    ghost var truncated := Truncated(fronts, fos);
    newPop := [];
    var k := 0;
    while k < |fronts|
      invariant Progress(fronts, listed, truncated, popSize, k, newPop)
      invariant Carrying(fronts, fos) && CrowdedBelow(fronts, fos, k) && UntouchedFrom(fronts, k, before)
      decreases |fronts| - k
    {
      FrontCarries(fronts, fos, k);
      var sorted := CrowdFront(fronts, fos, listed, k, before);
      if |newPop| + |sorted| <= popSize {
        FillStep(fronts, listed, truncated, popSize, k, newPop);
        newPop := newPop + sorted;
      } else {
        FillCut(fronts, listed, truncated, popSize, k, newPop);
        var keys := Crowdings(sorted);
        var so := StableOrder(keys, Descending);
        ArrangeTwice(fronts[k], Order(fos[k], NumObjectives), so);
        var ordered := Arrange(sorted, so);
        assert ordered == truncated[k];
        newPop := newPop + ordered[..popSize - |newPop|];
        return;
      }
      k := k + 1;
    }
  }

  /** The crowding pass of the loop on front k: it returns the front in
      listed order, gives its members their `Dist` distances and touches
      no other front. */
  method CrowdFront(fronts: seq<seq<Individual>>, ghost fos: seq<seq<Objectives>>,
                    ghost listed: seq<seq<Individual>>, k: nat, ghost before: seq<seq<Distance>>)
    returns (sorted: seq<Individual>)
    requires Shaped(fronts, fos) && Separate(fronts) && k < |fronts|
    requires Evaluated(fronts[k]) && ObjectivesOf(fronts[k]) == fos[k]
    requires listed == Listed(fronts, fos)
    requires CrowdedBelow(fronts, fos, k) && UntouchedFrom(fronts, k, before)
    modifies fronts[k]`crowding
    ensures sorted == listed[k] && Crowdings(sorted) == ListedDistances(fos[k])
    ensures CrowdedBelow(fronts, fos, k + 1) && UntouchedFrom(fronts, k + 1, before)
  {
    var front := fronts[k];
    ghost var table := CrowdingTable(fronts);
    assert forall k', i :: 0 <= k' < k && 0 <= i < |fronts[k']| ==> table[k'][i] == Dist(fos[k'], NumObjectives)[i];
    assert forall k', i :: k <= k' < |fronts| && 0 <= i < |fronts[k']| ==> table[k'][i] == before[k'][i];
    sorted := PassOn(fronts, k);
    ListedCrowdings(front, sorted, fos[k]);
    Recrowded(fronts, fos, k, before, table);
  }

  /** The crowding pass on front k, seen from the list of fronts: only the
      members of front k change. */
  method PassOn(fronts: seq<seq<Individual>>, k: nat) returns (sorted: seq<Individual>)
    requires Separate(fronts) && k < |fronts| && Evaluated(fronts[k])
    modifies fronts[k]`crowding
    ensures PassesDone(fronts[k], sorted, old(ObjectivesOf(fronts[k])), NumObjectives)
    ensures forall k', i :: 0 <= k' < |fronts| && k' != k && 0 <= i < |fronts[k']| ==>
      fronts[k'][i].crowding == old(fronts[k'][i].crowding)
  {
    assert Distinct(fronts[k]);
    sorted := CrowdingDistanceAssignment(fronts[k]);
    forall k', i | 0 <= k' < |fronts| && k' != k && 0 <= i < |fronts[k']|
      ensures fronts[k'][i].crowding == old(fronts[k'][i].crowding)
    {
      assert fronts[k'][i] !in fronts[k];
    }
  }

  /** After a pass, the listed members carry the listed distances. */
  lemma ListedCrowdings(front: seq<Individual>, sorted: seq<Individual>, os: seq<Objectives>)
    requires PassesDone(front, sorted, os, NumObjectives)
    ensures Crowdings(sorted) == ListedDistances(os)
  {
    var order := Order(os, NumObjectives);
    OrderPermutation(os, NumObjectives);
    assert forall i :: 0 <= i < |sorted| ==> sorted[i] == front[order[i]];
  }

  /** A pass on front k alone keeps the loop's picture of the distances:
      `table` held them before the pass; now front k holds its `Dist`
      distances and every other front is as it was. */
  lemma Recrowded(fronts: seq<seq<Individual>>, fos: seq<seq<Objectives>>, k: nat,
                  before: seq<seq<Distance>>, table: seq<seq<Distance>>)
    requires Shaped(fronts, fos) && Shaped(fronts, before) && Shaped(fronts, table) && k < |fronts|
    requires forall k', i :: 0 <= k' < k && 0 <= i < |fronts[k']| ==> table[k'][i] == Dist(fos[k'], NumObjectives)[i]
    requires forall k', i :: k <= k' < |fronts| && 0 <= i < |fronts[k']| ==> table[k'][i] == before[k'][i]
    requires forall k', i :: 0 <= k' < |fronts| && k' != k && 0 <= i < |fronts[k']| ==> fronts[k'][i].crowding == table[k'][i]
    requires forall i :: 0 <= i < |fronts[k]| ==> fronts[k][i].crowding == Dist(fos[k], NumObjectives)[i]
    ensures CrowdedBelow(fronts, fos, k + 1) && UntouchedFrom(fronts, k + 1, before)
  {
  }

  /** A front that fits is appended whole and the loop moves on. */
  lemma FillStep(fronts: seq<seq<Individual>>, listed: seq<seq<Individual>>, truncated: seq<seq<Individual>>,
                 popSize: nat, k: nat, newPop: seq<Individual>)
    requires Progress(fronts, listed, truncated, popSize, k, newPop) && k < |fronts|
    requires |newPop| + |listed[k]| <= popSize
    ensures Progress(fronts, listed, truncated, popSize, k + 1, newPop + listed[k])
  {
  }

  /** A front that does not fit ends the new population with the head of
      its truncation order, and it is the last front to get a pass. */
  lemma FillCut(fronts: seq<seq<Individual>>, listed: seq<seq<Individual>>, truncated: seq<seq<Individual>>,
                popSize: nat, k: nat, newPop: seq<Individual>)
    requires Progress(fronts, listed, truncated, popSize, k, newPop) && k < |fronts|
    requires |newPop| + |listed[k]| > popSize
    ensures newPop + truncated[k][..popSize - |newPop|] == Fill(listed, truncated, 0, [], popSize)
    ensures PassEnd(fronts, 0, 0, popSize) == k + 1
  {
  }

  // ---- what the new population is -----------------------------------------

  /** `xs` in a permuted order holds the same members. */
  lemma ArrangeMembers<T>(xs: seq<T>, ord: seq<nat>)
    requires PermutationOf(ord, |xs|)
    ensures forall i :: 0 <= i < |ord| ==> ord[i] < |xs|
    ensures forall x :: x in Arrange(xs, ord) <==> x in xs
  {
    PermutationBelow(ord, |xs|);
    var r := Arrange(xs, ord);
    forall x | x in xs
      ensures x in r
    {
      var q :| 0 <= q < |xs| && xs[q] == x;
      var p := IndexOf(ord, q);
      assert r[p] == x;
    }
  }

  /** The truncation sort permutes the front and lists it by decreasing
      crowding distance: a later position never has a larger distance. */
  lemma TruncationSorted(os: seq<Objectives>)
    ensures PermutationOf(TruncationOrder(os), |os|)
    ensures forall p, p' :: 0 <= p < p' < |os| ==>
      Dist(os, NumObjectives)[TruncationOrder(os)[p']].AtMost(Dist(os, NumObjectives)[TruncationOrder(os)[p]])
  {
    var ord := Order(os, NumObjectives);
    OrderPermutation(os, NumObjectives);
    PermutationBelow(ord, |os|);
    SortedByDistance(ord, Dist(os, NumObjectives));
  }

  /** Sorting the distances listed in the permuted order `ord` by
      decreasing value yields a permutation along which no distance grows. */
  lemma SortedByDistance(ord: seq<nat>, d: seq<Distance>)
    requires PermutationOf(ord, |d|) && forall i :: 0 <= i < |ord| ==> ord[i] < |d|
    ensures var t := Arrange(ord, StableOrder(Arrange(d, ord), Descending));
      && PermutationOf(t, |d|)
      && forall p, p' :: 0 <= p < p' < |d| ==> d[t[p']].AtMost(d[t[p]])
  {
    var keys := Arrange(d, ord);
    DescendingTotal(keys);
    StableOrderCorrect(keys, Descending);
    var so := StableOrder(keys, Descending);
    ArrangePermutation(ord, so, |d|);
    var t := Arrange(ord, so);
    assert forall p :: 0 <= p < |d| ==> keys[so[p]] == d[t[p]];
  }

  /** Each front of `versions` lists the members of the same front of
      `fronts`, without repeats. */
  ghost predicate Reorders(fronts: seq<seq<Individual>>, versions: seq<seq<Individual>>) {
    && Shaped(fronts, versions)
    && forall k :: 0 <= k < |fronts| ==>
         && Distinct(versions[k])
         && (forall i :: 0 <= i < |versions[k]| ==> versions[k][i] in fronts[k])
         && (forall i :: 0 <= i < |fronts[k]| ==> fronts[k][i] in versions[k])
  }

  /** The listed and the truncation orders reorder separate fronts. */
  lemma ListedReorders(fronts: seq<seq<Individual>>, fos: seq<seq<Objectives>>)
    requires Shaped(fronts, fos) && Separate(fronts)
    ensures Reorders(fronts, Listed(fronts, fos)) && Reorders(fronts, Truncated(fronts, fos))
  {
    var listed := Listed(fronts, fos);
    var truncated := Truncated(fronts, fos);
    forall k | 0 <= k < |fronts|
      ensures FrontReorders(fronts[k], listed[k]) && FrontReorders(fronts[k], truncated[k])
    {
      assert Distinct(fronts[k]);
      assert listed[k] == Arrange(fronts[k], Order(fos[k], NumObjectives));
      assert truncated[k] == Arrange(fronts[k], TruncationOrder(fos[k]));
      FrontReordered(fronts[k], fos[k]);
    }
    ReordersIntro(fronts, listed);
    ReordersIntro(fronts, truncated);
  }

  /** Front by front, `version` holds the individuals of `front`, each once. */
  ghost predicate FrontReorders(front: seq<Individual>, version: seq<Individual>) {
    && Distinct(version)
    && (forall i :: 0 <= i < |version| ==> version[i] in front)
    && (forall i :: 0 <= i < |front| ==> front[i] in version)
  }

  /** Reorders holds once every front is reordered on its own. */
  lemma ReordersIntro(fronts: seq<seq<Individual>>, versions: seq<seq<Individual>>)
    requires |versions| == |fronts|
    requires forall k :: 0 <= k < |fronts| ==> |versions[k]| == |fronts[k]| && FrontReorders(fronts[k], versions[k])
    ensures Reorders(fronts, versions)
  {
  }

  /** One front in either order holds the same distinct individuals. */
  lemma FrontReordered(front: seq<Individual>, os: seq<Objectives>)
    requires |os| == |front| && Distinct(front)
    ensures FrontReorders(front, Arrange(front, Order(os, NumObjectives)))
    ensures FrontReorders(front, Arrange(front, TruncationOrder(os)))
  {
    OrderPermutation(os, NumObjectives);
    ArrangeReorders(front, Order(os, NumObjectives));
    assert PermutationOf(TruncationOrder(os), |os|) by { TruncationSorted(os); }
    ArrangeReorders(front, TruncationOrder(os));
  }

  /** Arranging distinct individuals by a permutation reorders them. */
  lemma ArrangeReorders(front: seq<Individual>, ord: seq<nat>)
    requires PermutationOf(ord, |front|) && Distinct(front)
    ensures forall i :: 0 <= i < |ord| ==> ord[i] < |front|
    ensures FrontReorders(front, Arrange(front, ord))
  {
    ArrangeMembers(front, ord);
    ArrangeDistinct(front, ord);
  }

  /** Reordering the fronts of a separate list keeps it separate. */
  lemma ReordersSeparate(fronts: seq<seq<Individual>>, versions: seq<seq<Individual>>)
    requires Separate(fronts) && Reorders(fronts, versions)
    ensures Separate(versions)
  {
    forall k, i, k', j | 0 <= k < |versions| && 0 <= i < |versions[k]| && 0 <= k' < |versions| && 0 <= j < |versions[k']|
                         && versions[k][i] == versions[k'][j]
      ensures k == k' && i == j
    {
      var x := versions[k][i];
      assert x in versions[k] && x in versions[k'];
      var a :| 0 <= a < |fronts[k]| && fronts[k][a] == x;
      var b :| 0 <= b < |fronts[k']| && fronts[k'][b] == x;
    }
  }

  /** The first front from k on that does not fit once `used` places are
      taken, or the number of fronts when they all fit. */
  function Cut<T>(fronts: seq<seq<T>>, k: nat, used: nat, popSize: nat): (c: nat)
    requires k <= |fronts|
    ensures k <= c <= |fronts|
    decreases |fronts| - k
  {
    if k == |fronts| then k
    else if used + |fronts[k]| <= popSize then Cut(fronts, k + 1, used + |fronts[k]|, popSize)
    else k
  }

  /** The places left for the first front that does not fit. */
  function Room<T>(fronts: seq<seq<T>>, k: nat, used: nat, popSize: nat): nat
    requires k <= |fronts| && used <= popSize
    decreases |fronts| - k
  {
    if k == |fronts| then popSize - used
    else if used + |fronts[k]| <= popSize then Room(fronts, k + 1, used + |fronts[k]|, popSize)
    else popSize - used
  }

  /** The new population holds `acc`, every front before the cut, and the
      head of the cut front's truncation order that fills the room. */
  lemma {:induction false} FillMembers(listed: seq<seq<Individual>>, truncated: seq<seq<Individual>>, k: nat,
                                       acc: seq<Individual>, popSize: nat, x: Individual)
    requires Shaped(listed, truncated) && k <= |listed| && |acc| <= popSize
    ensures Cut(listed, k, |acc|, popSize) < |listed| ==>
      Room(listed, k, |acc|, popSize) < |truncated[Cut(listed, k, |acc|, popSize)]|
    ensures x in Fill(listed, truncated, k, acc, popSize) <==>
      || x in acc
      || (exists j :: k <= j < Cut(listed, k, |acc|, popSize) && x in listed[j])
      || (Cut(listed, k, |acc|, popSize) < |listed| &&
          x in truncated[Cut(listed, k, |acc|, popSize)][..Room(listed, k, |acc|, popSize)])
    decreases |listed| - k
  {
    if k < |listed| && |acc| + |listed[k]| <= popSize {
      FillMembers(listed, truncated, k + 1, acc + listed[k], popSize, x);
      if x in listed[k] {
        assert k < Cut(listed, k, |acc|, popSize);
      }
    }
  }

  /** Two lists without repeats and without common members concatenate to
      a list without repeats. */
  lemma DistinctConcat(a: seq<Individual>, b: seq<Individual>)
    requires Distinct(a) && Distinct(b) && forall x :: x in a ==> x !in b
    ensures Distinct(a + b)
  {
    var ab := a + b;
    forall i, j | 0 <= i < j < |ab|
      ensures ab[i] != ab[j]
    {
      if i < |a| && j >= |a| {
        assert ab[i] in a && ab[j] == b[j - |a|];
      }
    }
  }

  /** From separate fronts, whose truncation orders list the same members,
      the new population repeats nobody. */
  lemma {:induction false} FillDistinct(listed: seq<seq<Individual>>, truncated: seq<seq<Individual>>, k: nat,
                                        acc: seq<Individual>, popSize: nat)
    requires Shaped(listed, truncated) && k <= |listed| && |acc| <= popSize
    requires Separate(listed) && Distinct(acc)
    requires forall j :: k <= j < |listed| ==> Distinct(truncated[j]) && forall x :: x in truncated[j] ==> x in listed[j]
    requires forall j, x :: k <= j < |listed| && x in listed[j] ==> x !in acc
    ensures Distinct(Fill(listed, truncated, k, acc, popSize))
    decreases |listed| - k
  {
    if k == |listed| {
    } else if |acc| + |listed[k]| <= popSize {
      assert Distinct(listed[k]);
      DistinctConcat(acc, listed[k]);
      forall j, x | k + 1 <= j < |listed| && x in listed[j]
        ensures x !in acc + listed[k]
      {
        if x in listed[k] {
          assert false;
        }
      }
      FillDistinct(listed, truncated, k + 1, acc + listed[k], popSize);
    } else {
      var head := truncated[k][..popSize - |acc|];
      assert forall x :: x in head ==> x in truncated[k];
      DistinctConcat(acc, head);
    }
  }

  /** The summed sizes of the fronts from k on. */
  function Size<T>(fronts: seq<seq<T>>, k: nat): nat
    requires k <= |fronts|
    decreases |fronts| - k
  {
    if k == |fronts| then 0 else |fronts[k]| + Size(fronts, k + 1)
  }

  /** The sizes from k on and those before k add up to the total size. */
  lemma {:induction false} SizeTotal<T>(fronts: seq<seq<T>>, k: nat)
    requires k <= |fronts|
    ensures Size(fronts, k) + TotalLength(fronts[..k]) == TotalLength(fronts)
    decreases |fronts| - k
  {
    if k == |fronts| {
      assert fronts[..k] == fronts;
    } else {
      SizeTotal(fronts, k + 1);
      assert fronts[..k + 1][..k] == fronts[..k];
    }
  }

  /** Lists of fronts of the same shape have the same sizes. */
  lemma {:induction false} ShapedSize(fronts: seq<seq<Individual>>, versions: seq<seq<Individual>>, k: nat)
    requires Shaped(fronts, versions) && k <= |fronts|
    ensures Size(fronts, k) == Size(versions, k)
    decreases |fronts| - k
  {
    if k < |fronts| {
      ShapedSize(fronts, versions, k + 1);
    }
  }

  /** The new population has `popSize` members, or all of them when the
      fronts hold fewer. */
  lemma {:induction false} FillLength(listed: seq<seq<Individual>>, truncated: seq<seq<Individual>>, k: nat,
                                      acc: seq<Individual>, popSize: nat)
    requires Shaped(listed, truncated) && k <= |listed| && |acc| <= popSize
    ensures |Fill(listed, truncated, k, acc, popSize)| ==
      if |acc| + Size(listed, k) <= popSize then |acc| + Size(listed, k) else popSize
    decreases |listed| - k
  {
    if k < |listed| && |acc| + |listed[k]| <= popSize {
      FillLength(listed, truncated, k + 1, acc + listed[k], popSize);
    }
  }

  /** The new population has exactly `popSize` members when the fronts
      hold that many, and all of them otherwise. */
  lemma NewPopulationSize(fronts: seq<seq<Individual>>, fos: seq<seq<Objectives>>, popSize: nat)
    requires Shaped(fronts, fos)
    ensures var n := TotalLength(fronts);
            |NewPopulation(fronts, fos, popSize)| == if n <= popSize then n else popSize
  {
    var listed := Listed(fronts, fos);
    FillLength(listed, Truncated(fronts, fos), 0, [], popSize);
    ShapedSize(fronts, listed, 0);
    SizeTotal(fronts, 0);
    assert fronts[..0] == [];
  }

  /** Separate fronts give a new population that repeats nobody. */
  lemma NewPopulationDistinct(fronts: seq<seq<Individual>>, fos: seq<seq<Objectives>>, popSize: nat)
    requires Shaped(fronts, fos) && Separate(fronts)
    ensures Distinct(NewPopulation(fronts, fos, popSize))
  {
    var listed := Listed(fronts, fos);
    var truncated := Truncated(fronts, fos);
    ListedReorders(fronts, fos);
    ReordersSeparate(fronts, listed);
    FillDistinct(listed, truncated, 0, [], popSize);
  }

  /** Every member of the new population is a member of the fronts. */
  lemma NewPopulationMembers(fronts: seq<seq<Individual>>, fos: seq<seq<Objectives>>, popSize: nat)
    requires Shaped(fronts, fos) && Separate(fronts)
    ensures forall x :: x in NewPopulation(fronts, fos, popSize) ==> x in Members(fronts)
  {
    ListedReorders(fronts, fos);
    FillFromFronts(fronts, Listed(fronts, fos), Truncated(fronts, fos), popSize);
  }

  /** Filling from reorderings of the fronts takes members of the fronts only. */
  lemma FillFromFronts(fronts: seq<seq<Individual>>, listed: seq<seq<Individual>>, truncated: seq<seq<Individual>>,
                       popSize: nat)
    requires Reorders(fronts, listed) && Reorders(fronts, truncated)
    ensures forall x :: x in Fill(listed, truncated, 0, [], popSize) ==> x in Members(fronts)
  {
    var c := Cut(listed, 0, 0, popSize);
    var r := Room(listed, 0, 0, popSize);
    forall x | x in Fill(listed, truncated, 0, [], popSize)
      ensures x in Members(fronts)
    {
      FillMembers(listed, truncated, 0, [], popSize, x);
      if c < |listed| && x in truncated[c][..r] {
        var p :| 0 <= p < r && truncated[c][p] == x;
        assert x in fronts[c];
        var i :| 0 <= i < |fronts[c]| && fronts[c][i] == x;
      } else {
        var j :| 0 <= j < c && x in listed[j];
        var p :| 0 <= p < |listed[j]| && listed[j][p] == x;
        assert x in fronts[j];
        var i :| 0 <= i < |fronts[j]| && fronts[j][i] == x;
      }
    }
  }

  /** A member of the fronts is in the new population exactly when its
      front comes before the cut, or it is the cut front and the member is
      among the head of its truncation order. */
  lemma FrontOfMember(fronts: seq<seq<Individual>>, listed: seq<seq<Individual>>, truncated: seq<seq<Individual>>,
                      popSize: nat, k: nat, i: nat)
    requires Separate(fronts) && Reorders(fronts, listed) && Reorders(fronts, truncated)
    requires k < |fronts| && i < |fronts[k]|
    ensures Shaped(listed, truncated)
    ensures Cut(listed, 0, 0, popSize) < |listed| ==> Room(listed, 0, 0, popSize) < |truncated[Cut(listed, 0, 0, popSize)]|
    ensures fronts[k][i] in Fill(listed, truncated, 0, [], popSize) <==>
      || k < Cut(listed, 0, 0, popSize)
      || (k == Cut(listed, 0, 0, popSize) && fronts[k][i] in truncated[k][..Room(listed, 0, 0, popSize)])
  {
    var x := fronts[k][i];
    FillMembers(listed, truncated, 0, [], popSize, x);
    var c := Cut(listed, 0, 0, popSize);
    var r := Room(listed, 0, 0, popSize);
    if k < c {
      assert x in listed[k];
    }
    if x in Fill(listed, truncated, 0, [], popSize) {
      if c < |listed| && x in truncated[c][..r] {
        var p :| 0 <= p < r && truncated[c][p] == x;
        assert x in fronts[c];
        var i' :| 0 <= i' < |fronts[c]| && fronts[c][i'] == x;
      } else {
        var j :| 0 <= j < c && x in listed[j];
        var p :| 0 <= p < |listed[j]| && listed[j][p] == x;
        assert x in fronts[j];
        var i' :| 0 <= i' < |fronts[j]| && fronts[j][i'] == x;
      }
    }
  }

  /** Elitism: when a member of front j survives, every member of every
      better front k < j survives too. */
  lemma Elitism(fronts: seq<seq<Individual>>, fos: seq<seq<Objectives>>, popSize: nat,
                j: nat, b: nat, k: nat, a: nat)
    requires Shaped(fronts, fos) && Separate(fronts)
    requires k < j < |fronts| && b < |fronts[j]| && a < |fronts[k]|
    requires fronts[j][b] in NewPopulation(fronts, fos, popSize)
    ensures fronts[k][a] in NewPopulation(fronts, fos, popSize)
  {
    var listed := Listed(fronts, fos);
    var truncated := Truncated(fronts, fos);
    ListedReorders(fronts, fos);
    FrontOfMember(fronts, listed, truncated, popSize, j, b);
    FrontOfMember(fronts, listed, truncated, popSize, k, a);
  }

  /** Two members of front k, one in the new population and one not: the
      cut is at front k and the first comes before the second in the
      truncation order. */
  lemma SplitFront(fronts: seq<seq<Individual>>, listed: seq<seq<Individual>>, truncated: seq<seq<Individual>>,
                   popSize: nat, k: nat, i: nat, i': nat) returns (p: nat, p': nat)
    requires Separate(fronts) && Reorders(fronts, listed) && Reorders(fronts, truncated)
    requires k < |fronts| && i < |fronts[k]| && i' < |fronts[k]|
    requires fronts[k][i] in Fill(listed, truncated, 0, [], popSize)
    requires fronts[k][i'] !in Fill(listed, truncated, 0, [], popSize)
    ensures p < p' < |truncated[k]| && truncated[k][p] == fronts[k][i] && truncated[k][p'] == fronts[k][i']
  {
    FrontOfMember(fronts, listed, truncated, popSize, k, i);
    FrontOfMember(fronts, listed, truncated, popSize, k, i');
    var r := Room(listed, 0, 0, popSize);
    p :| 0 <= p < r && truncated[k][p] == fronts[k][i];
    assert fronts[k][i'] in truncated[k];
    p' :| 0 <= p' < |truncated[k]| && truncated[k][p'] == fronts[k][i'];
  }

  /** In the front that is cut, a survivor's crowding distance is at least
      that of any member left out. */
  lemma CrowdingPreference(fronts: seq<seq<Individual>>, fos: seq<seq<Objectives>>, popSize: nat,
                           k: nat, i: nat, i': nat)
    requires Shaped(fronts, fos) && Separate(fronts)
    requires k < |fronts| && i < |fronts[k]| && i' < |fronts[k]|
    requires fronts[k][i] in NewPopulation(fronts, fos, popSize)
    requires fronts[k][i'] !in NewPopulation(fronts, fos, popSize)
    ensures Dist(fos[k], NumObjectives)[i'].AtMost(Dist(fos[k], NumObjectives)[i])
  {
    var listed := Listed(fronts, fos);
    var truncated := Truncated(fronts, fos);
    ListedReorders(fronts, fos);
    var p, p' := SplitFront(fronts, listed, truncated, popSize, k, i, i');
    var t := TruncationOrder(fos[k]);
    TruncationSorted(fos[k]);
    assert Distinct(fronts[k]);
    assert fronts[k][t[p]] == fronts[k][i] && fronts[k][t[p']] == fronts[k][i'];
    PreferEarlier(fronts[k], t, Dist(fos[k], NumObjectives), p, p', i, i');
  }

  /** Along an order of distinct members by non-increasing distance, the
      member placed earlier has at least the distance of one placed later. */
  lemma PreferEarlier(xs: seq<Individual>, t: seq<nat>, d: seq<Distance>, p: nat, p': nat, i: nat, i': nat)
    requires Distinct(xs) && |d| == |xs| && |t| == |xs| && forall j :: 0 <= j < |t| ==> t[j] < |xs|
    requires forall a, b :: 0 <= a < b < |d| ==> d[t[b]].AtMost(d[t[a]])
    requires p < p' < |t| && i < |xs| && i' < |xs| && xs[t[p]] == xs[i] && xs[t[p']] == xs[i']
    ensures d[i'].AtMost(d[i])
  {
    assert t[p] == i && t[p'] == i';
  }
}
