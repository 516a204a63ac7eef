/** The crowding distance of NSGA-II. The front is re-sorted stably by each
    objective in turn, the order of one sort being the input of the next;
    after each sort the two ends get an infinite distance and, unless every
    value of the objective is the same, each inner member adds the gap
    between its neighbours' values divided by the objective's range. The
    model states the outcome as functions of the objective triples: `Order`
    is the order of the front after the sorts, `Dist` the distance of every
    member, indexed by its position in the input. */
module Crowding {
  import opened Models
  import opened Ordering

  /** The order `list.sort` uses for float keys. */
  predicate AtMostReal(a: real, b: real) {
    a <= b
  }

  lemma RealOrderTotal(keys: seq<real>)
    ensures TotalPreorder(keys, AtMostReal)
  {
  }

  /** The positions 0 .. n-1 in increasing order. */
  function Identity(n: nat): (r: seq<nat>)
    ensures |r| == n && forall i :: 0 <= i < n ==> r[i] == i
  {
    seq(n, (i: int) requires 0 <= i < n => i as nat)
  }

  /** The position of `x` in `s`. */
  function IndexOf(s: seq<nat>, x: nat): (j: nat)
    requires x in s
    ensures j < |s| && s[j] == x
  {
    if s[0] == x then 0
    else
      assert x in s[1..];
      IndexOf(s[1..], x) + 1
  }

  /** Every member has been evaluated. */
  predicate Evaluated(front: seq<Individual>)
    reads front`objs
  {
    forall i :: 0 <= i < |front| ==> front[i].objs.Some?
  }

  /** The objective triples of the members, in list order. */
  function ObjectivesOf(front: seq<Individual>): (r: seq<Objectives>)
    reads front`objs
    requires Evaluated(front)
    ensures |r| == |front| && forall i :: 0 <= i < |front| ==> front[i].objs == Some(r[i])
  {
    if front == [] then []
    else ObjectivesOf(front[..|front| - 1]) + [front[|front| - 1].objs.value]
  }

  /** The source's `m_values`: objective m of every member, in list order. */
  function ObjectiveValues(front: seq<Individual>, m: nat): (r: seq<real>)
    reads front`objs
    requires Evaluated(front)
    ensures |r| == |front| && forall i :: 0 <= i < |front| ==> r[i] == front[i].objs.value.Get(m)
  {
    if front == [] then []
    else ObjectiveValues(front[..|front| - 1], m) + [front[|front| - 1].objs.value.Get(m)]
  }

  /** Objective m of the triples `os`, taken along the order `ord`. */
  function ValuesAlong(os: seq<Objectives>, ord: seq<nat>, m: nat): (r: seq<real>)
    requires forall i :: 0 <= i < |ord| ==> ord[i] < |os|
    ensures |r| == |ord| && forall i :: 0 <= i < |ord| ==> r[i] == os[ord[i]].Get(m)
  {
    seq(|ord|, i requires 0 <= i < |ord| => os[ord[i]].Get(m))
  }

  /** One `front.sort(key=objs[m])`: the order `ord` re-sorted stably by
      objective m. */
  function SortStep(os: seq<Objectives>, ord: seq<nat>, m: nat): (r: seq<nat>)
    requires forall i :: 0 <= i < |ord| ==> ord[i] < |os|
    ensures |r| == |ord| && forall i :: 0 <= i < |r| ==> r[i] < |os|
  {
    Arrange(ord, StableOrder(ValuesAlong(os, ord, m), AtMostReal))
  }

  /** The order of the front (as positions in the input) after the sorts by
      objectives 0 .. m-1. */
  function Order(os: seq<Objectives>, m: nat): (r: seq<nat>)
    requires m <= NumObjectives
    ensures |r| == |os| && forall i :: 0 <= i < |r| ==> r[i] < |os|
  {
    if m == 0 then Identity(|os|) else SortStep(os, Order(os, m - 1), m - 1)
  }

  /** The distance of the member at place j of a list sorted by one
      objective, whose values along the list are `vals`, after the pass for
      that objective, given its distance `d` before the pass. */
  function Contribution(vals: seq<real>, d: Distance, j: nat): Distance
    requires j < |vals|
  {
    Gap(vals, MinOf(vals), MaxOf(vals), d, j)
  }

  /** `Contribution` for the extremes `lo` and `hi` of the values. */
  function Gap(vals: seq<real>, lo: real, hi: real, d: Distance, j: nat): Distance
    requires j < |vals|
  {
    if j == 0 || j == |vals| - 1 then Inf
    else if hi == lo then d
    else d.Plus(Share(vals[j + 1] - vals[j - 1], hi - lo))
  }

  /** The distance of every member, by input position, after the passes for
      objectives 0 .. m-1. */
  function Dist(os: seq<Objectives>, m: nat): (r: seq<Distance>)
    requires m <= NumObjectives
    ensures |r| == |os|
  {
    if m == 0 then seq(|os|, _ => Fin(0.0))
    else
      var ord := Order(os, m);
      var d := Dist(os, m - 1);
      OrderPermutation(os, m);
      seq(|os|, (q: int) requires 0 <= q < |os| => Contribution(ValuesAlong(os, ord, m - 1), d[q], IndexOf(ord, q as nat)))
  }

  /** Rearranging a permutation by a permutation gives a permutation. */
  lemma ArrangePermutation(a: seq<nat>, b: seq<nat>, n: nat)
    requires PermutationOf(a, n) && PermutationOf(b, n)
    ensures forall i :: 0 <= i < |b| ==> b[i] < |a|
    ensures PermutationOf(Arrange(a, b), n)
  {
    PermutationBelow(b, n);
    PermutationBelow(a, n);
    var r := Arrange(a, b);
    forall x: nat | x < n
      ensures x in r
    {
      var t := IndexOf(a, x);
      var s := IndexOf(b, t);
      assert r[s] == x;
    }
    forall x: nat | x in r
      ensures x < n
    {
      var s :| 0 <= s < |r| && r[s] == x;
      assert a[b[s]] in a;
    }
  }

  lemma IdentityPermutation(n: nat)
    ensures PermutationOf(Identity(n), n)
  {
    var r := Identity(n);
    forall x: nat | x < n
      ensures x in r
    {
      assert r[x] == x;
    }
  }

  /** Every order of the front is a permutation of its positions. */
  lemma {:induction false} OrderPermutation(os: seq<Objectives>, m: nat)
    requires m <= NumObjectives
    ensures PermutationOf(Order(os, m), |os|)
  {
    if m == 0 {
      IdentityPermutation(|os|);
    } else {
      var ord := Order(os, m - 1);
      OrderPermutation(os, m - 1);
      var keys := ValuesAlong(os, ord, m - 1);
      RealOrderTotal(keys);
      StableOrderCorrect(keys, AtMostReal);
      ArrangePermutation(ord, StableOrder(keys, AtMostReal), |os|);
    }
  }

  /** Rearranging twice is rearranging once by the composed order. */
  lemma ArrangeTwice<T>(xs: seq<T>, a: seq<nat>, b: seq<nat>)
    requires forall i :: 0 <= i < |a| ==> a[i] < |xs|
    requires forall i :: 0 <= i < |b| ==> b[i] < |a|
    ensures Arrange(Arrange(xs, a), b) == Arrange(xs, Arrange(a, b))
  {
  }

  /** Distinct members in a permuted order stay distinct. */
  lemma ArrangeDistinct<T>(xs: seq<T>, ord: seq<nat>)
    requires PermutationOf(ord, |xs|) && Distinct(xs)
    ensures forall i :: 0 <= i < |ord| ==> ord[i] < |xs|
    ensures Distinct(Arrange(xs, ord))
  {
    PermutationBelow(ord, |xs|);
  }

  /** The objective values of the rearranged front are the values along the
      order. */
  lemma ValuesOfArranged(front: seq<Individual>, ord: seq<nat>, m: nat)
    requires Evaluated(front) && forall i :: 0 <= i < |ord| ==> ord[i] < |front|
    ensures Evaluated(Arrange(front, ord))
    ensures ObjectiveValues(Arrange(front, ord), m) == ValuesAlong(ObjectivesOf(front), ord, m)
  {
  }

  /** The sort of the source's loop body, in terms of the orders: sorting
      the list in order `Order(os, m)` by objective m yields the list in
      order `Order(os, m + 1)`. */
  lemma SortedFront(front: seq<Individual>, os: seq<Objectives>, m: nat, so: seq<nat>)
    requires Evaluated(front) && Distinct(front) && os == ObjectivesOf(front) && m < NumObjectives
    requires so == StableOrder(ObjectiveValues(Arrange(front, Order(os, m)), m), AtMostReal)
    ensures forall i :: 0 <= i < |so| ==> so[i] < |Order(os, m)|
    ensures Arrange(Arrange(front, Order(os, m)), so) == Arrange(front, Order(os, m + 1))
    ensures Evaluated(Arrange(front, Order(os, m + 1))) && Distinct(Arrange(front, Order(os, m + 1)))
    ensures ObjectiveValues(Arrange(front, Order(os, m + 1)), m) == ValuesAlong(os, Order(os, m + 1), m)
  {
    var ord := Order(os, m);
    ValuesOfArranged(front, ord, m);
    ArrangeTwice(front, ord, so);
    OrderPermutation(os, m + 1);
    ArrangeDistinct(front, Order(os, m + 1));
    ValuesOfArranged(front, Order(os, m + 1), m);
  }

  /** The distances after a pass, read back by input position: `ord` is
      the order of the pass, `d` the distances before it. */
  lemma DistAfterPass(front: seq<Individual>, sorted: seq<Individual>, os: seq<Objectives>, m: nat,
                      ord: seq<nat>, vals: seq<real>, d: seq<Distance>)
    requires |os| == |front| && m < NumObjectives
    requires ord == Order(os, m + 1) && d == Dist(os, m) && vals == ValuesAlong(os, ord, m)
    requires sorted == Arrange(front, ord)
    requires forall j :: 0 <= j < |sorted| ==> sorted[j].crowding == Contribution(vals, d[ord[j]], j)
    ensures forall q :: 0 <= q < |front| ==> front[q].crowding == Dist(os, m + 1)[q]
  {
    OrderPermutation(os, m + 1);
    forall q | 0 <= q < |front|
      ensures front[q].crowding == Dist(os, m + 1)[q]
    {
      var j := IndexOf(ord, q);
      assert sorted[j] == front[q];
    }
  }

  /** The gap between two values as a share of the range. */
  function Share(gap: real, range: real): real
    requires range != 0.0
  {
    gap / range
  }

  /** The source's loop body after the sort, for one objective: the two ends
      of the sorted list become infinite and, unless all values of the
      objective are equal, each inner member adds the gap between its
      neighbours' values over the range. */
  method AddObjective(sorted: seq<Individual>, m: nat, ghost vals: seq<real>, ghost before: seq<Distance>)
    requires |sorted| > 0 && Evaluated(sorted) && Distinct(sorted) && |before| == |sorted|
    requires vals == ObjectiveValues(sorted, m)
    requires forall j :: 0 <= j < |sorted| ==> sorted[j].crowding == before[j]
    modifies sorted`crowding
    ensures forall j :: 0 <= j < |sorted| ==> sorted[j].crowding == Contribution(vals, before[j], j)
  {
    var l := |sorted|;
    sorted[0].crowding := Inf;
    sorted[l - 1].crowding := Inf;
    var mValues := ObjectiveValues(sorted, m);
    assert mValues == vals;
    var lo := MinOf(mValues);
    var hi := MaxOf(mValues);
    if hi != lo {
      AddGaps(sorted, mValues, lo, hi, before);
    }
  }

  /** The inner loop of the pass: every inner member adds its neighbours'
      gap over the range; the ends are left alone. */
  method AddGaps(sorted: seq<Individual>, vals: seq<real>, lo: real, hi: real, ghost before: seq<Distance>)
    requires |sorted| == |vals| == |before| > 0 && Distinct(sorted) && hi != lo
    requires forall j :: 0 < j < |sorted| - 1 ==> sorted[j].crowding == before[j]
    modifies sorted`crowding
    ensures forall j :: 0 < j < |sorted| - 1 ==> sorted[j].crowding == Gap(vals, lo, hi, before[j], j)
    ensures sorted[0].crowding == old(sorted[0].crowding)
    ensures sorted[|sorted| - 1].crowding == old(sorted[|sorted| - 1].crowding)
  {
    var l := |sorted|;
    var i := 1;
    while i < l - 1
      invariant 1 <= i <= l
      invariant forall j :: 0 < j < i && j < l - 1 ==> sorted[j].crowding == Gap(vals, lo, hi, before[j], j)
      invariant forall j :: i <= j < l - 1 ==> sorted[j].crowding == before[j]
      invariant sorted[0].crowding == old(sorted[0].crowding)
      invariant sorted[l - 1].crowding == old(sorted[l - 1].crowding)
    {
      sorted[i].crowding := sorted[i].crowding.Plus(Share(vals[i + 1] - vals[i - 1], hi - lo));
      i := i + 1;
    }
  }

  /** The state after the passes for objectives 0 .. m-1: the list is in
      order `Order(os, m)` and every member holds its distance `Dist(os, m)`. */
  ghost predicate PassesDone(front: seq<Individual>, sorted: seq<Individual>, os: seq<Objectives>, m: nat)
    reads front
  {
    && |os| == |front| && m <= NumObjectives
    && sorted == Arrange(front, Order(os, m))
    && forall q :: 0 <= q < |front| ==> front[q].crowding == Dist(os, m)[q]
  }

  /** The members are distinct and carry the objective triples `os`. */
  ghost predicate Carries(front: seq<Individual>, os: seq<Objectives>)
    reads front`objs
  {
    && Distinct(front) && |os| == |front| > 0
    && forall i :: 0 <= i < |front| ==> front[i].objs == Some(os[i])
  }

  /** After crowding_distance_assignment the list is in the order of the last
      sort and each member holds the distance `Dist` gives it. Only the
      crowding field changes. */
  method CrowdingDistanceAssignment(front: seq<Individual>) returns (sorted: seq<Individual>)
    requires Evaluated(front) && Distinct(front)
    modifies front`crowding
    ensures PassesDone(front, sorted, old(ObjectivesOf(front)), NumObjectives)
  {
    sorted := front;
    if |front| == 0 {
      return;
    }
    ghost var os := ObjectivesOf(front);
    ResetDistances(front);
    assert Carries(front, os);
    PassesStart(front, os);
    sorted := AllPasses(front, os);
  }

  /** The source's first loop: every distance starts at 0. */
  method ResetDistances(front: seq<Individual>)
    requires Distinct(front)
    modifies front`crowding
    ensures forall q :: 0 <= q < |front| ==> front[q].crowding == Fin(0.0)
  {
    for k := 0 to |front|
      invariant forall q :: 0 <= q < k ==> front[q].crowding == Fin(0.0)
    {
      front[k].crowding := Fin(0.0);
    }
  }

  /** Before the first pass the list is in input order and every distance
      is 0. */
  lemma PassesStart(front: seq<Individual>, os: seq<Objectives>)
    requires |os| == |front| && forall q :: 0 <= q < |front| ==> front[q].crowding == Fin(0.0)
    ensures PassesDone(front, front, os, 0)
  {
    assert Arrange(front, Order(os, 0)) == front;
  }

  /** The source's loop over the objectives, one sort and pass each. */
  method AllPasses(front: seq<Individual>, ghost os: seq<Objectives>) returns (sorted: seq<Individual>)
    requires Carries(front, os) && PassesDone(front, front, os, 0)
    modifies front`crowding
    ensures PassesDone(front, sorted, os, NumObjectives)
  {
    sorted := front;
    for m := 0 to NumObjectives
      invariant Carries(front, os) && PassesDone(front, sorted, os, m)
    {
      sorted := SortAndAdd(front, sorted, m, os);
    }
  }

  /** One iteration of the source's loop over the objectives: sort by
      objective m, then run the pass. */
  method SortAndAdd(front: seq<Individual>, sorted: seq<Individual>, m: nat, ghost os: seq<Objectives>)
    returns (sorted': seq<Individual>)
    requires Carries(front, os) && m < NumObjectives && PassesDone(front, sorted, os, m)
    modifies front`crowding
    ensures PassesDone(front, sorted', os, m + 1)
  {
    assert os == ObjectivesOf(front);
    var keys := ObjectiveValues(sorted, m);
    var so := StableOrder(keys, AtMostReal);
    SortedFront(front, os, m, so);
    sorted' := Arrange(sorted, so);
    ghost var ord := Order(os, m + 1);
    ghost var before := seq(|front|, j requires 0 <= j < |front| => Dist(os, m)[ord[j]]);
    AddObjective(sorted', m, ValuesAlong(os, ord, m), before);
    DistAfterPass(front, sorted', os, m, ord, ValuesAlong(os, ord, m), Dist(os, m));
  }

  /** In a list without repeats, `IndexOf` finds the one place of each entry. */
  lemma IndexOfDistinct(s: seq<nat>, k: nat)
    requires Distinct(s) && k < |s|
    ensures IndexOf(s, s[k]) == k
  {
    var j := IndexOf(s, s[k]);
    assert s[j] == s[k];
  }

  /** How `Dist` reads the distance of input position q after pass m - 1. */
  lemma DistAt(os: seq<Objectives>, m: nat, q: nat)
    requires 1 <= m <= NumObjectives && q < |os|
    ensures PermutationOf(Order(os, m), |os|)
    ensures IndexOf(Order(os, m), q) < |os| && Order(os, m)[IndexOf(Order(os, m), q)] == q
    ensures Dist(os, m)[q] ==
      Contribution(ValuesAlong(os, Order(os, m), m - 1), Dist(os, m - 1)[q], IndexOf(Order(os, m), q))
  {
    OrderPermutation(os, m);
  }

  /** Pass m sorts by objective m - 1: the values of that objective are
      ordered along `Order(os, m)`, and the sort is stable: members with
      equal values keep the order of the previous sort. */
  lemma OrderSorted(os: seq<Objectives>, m: nat)
    requires 1 <= m <= NumObjectives
    ensures forall i, j :: 0 <= i < j < |os| ==> os[Order(os, m)[i]].Get(m - 1) <= os[Order(os, m)[j]].Get(m - 1)
    ensures forall i, j :: 0 <= i < j < |os| && os[Order(os, m)[i]].Get(m - 1) == os[Order(os, m)[j]].Get(m - 1) ==>
      IndexOf(Order(os, m - 1), Order(os, m)[i]) < IndexOf(Order(os, m - 1), Order(os, m)[j])
  {
    var ord := Order(os, m - 1);
    var keys := ValuesAlong(os, ord, m - 1);
    var so := StableOrder(keys, AtMostReal);
    RealOrderTotal(keys);
    StableOrderCorrect(keys, AtMostReal);
    OrderPermutation(os, m - 1);
    var r := Order(os, m);
    assert forall i :: 0 <= i < |r| ==> r[i] == ord[so[i]];
    forall i, j | 0 <= i < j < |os| && os[r[i]].Get(m - 1) == os[r[j]].Get(m - 1)
      ensures IndexOf(ord, r[i]) < IndexOf(ord, r[j])
    {
      assert AtMostReal(keys[so[j]], keys[so[i]]);
      IndexOfDistinct(ord, so[i]);
      IndexOfDistinct(ord, so[j]);
    }
  }

  /** The values along a sort are ordered. */
  lemma ValuesSorted(os: seq<Objectives>, m: nat)
    requires 1 <= m <= NumObjectives
    ensures var vals := ValuesAlong(os, Order(os, m), m - 1);
      forall i, j :: 0 <= i < j < |vals| ==> vals[i] <= vals[j]
  {
    OrderSorted(os, m);
  }

  /** The members first and last in the sort by each objective get an
      infinite distance in that pass. */
  lemma DistEndsInfinite(os: seq<Objectives>, m: nat)
    requires 1 <= m <= NumObjectives && |os| > 0
    ensures Dist(os, m)[Order(os, m)[0]] == Inf
    ensures Dist(os, m)[Order(os, m)[|os| - 1]] == Inf
  {
    var ord := Order(os, m);
    OrderPermutation(os, m);
    IndexOfDistinct(ord, 0);
    IndexOfDistinct(ord, |os| - 1);
    DistAt(os, m, ord[0]);
    DistAt(os, m, ord[|os| - 1]);
  }

  /** An infinite distance stays infinite in every later pass. */
  lemma InfStaysInf(os: seq<Objectives>, m: nat, m': nat, q: nat)
    requires m <= m' <= NumObjectives && q < |os| && Dist(os, m)[q] == Inf
    ensures Dist(os, m')[q] == Inf
  {
    var ds := seq(m' + 1, (k: int) requires 0 <= k <= m' => Dist(os, k)[q]);
    forall k | m <= k < m' && ds[k] == Inf
      ensures ds[k + 1] == Inf
    {
      InfStep(os, k, q);
    }
    InfChain(ds, m, m');
  }

  /** Along a chain of distances where every infinite link is followed by
      an infinite one, an infinite link makes every later link infinite. */
  lemma {:induction false} InfChain(ds: seq<Distance>, m: nat, m': nat)
    requires m <= m' < |ds| && ds[m] == Inf
    requires forall k :: m <= k < m' && ds[k] == Inf ==> ds[k + 1] == Inf
    ensures ds[m'] == Inf
  {
    if m < m' {
      InfChain(ds, m, m' - 1);
    }
  }

  /** One pass keeps an infinite distance infinite. */
  lemma InfStep(os: seq<Objectives>, m: nat, q: nat)
    requires m < NumObjectives && q < |os| && Dist(os, m)[q] == Inf
    ensures Dist(os, m + 1)[q] == Inf
  {
    DistAt(os, m + 1, q);
    ContributionKeepsInf(ValuesAlong(os, Order(os, m + 1), m), IndexOf(Order(os, m + 1), q));
  }

  /** A pass keeps an infinite distance infinite. */
  lemma ContributionKeepsInf(vals: seq<real>, j: nat)
    requires j < |vals|
    ensures Contribution(vals, Inf, j) == Inf
  {
  }

  /** For every objective, the member first in its sort and the one last
      in it end with an infinite crowding distance. */
  lemma ExtremesInfinite(os: seq<Objectives>, m: nat)
    requires 1 <= m <= NumObjectives && |os| > 0
    ensures Dist(os, NumObjectives)[Order(os, m)[0]] == Inf
    ensures Dist(os, NumObjectives)[Order(os, m)[|os| - 1]] == Inf
  {
    DistEndsInfinite(os, m);
    InfStaysInf(os, m, NumObjectives, Order(os, m)[0]);
    InfStaysInf(os, m, NumObjectives, Order(os, m)[|os| - 1]);
  }

  /** The first member of the sort by an objective has its least value and
      the last member its greatest. */
  lemma ExtremesHoldMinMax(os: seq<Objectives>, m: nat)
    requires 1 <= m <= NumObjectives && |os| > 0
    ensures forall q :: 0 <= q < |os| ==> os[Order(os, m)[0]].Get(m - 1) <= os[q].Get(m - 1)
    ensures forall q :: 0 <= q < |os| ==> os[q].Get(m - 1) <= os[Order(os, m)[|os| - 1]].Get(m - 1)
  {
    var ord := Order(os, m);
    OrderSorted(os, m);
    OrderPermutation(os, m);
    forall q | 0 <= q < |os|
      ensures os[ord[0]].Get(m - 1) <= os[q].Get(m - 1) <= os[ord[|os| - 1]].Get(m - 1)
    {
      var j := IndexOf(ord, q);
      assert ord[j] == q;
    }
  }

  /** A share of a gap no wider than the range lies in [0, 1]. */
  lemma ShareBounds(gap: real, range: real)
    requires 0.0 <= gap <= range && range > 0.0
    ensures 0.0 <= Share(gap, range) <= 1.0
  {
  }

  /** The contribution of an inner member of a sorted list is a share in
      [0, 1] of the range. */
  lemma ContributionBounds(vals: seq<real>, j: nat)
    requires 0 < j < |vals| - 1 && MaxOf(vals) != MinOf(vals)
    requires forall i, k :: 0 <= i < k < |vals| ==> vals[i] <= vals[k]
    ensures MaxOf(vals) - MinOf(vals) > 0.0
    ensures 0.0 <= Share(vals[j + 1] - vals[j - 1], MaxOf(vals) - MinOf(vals)) <= 1.0
  {
    MinOfIsMinimum(vals);
    MaxOfIsMaximum(vals);
    ShareBounds(vals[j + 1] - vals[j - 1], MaxOf(vals) - MinOf(vals));
  }

  /** One pass over sorted values keeps a distance in [0, k] within
      [0, k + 1]. */
  lemma ContributionStep(vals: seq<real>, d: Distance, j: nat, k: nat)
    requires j < |vals| && forall i, i' :: 0 <= i < i' < |vals| ==> vals[i] <= vals[i']
    requires d.NonNegative() && (d.Fin? ==> d.value <= k as real)
    ensures var r := Contribution(vals, d, j); r.NonNegative() && (r.Fin? ==> r.value <= (k + 1) as real)
  {
    assert (k + 1) as real == k as real + 1.0;
    if 0 < j < |vals| - 1 && MaxOf(vals) != MinOf(vals) {
      ContributionBounds(vals, j);
      var share := Share(vals[j + 1] - vals[j - 1], MaxOf(vals) - MinOf(vals));
      assert Contribution(vals, d, j) == d.Plus(share);
    }
  }

  /** Every distance is infinite or a finite value in [0, m]: each pass adds
      at most 1. */
  lemma {:induction false} DistBounds(os: seq<Objectives>, m: nat)
    requires m <= NumObjectives
    ensures forall q :: 0 <= q < |os| ==> Dist(os, m)[q].NonNegative()
    ensures forall q :: 0 <= q < |os| ==> Dist(os, m)[q].Fin? ==> Dist(os, m)[q].value <= m as real
  {
    if m > 0 {
      DistBounds(os, m - 1);
      ValuesSorted(os, m);
      forall q | 0 <= q < |os|
        ensures Dist(os, m)[q].NonNegative() && (Dist(os, m)[q].Fin? ==> Dist(os, m)[q].value <= m as real)
      {
        DistAt(os, m, q);
        ContributionStep(ValuesAlong(os, Order(os, m), m - 1), Dist(os, m - 1)[q], IndexOf(Order(os, m), q), m - 1);
      }
    }
  }

  /** In a front of one or two members every member is an end of every sort,
      so every distance is infinite. */
  lemma SmallFrontInfinite(os: seq<Objectives>, m: nat, q: nat)
    requires 1 <= m <= NumObjectives && |os| <= 2 && q < |os|
    ensures Dist(os, m)[q] == Inf
  {
    DistAt(os, m, q);
  }
}
