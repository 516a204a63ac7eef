/** The objective evaluator: a schedule is mapped to (makespan, total cost,
    load balance). Sums are exact reals; the population standard deviation
    that turns the load ratios into the third objective is a parameter. */
module Evaluation {
  import opened Models

  /** Summed lengths of the tasks among the first `k` genes that run on VM `v`. */
  function VmLoad(s: seq<int>, tasks: seq<Task>, v: int, k: nat): real
    requires k <= |s| <= |tasks|
  {
    if k == 0 then 0.0
    else VmLoad(s, tasks, v, k - 1) + (if s[k - 1] == v then tasks[k - 1].length as real else 0.0)
  }

  /** Summed `cost * length` of the tasks among the first `k` genes that run on VM `v`. */
  function VmCost(s: seq<int>, tasks: seq<Task>, vms: seq<VM>, v: nat, k: nat): real
    requires k <= |s| <= |tasks| && v < |vms|
  {
    if k == 0 then 0.0
    else VmCost(s, tasks, vms, v, k - 1)
         + (if s[k - 1] == v then vms[v].cost * tasks[k - 1].length as real else 0.0)
  }

  /** The resource units a task asks for. */
  function Requested(t: Task): int {
    t.cpuReq + t.ramReq + t.bwReq
  }

  /** The resource units a VM offers. */
  function Capacity(vm: VM): int {
    vm.cpuCap + vm.ramCap + vm.bwCap
  }

  /** Summed requested units of the tasks among the first `k` genes that run on VM `v`. */
  function VmRequested(s: seq<int>, tasks: seq<Task>, v: int, k: nat): real
    requires k <= |s| <= |tasks|
  {
    if k == 0 then 0.0
    else VmRequested(s, tasks, v, k - 1) + (if s[k - 1] == v then Requested(tasks[k - 1]) as real else 0.0)
  }

  /** Requested over offered units, 0 for a VM whose capacity is not positive. */
  function Ratio(requested: real, capacity: int): real {
    if capacity > 0 then requested / capacity as real else 0.0
  }

  /** The cost of the first `k` tasks, each priced at its own VM's rate. */
  function TaskCost(s: seq<int>, tasks: seq<Task>, vms: seq<VM>, k: nat): real
    requires k <= |s| <= |tasks| && GenesInRange(s, |vms|)
  {
    if k == 0 then 0.0
    else TaskCost(s, tasks, vms, k - 1) + vms[s[k - 1]].cost * tasks[k - 1].length as real
  }

  /** The per-VM loads of the whole schedule. */
  function Loads(s: seq<int>, tasks: seq<Task>, numVms: nat): (r: seq<real>)
    requires |s| <= |tasks|
    ensures |r| == numVms
  {
    seq(numVms, v => VmLoad(s, tasks, v, |s|))
  }

  /** The per-VM costs after the first `k` genes. */
  function VmCosts(s: seq<int>, tasks: seq<Task>, vms: seq<VM>, k: nat): (r: seq<real>)
    requires k <= |s| <= |tasks|
    ensures |r| == |vms|
  {
    seq(|vms|, v requires 0 <= v < |vms| => VmCost(s, tasks, vms, v, k))
  }

  /** The per-VM load ratios of the whole schedule. */
  function Ratios(s: seq<int>, tasks: seq<Task>, vms: seq<VM>): (r: seq<real>)
    requires |s| <= |tasks|
    ensures |r| == |vms|
  {
    seq(|vms|, v requires 0 <= v < |vms| => Ratio(VmRequested(s, tasks, v, |s|), Capacity(vms[v])))
  }

  /** Python's sum, adding left to right. */
  function SumOf(xs: seq<real>): real {
    if xs == [] then 0.0 else SumOf(xs[..|xs| - 1]) + xs[|xs| - 1]
  }

  /** The objective triple the source computes for schedule `s`. */
  function Evaluation(s: seq<int>, tasks: seq<Task>, vms: seq<VM>, std: seq<real> -> real): Objectives
    requires |vms| > 0 && |s| <= |tasks| && GenesInRange(s, |vms|)
  {
    Objectives(MaxOf(Loads(s, tasks, |vms|)), TaskCost(s, tasks, vms, |s|), std(Ratios(s, tasks, vms)))
  }

  /** The source's evaluation loop: one pass over the genes accumulating
      per-VM loads, costs and requested units into three arrays, then the
      maximum load, the summed costs and the ratio list. */
  method EvaluateSchedule(s: seq<int>, tasks: seq<Task>, vms: seq<VM>, std: seq<real> -> real)
    returns (o: Objectives)
    requires |vms| > 0 && |s| <= |tasks| && GenesInRange(s, |vms|)
    ensures o == Evaluation(s, tasks, vms, std)
  {
    var n := |vms|;
    var loads: seq<real> := seq(n, _ => 0.0);
    var costs: seq<real> := seq(n, _ => 0.0);
    var requested: seq<real> := seq(n, _ => 0.0);
    var capacities := seq(n, i requires 0 <= i < n => Capacity(vms[i]));
    for t := 0 to |s|
      invariant |loads| == n && forall v :: 0 <= v < n ==> loads[v] == VmLoad(s, tasks, v, t)
      invariant |costs| == n && forall v :: 0 <= v < n ==> costs[v] == VmCost(s, tasks, vms, v, t)
      invariant |requested| == n && forall v :: 0 <= v < n ==> requested[v] == VmRequested(s, tasks, v, t)
    {
      var v := s[t];
      loads := loads[v := loads[v] + tasks[t].length as real];
      costs := costs[v := costs[v] + vms[v].cost * tasks[t].length as real];
      requested := requested[v := requested[v] + (tasks[t].cpuReq + tasks[t].ramReq + tasks[t].bwReq) as real];
    }
    assert loads == Loads(s, tasks, n);
    assert costs == VmCosts(s, tasks, vms, |s|);
    var makespan := MaxOf(loads);
    var totalCost := SumOf(costs);
    CostsSumToTaskCost(s, tasks, vms, |s|);
    var ratios: seq<real> := [];
    for i := 0 to n
      invariant ratios == Ratios(s, tasks, vms)[..i]
    {
      var ratio := if capacities[i] > 0 then requested[i] / capacities[i] as real else 0.0;
      ratios := ratios + [ratio];
    }
    assert ratios == Ratios(s, tasks, vms);
    o := Objectives(makespan, totalCost, std(ratios));
  }

  /** Writes the evaluation of the candidate's schedule into its objectives. */
  method EvaluateIndividual(ind: Individual, tasks: seq<Task>, vms: seq<VM>, std: seq<real> -> real)
    requires |vms| > 0 && |ind.schedule| <= |tasks| && GenesInRange(ind.schedule, |vms|)
    modifies ind`objs
    ensures ind.objs == Some(Evaluation(ind.schedule, tasks, vms, std))
  {
    var o := EvaluateSchedule(ind.schedule, tasks, vms, std);
    ind.objs := Some(o);
  }

  /** Raising one entry of a list by `c` raises its sum by `c`. */
  lemma {:induction false} SumOfBump(xs: seq<real>, i: nat, c: real)
    requires i < |xs|
    ensures SumOf(xs[i := xs[i] + c]) == SumOf(xs) + c
    decreases |xs|
  {
    var ys := xs[i := xs[i] + c];
    var last := |xs| - 1;
    if i == last {
      assert ys[..last] == xs[..last];
    } else {
      assert ys[..last] == xs[..last][i := xs[..last][i] + c];
      SumOfBump(xs[..last], i, c);
    }
  }

  /** A list of zeros sums to zero. */
  lemma {:induction false} SumOfZeros(xs: seq<real>)
    requires forall i :: 0 <= i < |xs| ==> xs[i] == 0.0
    ensures SumOf(xs) == 0.0
    decreases |xs|
  {
    if xs != [] {
      SumOfZeros(xs[..|xs| - 1]);
    }
  }

  /** Summing the per-VM cost accumulators gives the per-task cost sum: the
      total cost is the sum over tasks of the task's VM rate times its length. */
  lemma {:induction false} CostsSumToTaskCost(s: seq<int>, tasks: seq<Task>, vms: seq<VM>, k: nat)
    requires k <= |s| <= |tasks| && GenesInRange(s, |vms|)
    ensures SumOf(VmCosts(s, tasks, vms, k)) == TaskCost(s, tasks, vms, k)
  {
    if k == 0 {
      SumOfZeros(VmCosts(s, tasks, vms, 0));
    } else {
      CostsSumToTaskCost(s, tasks, vms, k - 1);
      var prev := VmCosts(s, tasks, vms, k - 1);
      var v := s[k - 1];
      var c := vms[v].cost * tasks[k - 1].length as real;
      VmCostsStep(s, tasks, vms, k, c);
      SumOfBump(prev, v, c);
    }
  }

  /** Task k - 1 adds its cost `c` to the accumulator of its VM only. */
  lemma VmCostsStep(s: seq<int>, tasks: seq<Task>, vms: seq<VM>, k: nat, c: real)
    requires 0 < k <= |s| <= |tasks| && GenesInRange(s, |vms|)
    requires c == vms[s[k - 1]].cost * tasks[k - 1].length as real
    ensures VmCosts(s, tasks, vms, k) == VmCosts(s, tasks, vms, k - 1)[s[k - 1] := VmCosts(s, tasks, vms, k - 1)[s[k - 1]] + c]
  {
    var prev := VmCosts(s, tasks, vms, k - 1);
    var v := s[k - 1];
    forall w | 0 <= w < |vms|
      ensures VmCosts(s, tasks, vms, k)[w] == prev[v := prev[v] + c][w]
    {
      assert VmCosts(s, tasks, vms, k)[w] == VmCost(s, tasks, vms, w, k - 1) + (if w == v then c else 0.0);
    }
    assert VmCosts(s, tasks, vms, k) == prev[v := prev[v] + c];
  }

  /** The makespan is the largest per-VM load: no VM is busier, and some VM
      is exactly that busy. */
  lemma MakespanIsMaximumLoad(s: seq<int>, tasks: seq<Task>, vms: seq<VM>, std: seq<real> -> real)
    requires |vms| > 0 && |s| <= |tasks| && GenesInRange(s, |vms|)
    ensures forall v :: 0 <= v < |vms| ==> VmLoad(s, tasks, v, |s|) <= Evaluation(s, tasks, vms, std).makespan
    ensures exists v :: 0 <= v < |vms| && VmLoad(s, tasks, v, |s|) == Evaluation(s, tasks, vms, std).makespan
  {
    var loads := Loads(s, tasks, |vms|);
    MaxOfIsMaximum(loads);
    assert forall v :: 0 <= v < |vms| ==> loads[v] == VmLoad(s, tasks, v, |s|);
  }

  /** A VM that no gene names has load 0 (and so contributes 0 to the makespan's candidates). */
  lemma {:induction false} IdleVmHasNoLoad(s: seq<int>, tasks: seq<Task>, v: int, k: nat)
    requires k <= |s| <= |tasks|
    requires forall t :: 0 <= t < k ==> s[t] != v
    ensures VmLoad(s, tasks, v, k) == 0.0
  {
    if k > 0 {
      IdleVmHasNoLoad(s, tasks, v, k - 1);
    }
  }

  /** A VM whose capacity sum is not positive gets ratio 0, whatever is assigned to it. */
  lemma ZeroCapacityHasZeroRatio(s: seq<int>, tasks: seq<Task>, vms: seq<VM>, v: nat)
    requires |s| <= |tasks| && v < |vms| && Capacity(vms[v]) <= 0
    ensures Ratios(s, tasks, vms)[v] == 0.0
  {
  }

  /** The two-task, two-VM case of the test suite with schedule [0, 1]:
      makespan max(100, 200) = 200, cost 0.005*100 + 0.007*200 = 1.9, and two
      equal ratios 3/108 = 6/216. */
  lemma ExampleEvaluation(std: seq<real> -> real)
    ensures var tasks := [Task(0, 100, 50, 20, 1, 1, 1), Task(1, 200, 60, 30, 2, 2, 2)];
            var vms := [VM(0, 4, 4, 100, 1024, 0.005), VM(1, 8, 8, 200, 2048, 0.007)];
            && Evaluation([0, 1], tasks, vms, std).makespan == 200.0
            && Evaluation([0, 1], tasks, vms, std).totalCost == 1.9
            && Ratios([0, 1], tasks, vms) == [1.0 / 36.0, 1.0 / 36.0]
  {
    var tasks := [Task(0, 100, 50, 20, 1, 1, 1), Task(1, 200, 60, 30, 2, 2, 2)];
    var vms := [VM(0, 4, 4, 100, 1024, 0.005), VM(1, 8, 8, 200, 2048, 0.007)];
    var s := [0, 1];
    assert VmLoad(s, tasks, 0, 2) == 100.0;
    assert VmLoad(s, tasks, 1, 2) == 200.0;
    assert Loads(s, tasks, 2) == [100.0, 200.0];
    assert [100.0, 200.0][1..] == [200.0];
    assert VmRequested(s, tasks, 0, 2) == 3.0;
    assert VmRequested(s, tasks, 1, 2) == 6.0;
  }
}
