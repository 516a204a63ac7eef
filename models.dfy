/** The domain model of the scheduler: the immutable Task and VM records, the
    objective triple, the extended-real crowding distance, and the mutable
    Individual (a candidate schedule with its annotations). */
module Models {

  datatype Option<T> = None | Some(value: T)

  /** A cloud task. Only `length` and the three requirement fields take part
      in evaluation; the others are carried along as in the source. */
  datatype Task = Task(id: int, length: int, filesize: int, outputsize: int,
                       cpuReq: int, ramReq: int, bwReq: int)

  /** A virtual machine; `cost` is the price per workload unit. */
  datatype VM = VM(id: int, cpuCap: int, ramCap: int, bwCap: int, storage: int, cost: real)

  /** The number of objectives, all of them minimised. */
  const NumObjectives: nat := 3

  /** (makespan, total_cost, load_balance), indexed 0, 1, 2 by `Get`. */
  datatype Objectives = Objectives(makespan: real, totalCost: real, loadBalance: real) {
    function Get(m: nat): real {
      if m == 0 then makespan else if m == 1 then totalCost else loadBalance
    }
  }

  /** A crowding distance: a finite real or float('inf'). */
  datatype Distance = Fin(value: real) | Inf {

    /** `this + x`, where inf absorbs every finite addend. */
    function Plus(x: real): Distance {
      if Inf? then Inf else Fin(value + x)
    }

    /** The order of the extended reals. */
    predicate AtMost(other: Distance) {
      other.Inf? || (Fin? && value <= other.value)
    }

    predicate NonNegative() {
      Inf? || value >= 0.0
    }
  }

  /** The elements of `s` are pairwise different. */
  predicate Distinct<T(==)>(s: seq<T>) {
    forall i, j :: 0 <= i < j < |s| ==> s[i] != s[j]
  }

  /** Every gene is a VM index in [0, numVms). */
  predicate GenesInRange(s: seq<int>, numVms: int) {
    forall i :: 0 <= i < |s| ==> 0 <= s[i] < numVms
  }

  /** Python's max over a non-empty list. */
  function MaxOf(xs: seq<real>): real
    requires |xs| > 0
  {
    if |xs| == 1 then xs[0]
    else
      var rest := MaxOf(xs[1..]);
      if xs[0] >= rest then xs[0] else rest
  }

  /** Python's min over a non-empty list. */
  function MinOf(xs: seq<real>): real
    requires |xs| > 0
  {
    if |xs| == 1 then xs[0]
    else
      var rest := MinOf(xs[1..]);
      if xs[0] <= rest then xs[0] else rest
  }

  /** `MaxOf` is an element that bounds all others. */
  lemma {:induction false} MaxOfIsMaximum(xs: seq<real>)
    requires |xs| > 0
    ensures forall i :: 0 <= i < |xs| ==> xs[i] <= MaxOf(xs)
    ensures exists i :: 0 <= i < |xs| && xs[i] == MaxOf(xs)
  {
    if |xs| == 1 {
      assert xs[0] == MaxOf(xs);
    } else {
      MaxOfIsMaximum(xs[1..]);
      assert forall i :: 1 <= i < |xs| ==> xs[i] == xs[1..][i - 1];
      if xs[0] < MaxOf(xs[1..]) {
        var k :| 0 <= k < |xs[1..]| && xs[1..][k] == MaxOf(xs[1..]);
        assert xs[k + 1] == MaxOf(xs);
      } else {
        assert xs[0] == MaxOf(xs);
      }
    }
  }

  /** `MinOf` is an element that all others bound. */
  lemma {:induction false} MinOfIsMinimum(xs: seq<real>)
    requires |xs| > 0
    ensures forall i :: 0 <= i < |xs| ==> MinOf(xs) <= xs[i]
    ensures exists i :: 0 <= i < |xs| && xs[i] == MinOf(xs)
  {
    if |xs| == 1 {
      assert xs[0] == MinOf(xs);
    } else {
      MinOfIsMinimum(xs[1..]);
      assert forall i :: 1 <= i < |xs| ==> xs[i] == xs[1..][i - 1];
      if xs[0] > MinOf(xs[1..]) {
        var k :| 0 <= k < |xs[1..]| && xs[1..][k] == MinOf(xs[1..]);
        assert xs[k + 1] == MinOf(xs);
      } else {
        assert xs[0] == MinOf(xs);
      }
    }
  }

  /** A candidate schedule: `schedule[t]` is the VM that runs task t. The
      annotations are overwritten in place by the optimiser. */
  class Individual {
    var schedule: seq<int>
    var objs: Option<Objectives>
    var rank: Option<nat>
    var crowding: Distance

    /** A fresh candidate holding exactly `schedule`, not yet evaluated,
        ranked or given a crowding distance other than 0. */
    constructor (schedule: seq<int>)
      ensures this.schedule == schedule
      ensures objs == None && rank == None && crowding == Fin(0.0)
    {
      this.schedule := schedule;
      objs := None;
      rank := None;
      crowding := Fin(0.0);
    }

    /** A new object with the same schedule contents and the same
        annotations; the receiver is left as it was (no modifies clause).
        Because the copy is fresh, later writes to its schedule cannot reach
        the original's. */
    method Copy() returns (c: Individual)
      ensures fresh(c)
      ensures c.schedule == schedule
      ensures c.objs == objs && c.rank == rank && c.crowding == crowding
    {
      c := new Individual(schedule);
      c.objs := objs;
      c.rank := rank;
      c.crowding := crowding;
    }
  }
}
