/** Fast non-dominated sorting over a population given as a sequence; an
    individual is its index in the sequence. The source's dictionaries `S`
    and `n`, keyed by individual, are sequences indexed the same way. The
    sort is stated for any dominance relation `dom`; it needs the relation
    to be a strict partial order only to reach every index. */
module NonDominatedSort {
  import opened Models

  /** Strictly increasing, hence without repetitions. */
  predicate Increasing(s: seq<nat>) {
    forall i, j :: 0 <= i < j < |s| ==> s[i] < s[j]
  }

  /** No index marked as processed. */
  function NoneDone(n: nat): (r: seq<bool>)
    ensures |r| == n && forall i :: 0 <= i < n ==> !r[i]
  {
    seq(n, _ => false)
  }

  ghost predicate Irreflexive<T>(os: seq<T>, dom: (T, T) -> bool) {
    forall i :: 0 <= i < |os| ==> !dom(os[i], os[i])
  }

  ghost predicate Transitive<T>(os: seq<T>, dom: (T, T) -> bool) {
    forall i, j, k :: 0 <= i < |os| && 0 <= j < |os| && 0 <= k < |os| && dom(os[i], os[j]) && dom(os[j], os[k]) ==>
      dom(os[i], os[k])
  }

  /** How many indices below `k`, other than `q`, dominate `q` and are not yet processed. */
  function Pending<T>(os: seq<T>, dom: (T, T) -> bool, done: seq<bool>, q: nat, k: nat): nat
    requires q < |os| && k <= |os| == |done|
  {
    if k == 0 then 0
    else Pending(os, dom, done, q, k - 1) + (if !done[k - 1] && k - 1 != q && dom(os[k - 1], os[q]) then 1 else 0)
  }

  /** The indices below `k`, other than `p`, that `p` dominates, in index order (the source's `S[p]`). */
  function DominatedList<T>(os: seq<T>, dom: (T, T) -> bool, p: nat, k: nat): (r: seq<nat>)
    requires p < |os| && k <= |os|
    ensures forall x: nat :: x in r <==> x < k && x != p && dom(os[p], os[x])
    ensures Increasing(r)
  {
    if k == 0 then []
    else
      var rest := DominatedList(os, dom, p, k - 1);
      if k - 1 != p && dom(os[p], os[k - 1]) then
        assert forall i :: 0 <= i < |rest| ==> rest[i] in rest;
        rest + [k - 1]
      else rest
  }

  /** The number of negative (unranked) entries. */
  function CountUnset(rk: seq<int>): nat {
    if rk == [] then 0 else CountUnset(rk[..|rk| - 1]) + (if rk[|rk| - 1] < 0 then 1 else 0)
  }

  /** The summed sizes of the fronts. */
  function TotalLength<T>(fronts: seq<seq<T>>): nat {
    if fronts == [] then 0 else TotalLength(fronts[..|fronts| - 1]) + |fronts[|fronts| - 1]|
  }

  // ---- the invariant of the front-by-front phase --------------------------

  ghost predicate Tables<T>(os: seq<T>, dom: (T, T) -> bool, S: seq<seq<nat>>) {
    |S| == |os| && forall p :: 0 <= p < |os| ==> S[p] == DominatedList(os, dom, p, |os|)
  }

  /** Each counter holds the number of dominators not yet processed. */
  ghost predicate CountsMatch<T>(os: seq<T>, dom: (T, T) -> bool, n: seq<int>, done: seq<bool>) {
    |n| == |os| == |done| && forall q :: 0 <= q < |os| ==> n[q] == Pending(os, dom, done, q, |os|)
  }

  /** Ranks lie between -1 (unset) and `top`. */
  ghost predicate RankBounds(rk: seq<int>, top: int) {
    forall q :: 0 <= q < |rk| ==> -1 <= rk[q] <= top
  }

  /** Processed indices carry a rank below `top`. */
  ghost predicate DoneRanked(rk: seq<int>, done: seq<bool>, top: int) {
    |done| == |rk| && forall q :: 0 <= q < |rk| && done[q] ==> 0 <= rk[q] < top
  }

  /** Indices ranked below `cur` are processed. */
  ghost predicate LowerDone(rk: seq<int>, done: seq<bool>, cur: int) {
    |done| == |rk| && forall q :: 0 <= q < |rk| && 0 <= rk[q] < cur ==> done[q]
  }

  /** An index is ranked exactly when its counter is zero. */
  ghost predicate RankedIffZero(rk: seq<int>, n: seq<int>) {
    |n| == |rk| && forall q :: 0 <= q < |rk| ==> (rk[q] >= 0 <==> n[q] == 0)
  }

  /** Every other dominator of a ranked index is ranked strictly lower. */
  ghost predicate Layered<T>(os: seq<T>, dom: (T, T) -> bool, rk: seq<int>) {
    |rk| == |os| &&
    forall r, q {:trigger dom(os[r], os[q])} ::
      0 <= r < |os| && 0 <= q < |os| && r != q && rk[q] >= 0 && dom(os[r], os[q]) ==> 0 <= rk[r] < rk[q]
  }

  /** Every index ranked k > 0 has a dominator `par[q]` ranked k - 1 (the
      member of the previous front whose processing ranked it). */
  ghost predicate Supported<T>(os: seq<T>, dom: (T, T) -> bool, rk: seq<int>, par: seq<int>) {
    |rk| == |os| == |par| &&
    forall q {:trigger par[q]} :: 0 <= q < |os| && rk[q] >= 1 ==>
      0 <= par[q] < |os| && rk[par[q]] == rk[q] - 1 && dom(os[par[q]], os[q])
  }

  /** The fronts list exactly the indices of each rank, without repetition. */
  ghost predicate FrontsMatch(rk: seq<int>, fronts: seq<seq<nat>>) {
    && (forall k, j :: 0 <= k < |fronts| && 0 <= j < |fronts[k]| ==> fronts[k][j] < |rk| && rk[fronts[k][j]] == k)
    && (forall q :: 0 <= q < |rk| && 0 <= rk[q] < |fronts| ==> q in fronts[rk[q]])
    && (forall k :: 0 <= k < |fronts| ==> Distinct(fronts[k]))
  }

  /** The state while front `|fronts| - 1` is being processed and the next
      front is being collected in `next`. */
  ghost predicate Stage<T>(os: seq<T>, dom: (T, T) -> bool, S: seq<seq<nat>>, n: seq<int>, rk: seq<int>,
                           par: seq<int>, done: seq<bool>, fronts: seq<seq<nat>>, next: seq<nat>)
  {
    && Tables(os, dom, S)
    && |fronts| > 0
    && |rk| == |os|
    && CountsMatch(os, dom, n, done)
    && RankBounds(rk, |fronts|)
    && DoneRanked(rk, done, |fronts|)
    && LowerDone(rk, done, |fronts| - 1)
    && RankedIffZero(rk, n)
    && Layered(os, dom, rk)
    && Supported(os, dom, rk, par)
    && FrontsMatch(rk, fronts + [next])
  }

  /** Ranks already set stay as they were. */
  ghost predicate Keeps(before: seq<int>, after: seq<int>) {
    |after| == |before| && forall q :: 0 <= q < |before| && before[q] >= 0 ==> after[q] == before[q]
  }

  /** Ranks newly set are all `v`. */
  ghost predicate NewAt(before: seq<int>, after: seq<int>, v: int) {
    |after| == |before| && forall q :: 0 <= q < |before| && before[q] < 0 && after[q] >= 0 ==> after[q] == v
  }

  /** The counters of the indices in `seen` are one below their pending count. */
  ghost predicate PendingLess<T>(os: seq<T>, dom: (T, T) -> bool, done: seq<bool>, n: seq<int>, seen: seq<nat>) {
    |n| == |os| == |done| &&
    forall q :: 0 <= q < |os| ==> n[q] == Pending(os, dom, done, q, |os|) - (if q in seen then 1 else 0)
  }

  /** The invariant of the loop over `S[p]`, after its first `b` entries. */
  ghost predicate Releasing<T>(os: seq<T>, dom: (T, T) -> bool, done: seq<bool>, sp: seq<nat>, b: nat,
                               rk: seq<int>, next: seq<nat>, fronts: seq<seq<nat>>,
                               n': seq<int>, rk': seq<int>, par': seq<int>, next': seq<nat>)
  {
    && b <= |sp|
    && |fronts| > 0
    && PendingLess(os, dom, done, n', sp[..b])
    && RankBounds(rk', |fronts|)
    && RankedIffZero(rk', n')
    && Keeps(rk, rk')
    && NewAt(rk, rk', |fronts|)
    && Layered(os, dom, rk')
    && Supported(os, dom, rk', par')
    && FrontsMatch(rk', fronts + [next'])
    && CountUnset(rk') + |next'| == CountUnset(rk) + |next|
  }

  // ---- lemmas about the counters ------------------------------------------

  /** Marking `p` processed lowers the pending count of exactly the indices `p` dominates. */
  lemma {:induction false} PendingMark<T>(os: seq<T>, dom: (T, T) -> bool, done: seq<bool>, q: nat, p: nat, k: nat)
    requires q < |os| && k <= |os| == |done| && p < |os| && !done[p]
    ensures Pending(os, dom, done[p := true], q, k)
            == Pending(os, dom, done, q, k) - (if p < k && p != q && dom(os[p], os[q]) then 1 else 0)
  {
    if k > 0 {
      PendingMark(os, dom, done, q, p, k - 1);
    }
  }

  /** No dominator is pending exactly when every dominator is processed. */
  lemma {:induction false} PendingZero<T>(os: seq<T>, dom: (T, T) -> bool, done: seq<bool>, q: nat, k: nat)
    requires q < |os| && k <= |os| == |done|
    ensures Pending(os, dom, done, q, k) == 0 <==>
            forall r :: 0 <= r < k && r != q && dom(os[r], os[q]) ==> done[r]
  {
    if k > 0 {
      PendingZero(os, dom, done, q, k - 1);
    }
  }

  /** Ranking one unranked index lowers the count of unranked ones by one. */
  lemma {:induction false} CountUnsetAssign(rk: seq<int>, q: nat, v: int)
    requires q < |rk| && rk[q] < 0 <= v
    ensures CountUnset(rk[q := v]) == CountUnset(rk) - 1
    decreases |rk|
  {
    var last := |rk| - 1;
    if q == last {
      assert rk[q := v][..last] == rk[..last];
    } else {
      assert rk[q := v][..last] == rk[..last][q := v];
      CountUnsetAssign(rk[..last], q, v);
    }
  }

  /** With every index ranked there is no unranked one left. */
  lemma {:induction false} CountUnsetNone(rk: seq<int>)
    requires forall q :: 0 <= q < |rk| ==> rk[q] >= 0
    ensures CountUnset(rk) == 0
    decreases |rk|
  {
    if rk != [] {
      CountUnsetNone(rk[..|rk| - 1]);
    }
  }

  /** With no index ranked, every index is unranked. */
  lemma {:induction false} CountUnsetAll(rk: seq<int>)
    requires forall q :: 0 <= q < |rk| ==> rk[q] < 0
    ensures CountUnset(rk) == |rk|
    decreases |rk|
  {
    if rk != [] {
      CountUnsetAll(rk[..|rk| - 1]);
    }
  }

  lemma TotalLengthAppend<T>(fronts: seq<seq<T>>, f: seq<T>)
    ensures TotalLength(fronts + [f]) == TotalLength(fronts) + |f|
  {
    assert (fronts + [f])[..|fronts|] == fronts;
  }

  /** A non-empty set of indices has a member that none of them dominates,
      when dominance is irreflexive and transitive on the population. */
  lemma {:induction false} Undominated<T>(os: seq<T>, dom: (T, T) -> bool, U: set<nat>) returns (m: nat)
    requires U != {} && forall x :: x in U ==> x < |os|
    requires Irreflexive(os, dom) && Transitive(os, dom)
    ensures m in U && forall r :: r in U ==> !dom(os[r], os[m])
    decreases |U|
  {
    var x :| x in U;
    var rest := U - {x};
    if rest == {} {
      forall r | r in U
        ensures r == x
      {
        assert r !in rest;
      }
      m := x;
    } else {
      var m' := Undominated(os, dom, rest);
      if dom(os[x], os[m']) {
        forall r | r in U
          ensures !dom(os[r], os[x])
        {
          if r != x {
            assert r in rest;
          }
        }
        m := x;
      } else {
        m := m';
      }
    }
  }

  // ---- the loop over S[p] ------------------------------------------------

  /** Ranking `q` one above the front of `p`, once `p` was its last pending
      dominator, keeps dominators below and keeps every rank supported. */
  lemma RankStep<T>(os: seq<T>, dom: (T, T) -> bool, rk: seq<int>, par: seq<int>, done: seq<bool>,
                    p: nat, q: nat, level: nat)
    requires |rk| == |os| == |done| && p < |os| && q < |os|
    requires Layered(os, dom, rk) && Supported(os, dom, rk, par)
    requires rk[q] < 0 && rk[p] == level && dom(os[p], os[q])
    requires forall r :: 0 <= r < |os| && done[r] ==> 0 <= rk[r] <= level
    requires forall r :: 0 <= r < |os| && r != q && dom(os[r], os[q]) ==> done[p := true][r]
    ensures Layered(os, dom, rk[q := level + 1]) && Supported(os, dom, rk[q := level + 1], par[q := p])
  {
    RankStepLayered(os, dom, rk, done, p, q, level);
    RankStepSupported(os, dom, rk, par, p, q, level);
  }

  /** Ranking `q` one above the front of `p` keeps dominators ranked below. */
  lemma RankStepLayered<T>(os: seq<T>, dom: (T, T) -> bool, rk: seq<int>, done: seq<bool>, p: nat, q: nat, level: nat)
    requires |rk| == |os| == |done| && p < |os| && q < |os|
    requires Layered(os, dom, rk)
    requires rk[q] < 0 && rk[p] == level
    requires forall r :: 0 <= r < |os| && done[r] ==> 0 <= rk[r] <= level
    requires forall r :: 0 <= r < |os| && r != q && dom(os[r], os[q]) ==> done[p := true][r]
    ensures Layered(os, dom, rk[q := level + 1])
  {
    var rk' := rk[q := level + 1];
    forall r, t | 0 <= r < |os| && 0 <= t < |os| && r != t && rk'[t] >= 0 && dom(os[r], os[t])
      ensures 0 <= rk'[r] < rk'[t]
    {
      if t == q {
        assert r == p || done[r];
      } else {
        assert rk[t] >= 0;
      }
    }
  }

  /** Ranking `q` one above the front of `p`, with `p` as its parent, keeps
      every rank supported. */
  lemma RankStepSupported<T>(os: seq<T>, dom: (T, T) -> bool, rk: seq<int>, par: seq<int>, p: nat, q: nat, level: nat)
    requires |rk| == |os| && p < |os| && q < |os|
    requires Supported(os, dom, rk, par)
    requires rk[q] < 0 && rk[p] == level && dom(os[p], os[q])
    ensures Supported(os, dom, rk[q := level + 1], par[q := p])
  {
    var rk' := rk[q := level + 1];
    var par' := par[q := p];
    forall t | 0 <= t < |os| && rk'[t] >= 1
      ensures 0 <= par'[t] < |os| && rk'[par'[t]] == rk'[t] - 1 && dom(os[par'[t]], os[t])
    {
      if t != q {
        assert rk[par[t]] == rk[t] - 1;
      }
    }
  }

  /** An unranked index ranked into the pending front joins its list. */
  lemma FrontsStep(rk: seq<int>, fronts: seq<seq<nat>>, next: seq<nat>, q: nat, level: nat)
    requires FrontsMatch(rk, fronts + [next]) && |fronts| == level + 1
    requires q < |rk| && rk[q] < 0
    ensures FrontsMatch(rk[q := level + 1], fronts + [next + [q]])
  {
    var before := fronts + [next];
    var after := fronts + [next + [q]];
    var rk' := rk[q := level + 1];
    assert forall k :: 0 <= k < |fronts| ==> after[k] == before[k];
    forall j | 0 <= j < |next|
      ensures next[j] != q
    {
      assert before[level + 1][j] == next[j];
    }
    forall k, j | 0 <= k < |after| && 0 <= j < |after[k]|
      ensures after[k][j] < |rk'| && rk'[after[k][j]] == k
    {
      if k < |fronts| {
        assert after[k][j] == before[k][j];
      } else if j < |next| {
        assert after[k][j] == before[k][j];
      }
    }
    forall x | 0 <= x < |rk'| && 0 <= rk'[x] < |after|
      ensures x in after[rk'[x]]
    {
      if x != q {
        assert x in before[rk[x]];
      } else {
        assert after[level + 1][|next|] == q;
      }
    }
    forall k | 0 <= k < |after|
      ensures Distinct(after[k])
    {
      if k < |fronts| {
        assert after[k] == before[k];
      } else {
        assert Distinct(before[k]);
      }
    }
  }

  /** The loop invariant holds before the first entry of `S[p]`. */
  lemma ReleaseStart<T>(os: seq<T>, dom: (T, T) -> bool, S: seq<seq<nat>>, n: seq<int>, rk: seq<int>,
                        par: seq<int>, done: seq<bool>, fronts: seq<seq<nat>>, next: seq<nat>, p: nat)
    requires Stage(os, dom, S, n, rk, par, done, fronts, next) && p < |os|
    ensures p < |S| && Releasing(os, dom, done, S[p], 0, rk, next, fronts, n, rk, par, next)
  {
    assert S[p][..0] == [];
  }

  /** The next entry of `S[p]` is a new index that `p` dominates. */
  lemma NextEntry<T>(os: seq<T>, dom: (T, T) -> bool, S: seq<seq<nat>>, p: nat, b: nat)
    requires Tables(os, dom, S) && p < |os| && b < |S[p]|
    ensures var q := S[p][b]; q < |os| && q != p && dom(os[p], os[q]) && q !in S[p][..b]
    ensures S[p][..b + 1] == S[p][..b] + [S[p][b]]
  {
    var sp := S[p];
    var q := sp[b];
    assert sp == DominatedList(os, dom, p, |os|);
    assert q in sp;
    forall j | 0 <= j < b
      ensures sp[j] != q
    {
      assert sp[j] < sp[b];
    }
    assert sp[..b + 1] == sp[..b] + [q];
  }

  /** Counting one more entry of `S[p]` as seen lowers just its counter. */
  lemma PendingLessStep<T>(os: seq<T>, dom: (T, T) -> bool, done: seq<bool>, n: seq<int>, sp: seq<nat>, b: nat)
    requires b < |sp| && sp[b] < |os| && sp[b] !in sp[..b] && sp[..b + 1] == sp[..b] + [sp[b]]
    requires PendingLess(os, dom, done, n, sp[..b])
    ensures PendingLess(os, dom, done, n[sp[b] := n[sp[b]] - 1], sp[..b + 1])
  {
  }

  /** The counter of `q` reached zero: ranking it at `v` keeps the rank bookkeeping. */
  lemma MarkRanked(rk: seq<int>, rk': seq<int>, n': seq<int>, q: nat, v: nat)
    requires q < |rk| == |rk'| == |n'| && rk[q] < 0 && n'[q] == 1
    requires RankBounds(rk', v) && RankedIffZero(rk', n') && Keeps(rk, rk') && NewAt(rk, rk', v)
    ensures RankBounds(rk'[q := v], v) && RankedIffZero(rk'[q := v], n'[q := n'[q] - 1])
    ensures Keeps(rk, rk'[q := v]) && NewAt(rk, rk'[q := v], v)
  {
  }

  /** The counter of an unranked `q` dropped but not to zero. */
  lemma StillUnranked(rk': seq<int>, n': seq<int>, q: nat)
    requires q < |rk'| == |n'| && rk'[q] < 0 && n'[q] != 1
    requires RankedIffZero(rk', n')
    ensures RankedIffZero(rk', n'[q := n'[q] - 1])
  {
  }

  /** What the loop over `S[p]` knows about its next entry `q`: `p`
      dominates it, it is unranked with a positive counter, counting it as
      seen keeps the counters right, and a counter of 1 means `p` is its
      last unprocessed dominator. */
  lemma EntryFacts<T>(os: seq<T>, dom: (T, T) -> bool, S: seq<seq<nat>>, rk: seq<int>,
                      done: seq<bool>, fronts: seq<seq<nat>>, next: seq<nat>, p: nat,
                      b: nat, n': seq<int>, rk': seq<int>, par': seq<int>, next': seq<nat>)
    requires Tables(os, dom, S) && |rk| == |os| && DoneRanked(rk, done, |fronts|)
    requires p < |os| && rk[p] == |fronts| - 1 && !done[p] && b < |S[p]|
    requires Releasing(os, dom, done, S[p], b, rk, next, fronts, n', rk', par', next')
    ensures var q := S[p][b];
            && q < |os| == |n'| == |rk'| == |par'| == |done| && q != p && dom(os[p], os[q])
            && n'[q] >= 1 && rk'[q] < 0 && rk[q] < 0
            && PendingLess(os, dom, done, n'[q := n'[q] - 1], S[p][..b + 1])
            && (n'[q] == 1 ==> forall r :: 0 <= r < |os| && r != q && dom(os[r], os[q]) ==> done[p := true][r])
  {
    var N := |os|;
    var sp := S[p];
    var q := sp[b];
    NextEntry(os, dom, S, p, b);
    PendingZero(os, dom, done, q, N);
    PendingMark(os, dom, done, q, p, N);
    assert n'[q] == Pending(os, dom, done, q, N) >= 1;
    assert rk'[q] < 0 && rk[q] < 0;
    PendingLessStep(os, dom, done, n', sp, b);
    if n'[q] == 1 {
      PendingZero(os, dom, done[p := true], q, N);
    }
  }

  /** An entry of `S[p]` whose counter reaches zero: it is ranked one above
      the current front, remembers `p` as its parent and joins the next front. */
  lemma RankEntry<T>(os: seq<T>, dom: (T, T) -> bool, S: seq<seq<nat>>, rk: seq<int>,
                     done: seq<bool>, fronts: seq<seq<nat>>, next: seq<nat>, p: nat,
                     b: nat, n': seq<int>, rk': seq<int>, par': seq<int>, next': seq<nat>)
    requires Tables(os, dom, S) && |rk| == |os| && DoneRanked(rk, done, |fronts|)
    requires p < |os| && rk[p] == |fronts| - 1 && !done[p] && b < |S[p]|
    requires Releasing(os, dom, done, S[p], b, rk, next, fronts, n', rk', par', next')
    requires S[p][b] < |n'| && n'[S[p][b]] == 1
    ensures var q := S[p][b];
            Releasing(os, dom, done, S[p], b + 1, rk, next, fronts,
                      n'[q := n'[q] - 1], rk'[q := |fronts|], par'[q := p], next' + [q])
  {
    var q := S[p][b];
    RankShape(os, dom, S, rk, done, fronts, next, p, b, n', rk', par', next');
    RankCounts(os, dom, S, rk, done, fronts, next, p, b, n', rk', par', next');
    NextEntry(os, dom, S, p, b);
    ReleasingIntro(os, dom, done, S[p], b + 1, rk, next, fronts, n'[q := n'[q] - 1], rk'[q := |fronts|], par'[q := p], next' + [q]);
  }

  /** Ranking a released entry keeps dominators below, every rank
      supported and the fronts matching the ranks. */
  lemma RankShape<T>(os: seq<T>, dom: (T, T) -> bool, S: seq<seq<nat>>, rk: seq<int>,
                     done: seq<bool>, fronts: seq<seq<nat>>, next: seq<nat>, p: nat,
                     b: nat, n': seq<int>, rk': seq<int>, par': seq<int>, next': seq<nat>)
    requires Tables(os, dom, S) && |rk| == |os| && DoneRanked(rk, done, |fronts|)
    requires p < |os| && rk[p] == |fronts| - 1 && !done[p] && b < |S[p]|
    requires Releasing(os, dom, done, S[p], b, rk, next, fronts, n', rk', par', next')
    requires S[p][b] < |n'| && n'[S[p][b]] == 1
    ensures var q := S[p][b];
            && Layered(os, dom, rk'[q := |fronts|]) && Supported(os, dom, rk'[q := |fronts|], par'[q := p])
            && FrontsMatch(rk'[q := |fronts|], fronts + [next' + [q]])
  {
    var q := S[p][b];
    var i := |fronts| - 1;
    EntryFacts(os, dom, S, rk, done, fronts, next, p, b, n', rk', par', next');
    DoneRankedKept(rk, rk', done, |fronts|);
    RankStep(os, dom, rk', par', done, p, q, i);
    FrontsStep(rk', fronts, next', q, i);
  }

  /** Processed indices keep their ranks, so they stay ranked below `top`. */
  lemma DoneRankedKept(rk: seq<int>, rk': seq<int>, done: seq<bool>, top: int)
    requires DoneRanked(rk, done, top) && Keeps(rk, rk')
    ensures forall r :: 0 <= r < |rk'| && done[r] ==> 0 <= rk'[r] < top
  {
    forall r | 0 <= r < |rk'| && done[r]
      ensures 0 <= rk'[r] < top
    {
      assert rk'[r] == rk[r];
    }
  }

  /** Ranking a released entry keeps the counters and the rank bookkeeping. */
  lemma RankCounts<T>(os: seq<T>, dom: (T, T) -> bool, S: seq<seq<nat>>, rk: seq<int>,
                      done: seq<bool>, fronts: seq<seq<nat>>, next: seq<nat>, p: nat,
                      b: nat, n': seq<int>, rk': seq<int>, par': seq<int>, next': seq<nat>)
    requires Tables(os, dom, S) && |rk| == |os| && DoneRanked(rk, done, |fronts|)
    requires p < |os| && rk[p] == |fronts| - 1 && !done[p] && b < |S[p]|
    requires Releasing(os, dom, done, S[p], b, rk, next, fronts, n', rk', par', next')
    requires S[p][b] < |n'| && n'[S[p][b]] == 1
    ensures var q := S[p][b];
            && PendingLess(os, dom, done, n'[q := n'[q] - 1], S[p][..b + 1])
            && RankBounds(rk'[q := |fronts|], |fronts|) && RankedIffZero(rk'[q := |fronts|], n'[q := n'[q] - 1])
            && Keeps(rk, rk'[q := |fronts|]) && NewAt(rk, rk'[q := |fronts|], |fronts|)
            && CountUnset(rk'[q := |fronts|]) + |next' + [q]| == CountUnset(rk) + |next|
  {
    var q := S[p][b];
    EntryFacts(os, dom, S, rk, done, fronts, next, p, b, n', rk', par', next');
    CountUnsetAssign(rk', q, |fronts|);
    MarkRanked(rk, rk', n', q, |fronts|);
  }

  /** An entry of `S[p]` whose counter stays positive only loses one. */
  lemma CountEntry<T>(os: seq<T>, dom: (T, T) -> bool, S: seq<seq<nat>>, rk: seq<int>,
                      done: seq<bool>, fronts: seq<seq<nat>>, next: seq<nat>, p: nat,
                      b: nat, n': seq<int>, rk': seq<int>, par': seq<int>, next': seq<nat>)
    requires Tables(os, dom, S) && |rk| == |os| && DoneRanked(rk, done, |fronts|)
    requires p < |os| && rk[p] == |fronts| - 1 && !done[p] && b < |S[p]|
    requires Releasing(os, dom, done, S[p], b, rk, next, fronts, n', rk', par', next')
    requires S[p][b] < |n'| && n'[S[p][b]] != 1
    ensures var q := S[p][b];
            Releasing(os, dom, done, S[p], b + 1, rk, next, fronts, n'[q := n'[q] - 1], rk', par', next')
  {
    var q := S[p][b];
    EntryFacts(os, dom, S, rk, done, fronts, next, p, b, n', rk', par', next');
    StillUnranked(rk', n', q);
    ReleasingIntro(os, dom, done, S[p], b + 1, rk, next, fronts, n'[q := n'[q] - 1], rk', par', next');
  }

  /** `Releasing` from its parts. */
  lemma ReleasingIntro<T>(os: seq<T>, dom: (T, T) -> bool, done: seq<bool>, sp: seq<nat>, b: nat,
                          rk: seq<int>, next: seq<nat>, fronts: seq<seq<nat>>,
                          n': seq<int>, rk': seq<int>, par': seq<int>, next': seq<nat>)
    requires b <= |sp| && |fronts| > 0
    requires PendingLess(os, dom, done, n', sp[..b])
    requires RankBounds(rk', |fronts|) && RankedIffZero(rk', n')
    requires Keeps(rk, rk') && NewAt(rk, rk', |fronts|)
    requires Layered(os, dom, rk') && Supported(os, dom, rk', par')
    requires FrontsMatch(rk', fronts + [next'])
    requires CountUnset(rk') + |next'| == CountUnset(rk) + |next|
    ensures Releasing(os, dom, done, sp, b, rk, next, fronts, n', rk', par', next')
  {
  }

  /** After the whole of `S[p]`, marking `p` processed restores the stage. */
  lemma ReleaseEnd<T>(os: seq<T>, dom: (T, T) -> bool, S: seq<seq<nat>>, n: seq<int>, rk: seq<int>,
                      par: seq<int>, done: seq<bool>, fronts: seq<seq<nat>>, next: seq<nat>, p: nat,
                      n': seq<int>, rk': seq<int>, par': seq<int>, next': seq<nat>)
    requires Stage(os, dom, S, n, rk, par, done, fronts, next)
    requires p < |os| && rk[p] == |fronts| - 1 && !done[p]
    requires Releasing(os, dom, done, S[p], |S[p]|, rk, next, fronts, n', rk', par', next')
    ensures Stage(os, dom, S, n', rk', par', done[p := true], fronts, next')
    ensures CountUnset(rk') + |next'| == CountUnset(rk) + |next|
    ensures Keeps(rk, rk')
  {
    var N := |os|;
    var sp := S[p];
    var done' := done[p := true];
    assert sp[..|sp|] == sp;
    assert sp == DominatedList(os, dom, p, N);
    forall q | 0 <= q < N
      ensures n'[q] == Pending(os, dom, done', q, N)
    {
      PendingMark(os, dom, done, q, p, N);
    }
    forall q | 0 <= q < N && done'[q]
      ensures 0 <= rk'[q] < |fronts|
    {
      if q != p {
        assert done[q];
      }
    }
    forall q | 0 <= q < N && 0 <= rk'[q] < |fronts| - 1
      ensures done'[q]
    {
      if rk[q] >= 0 {
        assert rk'[q] == rk[q];
      }
    }
  }

  /** The inner loop of the first phase: compare `p` with every other index. */
  method Compare<T>(os: seq<T>, dom: (T, T) -> bool, p: nat) returns (sp: seq<nat>, np: nat)
    requires p < |os| && Irreflexive(os, dom) && Transitive(os, dom)
    ensures sp == DominatedList(os, dom, p, |os|)
    ensures np == Pending(os, dom, NoneDone(|os|), p, |os|)
  {
    sp, np := [], 0;
    for q := 0 to |os|
      invariant sp == DominatedList(os, dom, p, q)
      invariant np == Pending(os, dom, NoneDone(|os|), p, q)
    {
      CompareStep(os, dom, p, q);
      if p != q {
        if dom(os[p], os[q]) {
          assert !dom(os[q], os[p]);
          sp := sp + [q];
        } else if dom(os[q], os[p]) {
          np := np + 1;
        }
      }
    }
  }

  /** Comparing `p` with one more index `q` extends its list by `q` when
      `p` dominates it and its count by one when `q` dominates `p`. */
  lemma CompareStep<T>(os: seq<T>, dom: (T, T) -> bool, p: nat, q: nat)
    requires p < |os| && q < |os|
    ensures DominatedList(os, dom, p, q + 1) ==
      DominatedList(os, dom, p, q) + if q != p && dom(os[p], os[q]) then [q] else []
    ensures Pending(os, dom, NoneDone(|os|), p, q + 1) ==
      Pending(os, dom, NoneDone(|os|), p, q) + if q != p && dom(os[q], os[p]) then 1 else 0
  {
  }

  /** The loop over `S[p]` for a member `p` of the current front: each index
      `p` dominates loses one pending dominator, and those reaching zero are
      ranked one above the current front and join the next front. */
  method Release<T>(os: seq<T>, dom: (T, T) -> bool, S: seq<seq<nat>>, n: seq<int>, rk: seq<int>,
                    ghost par: seq<int>, ghost done: seq<bool>, ghost fronts: seq<seq<nat>>, next: seq<nat>,
                    p: nat, level: nat)
    returns (n': seq<int>, rk': seq<int>, ghost par': seq<int>, ghost done': seq<bool>, next': seq<nat>)
    requires Stage(os, dom, S, n, rk, par, done, fronts, next)
    requires level == |fronts| - 1
    requires p < |os| && rk[p] == level && !done[p]
    ensures done' == done[p := true]
    ensures Stage(os, dom, S, n', rk', par', done', fronts, next')
    ensures CountUnset(rk') + |next'| == CountUnset(rk) + |next|
    ensures Keeps(rk, rk')
  {
    ReleaseStart(os, dom, S, n, rk, par, done, fronts, next, p);
    n', rk', par', next' := Decrement(os, dom, S, n, rk, par, done, fronts, next, p, level);
    ReleaseEnd(os, dom, S, n, rk, par, done, fronts, next, p, n', rk', par', next');
    done' := done[p := true];
  }

  /** The loop over `S[p]` itself, from the state where none of its
      entries is seen to the state where all are. */
  method Decrement<T>(os: seq<T>, dom: (T, T) -> bool, S: seq<seq<nat>>, n: seq<int>, rk: seq<int>,
                      ghost par: seq<int>, ghost done: seq<bool>, ghost fronts: seq<seq<nat>>, next: seq<nat>,
                      p: nat, level: nat)
    returns (n': seq<int>, rk': seq<int>, ghost par': seq<int>, next': seq<nat>)
    requires Tables(os, dom, S) && |rk| == |os| && DoneRanked(rk, done, |fronts|)
    requires level == |fronts| - 1 && p < |os| && rk[p] == level && !done[p]
    requires Releasing(os, dom, done, S[p], 0, rk, next, fronts, n, rk, par, next)
    ensures Releasing(os, dom, done, S[p], |S[p]|, rk, next, fronts, n', rk', par', next')
  {
    var sp := S[p];
    n', rk', par', next' := n, rk, par, next;
    for b := 0 to |sp|
      invariant Releasing(os, dom, done, sp, b, rk, next, fronts, n', rk', par', next')
    {
      n', rk', par', next' := DecrementEntry(os, dom, S, rk, done, fronts, next, p, level, b, n', rk', par', next');
    }
  }

  /** One step of the loop above: entry b of `S[p]` loses a dominator and is
      ranked in the next front when none is left. */
  method DecrementEntry<T>(os: seq<T>, dom: (T, T) -> bool, S: seq<seq<nat>>, rk: seq<int>,
                           ghost done: seq<bool>, ghost fronts: seq<seq<nat>>, next: seq<nat>, p: nat, level: nat,
                           b: nat, n': seq<int>, rk': seq<int>, ghost par': seq<int>, next': seq<nat>)
    returns (n'': seq<int>, rk'': seq<int>, ghost par'': seq<int>, next'': seq<nat>)
    requires Tables(os, dom, S) && |rk| == |os| && DoneRanked(rk, done, |fronts|)
    requires level == |fronts| - 1 && p < |os| && rk[p] == level && !done[p] && b < |S[p]|
    requires Releasing(os, dom, done, S[p], b, rk, next, fronts, n', rk', par', next')
    ensures Releasing(os, dom, done, S[p], b + 1, rk, next, fronts, n'', rk'', par'', next'')
  {
    var q := S[p][b];
    NextEntry(os, dom, S, p, b);
    if n'[q] == 1 {
      RankEntry(os, dom, S, rk, done, fronts, next, p, b, n', rk', par', next');
      n'', rk'', par'', next'' := n'[q := n'[q] - 1], rk'[q := level + 1], par'[q := p], next' + [q];
    } else {
      CountEntry(os, dom, S, rk, done, fronts, next, p, b, n', rk', par', next');
      n'', rk'', par'', next'' := n'[q := n'[q] - 1], rk', par', next';
    }
  }

  // ---- the loop over the fronts --------------------------------------------

  /** The processed indices are those ranked below `lim` and those in `extra`. */
  ghost predicate DoneBelow(rk: seq<int>, done: seq<bool>, lim: int, extra: seq<nat>) {
    |done| == |rk| && forall q :: 0 <= q < |rk| ==> (done[q] <==> 0 <= rk[q] < lim || q in extra)
  }

  /** The invariant of the loop over the fronts: the last front is the one to
      process next, and every earlier front is processed and non-empty. */
  ghost predicate Layers<T>(os: seq<T>, dom: (T, T) -> bool, S: seq<seq<nat>>, n: seq<int>, rk: seq<int>,
                            par: seq<int>, done: seq<bool>, fronts: seq<seq<nat>>)
  {
    && Stage(os, dom, S, n, rk, par, done, fronts, [])
    && DoneBelow(rk, done, |fronts| - 1, [])
    && (forall k :: 0 <= k < |fronts| - 1 ==> fronts[k] != [])
    && CountUnset(rk) + TotalLength(fronts) == |os|
  }

  /** The invariant of the loop over the last front, after its first `a`
      members; `before` is the rank table when that loop started. */
  ghost predicate Sweeping<T>(os: seq<T>, dom: (T, T) -> bool, S: seq<seq<nat>>, n: seq<int>, rk: seq<int>,
                              par: seq<int>, done: seq<bool>, fronts: seq<seq<nat>>, next: seq<nat>,
                              a: nat, before: seq<int>)
  {
    && |fronts| > 0
    && a <= |fronts[|fronts| - 1]|
    && Stage(os, dom, S, n, rk, par, done, fronts, next)
    && DoneBelow(rk, done, |fronts| - 1, fronts[|fronts| - 1][..a])
    && Keeps(before, rk)
    && CountUnset(rk) + |next| == CountUnset(before)
  }

  lemma SweepStart<T>(os: seq<T>, dom: (T, T) -> bool, S: seq<seq<nat>>, n: seq<int>, rk: seq<int>,
                      par: seq<int>, done: seq<bool>, fronts: seq<seq<nat>>)
    requires Layers(os, dom, S, n, rk, par, done, fronts)
    ensures Sweeping(os, dom, S, n, rk, par, done, fronts, [], 0, rk)
  {
    assert fronts[|fronts| - 1][..0] == [];
  }

  /** The next member of the front is ranked at the front's level and not yet processed. */
  lemma SweepMember<T>(os: seq<T>, dom: (T, T) -> bool, S: seq<seq<nat>>, n: seq<int>, rk: seq<int>,
                       par: seq<int>, done: seq<bool>, fronts: seq<seq<nat>>, next: seq<nat>,
                       a: nat, before: seq<int>)
    requires Sweeping(os, dom, S, n, rk, par, done, fronts, next, a, before)
    requires a < |fronts[|fronts| - 1]|
    ensures var p := fronts[|fronts| - 1][a]; p < |os| && rk[p] == |fronts| - 1 && !done[p]
  {
    var i := |fronts| - 1;
    var current := fronts[i];
    var p := current[a];
    assert (fronts + [next])[i] == current;
    assert p < |os| && rk[p] == i;
    forall j | 0 <= j < a
      ensures current[j] != p
    {
      assert Distinct((fronts + [next])[i]);
    }
    assert p !in current[..a];
  }

  /** Processing one more member of the front keeps the loop invariant. */
  lemma SweepStep<T>(os: seq<T>, dom: (T, T) -> bool, S: seq<seq<nat>>, n: seq<int>, rk: seq<int>,
                     par: seq<int>, done: seq<bool>, fronts: seq<seq<nat>>, next: seq<nat>,
                     a: nat, before: seq<int>,
                     n': seq<int>, rk': seq<int>, par': seq<int>, next': seq<nat>)
    requires Sweeping(os, dom, S, n, rk, par, done, fronts, next, a, before)
    requires a < |fronts[|fronts| - 1]|
    requires var p := fronts[|fronts| - 1][a]; p < |os| && rk[p] == |fronts| - 1 && !done[p]
    requires Stage(os, dom, S, n', rk', par', done[fronts[|fronts| - 1][a] := true], fronts, next')
    requires CountUnset(rk') + |next'| == CountUnset(rk) + |next|
    requires Keeps(rk, rk')
    ensures Sweeping(os, dom, S, n', rk', par', done[fronts[|fronts| - 1][a] := true], fronts, next', a + 1, before)
  {
    var i := |fronts| - 1;
    DoneBelowStep(rk, rk', done, i, fronts[i], a);
    KeepsTransitive(before, rk, rk');
  }

  /** Marking the member at place a of the current front processed extends
      the processed part of the front by one place. */
  lemma DoneBelowStep(rk: seq<int>, rk': seq<int>, done: seq<bool>, lim: int, current: seq<nat>, a: nat)
    requires a < |current| && current[a] < |rk| && DoneBelow(rk, done, lim, current[..a]) && Keeps(rk, rk')
    requires LowerDone(rk', done[current[a] := true], lim)
    ensures DoneBelow(rk', done[current[a] := true], lim, current[..a + 1])
  {
    var p := current[a];
    var done' := done[p := true];
    assert current[..a + 1] == current[..a] + [p];
    forall q | 0 <= q < |rk|
      ensures done'[q] <==> 0 <= rk'[q] < lim || q in current[..a + 1]
    {
      if rk[q] >= 0 {
        assert rk'[q] == rk[q];
      }
    }
  }

  /** Ranks kept through two steps are kept through both. */
  lemma KeepsTransitive(a: seq<int>, b: seq<int>, c: seq<int>)
    requires Keeps(a, b) && Keeps(b, c)
    ensures Keeps(a, c)
  {
    forall q | 0 <= q < |a| && a[q] >= 0
      ensures c[q] == a[q]
    {
      assert b[q] == a[q];
    }
  }

  /** Once the whole front is processed, the collected front is appended. */
  lemma SweepEnd<T>(os: seq<T>, dom: (T, T) -> bool, S: seq<seq<nat>>, n: seq<int>, rk: seq<int>,
                    par: seq<int>, done: seq<bool>, fronts: seq<seq<nat>>, next: seq<nat>, before: seq<int>)
    requires |fronts| > 0
    requires Sweeping(os, dom, S, n, rk, par, done, fronts, next, |fronts[|fronts| - 1]|, before)
    requires CountUnset(before) + TotalLength(fronts) == |os|
    requires forall k :: 0 <= k < |fronts| ==> fronts[k] != []
    ensures Layers(os, dom, S, n, rk, par, done, fronts + [next])
  {
    var i := |fronts| - 1;
    var current := fronts[i];
    assert current[..|current|] == current;
    var fr := fronts + [next];
    assert forall k :: 0 <= k < |fr| ==> (fr + [[]])[k] == fr[k];
    forall q | 0 <= q < |os|
      ensures done[q] <==> 0 <= rk[q] < i + 1
    {
      if rk[q] == i {
        assert fr[i] == current;
      }
    }
    TotalLengthAppend(fronts, next);
  }

  /** The invariant of the first phase after the indices below `p`: their
      lists and counters are computed, those with a zero counter are
      ranked 0 and listed in `first`, in index order. */
  ghost predicate Tabulated<T>(os: seq<T>, dom: (T, T) -> bool, S: seq<seq<nat>>, n: seq<int>, rk: seq<int>,
                               first: seq<nat>, p: nat)
  {
    && p <= |os| && |S| == p && |n| == p && |rk| == |os|
    && (forall x :: 0 <= x < p ==>
          S[x] == DominatedList(os, dom, x, |os|) && n[x] == Pending(os, dom, NoneDone(|os|), x, |os|))
    && (forall x :: 0 <= x < |os| ==> rk[x] == (if x < p && n[x] == 0 then 0 else -1))
    && (forall x: nat :: x in first <==> x < p && n[x] == 0)
    && Increasing(first)
    && CountUnset(rk) + |first| == |os|
  }

  lemma TabulateStart<T>(os: seq<T>, dom: (T, T) -> bool)
    ensures Tabulated(os, dom, [], [], seq(|os|, _ => -1), [], 0)
  {
    CountUnsetAll(seq(|os|, _ => -1));
  }

  /** Recording the list and counter of index `p` keeps the invariant. */
  lemma TabulateStep<T>(os: seq<T>, dom: (T, T) -> bool, S: seq<seq<nat>>, n: seq<int>, rk: seq<int>,
                        first: seq<nat>, p: nat, sp: seq<nat>, np: nat)
    requires Tabulated(os, dom, S, n, rk, first, p) && p < |os|
    requires sp == DominatedList(os, dom, p, |os|) && np == Pending(os, dom, NoneDone(|os|), p, |os|)
    ensures Tabulated(os, dom, S + [sp], n + [np], if np == 0 then rk[p := 0] else rk,
                      if np == 0 then first + [p] else first, p + 1)
  {
    if np == 0 {
      TabulateZero(os, dom, S, n, rk, first, p, sp, np);
    } else {
      TabulateNonZero(os, dom, S, n, rk, first, p, sp, np);
    }
  }

  lemma TabulateZero<T>(os: seq<T>, dom: (T, T) -> bool, S: seq<seq<nat>>, n: seq<int>, rk: seq<int>,
                        first: seq<nat>, p: nat, sp: seq<nat>, np: nat)
    requires Tabulated(os, dom, S, n, rk, first, p) && p < |os|
    requires sp == DominatedList(os, dom, p, |os|) && np == Pending(os, dom, NoneDone(|os|), p, |os|)
    requires np == 0
    ensures Tabulated(os, dom, S + [sp], n + [np], rk[p := 0], first + [p], p + 1)
  {
    var n' := n + [np];
    var f := first + [p];
    CountUnsetAssign(rk, p, 0);
    forall j | 0 <= j < |first|
      ensures first[j] < p
    {
      assert first[j] in first;
    }
    assert Increasing(f);
    forall x: nat
      ensures x in f <==> x < p + 1 && n'[x] == 0
    {
      if x < p {
        assert n'[x] == n[x];
      }
    }
  }

  lemma TabulateNonZero<T>(os: seq<T>, dom: (T, T) -> bool, S: seq<seq<nat>>, n: seq<int>, rk: seq<int>,
                           first: seq<nat>, p: nat, sp: seq<nat>, np: nat)
    requires Tabulated(os, dom, S, n, rk, first, p) && p < |os|
    requires sp == DominatedList(os, dom, p, |os|) && np == Pending(os, dom, NoneDone(|os|), p, |os|)
    requires np != 0
    ensures Tabulated(os, dom, S + [sp], n + [np], rk, first, p + 1)
  {
    var n' := n + [np];
    forall x: nat
      ensures x in first <==> x < p + 1 && n'[x] == 0
    {
      if x < p {
        assert n'[x] == n[x];
      }
    }
  }

  /** Only undominated indices are ranked, so no ranked index has a dominator. */
  lemma FirstLayered<T>(os: seq<T>, dom: (T, T) -> bool, n: seq<int>, rk: seq<int>)
    requires |n| == |rk| == |os|
    requires forall x :: 0 <= x < |os| ==> n[x] == Pending(os, dom, NoneDone(|os|), x, |os|)
    requires forall x :: 0 <= x < |os| ==> rk[x] == (if n[x] == 0 then 0 else -1)
    ensures Layered(os, dom, rk)
  {
    var N := |os|;
    forall q | 0 <= q < N && rk[q] >= 0
      ensures forall r :: 0 <= r < N && r != q ==> !dom(os[r], os[q])
    {
      PendingZero(os, dom, NoneDone(N), q, N);
    }
  }

  /** The undominated indices, ranked 0, form the only front so far. */
  lemma FirstFront(rk: seq<int>, n: seq<int>, first: seq<nat>)
    requires |n| == |rk|
    requires forall x :: 0 <= x < |rk| ==> rk[x] == (if n[x] == 0 then 0 else -1)
    requires forall x: nat :: x in first <==> x < |rk| && n[x] == 0
    requires Increasing(first)
    ensures FrontsMatch(rk, [first] + [[]])
  {
    forall j | 0 <= j < |first|
      ensures first[j] < |rk| && rk[first[j]] == 0
    {
      assert first[j] in first;
    }
    var fr := [first] + [[]];
    assert fr == [first, []];
    assert Distinct(first);
  }

  /** The first phase's result is the invariant of the loop over the fronts,
      with the undominated indices as its only front. */
  lemma FirstLayer<T>(os: seq<T>, dom: (T, T) -> bool, S: seq<seq<nat>>, n: seq<int>, rk: seq<int>, first: seq<nat>)
    requires Tabulated(os, dom, S, n, rk, first, |os|)
    ensures Layers(os, dom, S, n, rk, rk, NoneDone(|os|), [first])
  {
    FirstLayered(os, dom, n, rk);
    FirstFront(rk, n, first);
    assert TotalLength([first]) == TotalLength([first][..0]) + |first|;
  }

  /** When the loop over the fronts stops at an empty front, every index is
      ranked: an unranked index that no unranked index dominates would have
      all its dominators processed, and so a zero counter. */
  lemma AllRanked<T>(os: seq<T>, dom: (T, T) -> bool, S: seq<seq<nat>>, n: seq<int>, rk: seq<int>,
                     par: seq<int>, done: seq<bool>, fronts: seq<seq<nat>>)
    requires Irreflexive(os, dom) && Transitive(os, dom)
    requires Layers(os, dom, S, n, rk, par, done, fronts)
    requires fronts[|fronts| - 1] == []
    ensures forall q :: 0 <= q < |os| ==> 0 <= rk[q] < |fronts| - 1
  {
    var N := |os|;
    var i := |fronts| - 1;
    assert (fronts + [[]])[i] == [];
    var unranked := set q | 0 <= q < N && rk[q] < 0;
    if unranked != {} {
      var m := Undominated(os, dom, unranked);
      forall r | 0 <= r < N && r != m && dom(os[r], os[m])
        ensures done[r]
      {
        assert r !in unranked;
      }
      PendingZero(os, dom, done, m, N);
      assert false;
    }
    forall q | 0 <= q < N
      ensures 0 <= rk[q] < i
    {
      assert q !in unranked;
    }
  }

  /** The fronts partition the indices and the ranks name each index's
      front: no front is empty or repeats an index, each index is in the
      front of its rank, and the sizes add up to the population size. */
  ghost predicate Partition(fronts: seq<seq<nat>>, rank: seq<nat>) {
    && (forall k :: 0 <= k < |fronts| ==> fronts[k] != [] && Distinct(fronts[k]))
    && (forall k, j :: 0 <= k < |fronts| && 0 <= j < |fronts[k]| ==>
          fronts[k][j] < |rank| && rank[fronts[k][j]] == k)
    && (forall q :: 0 <= q < |rank| ==> rank[q] < |fronts| && q in fronts[rank[q]])
    && TotalLength(fronts) == |rank|
  }

  /** The ranks are the Pareto layers: a dominator is ranked strictly lower,
      every rank k > 0 is dominated from rank k - 1, and rank 0 holds exactly
      the undominated indices. */
  ghost predicate Ranked<T>(os: seq<T>, dom: (T, T) -> bool, rank: seq<nat>) {
    && |rank| == |os|
    && (forall r, q :: 0 <= r < |os| && 0 <= q < |os| && dom(os[r], os[q]) ==> rank[r] < rank[q])
    && (forall q :: 0 <= q < |os| && rank[q] > 0 ==>
          exists r :: 0 <= r < |os| && rank[r] == rank[q] - 1 && dom(os[r], os[q]))
    && (forall q :: 0 <= q < |os| ==>
          (rank[q] == 0 <==> forall r :: 0 <= r < |os| ==> !dom(os[r], os[q])))
  }

  /** The fronts without the empty last one partition the ranked indices. */
  lemma FinishPartition(rk: seq<int>, fronts: seq<seq<nat>>, rank: seq<nat>)
    requires |fronts| > 0 && fronts[|fronts| - 1] == []
    requires FrontsMatch(rk, fronts + [[]])
    requires forall k :: 0 <= k < |fronts| - 1 ==> fronts[k] != []
    requires CountUnset(rk) == 0 && TotalLength(fronts) == |rk|
    requires forall q :: 0 <= q < |rk| ==> 0 <= rk[q] < |fronts| - 1
    requires |rank| == |rk| && forall q :: 0 <= q < |rk| ==> rank[q] == rk[q]
    ensures Partition(fronts[..|fronts| - 1], rank)
  {
    var fr := fronts[..|fronts| - 1];
    FinishFronts(rk, fronts, rank);
    FinishCover(rk, fronts, rank);
    assert TotalLength(fronts) == TotalLength(fr) + 0;
    PartitionIntro(fr, rank);
  }

  /** Each kept front is non-empty, has no repeats and holds its own rank. */
  lemma FinishFronts(rk: seq<int>, fronts: seq<seq<nat>>, rank: seq<nat>)
    requires |fronts| > 0 && FrontsMatch(rk, fronts + [[]])
    requires forall k :: 0 <= k < |fronts| - 1 ==> fronts[k] != []
    requires |rank| == |rk| && forall q :: 0 <= q < |rk| ==> rank[q] == rk[q]
    ensures var fr := fronts[..|fronts| - 1];
      && (forall k :: 0 <= k < |fr| ==> fr[k] != [] && Distinct(fr[k]))
      && (forall k, j :: 0 <= k < |fr| && 0 <= j < |fr[k]| ==> fr[k][j] < |rank| && rank[fr[k][j]] == k)
  {
    var fr := fronts[..|fronts| - 1];
    var all := fronts + [[]];
    forall k | 0 <= k < |fr|
      ensures fr[k] != [] && Distinct(fr[k])
      ensures forall j :: 0 <= j < |fr[k]| ==> fr[k][j] < |rank| && rank[fr[k][j]] == k
    {
      assert all[k] == fr[k];
      assert Distinct(all[k]);
    }
  }

  /** Every index lies in the kept front of its rank. */
  lemma FinishCover(rk: seq<int>, fronts: seq<seq<nat>>, rank: seq<nat>)
    requires |fronts| > 0 && FrontsMatch(rk, fronts + [[]])
    requires forall q :: 0 <= q < |rk| ==> 0 <= rk[q] < |fronts| - 1
    requires |rank| == |rk| && forall q :: 0 <= q < |rk| ==> rank[q] == rk[q]
    ensures var fr := fronts[..|fronts| - 1];
      forall q :: 0 <= q < |rank| ==> rank[q] < |fr| && q in fr[rank[q]]
  {
    var fr := fronts[..|fronts| - 1];
    var all := fronts + [[]];
    forall q | 0 <= q < |rank|
      ensures rank[q] < |fr| && q in fr[rank[q]]
    {
      assert all[rk[q]] == fr[rk[q]];
      assert q in all[rk[q]];
    }
  }

  /** `Partition` from its four parts. */
  lemma PartitionIntro(fronts: seq<seq<nat>>, rank: seq<nat>)
    requires forall k :: 0 <= k < |fronts| ==> fronts[k] != [] && Distinct(fronts[k])
    requires forall k, j :: 0 <= k < |fronts| && 0 <= j < |fronts[k]| ==>
      fronts[k][j] < |rank| && rank[fronts[k][j]] == k
    requires forall q :: 0 <= q < |rank| ==> rank[q] < |fronts| && q in fronts[rank[q]]
    requires TotalLength(fronts) == |rank|
    ensures Partition(fronts, rank)
  {
  }

  /** Ranked and supported layers with every index ranked are the Pareto layers. */
  lemma FinishRanked<T>(os: seq<T>, dom: (T, T) -> bool, rk: seq<int>, par: seq<int>, rank: seq<nat>)
    requires Irreflexive(os, dom) && Layered(os, dom, rk) && Supported(os, dom, rk, par)
    requires forall q :: 0 <= q < |os| ==> rk[q] >= 0
    requires |rank| == |os| && forall q :: 0 <= q < |os| ==> rank[q] == rk[q]
    ensures Ranked(os, dom, rank)
  {
    var N := |os|;
    forall q | 0 <= q < N && rank[q] > 0
      ensures exists r :: 0 <= r < N && rank[r] == rank[q] - 1 && dom(os[r], os[q])
    {
      var r := par[q];
      assert rank[r] == rank[q] - 1 && dom(os[r], os[q]);
    }
    forall r, q | 0 <= r < N && 0 <= q < N && dom(os[r], os[q])
      ensures rank[r] < rank[q]
    {
      assert r != q;
    }
  }

  /** The final fronts (the loop's list without its empty last front) and
      ranks have every property the sort promises. */
  lemma Finish<T>(os: seq<T>, dom: (T, T) -> bool, S: seq<seq<nat>>, n: seq<int>, rk: seq<int>,
                  par: seq<int>, done: seq<bool>, fronts: seq<seq<nat>>, rank: seq<nat>)
    requires Irreflexive(os, dom) && Transitive(os, dom)
    requires Layers(os, dom, S, n, rk, par, done, fronts)
    requires fronts[|fronts| - 1] == []
    requires |rank| == |os| && forall q :: 0 <= q < |os| ==> rank[q] == rk[q]
    ensures Partition(fronts[..|fronts| - 1], rank)
    ensures Ranked(os, dom, rank)
  {
    AllRanked(os, dom, S, n, rk, par, done, fronts);
    CountUnsetNone(rk);
    FinishPartition(rk, fronts, rank);
    FinishRanked(os, dom, rk, par, rank);
  }

  /** The first phase: the domination lists, the counters, and the first
      front of the undominated indices (ranked 0, all others unranked). */
  method Tabulate<T>(os: seq<T>, dom: (T, T) -> bool) returns (S: seq<seq<nat>>, n: seq<int>, rk: seq<int>, first: seq<nat>)
    requires Irreflexive(os, dom) && Transitive(os, dom)
    ensures Layers(os, dom, S, n, rk, rk, NoneDone(|os|), [first])
  {
    S, n, rk, first := [], [], seq(|os|, _ => -1), [];
    TabulateStart(os, dom);
    for p := 0 to |os|
      invariant Tabulated(os, dom, S, n, rk, first, p)
    {
      var sp, np := Compare(os, dom, p);
      TabulateStep(os, dom, S, n, rk, first, p, sp, np);
      S := S + [sp];
      n := n + [np];
      if np == 0 {
        rk := rk[p := 0];
        first := first + [p];
      }
    }
    FirstLayer(os, dom, S, n, rk, first);
  }

  /** The source's fast non-dominated sort: returns the fronts (index lists)
      and each index's rank. */
  method Sort<T>(os: seq<T>, dom: (T, T) -> bool) returns (fronts: seq<seq<nat>>, rank: seq<nat>)
    requires Irreflexive(os, dom) && Transitive(os, dom)
    ensures Partition(fronts, rank)
    ensures Ranked(os, dom, rank)
  {
    var N := |os|;
    var S, n, rk, first := Tabulate(os, dom);
    ghost var done := NoneDone(N);
    ghost var par := rk;
    fronts := [first];
    while fronts[|fronts| - 1] != []
      invariant Layers(os, dom, S, n, rk, par, done, fronts)
      invariant forall k :: 0 <= k < |fronts| - 1 ==> fronts[k] != []
      decreases CountUnset(rk) + |fronts[|fronts| - 1]|
    {
      var i := |fronts| - 1;
      var current := fronts[i];
      ghost var before := rk;
      var next: seq<nat> := [];
      SweepStart(os, dom, S, n, rk, par, done, fronts);
      for a := 0 to |current|
        invariant Sweeping(os, dom, S, n, rk, par, done, fronts, next, a, before)
      {
        SweepMember(os, dom, S, n, rk, par, done, fronts, next, a, before);
        var p := current[a];
        var n', rk', par', done', next' := Release(os, dom, S, n, rk, par, done, fronts, next, p, i);
        SweepStep(os, dom, S, n, rk, par, done, fronts, next, a, before, n', rk', par', next');
        n, rk, par, done, next := n', rk', par', done', next';
      }
      SweepEnd(os, dom, S, n, rk, par, done, fronts, next, before);
      fronts := fronts + [next];
    }
    AllRanked(os, dom, S, n, rk, par, done, fronts);
    rank := seq(N, q requires 0 <= q < N => rk[q] as nat);
    Finish(os, dom, S, n, rk, par, done, fronts, rank);
    fronts := fronts[..|fronts| - 1];
  }
}
