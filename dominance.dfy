/** Pareto dominance over objective triples, all objectives minimised. */
module Dominance {
  import opened Models

  /** The source's flag loop, resumed at objective `m` with the flag
      "better in at least one" equal to `betterInOne`: it stops with false at
      the first objective where `a` is worse, and otherwise answers the flag. */
  function DominatesFrom(a: Objectives, b: Objectives, m: nat, betterInOne: bool): bool
    requires m <= NumObjectives
    decreases NumObjectives - m
  {
    if m == NumObjectives then betterInOne
    else if a.Get(m) > b.Get(m) then false
    else DominatesFrom(a, b, m + 1, betterInOne || a.Get(m) < b.Get(m))
  }

  /** `a` dominates `b`: the flag loop run from the first objective. */
  function Dominates(a: Objectives, b: Objectives): bool {
    DominatesFrom(a, b, 0, false)
  }

  /** The textbook definition: no objective worse, at least one strictly better. */
  ghost predicate ParetoDominates(a: Objectives, b: Objectives) {
    && (forall m: nat :: m < NumObjectives ==> a.Get(m) <= b.Get(m))
    && (exists m: nat :: m < NumObjectives && a.Get(m) < b.Get(m))
  }

  /** What the loop computes from objective `m` on. */
  lemma {:induction false} DominatesFromMeaning(a: Objectives, b: Objectives, m: nat, betterInOne: bool)
    requires m <= NumObjectives
    decreases NumObjectives - m
    ensures DominatesFrom(a, b, m, betterInOne) <==>
      && (forall j: nat :: m <= j < NumObjectives ==> a.Get(j) <= b.Get(j))
      && (betterInOne || exists j: nat :: m <= j < NumObjectives && a.Get(j) < b.Get(j))
  {
    if m < NumObjectives {
      DominatesFromMeaning(a, b, m + 1, betterInOne || a.Get(m) < b.Get(m));
      if a.Get(m) <= b.Get(m) && !betterInOne && a.Get(m) < b.Get(m) {
        assert m <= m < NumObjectives && a.Get(m) < b.Get(m);
      }
    }
  }

  /** The flag loop decides exactly Pareto dominance. */
  lemma DominatesIff(a: Objectives, b: Objectives)
    ensures Dominates(a, b) <==> ParetoDominates(a, b)
  {
    DominatesFromMeaning(a, b, 0, false);
  }

  /** No triple dominates itself. */
  lemma DominatesIrreflexive(a: Objectives)
    ensures !Dominates(a, a)
  {
    DominatesIff(a, a);
  }

  /** Dominance never holds in both directions. */
  lemma DominatesAsymmetric(a: Objectives, b: Objectives)
    ensures Dominates(a, b) ==> !Dominates(b, a)
  {
    DominatesIff(a, b);
    DominatesIff(b, a);
    if Dominates(a, b) {
      var m: nat :| m < NumObjectives && a.Get(m) < b.Get(m);
      assert b.Get(m) > a.Get(m);
    }
  }

  /** Dominance is transitive, so it is a strict partial order. */
  lemma DominatesTransitive(a: Objectives, b: Objectives, c: Objectives)
    ensures Dominates(a, b) && Dominates(b, c) ==> Dominates(a, c)
  {
    DominatesIff(a, b);
    DominatesIff(b, c);
    DominatesIff(a, c);
    if Dominates(a, b) && Dominates(b, c) {
      var m: nat :| m < NumObjectives && a.Get(m) < b.Get(m);
      assert a.Get(m) < c.Get(m);
    }
  }
}
