/** Preparing a condition for SQL: De Morgan's laws, then null-safe negations. */
module CondHardening {
  import opened Conditions

  /** Negations only of record item conditions. */
  predicate Nnf(c: Cond) {
    match c
    case Not(s) => s.RecItem?
    case Multi(_, subs) => forall s | s in subs :: Nnf(s)
    case _ => true
  }

  ghost predicate AllNnf(given: set<Cond>) {
    forall s | s in given :: Nnf(s)
  }

  lemma MakeMultiNnf(neutral: bool, given: set<Cond>)
    requires AllNnf(given)
    ensures Nnf(MakeMulti(neutral, given))
  {
    assert forall s | s in Parts(neutral, given) :: Nnf(s);
  }

  // ---------------------------------------------------------------- why De Morgan's laws terminate

  ghost function Largest(s: set<nat>): (m: nat)
    ensures forall x | x in s :: x <= m
    ensures s != {} ==> m in s
  {
    if s == {} then 0
    else
      var x :| x in s;
      assert forall y | y in s :: y == x || y in s - {x};
      var m := Largest(s - {x});
      if m > x then m else x
  }

  /** Depth, with a negation counted for more than what it turns into. */
  ghost function Weight(c: Cond): nat {
    match c
    case Not(s) => 2 * Weight(s) + 1
    case Multi(_, subs) => 1 + Largest(set s | s in subs :: Weight(s))
    case _ => 0
  }

  ghost predicate AtMost(given: set<Cond>, w: nat) {
    forall s | s in given :: Weight(s) <= w
  }

  lemma SubWeight(neutral: bool, subs: set<Cond>)
    ensures forall s | s in subs :: Weight(s) < Weight(Multi(neutral, subs))
  {
    var ws := set s | s in subs :: Weight(s);
    assert Weight(Multi(neutral, subs)) == 1 + Largest(ws);
    assert forall s | s in subs :: Weight(s) in ws;
  }

  lemma MultiWeight(neutral: bool, subs: set<Cond>, w: nat)
    requires AtMost(subs, w)
    ensures Weight(Multi(neutral, subs)) <= w + 1
  {
  }

  lemma MakeMultiWeight(neutral: bool, given: set<Cond>, w: nat)
    requires AtMost(given, w)
    ensures Weight(MakeMulti(neutral, given)) <= w + 1
  {
    var subs := Parts(neutral, given);
    forall c | c in subs
      ensures Weight(c) <= w
    {
      var s :| s in given && c in Members(neutral, s);
      if s.Multi? && s.neutral == neutral {
        SubWeight(neutral, s.subs);
      } else {
        assert Members(neutral, s) == {s};
      }
    }
    MultiWeight(neutral, subs, w);
  }

  /** The parts of a negated AND (or OR), each negated. */
  function Negated(subs: set<Cond>): set<Cond> {
    set s | s in subs :: MakeNot(s)
  }

  lemma DualWeight(neutral: bool, subs: set<Cond>)
    ensures Weight(MakeMulti(!neutral, Negated(subs))) < Weight(Not(Multi(neutral, subs)))
  {
    var c := Multi(neutral, subs);
    SubWeight(neutral, subs);
    forall x | x in Negated(subs)
      ensures Weight(x) <= 2 * (Weight(c) - 1) + 1
    {
      var s :| s in subs && x == MakeNot(s);
      assert Weight(s) < Weight(c);
    }
    MakeMultiWeight(!neutral, Negated(subs), 2 * (Weight(c) - 1) + 1);
  }

  lemma NegatedBuilt(subs: set<Cond>)
    requires AllBuilt(subs)
    ensures AllBuilt(Negated(subs))
  {
    forall x | x in Negated(subs)
      ensures Built(x)
    {
      var s :| s in subs && x == MakeNot(s);
      MakeNotBuilt(s);
    }
  }

  // ---------------------------------------------------------------- CondDeMorganTransformer

  /** `CondDeMorganTransformer`: in the result only record item conditions are negated. */
  ghost function DeMorgan(c: Cond): (r: Cond)
    requires Built(c)
    ensures Built(r) && Nnf(r)
    decreases Weight(c)
  {
    match c
    case Not(Multi(neutral, subs)) =>
      DualWeight(neutral, subs);
      assert Built(Multi(neutral, subs));
      NegatedBuilt(subs);
      MakeMultiBuilt(!neutral, Negated(subs));
      DeMorgan(MakeMulti(!neutral, Negated(subs)))
    case Multi(neutral, subs) =>
      SubWeight(neutral, subs);
      var given := set s | s in subs :: DeMorgan(s);
      MakeMultiBuilt(neutral, given);
      MakeMultiNnf(neutral, given);
      MakeMulti(neutral, given)
    case _ => c
  }

  lemma DualMeans(neutral: bool, subs: set<Cond>, row: Row)
    ensures Eval(MakeMulti(!neutral, Negated(subs)), row) == !Eval(Multi(neutral, subs), row)
  {
    MakeMultiMeans(!neutral, Negated(subs), row);
    forall s | s in subs
      ensures MakeNot(s) in Negated(subs) && Eval(MakeNot(s), row) == !Eval(s, row)
    {
      MakeNotNegates(s, row);
    }
  }

  /** De Morgan's laws keep the meaning. */
  lemma {:induction false} DeMorganMeans(c: Cond, row: Row)
    requires Built(c)
    ensures Eval(DeMorgan(c), row) == Eval(c, row)
    decreases Weight(c)
  {
    match c
    case Not(Multi(neutral, subs)) =>
      DualWeight(neutral, subs);
      assert Built(Multi(neutral, subs));
      NegatedBuilt(subs);
      MakeMultiBuilt(!neutral, Negated(subs));
      DualMeans(neutral, subs, row);
      DeMorganMeans(MakeMulti(!neutral, Negated(subs)), row);
    case Multi(neutral, subs) =>
      SubWeight(neutral, subs);
      var given := set s | s in subs :: DeMorgan(s);
      forall s | s in subs
        ensures DeMorgan(s) in given && Eval(DeMorgan(s), row) == Eval(s, row)
      {
        DeMorganMeans(s, row);
      }
      MakeMultiMeans(neutral, given, row);
    case _ =>
  }

  // ---------------------------------------------------------------- null-safe negations

  predicate NonNullable(key: Column) {
    match key
    case Id | Rid | SourceId | Restriction | Confidence | Category | Time | Ip | Dip | Modified => true
    case _ => false
  }

  /** A negation that SQL already gets right. */
  predicate SafeToNegate(key: Column, t: Test) {
    NonNullable(key) || t.IsTrue? || t.IsNull?
  }

  /** `_CondToCondWithNullSafeNegationsTransformer` */
  function NullSafe(c: Cond): (r: Cond)
    requires Built(c) && Nnf(c)
    ensures Built(r) && Nnf(r)
  {
    match c
    case Not(RecItem(k, t)) =>
      if SafeToNegate(k, t) then c
      else
        MakeMultiBuilt(false, {RecItem(k, IsNull), c});
        MakeMultiNnf(false, {RecItem(k, IsNull), c});
        MakeOr({RecItem(k, IsNull), c})
    case Multi(neutral, subs) =>
      var given := set s | s in subs :: NullSafe(s);
      MakeMultiBuilt(neutral, given);
      MakeMultiNnf(neutral, given);
      MakeMulti(neutral, given)
    case _ => c
  }

  /** The added alternatives change nothing: two-valued negation is true of NULL already. */
  lemma {:induction false} NullSafeMeans(c: Cond, row: Row)
    requires Built(c) && Nnf(c)
    ensures Eval(NullSafe(c), row) == Eval(c, row)
  {
    match c
    case Not(RecItem(k, t)) =>
      MakeMultiMeans(false, {RecItem(k, IsNull), c}, row);
    case Multi(neutral, subs) =>
      var given := set s | s in subs :: NullSafe(s);
      forall s | s in subs
        ensures NullSafe(s) in given && Eval(NullSafe(s), row) == Eval(s, row)
      {
        NullSafeMeans(s, row);
      }
      MakeMultiMeans(neutral, given, row);
    case _ =>
  }

  /** The conditions a hardened one is made of: an unsafe negation stands beside a test for NULL. */
  predicate Covered(s: Cond, subs: set<Cond>) {
    s.Not? && s.sub.RecItem? && RecItem(s.sub.key, IsNull) in subs
  }

  predicate Guarded(c: Cond) {
    match c
    case Not(s) => s.RecItem? && SafeToNegate(s.key, s.test)
    case Multi(neutral, subs) => forall s | s in subs :: Guarded(s) || (!neutral && Covered(s, subs))
    case _ => true
  }

  lemma MakeMultiGuarded(neutral: bool, given: set<Cond>)
    requires forall s | s in given :: Guarded(s) || (!neutral && Covered(s, given))
    ensures Guarded(MakeMulti(neutral, given))
  {
    var subs := Parts(neutral, given);
    forall c | c in subs
      ensures Guarded(c) || (!neutral && Covered(c, subs))
    {
      var s :| s in given - {Fixed(neutral)} && c in Members(neutral, s);
      if s.Multi? && s.neutral == neutral {
        assert forall x | x in s.subs :: x in Members(neutral, s);
        assert s.subs <= subs;
      } else {
        assert Members(neutral, s) == {s};
        if Covered(s, given) {
          var n := RecItem(s.sub.key, IsNull);
          assert n in given && n in Members(neutral, n);
        }
      }
    }
  }

  lemma {:induction false} NullSafeGuards(c: Cond)
    requires Built(c) && Nnf(c)
    ensures Guarded(NullSafe(c))
  {
    match c
    case Not(RecItem(k, t)) =>
      if !SafeToNegate(k, t) {
        MakeMultiGuarded(false, {RecItem(k, IsNull), c});
      }
    case Multi(neutral, subs) =>
      forall s | s in subs
        ensures Guarded(NullSafe(s))
      {
        NullSafeGuards(s);
      }
      MakeMultiGuarded(neutral, set s | s in subs :: NullSafe(s));
    case _ =>
  }

  /** The whole hardener. */
  ghost function Harden(c: Cond): (r: Cond)
    requires Built(c)
    ensures Built(r) && Nnf(r) && Guarded(r)
  {
    NullSafeGuards(DeMorgan(c));
    NullSafe(DeMorgan(c))
  }

  lemma HardenMeans(c: Cond, row: Row)
    requires Built(c)
    ensures Eval(Harden(c), row) == Eval(c, row)
  {
    DeMorganMeans(c, row);
    NullSafeMeans(DeMorgan(c), row);
  }
}
