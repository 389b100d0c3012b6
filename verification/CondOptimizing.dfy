/** The two optimizing transformers: factoring out shared subconditions, and merging equality tests. */
module CondOptimizing {
  import opened Conditions

  // ---------------------------------------------------------------- counting leaves

  ghost function SumMap(m: map<Cond, nat>): nat {
    if m == map[] then 0
    else
      var k :| k in m;
      m[k] + SumMap(m - {k})
  }

  lemma {:induction false} SumMapRemove(m: map<Cond, nat>, k: Cond)
    requires k in m
    ensures SumMap(m) == m[k] + SumMap(m - {k})
    decreases |m|
  {
    var x :| x in m && SumMap(m) == m[x] + SumMap(m - {x});
    if x != k {
      SumMapRemove(m - {x}, k);
      SumMapRemove(m - {k}, x);
      assert m - {x} - {k} == m - {k} - {x};
    }
  }

  /** Record item conditions in a condition, occurrence by occurrence. */
  ghost function Leaves(c: Cond): nat {
    match c
    case Fixed(_) => 0
    case RecItem(_, _) => 1
    case Not(s) => Leaves(s)
    case Multi(_, subs) => SumMap(map s | s in subs :: Leaves(s))
  }

  ghost function Sum(subs: set<Cond>): nat {
    SumMap(map s | s in subs :: Leaves(s))
  }

  lemma SumRemove(subs: set<Cond>, s: Cond)
    requires s in subs
    ensures Sum(subs) == Leaves(s) + Sum(subs - {s})
  {
    var m := map x | x in subs :: Leaves(x);
    SumMapRemove(m, s);
    assert m - {s} == map x | x in subs - {s} :: Leaves(x);
  }

  lemma {:induction false} SumUnion(a: set<Cond>, b: set<Cond>)
    ensures Sum(a + b) <= Sum(a) + Sum(b)
    ensures a !! b ==> Sum(a + b) == Sum(a) + Sum(b)
    decreases |a|
  {
    if a == {} {
      assert a + b == b;
    } else {
      var x :| x in a;
      SumRemove(a, x);
      SumUnion(a - {x}, b);
      if x in b {
        assert a + b == (a - {x}) + b;
      } else {
        SumRemove(a + b, x);
        assert a + b - {x} == (a - {x}) + b;
      }
    }
  }

  lemma SumOne(s: Cond)
    ensures Sum({s}) == Leaves(s)
  {
    SumRemove({s}, s);
    assert {s} - {s} == {};
  }

  lemma SumPart(a: set<Cond>, b: set<Cond>)
    requires a <= b
    ensures Sum(b) == Sum(a) + Sum(b - a)
  {
    SumUnion(a, b - a);
    assert a + (b - a) == b;
  }

  ghost function Image(subs: set<Cond>, f: Cond -> Cond): set<Cond> {
    set s | s in subs :: f(s)
  }

  lemma ImageRemove(subs: set<Cond>, f: Cond -> Cond, x: Cond)
    requires x in subs
    ensures Image(subs, f) == {f(x)} + Image(subs - {x}, f)
  {
  }

  lemma {:induction false} ImageLeaves(subs: set<Cond>, f: Cond -> Cond)
    requires forall s | s in subs :: Leaves(f(s)) <= Leaves(s)
    ensures Sum(Image(subs, f)) <= Sum(subs)
    decreases |subs|
  {
    if subs == {} {
      assert Image(subs, f) == {};
    } else {
      var x :| x in subs;
      ImageLeaves(subs - {x}, f);
      SumRemove(subs, x);
      SumOne(f(x));
      SumUnion({f(x)}, Image(subs - {x}, f));
      ImageRemove(subs, f, x);
    }
  }

  /** What one given condition adds to the parts. */
  function Part(neutral: bool, s: Cond): set<Cond> {
    if s == Fixed(neutral) then {} else Members(neutral, s)
  }

  lemma PartsRemove(neutral: bool, given: set<Cond>, s: Cond)
    requires s in given
    ensures Parts(neutral, given) == Part(neutral, s) + Parts(neutral, given - {s})
  {
    forall c | c in Parts(neutral, given)
      ensures c in Part(neutral, s) + Parts(neutral, given - {s})
    {
      var x :| x in given - {Fixed(neutral)} && c in Members(neutral, x);
      if x != s {
        assert x in given - {s} - {Fixed(neutral)};
      }
    }
  }

  lemma PartLeaves(neutral: bool, s: Cond)
    ensures Sum(Part(neutral, s)) <= Leaves(s)
  {
    SumOne(s);
  }

  lemma {:induction false} PartsLeaves(neutral: bool, given: set<Cond>)
    ensures Sum(Parts(neutral, given)) <= Sum(given)
    decreases |given|
  {
    if given == {} {
      assert Parts(neutral, given) == {};
    } else {
      var s :| s in given;
      SumRemove(given, s);
      PartsLeaves(neutral, given - {s});
      PartLeaves(neutral, s);
      SumUnion(Part(neutral, s), Parts(neutral, given - {s}));
      PartsRemove(neutral, given, s);
    }
  }

  /** The constructors add no leaves. */
  lemma MakeMultiLeaves(neutral: bool, given: set<Cond>)
    ensures Leaves(MakeMulti(neutral, given)) <= Sum(given)
  {
    PartsLeaves(neutral, given);
    var subs := Parts(neutral, given);
    if |subs| == 1 {
      SumOne(Only(subs));
    }
  }

  lemma {:induction false} BuiltHasLeaves(c: Cond)
    requires Built(c) && !c.Fixed?
    ensures Leaves(c) > 0
  {
    match c
    case Not(s) => BuiltHasLeaves(s);
    case Multi(_, subs) =>
      var s :| s in subs;
      BuiltHasLeaves(s);
      SumRemove(subs, s);
    case _ =>
  }

  lemma SubHasFewer(c: Cond, s: Cond)
    requires Built(c) && c.Multi? && s in c.subs
    ensures Leaves(s) < Leaves(c)
  {
    SumRemove(c.subs, s);
    assert |c.subs - {s}| > 0;
    var x :| x in c.subs - {s};
    BuiltHasLeaves(x);
    SumRemove(c.subs - {s}, x);
  }

  // ---------------------------------------------------------------- CondFactoringTransformer

  /** The top-level subconditions that hold a 2nd-level one; one of another kind holds itself. */
  function Parents(neutral: bool, subs: set<Cond>, c: Cond): set<Cond> {
    set p | p in subs && c in Members(!neutral, p)
  }

  /** What may be extracted: subconditions with the same parents, at least two. */
  ghost predicate Shared(neutral: bool, subs: set<Cond>, extracted: set<Cond>, parents: set<Cond>) {
    && extracted != {} && |parents| > 1
    && forall c | c in extracted :: Parents(neutral, subs, c) == parents
  }

  function Remainder(neutral: bool, p: Cond, extracted: set<Cond>): Cond {
    MakeMulti(!neutral, Members(!neutral, p) - extracted)
  }

  function Remainders(neutral: bool, parents: set<Cond>, extracted: set<Cond>): set<Cond> {
    set p | p in parents :: Remainder(neutral, p, extracted)
  }

  /** `(x AND a) OR (x AND b) OR e` becomes `(x AND (a OR b)) OR e`, and dually. */
  function Replacing(neutral: bool, extracted: set<Cond>, parents: set<Cond>): Cond {
    MakeMulti(!neutral, {MakeMulti(!neutral, extracted), MakeMulti(neutral, Remainders(neutral, parents, extracted))})
  }

  /** `_new_cond_with_most_shared_2ndlevel_subconds_factored_out()` */
  function FactoredOut(neutral: bool, subs: set<Cond>, extracted: set<Cond>, parents: set<Cond>): Cond {
    MakeMulti(neutral, subs - parents + {Replacing(neutral, extracted, parents)})
  }

  lemma MembersBuilt(neutral: bool, p: Cond)
    requires Built(p)
    ensures AllBuilt(Members(neutral, p))
  {
  }

  lemma ExtractedAreMembers(neutral: bool, subs: set<Cond>, extracted: set<Cond>, parents: set<Cond>)
    requires Shared(neutral, subs, extracted, parents)
    ensures parents <= subs && forall p | p in parents :: extracted <= Members(!neutral, p)
  {
    var c :| c in extracted;
    assert parents == Parents(neutral, subs, c);
    forall p, e | p in parents && e in extracted
      ensures e in Members(!neutral, p)
    {
      assert p in Parents(neutral, subs, e);
    }
  }

  lemma FactoredOutBuilt(neutral: bool, subs: set<Cond>, extracted: set<Cond>, parents: set<Cond>)
    requires AllBuilt(subs) && Shared(neutral, subs, extracted, parents)
    ensures Built(FactoredOut(neutral, subs, extracted, parents))
  {
    ExtractedAreMembers(neutral, subs, extracted, parents);
    var p0 :| p0 in parents;
    MembersBuilt(!neutral, p0);
    MakeMultiBuilt(!neutral, extracted);
    forall r | r in Remainders(neutral, parents, extracted)
      ensures Built(r)
    {
      var p :| p in parents && r == Remainder(neutral, p, extracted);
      MembersBuilt(!neutral, p);
      MakeMultiBuilt(!neutral, Members(!neutral, p) - extracted);
    }
    MakeMultiBuilt(neutral, Remainders(neutral, parents, extracted));
    MakeMultiBuilt(!neutral,
      {MakeMulti(!neutral, extracted), MakeMulti(neutral, Remainders(neutral, parents, extracted))});
    MakeMultiBuilt(neutral, subs - parents + {Replacing(neutral, extracted, parents)});
  }

  // ---- it gets smaller

  lemma RemainderLeaves(neutral: bool, p: Cond, extracted: set<Cond>)
    requires extracted <= Members(!neutral, p)
    ensures Leaves(Remainder(neutral, p, extracted)) + Sum(extracted) <= Leaves(p)
  {
    var ms := Members(!neutral, p);
    SumPart(extracted, ms);
    MakeMultiLeaves(!neutral, ms - extracted);
    SumOne(p);
  }

  lemma OneRemainder(neutral: bool, parents: set<Cond>, extracted: set<Cond>, p: Cond)
    requires p in parents
    ensures Sum(Remainders(neutral, parents, extracted))
            <= Leaves(Remainder(neutral, p, extracted)) + Sum(Remainders(neutral, parents - {p}, extracted))
  {
    var r := Remainder(neutral, p, extracted);
    SumOne(r);
    SumUnion({r}, Remainders(neutral, parents - {p}, extracted));
    assert Remainders(neutral, parents, extracted) == {r} + Remainders(neutral, parents - {p}, extracted);
  }

  lemma {:induction false} RemaindersLeaves(neutral: bool, parents: set<Cond>, extracted: set<Cond>)
    requires parents != {} && forall p | p in parents :: extracted <= Members(!neutral, p)
    ensures Sum(Remainders(neutral, parents, extracted)) + Sum(extracted) <= Sum(parents)
    decreases |parents|
  {
    var p :| p in parents;
    SumRemove(parents, p);
    RemainderLeaves(neutral, p, extracted);
    OneRemainder(neutral, parents, extracted, p);
    if parents == {p} {
      assert Remainders(neutral, parents - {p}, extracted) == {};
    } else {
      RemaindersLeaves(neutral, parents - {p}, extracted);
    }
  }

  /** Of the copies in two parents or more, one is left. */
  lemma RemaindersOfTwo(neutral: bool, parents: set<Cond>, extracted: set<Cond>)
    requires |parents| > 1 && forall p | p in parents :: extracted <= Members(!neutral, p)
    ensures Sum(Remainders(neutral, parents, extracted)) + 2 * Sum(extracted) <= Sum(parents)
  {
    var p :| p in parents;
    SumRemove(parents, p);
    RemainderLeaves(neutral, p, extracted);
    OneRemainder(neutral, parents, extracted, p);
    assert |parents - {p}| > 0;
    RemaindersLeaves(neutral, parents - {p}, extracted);
  }

  lemma ReplacingLeaves(neutral: bool, extracted: set<Cond>, parents: set<Cond>)
    requires |parents| > 1 && forall p | p in parents :: extracted <= Members(!neutral, p)
    ensures Leaves(Replacing(neutral, extracted, parents)) + Sum(extracted) <= Sum(parents)
  {
    var rs := Remainders(neutral, parents, extracted);
    var a, b := MakeMulti(!neutral, extracted), MakeMulti(neutral, rs);
    RemaindersOfTwo(neutral, parents, extracted);
    MakeMultiLeaves(!neutral, extracted);
    MakeMultiLeaves(neutral, rs);
    MakeMultiLeaves(!neutral, {a, b});
    assert Sum({a, b}) <= Leaves(a) + Leaves(b) by {
      SumUnion({a}, {b});
      SumOne(a);
      SumOne(b);
      assert {a, b} == {a} + {b};
    }
  }

  /** Every factoring leaves fewer leaves: repeating it ends. */
  lemma FactoredOutLeaves(neutral: bool, subs: set<Cond>, extracted: set<Cond>, parents: set<Cond>)
    requires Built(Multi(neutral, subs)) && Shared(neutral, subs, extracted, parents)
    ensures Leaves(FactoredOut(neutral, subs, extracted, parents)) < Leaves(Multi(neutral, subs))
  {
    ExtractedAreMembers(neutral, subs, extracted, parents);
    var e :| e in extracted;
    var p :| p in parents;
    assert p in subs && e in Members(!neutral, p);
    assert Built(e) && !e.Fixed?;
    BuiltHasLeaves(e);
    SumRemove(extracted, e);
    ReplacingLeaves(neutral, extracted, parents);
    SumPart(parents, subs);
    var r := Replacing(neutral, extracted, parents);
    SumOne(r);
    SumUnion(subs - parents, {r});
    MakeMultiLeaves(neutral, subs - parents + {r});
  }

  // ---- it means the same

  lemma MembersMean(neutral: bool, p: Cond, row: Row)
    ensures Eval(p, row) == EvalAll(neutral, Members(neutral, p), row)
  {
    if !(p.Multi? && p.neutral == neutral) {
      assert Members(neutral, p) == {p};
    }
  }

  lemma RemainderMeans(neutral: bool, p: Cond, extracted: set<Cond>, row: Row)
    requires extracted <= Members(!neutral, p)
    ensures (Eval(p, row) == !neutral)
            <==> (&& EvalAll(!neutral, extracted, row) == !neutral
                  && Eval(Remainder(neutral, p, extracted), row) == !neutral)
  {
    var ms := Members(!neutral, p);
    MembersMean(!neutral, p, row);
    MakeMultiMeans(!neutral, ms - extracted, row);
    assert forall c | c in ms :: c in extracted || c in ms - extracted;
  }

  /** Where the extracted part does not decide, the remainders mean what the parents mean. */
  lemma RemaindersMean(neutral: bool, extracted: set<Cond>, parents: set<Cond>, row: Row)
    requires forall p | p in parents :: extracted <= Members(!neutral, p)
    requires EvalAll(!neutral, extracted, row) == !neutral
    ensures EvalAll(neutral, Remainders(neutral, parents, extracted), row) == EvalAll(neutral, parents, row)
  {
    var rs := Remainders(neutral, parents, extracted);
    forall p | p in parents
      ensures Remainder(neutral, p, extracted) in rs
      ensures Eval(p, row) == Eval(Remainder(neutral, p, extracted), row)
    {
      RemainderMeans(neutral, p, extracted, row);
    }
    forall r | r in rs
      ensures exists p :: p in parents && Eval(r, row) == Eval(p, row)
    {
      var p :| p in parents && r == Remainder(neutral, p, extracted);
    }
  }

  /** The replacement is neutral exactly when every parent is. */
  lemma ReplacingMeans(neutral: bool, extracted: set<Cond>, parents: set<Cond>, row: Row)
    requires forall p | p in parents :: extracted <= Members(!neutral, p)
    requires parents != {}
    ensures (Eval(Replacing(neutral, extracted, parents), row) == neutral)
            <==> (forall p | p in parents :: Eval(p, row) == neutral)
  {
    var rs := Remainders(neutral, parents, extracted);
    var a, b := MakeMulti(!neutral, extracted), MakeMulti(neutral, rs);
    MakeMultiMeans(!neutral, extracted, row);
    MakeMultiMeans(neutral, rs, row);
    TwoMean(!neutral, a, b, row);
    if Eval(a, row) == neutral {
      forall p | p in parents
        ensures Eval(p, row) == neutral
      {
        RemainderMeans(neutral, p, extracted, row);
      }
    } else {
      RemaindersMean(neutral, extracted, parents, row);
    }
  }

  lemma TwoMean(neutral: bool, a: Cond, b: Cond, row: Row)
    ensures Eval(MakeMulti(neutral, {a, b}), row) == neutral
            <==> Eval(a, row) == neutral && Eval(b, row) == neutral
  {
    MakeMultiMeans(neutral, {a, b}, row);
    assert a in {a, b} && b in {a, b};
  }

  /** Factoring out keeps the meaning, whichever shared subconditions are extracted. */
  lemma FactoredOutMeans(neutral: bool, subs: set<Cond>, extracted: set<Cond>, parents: set<Cond>, row: Row)
    requires Shared(neutral, subs, extracted, parents)
    ensures Eval(FactoredOut(neutral, subs, extracted, parents), row) == Eval(Multi(neutral, subs), row)
  {
    ExtractedAreMembers(neutral, subs, extracted, parents);
    ReplacingMeans(neutral, extracted, parents, row);
    var r := Replacing(neutral, extracted, parents);
    var given := subs - parents + {r};
    MakeMultiMeans(neutral, given, row);
    assert r in given;
    assert forall s | s in subs :: s in parents || s in given;
  }

  ghost predicate AnythingShared(neutral: bool, subs: set<Cond>) {
    exists extracted, parents :: Shared(neutral, subs, extracted, parents)
  }

  /** Some choice of what to extract. */
  ghost function Extraction(neutral: bool, subs: set<Cond>): (r: (set<Cond>, set<Cond>))
    requires AnythingShared(neutral, subs)
    ensures Shared(neutral, subs, r.0, r.1)
  {
    var extracted, parents :| Shared(neutral, subs, extracted, parents);
    (extracted, parents)
  }

  /** One factoring step of a condition with something shared. */
  ghost function FactorOnce(neutral: bool, subs: set<Cond>): (r: Cond)
    requires Built(Multi(neutral, subs)) && AnythingShared(neutral, subs)
    ensures Built(r) && Leaves(r) < Leaves(Multi(neutral, subs))
  {
    var (extracted, parents) := Extraction(neutral, subs);
    FactoredOutBuilt(neutral, subs, extracted, parents);
    FactoredOutLeaves(neutral, subs, extracted, parents);
    FactoredOut(neutral, subs, extracted, parents)
  }

  /** `CondFactoringTransformer`, for any choice of what to extract whenever something is shared. */
  ghost function Factor(c: Cond): (r: Cond)
    requires Built(c)
    ensures Built(r)
    decreases Leaves(c), c
  {
    match c
    case Not(s) =>
      MakeNotBuilt(Factor(s));
      MakeNot(Factor(s))
    case Multi(neutral, subs) =>
      if AnythingShared(neutral, subs) then Factor(FactorOnce(neutral, subs))
      else
        SubsHaveFewer(neutral, subs);
        var given := set s | s in subs :: Factor(s);
        MakeMultiBuilt(neutral, given);
        MakeMulti(neutral, given)
    case _ => c
  }

  lemma SubsHaveFewer(neutral: bool, subs: set<Cond>)
    requires Built(Multi(neutral, subs))
    ensures forall s | s in subs :: Leaves(s) < Leaves(Multi(neutral, subs))
  {
    forall s | s in subs
      ensures Leaves(s) < Leaves(Multi(neutral, subs))
    {
      SubHasFewer(Multi(neutral, subs), s);
    }
  }

  /** Factoring ends, and keeps the meaning. */
  lemma {:induction false} FactorMeans(c: Cond, row: Row)
    requires Built(c)
    ensures Eval(Factor(c), row) == Eval(c, row)
    decreases Leaves(c), c
  {
    match c
    case Not(s) =>
      FactorMeans(s, row);
      MakeNotNegates(Factor(s), row);
    case Multi(neutral, subs) =>
      if AnythingShared(neutral, subs) {
        var (extracted, parents) := Extraction(neutral, subs);
        FactoredOutMeans(neutral, subs, extracted, parents, row);
        FactorMeans(FactorOnce(neutral, subs), row);
      } else {
        SubsHaveFewer(neutral, subs);
        var given := set s | s in subs :: Factor(s);
        forall s | s in subs
          ensures Factor(s) in given && Eval(Factor(s), row) == Eval(s, row)
        {
          FactorMeans(s, row);
        }
        MakeMultiMeans(neutral, given, row);
      }
    case _ =>
  }

  ghost function Factored(subs: set<Cond>): set<Cond>
    requires AllBuilt(subs)
  {
    set s | s in subs :: Factor(s)
  }

  lemma FactoredLeaves(subs: set<Cond>)
    requires AllBuilt(subs) && forall s | s in subs :: Leaves(Factor(s)) <= Leaves(s)
    ensures Sum(Factored(subs)) <= Sum(subs)
  {
    var f := (s: Cond) => if Built(s) then Factor(s) else s;
    ImageLeaves(subs, f);
    assert Image(subs, f) == Factored(subs);
  }

  lemma FactorUnshared(neutral: bool, subs: set<Cond>)
    requires Built(Multi(neutral, subs)) && !AnythingShared(neutral, subs)
    ensures Factor(Multi(neutral, subs)) == MakeMulti(neutral, Factored(subs))
  {
  }

  /** Factoring never makes a condition larger, and makes it smaller whenever something is shared. */
  lemma {:induction false} FactorShrinks(c: Cond)
    requires Built(c)
    ensures Leaves(Factor(c)) <= Leaves(c)
    ensures c.Multi? && AnythingShared(c.neutral, c.subs) ==> Leaves(Factor(c)) < Leaves(c)
    decreases Leaves(c), c
  {
    match c
    case Not(s) => FactorShrinks(s);
    case Multi(neutral, subs) =>
      if AnythingShared(neutral, subs) {
        FactorShrinks(FactorOnce(neutral, subs));
      } else {
        SubsHaveFewer(neutral, subs);
        forall s | s in subs
          ensures Leaves(Factor(s)) <= Leaves(s)
        {
          FactorShrinks(s);
        }
        FactoredLeaves(subs);
        FactorUnshared(neutral, subs);
        MakeMultiLeaves(neutral, Factored(subs));
      }
    case _ =>
  }

  // ---------------------------------------------------------------- CondEqualityMergingTransformer

  predicate IsEquality(c: Cond) {
    c.RecItem? && (c.test.Equal? || c.test.In?)
  }

  /** Equality tests under OR, negated ones under AND. */
  predicate Mergeable(neutral: bool, c: Cond) {
    if neutral then c.Not? && IsEquality(c.sub) else IsEquality(c)
  }

  function Equality(neutral: bool, c: Cond): (e: Cond)
    requires Mergeable(neutral, c)
    ensures IsEquality(e)
  {
    if neutral then c.sub else c
  }

  function ValuesOf(e: Cond): set<Value>
    requires IsEquality(e)
  {
    if e.test.Equal? then {e.test.v} else e.test.vs
  }

  /** Everything the mergeable subconditions on one key are about. */
  function Collected(neutral: bool, subs: set<Cond>, key: Column): set<Value> {
    set s, v | s in subs && Mergeable(neutral, s) && Equality(neutral, s).key == key
               && v in ValuesOf(Equality(neutral, s)) :: v
  }

  function MergedSubcond(neutral: bool, subs: set<Cond>, key: Column): Cond {
    var c := MakeIn(key, Collected(neutral, subs, key));
    if neutral then MakeNot(c) else c
  }

  function MergedSubconds(neutral: bool, subs: set<Cond>): set<Cond> {
    (set s | s in subs && !Mergeable(neutral, s))
    + (set s | s in subs && Mergeable(neutral, s) :: MergedSubcond(neutral, subs, Equality(neutral, s).key))
  }

  predicate AnythingToMerge(neutral: bool, subs: set<Cond>) {
    exists a, b | a in subs && b in subs ::
      && a != b && Mergeable(neutral, a) && Mergeable(neutral, b)
      && Equality(neutral, a).key == Equality(neutral, b).key
  }

  lemma MergedSubcondMeans(neutral: bool, subs: set<Cond>, key: Column, row: Row)
    ensures (Eval(MergedSubcond(neutral, subs, key), row) == neutral)
            <==> (forall s | s in subs && Mergeable(neutral, s) && Equality(neutral, s).key == key ::
                    Eval(s, row) == neutral)
  {
    var vs := Collected(neutral, subs, key);
    MakeInMeans(key, vs, row);
    MakeNotNegates(MakeIn(key, vs), row);
    forall s | s in subs && Mergeable(neutral, s) && Equality(neutral, s).key == key
      ensures Eval(s, row) != neutral <==> (key in row && row[key] in ValuesOf(Equality(neutral, s)))
    {
    }
    if key in row && row[key] in vs {
      var s :| s in subs && Mergeable(neutral, s) && Equality(neutral, s).key == key
               && row[key] in ValuesOf(Equality(neutral, s));
      assert Eval(s, row) != neutral;
    }
  }

  /** Merging keeps the meaning. */
  lemma MergedSubcondsMean(neutral: bool, subs: set<Cond>, row: Row)
    ensures EvalAll(neutral, MergedSubconds(neutral, subs), row) == EvalAll(neutral, subs, row)
  {
    var merged := MergedSubconds(neutral, subs);
    forall s | s in subs && Mergeable(neutral, s)
      ensures MergedSubcond(neutral, subs, Equality(neutral, s).key) in merged
      ensures Eval(s, row) != neutral ==> Eval(MergedSubcond(neutral, subs, Equality(neutral, s).key), row) != neutral
    {
      MergedSubcondMeans(neutral, subs, Equality(neutral, s).key, row);
    }
    forall c | c in merged && Eval(c, row) != neutral
      ensures exists s :: s in subs && Eval(s, row) != neutral
    {
      if !(c in subs && !Mergeable(neutral, c)) {
        var s :| s in subs && Mergeable(neutral, s) && c == MergedSubcond(neutral, subs, Equality(neutral, s).key);
        MergedSubcondMeans(neutral, subs, Equality(neutral, s).key, row);
      }
    }
  }

  lemma MergedSubcondsBuilt(neutral: bool, subs: set<Cond>)
    requires AllBuilt(subs)
    ensures AllBuilt(MergedSubconds(neutral, subs))
  {
    forall c | c in MergedSubconds(neutral, subs)
      ensures Built(c)
    {
      if !(c in subs && !Mergeable(neutral, c)) {
        var s :| s in subs && Mergeable(neutral, s) && c == MergedSubcond(neutral, subs, Equality(neutral, s).key);
        var key := Equality(neutral, s).key;
        MakeInBuilt(key, Collected(neutral, subs, key));
        MakeNotBuilt(MakeIn(key, Collected(neutral, subs, key)));
      }
    }
  }

  /** The merging step on a condition whose subconditions have been visited. */
  function MergeHere(c: Cond): Cond {
    if c.Multi? && AnythingToMerge(c.neutral, c.subs) then MakeMulti(c.neutral, MergedSubconds(c.neutral, c.subs))
    else c
  }

  lemma MergeHereIsSound(c: Cond, row: Row)
    requires Built(c)
    ensures Built(MergeHere(c)) && Eval(MergeHere(c), row) == Eval(c, row)
  {
    if c.Multi? {
      MergedSubcondsMean(c.neutral, c.subs, row);
      MakeMultiMeans(c.neutral, MergedSubconds(c.neutral, c.subs), row);
      MergedSubcondsBuilt(c.neutral, c.subs);
      MakeMultiBuilt(c.neutral, MergedSubconds(c.neutral, c.subs));
    }
  }

  /** `CondEqualityMergingTransformer` */
  function MergeEqualities(c: Cond): (r: Cond)
    requires Built(c)
    ensures Built(r)
  {
    match c
    case Not(s) =>
      MakeNotBuilt(MergeEqualities(s));
      MakeNot(MergeEqualities(s))
    case Multi(neutral, subs) =>
      var given := set s | s in subs :: MergeEqualities(s);
      MakeMultiBuilt(neutral, given);
      MergeHereIsSound(MakeMulti(neutral, given), map[]);
      MergeHere(MakeMulti(neutral, given))
    case _ => c
  }

  lemma {:induction false} MergeEqualitiesMeans(c: Cond, row: Row)
    requires Built(c)
    ensures Eval(MergeEqualities(c), row) == Eval(c, row)
  {
    match c
    case Not(s) =>
      MergeEqualitiesMeans(s, row);
      MakeNotNegates(MergeEqualities(s), row);
    case Multi(neutral, subs) =>
      var given := set s | s in subs :: MergeEqualities(s);
      forall s | s in subs
        ensures MergeEqualities(s) in given && Eval(MergeEqualities(s), row) == Eval(s, row)
      {
        MergeEqualitiesMeans(s, row);
      }
      MakeMultiMeans(neutral, given, row);
      MakeMultiBuilt(neutral, given);
      MergeHereIsSound(MakeMulti(neutral, given), row);
    case _ =>
  }

  /** Nowhere two mergeable subconditions on one key. */
  predicate FullyMerged(c: Cond) {
    match c
    case Not(s) => FullyMerged(s)
    case Multi(neutral, subs) => !AnythingToMerge(neutral, subs) && forall s | s in subs :: FullyMerged(s)
    case _ => true
  }

  /** What a constructor builds of fully merged conditions is fully merged below its top. */
  lemma MakeMultiMerged(neutral: bool, given: set<Cond>)
    requires forall s | s in given :: FullyMerged(s)
    ensures var c := MakeMulti(neutral, given);
            FullyMerged(c) || (c.Multi? && forall s | s in c.subs :: FullyMerged(s))
  {
    forall c | c in Parts(neutral, given)
      ensures FullyMerged(c)
    {
      var s :| s in given && c in Members(neutral, s);
      if !(s.Multi? && s.neutral == neutral) {
        assert Members(neutral, s) == {s};
      }
    }
  }

  /** A merged subcondition is mergeable on its own key: there is one for each key. */
  lemma MergedSubcondKey(neutral: bool, subs: set<Cond>, s: Cond)
    requires s in subs && Mergeable(neutral, s) && Built(s)
    ensures var m := MergedSubcond(neutral, subs, Equality(neutral, s).key);
            Mergeable(neutral, m) && Equality(neutral, m).key == Equality(neutral, s).key && FullyMerged(m)
  {
    var e := Equality(neutral, s);
    var vs := Collected(neutral, subs, e.key);
    assert Built(e) && ValuesOf(e) != {};
    forall v | v in ValuesOf(e)
      ensures v in vs
    {
      assert s in subs && Mergeable(neutral, s) && Equality(neutral, s).key == e.key;
    }
  }

  lemma NothingLeftToMerge(neutral: bool, subs: set<Cond>)
    requires AllBuilt(subs)
    ensures !AnythingToMerge(neutral, MergedSubconds(neutral, subs))
  {
    forall a | a in MergedSubconds(neutral, subs) && Mergeable(neutral, a)
      ensures a == MergedSubcond(neutral, subs, Equality(neutral, a).key)
    {
      var s :| s in subs && Mergeable(neutral, s) && a == MergedSubcond(neutral, subs, Equality(neutral, s).key);
      MergedSubcondKey(neutral, subs, s);
    }
  }

  lemma {:induction false} MergedSubcondIsFull(neutral: bool, subs: set<Cond>, m: Cond)
    requires AllBuilt(subs) && Built(Multi(neutral, subs)) && m in MergedSubconds(neutral, subs)
    requires forall s | s in subs :: FullyMerged(s)
    ensures FullyMerged(m) && Members(neutral, m) == {m}
  {
    if !(m in subs && !Mergeable(neutral, m)) {
      var s :| s in subs && Mergeable(neutral, s) && m == MergedSubcond(neutral, subs, Equality(neutral, s).key);
      MergedSubcondKey(neutral, subs, s);
    }
  }

  lemma {:induction false} MergeHereMerges(c: Cond)
    requires Built(c) && (FullyMerged(c) || (c.Multi? && forall s | s in c.subs :: FullyMerged(s)))
    ensures FullyMerged(MergeHere(c))
  {
    if c.Multi? && AnythingToMerge(c.neutral, c.subs) {
      var merged := MergedSubconds(c.neutral, c.subs);
      NothingLeftToMerge(c.neutral, c.subs);
      forall m | m in merged
        ensures FullyMerged(m) && Members(c.neutral, m) == {m}
      {
        MergedSubcondIsFull(c.neutral, c.subs, m);
      }
      assert Parts(c.neutral, merged) <= merged;
    }
  }

  /** After the transformer nothing is left to merge, at any depth. */
  lemma {:induction false} MergeEqualitiesIsFull(c: Cond)
    requires Built(c)
    ensures FullyMerged(MergeEqualities(c))
  {
    match c
    case Not(s) => MergeEqualitiesIsFull(s);
    case Multi(neutral, subs) =>
      var given := set s | s in subs :: MergeEqualities(s);
      forall s | s in subs
        ensures FullyMerged(MergeEqualities(s))
      {
        MergeEqualitiesIsFull(s);
      }
      MakeMultiMerged(neutral, given);
      MakeMultiBuilt(neutral, given);
      MergeHereMerges(MakeMulti(neutral, given));
    case _ =>
  }

  /** The optimizer: factoring, then merging; or nothing, when it is switched off. */
  ghost function Optimize(c: Cond, skipping: bool): (r: Cond)
    requires Built(c)
    ensures Built(r)
  {
    if skipping then c else MergeEqualities(Factor(c))
  }

  /** A merged subcondition is one leaf or none. */
  lemma MergedSubcondLeaves(neutral: bool, subs: set<Cond>, key: Column)
    ensures Leaves(MergedSubcond(neutral, subs, key)) <= 1
  {
  }

  lemma MergedSubcondsLeaves(neutral: bool, subs: set<Cond>)
    ensures Sum(MergedSubconds(neutral, subs)) <= Sum(subs)
  {
    var f := (s: Cond) =>
      if Mergeable(neutral, s) then MergedSubcond(neutral, subs, Equality(neutral, s).key) else s;
    forall s | s in subs && Mergeable(neutral, s)
      ensures Leaves(f(s)) <= Leaves(s)
    {
      MergedSubcondLeaves(neutral, subs, Equality(neutral, s).key);
    }
    ImageLeaves(subs, f);
    assert Image(subs, f) == MergedSubconds(neutral, subs);
  }

  lemma MergeHereLeaves(c: Cond)
    ensures Leaves(MergeHere(c)) <= Leaves(c)
  {
    if c.Multi? {
      MergedSubcondsLeaves(c.neutral, c.subs);
      MakeMultiLeaves(c.neutral, MergedSubconds(c.neutral, c.subs));
    }
  }

  ghost function MergedEach(subs: set<Cond>): set<Cond>
    requires AllBuilt(subs)
  {
    set s | s in subs :: MergeEqualities(s)
  }

  lemma MergedEachLeaves(subs: set<Cond>)
    requires AllBuilt(subs) && forall s | s in subs :: Leaves(MergeEqualities(s)) <= Leaves(s)
    ensures Sum(MergedEach(subs)) <= Sum(subs)
  {
    var f := (s: Cond) => if Built(s) then MergeEqualities(s) else s;
    ImageLeaves(subs, f);
    assert Image(subs, f) == MergedEach(subs);
  }

  /** Merging adds no leaves. */
  lemma {:induction false} MergeEqualitiesLeaves(c: Cond)
    requires Built(c)
    ensures Leaves(MergeEqualities(c)) <= Leaves(c)
  {
    match c
    case Not(s) => MergeEqualitiesLeaves(s);
    case Multi(neutral, subs) =>
      forall s | s in subs
        ensures Leaves(MergeEqualities(s)) <= Leaves(s)
      {
        MergeEqualitiesLeaves(s);
      }
      MergedEachLeaves(subs);
      MakeMultiLeaves(neutral, MergedEach(subs));
      MergeHereLeaves(MakeMulti(neutral, MergedEach(subs)));
    case _ =>
  }

  predicate ComparesValues(t: Test) {
    match t
    case Equal(_) => true
    case In(_) => true
    case _ => false
  }

  /** Under OR a test, under AND a negated one. */
  function Subcond(neutral: bool, key: Column, t: Test): Cond {
    if neutral then Not(RecItem(key, t)) else RecItem(key, t)
  }

  /** Nowhere two subconditions of an OR that compare one key with values, nor two negated ones of an AND. */
  ghost predicate OneTestPerKey(c: Cond) {
    match c
    case Not(s) => OneTestPerKey(s)
    case Multi(neutral, subs) =>
      && (forall s | s in subs :: OneTestPerKey(s))
      && (forall key, t, u | Subcond(neutral, key, t) in subs && Subcond(neutral, key, u) in subs ::
            ComparesValues(t) && ComparesValues(u) ==> t == u)
    case _ => true
  }

  lemma {:induction false} MergedHasOneTest(c: Cond)
    requires FullyMerged(c)
    ensures OneTestPerKey(c)
  {
    match c
    case Not(s) => MergedHasOneTest(s);
    case Multi(neutral, subs) =>
      forall s | s in subs
        ensures OneTestPerKey(s)
      {
        MergedHasOneTest(s);
      }
      forall key, t, u | Subcond(neutral, key, t) in subs && Subcond(neutral, key, u) in subs
        ensures ComparesValues(t) && ComparesValues(u) ==> t == u
      {
        if ComparesValues(t) && ComparesValues(u) && t != u {
          assert Mergeable(neutral, Subcond(neutral, key, t)) && Mergeable(neutral, Subcond(neutral, key, u));
          assert false;
        }
      }
    case _ =>
  }

  /** Unless it is switched off, one test for each key is left, at any depth. */
  lemma {:induction false} OptimizedIsMerged(c: Cond)
    requires Built(c)
    ensures OneTestPerKey(Optimize(c, false))
  {
    var f := Factor(c);
    MergeEqualitiesIsFull(f);
    MergedHasOneTest(MergeEqualities(f));
    assert Optimize(c, false) == MergeEqualities(f);
  }

  /** Optimizing adds no leaves, and leaves fewer whenever something is shared. */
  lemma {:induction false} OptimizeShrinks(c: Cond)
    requires Built(c)
    ensures Leaves(Optimize(c, false)) <= Leaves(c)
    ensures c.Multi? && AnythingShared(c.neutral, c.subs) ==> Leaves(Optimize(c, false)) < Leaves(c)
  {
    var f := Factor(c);
    FactorShrinks(c);
    MergeEqualitiesLeaves(f);
    assert Optimize(c, false) == MergeEqualities(f);
  }

  lemma OptimizeMeans(c: Cond, skipping: bool, row: Row)
    requires Built(c)
    ensures Eval(Optimize(c, skipping), row) == Eval(c, row)
  {
    FactorMeans(c, row);
    MergeEqualitiesMeans(Factor(c), row);
  }
}
