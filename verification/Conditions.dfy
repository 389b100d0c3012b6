/** Data selection conditions, with the reductions their constructors make. */
module Conditions {
  type Value = int      // of any column: only compared

  /** The columns that access filtering knows by name, and any other. */
  datatype Column =
    | Id | Rid | SourceId | Restriction | Confidence | Category | Time | Ip | Dip | Modified
    | Asn | Cc | Name | Ignored
    | Other(name: string)

  /** A record; an absent key is NULL. */
  type Row = map<Column, Value>

  datatype Test =
    | Equal(v: Value)
    | Greater(v: Value)
    | GreaterOrEqual(v: Value)
    | Less(v: Value)
    | LessOrEqual(v: Value)
    | In(vs: set<Value>)
    | Between(lo: Value, hi: Value)
    | IsTrue
    | IsNull

  /** AND is `Multi(true, _)` and OR is `Multi(false, _)`: the flag is the neutral element. */
  datatype Cond =
    | Fixed(truth: bool)
    | RecItem(key: Column, test: Test)
    | Not(sub: Cond)
    | Multi(neutral: bool, subs: set<Cond>)

  // ---------------------------------------------------------------- two-valued meaning

  /** A test of a value that is present. */
  predicate Holds(t: Test, x: Value) {
    match t
    case Equal(v) => x == v
    case Greater(v) => x > v
    case GreaterOrEqual(v) => x >= v
    case Less(v) => x < v
    case LessOrEqual(v) => x <= v
    case In(vs) => x in vs
    case Between(lo, hi) => lo <= x <= hi
    case IsTrue => x != 0
    case IsNull => false
  }

  /** Every comparison with NULL is false. */
  predicate Eval(c: Cond, row: Row) {
    match c
    case Fixed(truth) => truth
    case RecItem(k, t) => if k in row then Holds(t, row[k]) else t.IsNull?
    case Not(s) => !Eval(s, row)
    case Multi(neutral, subs) =>
      if forall s | s in subs :: Eval(s, row) == neutral then neutral else !neutral
  }

  /** The meaning of AND (or OR) over any conditions. */
  ghost predicate EvalAll(neutral: bool, given: set<Cond>, row: Row) {
    if forall s | s in given :: Eval(s, row) == neutral then neutral else !neutral
  }

  // ---------------------------------------------------------------- constructors

  function MakeNot(s: Cond): Cond {
    match s
    case Fixed(truth) => Fixed(!truth)
    case Not(x) => x
    case _ => Not(s)
  }

  /** What a subcondition contributes: itself, or its parts if it is of the same kind. */
  function Members(neutral: bool, s: Cond): set<Cond> {
    if s.Multi? && s.neutral == neutral then s.subs else {s}
  }

  /** Skipping the neutral element, then flattening. */
  function Parts(neutral: bool, given: set<Cond>): set<Cond> {
    set s, c | s in given - {Fixed(neutral)} && c in Members(neutral, s) :: c
  }

  function Only<T(==)>(s: set<T>): (x: T)
    requires |s| == 1
    ensures s == {x}
  {
    OneElement(s);
    var x :| x in s;
    x
  }

  lemma OneElement<T>(s: set<T>)
    requires |s| == 1
    ensures exists x :: x in s && s == {x}
    ensures forall x, y | x in s && y in s :: x == y
  {
    var x :| x in s;
    assert |s - {x}| == 0;
    assert s == {x};
  }

  predicate HasComplements(subs: set<Cond>) {
    exists s | s in subs :: MakeNot(s) in subs
  }

  /** `AndCond._make()` and `OrCond._make()` */
  function MakeMulti(neutral: bool, given: set<Cond>): Cond {
    var subs := Parts(neutral, given);
    if |subs| == 1 then Only(subs)
    else if subs == {} then Fixed(neutral)
    else if Fixed(!neutral) in subs then Fixed(!neutral)
    else if HasComplements(subs) then Fixed(!neutral)
    else Multi(neutral, subs)
  }

  function MakeAnd(given: set<Cond>): Cond {
    MakeMulti(true, given)
  }

  function MakeOr(given: set<Cond>): Cond {
    MakeMulti(false, given)
  }

  /** `InCond._make()` */
  function MakeIn(key: Column, vs: set<Value>): Cond {
    if vs == {} then Fixed(false)
    else if |vs| == 1 then RecItem(key, Equal(Only(vs)))
    else RecItem(key, In(vs))
  }

  /** What the constructors can build. */
  predicate Built(c: Cond) {
    match c
    case Fixed(_) => true
    case RecItem(_, t) => t.In? ==> |t.vs| > 1
    case Not(s) => !s.Fixed? && !s.Not? && Built(s)
    case Multi(neutral, subs) =>
      && |subs| > 1 && !HasComplements(subs)
      && (forall s | s in subs :: Built(s))
      && (forall s | s in subs :: !s.Fixed? && !(s.Multi? && s.neutral == neutral))
  }

  ghost predicate AllBuilt(given: set<Cond>) {
    forall s | s in given :: Built(s)
  }

  // ---------------------------------------------------------------- the reductions are sound

  lemma MakeNotNegates(s: Cond, row: Row)
    ensures Eval(MakeNot(s), row) == !Eval(s, row)
  {
  }

  lemma MakeNotBuilt(s: Cond)
    requires Built(s)
    ensures Built(MakeNot(s))
  {
  }

  lemma PartsMean(neutral: bool, given: set<Cond>, row: Row)
    ensures EvalAll(neutral, Parts(neutral, given), row) == EvalAll(neutral, given, row)
  {
    var subs := Parts(neutral, given);
    if s :| s in given && Eval(s, row) != neutral {
      var c :| c in Members(neutral, s) && Eval(c, row) != neutral;
      assert c in subs;
    }
    if c :| c in subs && Eval(c, row) != neutral {
      var s :| s in given && c in Members(neutral, s);
      if s.Multi? && s.neutral == neutral {
        assert c in s.subs;
      } else {
        assert Members(neutral, s) == {s};
      }
      assert Eval(s, row) != neutral;
    }
  }

  /** The constructors' reductions keep the meaning. */
  lemma MakeMultiMeans(neutral: bool, given: set<Cond>, row: Row)
    ensures Eval(MakeMulti(neutral, given), row) == EvalAll(neutral, given, row)
  {
    PartsMean(neutral, given, row);
    var subs := Parts(neutral, given);
    if Fixed(!neutral) in subs {
      assert Eval(Fixed(!neutral), row) != neutral;
    } else if HasComplements(subs) {
      var s :| s in subs && MakeNot(s) in subs;
      MakeNotNegates(s, row);
    }
  }

  lemma MakeInMeans(key: Column, vs: set<Value>, row: Row)
    ensures Eval(MakeIn(key, vs), row) == (key in row && row[key] in vs)
  {
    if |vs| == 1 {
      assert vs == {Only(vs)};
    }
  }

  lemma MakeInBuilt(key: Column, vs: set<Value>)
    ensures Built(MakeIn(key, vs))
  {
  }

  lemma PartsBuilt(neutral: bool, given: set<Cond>)
    requires AllBuilt(given)
    ensures forall s | s in Parts(neutral, given) ::
              Built(s) && s != Fixed(neutral) && !(s.Multi? && s.neutral == neutral)
  {
  }

  /** What the constructors return is always in reduced form. */
  lemma MakeMultiBuilt(neutral: bool, given: set<Cond>)
    requires AllBuilt(given)
    ensures Built(MakeMulti(neutral, given))
  {
    PartsBuilt(neutral, given);
    var subs := Parts(neutral, given);
    if |subs| > 1 && Fixed(!neutral) !in subs && !HasComplements(subs) {
      forall s | s in subs
        ensures !s.Fixed?
      {
        assert s != Fixed(neutral) && s != Fixed(!neutral);
      }
    }
  }
}
