/** Hardened conditions as SQL `WHERE` clauses, under SQL's three-valued logic. */
module SqlConditions {
  import opened Conditions
  import opened CondHardening

  datatype Truth = True | False | Unknown

  datatype SqlOp =
    | Eq(v: Value)
    | Ne(v: Value)
    | Gt(v: Value)
    | Ge(v: Value)
    | Lt(v: Value)
    | Le(v: Value)
    | InList(vs: set<Value>)
    | NotInList(vs: set<Value>)
    | BetweenAnd(lo: Value, hi: Value)
    | IsTrueText
    | IsNotTrueText
    | IsNullText
    | IsNotNullText

  datatype Sql =
    | Literal(truth: bool)
    | SqlTest(column: Column, op: SqlOp)
    | SqlNot(sub: Sql)
    | SqlMulti(neutral: bool, subs: set<Sql>)

  // ---------------------------------------------------------------- three-valued meaning

  function Of(b: bool): Truth {
    if b then True else False
  }

  /** Only `IS` tests answer for NULL. */
  function OpOnNull(op: SqlOp): Truth {
    match op
    case IsTrueText => False
    case IsNotTrueText => True
    case IsNullText => True
    case IsNotNullText => False
    case _ => Unknown
  }

  predicate OpHolds(op: SqlOp, x: Value) {
    match op
    case Eq(v) => x == v
    case Ne(v) => x != v
    case Gt(v) => x > v
    case Ge(v) => x >= v
    case Lt(v) => x < v
    case Le(v) => x <= v
    case InList(vs) => x in vs
    case NotInList(vs) => x !in vs
    case BetweenAnd(lo, hi) => lo <= x <= hi
    case IsTrueText => x != 0
    case IsNotTrueText => x == 0
    case IsNullText => false
    case IsNotNullText => true
  }

  predicate IsTest(op: SqlOp) {
    op.IsTrueText? || op.IsNotTrueText? || op.IsNullText? || op.IsNotNullText?
  }

  /** `IS` tests are never unknown, `IS NOT` is the opposite of `IS`, and every other test of NULL is unknown. */
  lemma IsTestsAreDecided(k: Column, op: SqlOp, row: Row)
    ensures SqlEval(SqlTest(k, op), row) == Unknown <==> k !in row && !IsTest(op)
    ensures SqlEval(SqlTest(k, IsNotTrueText), row) == SqlEval(SqlNot(SqlTest(k, IsTrueText)), row)
    ensures SqlEval(SqlTest(k, IsNotNullText), row) == SqlEval(SqlNot(SqlTest(k, IsNullText)), row)
    ensures SqlEval(SqlTest(k, IsNotNullText), row) == True <==> k in row
  {
  }

  function SqlEval(q: Sql, row: Row): Truth {
    match q
    case Literal(truth) => Of(truth)
    case SqlTest(k, op) => if k in row then Of(OpHolds(op, row[k])) else OpOnNull(op)
    case SqlNot(s) =>
      (match SqlEval(s, row)
       case True => False
       case False => True
       case Unknown => Unknown)
    case SqlMulti(neutral, subs) =>
      if exists s | s in subs :: SqlEval(s, row) == Of(!neutral) then Of(!neutral)
      else if exists s | s in subs :: SqlEval(s, row) == Unknown then Unknown
      else Of(neutral)
  }

  // ---------------------------------------------------------------- _CondToSQLAlchemyConverter

  function PlainOp(t: Test): SqlOp {
    match t
    case Equal(v) => Eq(v)
    case Greater(v) => Gt(v)
    case GreaterOrEqual(v) => Ge(v)
    case Less(v) => Lt(v)
    case LessOrEqual(v) => Le(v)
    case In(vs) => InList(vs)
    case Between(lo, hi) => BetweenAnd(lo, hi)
    case IsTrue => IsTrueText
    case IsNull => IsNullText
  }

  /** The precondition is what the converter asserts on its way. */
  function Convert(c: Cond): Sql
    requires Built(c) && Nnf(c)
  {
    match c
    case Fixed(truth) => Literal(truth)
    case RecItem(k, t) => assert t.In? ==> t.vs != {}; SqlTest(k, PlainOp(t))
    case Not(s) =>
      assert s.RecItem?;
      (match s.test
       case Equal(v) => SqlTest(s.key, Ne(v))
       case In(vs) => assert vs != {}; SqlTest(s.key, NotInList(vs))
       case IsTrue => SqlTest(s.key, IsNotTrueText)
       case IsNull => SqlTest(s.key, IsNotNullText)
       case _ => SqlNot(Convert(s)))
    case Multi(neutral, subs) =>
      assert subs != {};
      SqlMulti(neutral, set s | s in subs :: Convert(s))
  }

  // ---------------------------------------------------------------- the compiled form selects the same

  /** The declared columns: the non-nullable ones always hold a value. */
  ghost predicate Legal(row: Row) {
    forall k | NonNullable(k) :: k in row
  }

  ghost predicate Exact(c: Cond, row: Row)
    requires Built(c) && Nnf(c)
  {
    SqlEval(Convert(c), row) == True <==> Eval(c, row)
  }

  lemma LeafIsExact(k: Column, t: Test, row: Row)
    requires Built(RecItem(k, t))
    ensures Exact(RecItem(k, t), row)
  {
  }

  /** A negated test is exact on a value that is present, and always where it is safe. */
  lemma NegatedLeafIsExact(k: Column, t: Test, row: Row)
    requires Built(RecItem(k, t)) && Legal(row)
    requires k in row || SafeToNegate(k, t)
    ensures Exact(Not(RecItem(k, t)), row)
  {
    assert SqlEval(Convert(RecItem(k, t)), row)
           == if k in row then Of(OpHolds(PlainOp(t), row[k])) else OpOnNull(PlainOp(t));
  }

  lemma AllExact(subs: set<Cond>, row: Row)
    requires Built(Multi(true, subs)) && Nnf(Multi(true, subs))
    requires forall s | s in subs :: Exact(s, row)
    ensures Exact(Multi(true, subs), row)
  {
    var qs := set s | s in subs :: Convert(s);
    assert Convert(Multi(true, subs)) == SqlMulti(true, qs);
    if Eval(Multi(true, subs), row) {
      forall q | q in qs
        ensures SqlEval(q, row) == True
      {
        var s :| s in subs && q == Convert(s);
      }
    } else {
      var s :| s in subs && !Eval(s, row);
      assert Convert(s) in qs;
    }
  }

  lemma SomeExact(subs: set<Cond>, row: Row)
    requires Built(Multi(false, subs)) && Nnf(Multi(false, subs))
    requires (forall s | s in subs :: Exact(s, row)) || (exists n :: n in subs && Exact(n, row) && Eval(n, row))
    ensures Exact(Multi(false, subs), row)
  {
    var qs := set s | s in subs :: Convert(s);
    assert Convert(Multi(false, subs)) == SqlMulti(false, qs);
    if n :| n in subs && Exact(n, row) && Eval(n, row) {
      assert Convert(n) in qs;
    } else {
      forall q | q in qs
        ensures SqlEval(q, row) != True
      {
        var s :| s in subs && q == Convert(s);
      }
    }
  }

  /** A guarded condition is TRUE in SQL exactly when it is true with comparisons on NULL false. */
  lemma {:induction false} GuardedIsExact(c: Cond, row: Row)
    requires Built(c) && Nnf(c) && Guarded(c) && Legal(row)
    ensures Exact(c, row)
  {
    match c
    case Fixed(_) =>
    case RecItem(k, t) => LeafIsExact(k, t, row);
    case Not(s) => NegatedLeafIsExact(s.key, s.test, row);
    case Multi(neutral, subs) =>
      forall s | s in subs
        ensures Exact(s, row) || (!neutral && exists n :: n in subs && Exact(n, row) && Eval(n, row))
      {
        if Guarded(s) {
          GuardedIsExact(s, row);
        } else {
          var RecItem(k, t) := s.sub;
          if k in row {
            NegatedLeafIsExact(k, t, row);
          } else {
            LeafIsExact(k, IsNull, row);
            assert Eval(RecItem(k, IsNull), row);
          }
        }
      }
      if neutral {
        AllExact(subs, row);
      } else {
        SomeExact(subs, row);
      }
  }

  /** Hardening and compiling keep the meaning, on every row a table may hold. */
  lemma HardenedIsExact(c: Cond, row: Row)
    requires Built(c) && Legal(row)
    ensures SqlEval(Convert(Harden(c)), row) == True <==> Eval(c, row)
  {
    GuardedIsExact(Harden(c), row);
    HardenMeans(c, row);
  }

  /** A legal row in which a nullable column is NULL. */
  lemma RowWithNull(k: Column) returns (row: Row)
    requires !NonNullable(k)
    ensures Legal(row) && k !in row && row.Values <= {0}
  {
    var keys := {Id, Rid, SourceId, Restriction, Confidence, Category, Time, Ip, Dip, Modified};
    row := map c | c in keys :: 0;
    assert forall x | NonNullable(x) :: x in keys;
    assert k !in keys;
  }

  /** Without the null-safe step a negated test is right on every row if and only if its column cannot
      be NULL or the test is an `IS` test: the step guards exactly the negations that need it. */
  lemma NegationNeedsGuardExactly(k: Column, t: Test)
    requires Built(RecItem(k, t))
    ensures (forall row: Row | Legal(row) :: Exact(Not(RecItem(k, t)), row)) <==> SafeToNegate(k, t)
  {
    if SafeToNegate(k, t) {
      forall row: Row | Legal(row)
        ensures Exact(Not(RecItem(k, t)), row)
      {
        NegatedLeafIsExact(k, t, row);
      }
    } else {
      var row := RowWithNull(k);
      assert SqlEval(Convert(RecItem(k, t)), row) == Unknown;
      assert SqlEval(Convert(Not(RecItem(k, t))), row) == Unknown;
      assert !Eval(RecItem(k, t), row);
      assert !Exact(Not(RecItem(k, t)), row);
    }
  }
}
