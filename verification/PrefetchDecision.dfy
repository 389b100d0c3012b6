/** Which data a run of the prefetching task returns - the last returned, the pickled or fresh ones - and
    how long it sleeps afterwards. */
module PrefetchDecision {
  import opened Options

  const SAFE_RESERVE_MULTIPLIER := 1.5
  const MAX_DISCOUNT := 1800.0

  /** The version and the timestamp of a database state, and of the root node made of it. */
  datatype Stamp = Stamp(ver: int, ts: real)

  datatype Metadata = Metadata(stamp: Stamp, jobDuration: real)

  datatype Config = Config(maxSleep: real, tolerance: real, toleranceOnError: real, pickling: bool)

  datatype Unpickling = Unpickled | PickleError | OtherError

  datatype Failure = Failure

  /** What the world answers in one attempt; the two times are those of the two freshness tests. */
  datatype Attempt = Attempt(
    peeked: Result<Stamp, Failure>,
    metadata: Result<Option<Metadata>, Failure>,
    now1: real,
    now2: real,
    unpickling: Unpickling,
    designated: bool,
    fetched: Result<Stamp, Failure>,
    stored: Result<real, Failure>)

  datatype Outcome = Returned(root: Stamp) | Again | Raised

  // ---------------------------------------------------------------- checks and adjustments

  predicate IsSound(s: Stamp) {
    s.ver > 0 && s.ts > 0.0
  }

  /** Cannot both belong to one history in which `b` is not before `a`. */
  predicate Contradicts(a: Stamp, b: Stamp) {
    a.ver > b.ver || a.ts > b.ts || (a.ver == b.ver && a.ts != b.ts)
  }

  datatype Known = Known(pickle: Option<Stamp>, job: Option<real>, last: Option<Stamp>)

  /** A missing value compares false with everything. */
  predicate BothContradict(a: Option<Stamp>, b: Option<Stamp>) {
    a.Some? && b.Some? && Contradicts(a.value, b.value)
  }

  function DropPickle(k: Known, db: Stamp): Known {
    if k.pickle.Some? && Contradicts(k.pickle.value, db) then k.(pickle := None, job := None) else k
  }

  function DropLast(k: Known, db: Stamp): Known {
    if k.last.Some? && Contradicts(k.last.value, db) then k.(last := None) else k
  }

  function DropBoth(k: Known): Known {
    if BothContradict(k.last, k.pickle) then Known(None, None, None) else k
  }

  /** `_initial_checks_and_adjustments()` */
  function Adjusted(db: Stamp, k: Known): Result<Known, Failure> {
    if !IsSound(db) || (k.pickle.Some? && !IsSound(k.pickle.value)) || (k.last.Some? && !IsSound(k.last.value))
       || (k.job.Some? && k.job.value < 0.0) then Err(Failure)
    else Ok(DropBoth(DropLast(DropPickle(k, db), db)))
  }

  // ---------------------------------------------------------------- freshness

  function Min(a: real, b: real): real {
    if b < a then b else a
  }

  /** What a long job adds to the tolerance. */
  function Discount(job: Option<real>): real {
    if job.Some? && job.value != 0.0 then Min(job.value * SAFE_RESERVE_MULTIPLIER, MAX_DISCOUNT) else 0.0
  }

  /** `_compute_sleep_if_timestamp_ok()` */
  function SleepIfTimestampOk(cfg: Config, now: real, ts: real, job: Option<real>): Option<real> {
    var secondsOutdated := now - ts;
    var secondsUntilUnacceptable := cfg.tolerance - secondsOutdated + Discount(job);
    if secondsUntilUnacceptable > 0.0 then Some(Min(secondsUntilUnacceptable, cfg.maxSleep)) else None
  }

  // ---------------------------------------------------------------- one attempt

  function LoadFresh(a: Attempt): Outcome {
    if a.fetched.Ok? then Returned(a.fetched.value) else Raised
  }

  /** The part of `_try_to_prefetch()` that obtains fresh data, by this process or by another one. */
  function LoadByDesignated(a: Attempt): Outcome {
    if !a.designated then Again
    else if a.fetched.Err? || a.stored.Err? then Raised
    else Returned(a.fetched.value)
  }

  /** Reading the pickle: `None` when it cannot be used. */
  function Unpickle(a: Attempt, pickle: Stamp): Option<Outcome> {
    match a.unpickling
    case Unpickled => Some(Returned(pickle))
    case PickleError => None
    case OtherError => Some(Raised)
  }

  /** The pickle part of `_try_to_prefetch()`, with the sleep it sets. */
  function TryPickle(cfg: Config, db: Stamp, k: Known, a: Attempt): (Option<Outcome>, real) {
    if k.pickle.None? then (None, cfg.maxSleep)
    else if k.pickle.value.ver == db.ver then (Unpickle(a, k.pickle.value), cfg.maxSleep)
    else
      match SleepIfTimestampOk(cfg, a.now2, k.pickle.value.ts, k.job)
      case None => (None, cfg.maxSleep)
      case Some(sleep) =>
        var o := Unpickle(a, k.pickle.value);
        (o, if o == Some(Returned(k.pickle.value)) then sleep else cfg.maxSleep)
  }

  /** The decision, once the values are adjusted. */
  function Decide(cfg: Config, db: Stamp, k: Known, a: Attempt): (Outcome, real) {
    if k.last.Some? && k.last.value.ver == db.ver then (Returned(k.last.value), cfg.maxSleep)
    else
      var lastUsable := k.last.Some? && (k.pickle.None? || k.last.value.ver == k.pickle.value.ver);
      var sleep := if lastUsable then SleepIfTimestampOk(cfg, a.now1, k.last.value.ts, k.job) else None;
      if sleep.Some? then (Returned(k.last.value), sleep.value)
      else if !cfg.pickling then (LoadFresh(a), cfg.maxSleep)
      else
        var (o, s) := TryPickle(cfg, db, k, a);
        if o.Some? then (o.value, s) else (LoadByDesignated(a), cfg.maxSleep)
  }

  function KnownBefore(cfg: Config, last: Option<Stamp>, a: Attempt): Known
    requires a.metadata.Ok?
  {
    if cfg.pickling && a.metadata.value.Some? then
      Known(Some(a.metadata.value.value.stamp), Some(a.metadata.value.value.jobDuration), last)
    else Known(None, None, last)
  }

  /** `_try_to_prefetch()`: the outcome, and the sleep set (`None` if it ends before setting one). */
  function TryToPrefetch(cfg: Config, last: Option<Stamp>, a: Attempt): (Outcome, Option<real>) {
    if a.peeked.Err? || (cfg.pickling && a.metadata.Err?) then (Raised, None)
    else
      var db := a.peeked.value;
      var known := if a.metadata.Ok? then KnownBefore(cfg, last, a) else Known(None, None, last);
      match Adjusted(db, known)
      case Err(_) => (Raised, None)
      case Ok(k) =>
        var (o, s) := Decide(cfg, db, k, a);
        (o, Some(s))
  }

  /** `_handle_prefetching_error()`: the last returned data if recent enough, else the end. */
  function Fallback(cfg: Config, last: Option<Stamp>, now: real): Option<Stamp> {
    if last.Some? && last.value.ts >= now - cfg.toleranceOnError then last else None
  }

  // ---------------------------------------------------------------- the prefetching loop

  /** What the prefetching loop keeps between its runs. */
  class PrefetchTask {
    const cfg: Config
    var sleep: real
    var lastRootNode: Option<Stamp>

    constructor (cfg: Config)
      ensures this.cfg == cfg && sleep == cfg.maxSleep && lastRootNode == None
    {
      this.cfg, sleep, lastRootNode := cfg, cfg.maxSleep, None;
    }

    method SetSleep(s: real)
      modifies `sleep
      ensures sleep == s
    {
      sleep := s;
    }

    /** `_try_to_prefetch()` on the loop's own variables. */
    method TryOnce(a: Attempt) returns (o: Outcome)
      modifies `sleep
      ensures o == TryToPrefetch(cfg, lastRootNode, a).0
      ensures sleep == match TryToPrefetch(cfg, lastRootNode, a).1 case Some(s) => s case None => old(sleep)
    {
      if a.peeked.Err? {
        return Raised;
      }
      var db := a.peeked.value;
      var pickle: Option<Stamp>, job: Option<real> := None, None;
      if cfg.pickling {
        if a.metadata.Err? {
          return Raised;
        }
        if a.metadata.value.Some? {
          pickle, job := Some(a.metadata.value.value.stamp), Some(a.metadata.value.value.jobDuration);
        }
      }
      var adjusted := Adjusted(db, Known(pickle, job, lastRootNode));
      if adjusted.Err? {
        return Raised;
      }
      var k := adjusted.value;
      pickle, job := k.pickle, k.job;
      SetSleep(cfg.maxSleep);
      if k.last.Some? && k.last.value.ver == db.ver {
        return Returned(k.last.value);
      }
      if k.last.Some? && (pickle.None? || k.last.value.ver == pickle.value.ver) {
        var sleepVal := SleepIfTimestampOk(cfg, a.now1, k.last.value.ts, job);
        if sleepVal.Some? {
          SetSleep(sleepVal.value);
          return Returned(k.last.value);
        }
      }
      if !cfg.pickling {
        return LoadFresh(a);
      }
      if pickle.Some? {
        var sleepVal := if pickle.value.ver == db.ver then Some(cfg.maxSleep)
                        else SleepIfTimestampOk(cfg, a.now2, pickle.value.ts, job);
        if sleepVal.Some? && a.unpickling.OtherError? {
          return Raised;
        }
        if sleepVal.Some? && a.unpickling.Unpickled? {
          SetSleep(sleepVal.value);
          return Returned(pickle.value);
        }
      }
      o := LoadByDesignated(a);
    }

    /** One run of the loop: attempts until one is not to be repeated. `None` is `SystemExit`, or no
        attempt left to look at. */
    method Run(attempts: seq<Attempt>, nowOnError: real) returns (root: Option<Stamp>)
      modifies this
      ensures root == TaskResult(cfg, old(lastRootNode), attempts, nowOnError)
      ensures lastRootNode == if root.Some? then root else old(lastRootNode)
    {
      var n := 0;
      while n < |attempts|
        invariant n <= |attempts| && lastRootNode == old(lastRootNode)
        invariant TaskResult(cfg, lastRootNode, attempts, nowOnError)
                  == TaskResult(cfg, lastRootNode, attempts[n..], nowOnError)
      {
        assert attempts[n..][0] == attempts[n] && attempts[n..][1..] == attempts[n + 1..];
        var o := TryOnce(attempts[n]);
        if !o.Again? {
          root := if o.Returned? then Some(o.root) else Fallback(cfg, lastRootNode, nowOnError);
          if root.Some? {
            lastRootNode := root;
          }
          return;
        }
        n := n + 1;
      }
      root := None;
    }
  }

  /** The result of `task_target_func()`. */
  function TaskResult(cfg: Config, last: Option<Stamp>, attempts: seq<Attempt>, nowOnError: real): Option<Stamp>
    decreases |attempts|
  {
    if attempts == [] then None
    else
      match TryToPrefetch(cfg, last, attempts[0]).0
      case Returned(root) => Some(root)
      case Raised => Fallback(cfg, last, nowOnError)
      case Again => TaskResult(cfg, last, attempts[1..], nowOnError)
  }

  // ---------------------------------------------------------------- the code's own assertions

  /** After the adjustments the known values are in order; so none of the later assertions can fail. */
  lemma AdjustedIsInOrder(db: Stamp, k: Known)
    requires Adjusted(db, k).Ok?
    ensures var r := Adjusted(db, k).value;
            && (r.pickle.Some? ==> IsSound(r.pickle.value) && !Contradicts(r.pickle.value, db))
            && (r.last.Some? ==> r.last == k.last && IsSound(r.last.value) && !Contradicts(r.last.value, db))
            && (r.last.Some? && r.pickle.Some? ==> !Contradicts(r.last.value, r.pickle.value))
            && (r.pickle.Some? ==> r.pickle == k.pickle && r.job == k.job)
            && (r.job.Some? && k.pickle.Some? ==> r.pickle.Some?)
  {
  }

  // ---------------------------------------------------------------- freshness and sleep

  /** The allowance for data that are behind the database. */
  function Allowance(cfg: Config, a: Attempt): real {
    cfg.tolerance + if cfg.pickling && a.metadata.Ok? && a.metadata.value.Some?
                    then Discount(Some(a.metadata.value.value.jobDuration)) else 0.0
  }

  /** Outdated by less than the allowance, and still not by more after the sleep. */
  predicate Tolerable(cfg: Config, a: Attempt, now: real, root: Stamp, sleep: real) {
    now - root.ts < Allowance(cfg, a) && now + sleep - root.ts <= Allowance(cfg, a)
  }

  lemma SleepWithinAllowance(cfg: Config, now: real, ts: real, job: Option<real>)
    ensures var s := SleepIfTimestampOk(cfg, now, ts, job);
            s.Some? <==> now - ts < cfg.tolerance + Discount(job)
    ensures var s := SleepIfTimestampOk(cfg, now, ts, job);
            s.Some? ==> s.value <= cfg.maxSleep && now + s.value - ts <= cfg.tolerance + Discount(job)
  {
  }

  lemma DiscountIsBounded(job: Option<real>)
    requires job.Some? ==> job.value >= 0.0
    ensures 0.0 <= Discount(job) <= MAX_DISCOUNT
    ensures job.Some? ==> Discount(job) <= 1.5 * job.value
    ensures Discount(None) <= Discount(job)
  {
  }

  /** Whatever an attempt returns is at least the peeked version, or behind it by less than the tolerance
      plus min(1.5 x job duration, 1800); and the sleep set with it ends within that allowance. */
  lemma FreshOrTolerable(cfg: Config, last: Option<Stamp>, a: Attempt)
    requires TryToPrefetch(cfg, last, a).0.Returned?
    requires a.fetched.Ok? ==> a.fetched.value.ver >= a.peeked.value.ver
    ensures var (o, sleep) := TryToPrefetch(cfg, last, a);
            && sleep.Some? && sleep.value <= cfg.maxSleep
            && (o.root.ver >= a.peeked.value.ver
                || Tolerable(cfg, a, a.now1, o.root, sleep.value) || Tolerable(cfg, a, a.now2, o.root, sleep.value))
  {
    var db := a.peeked.value;
    var known := if a.metadata.Ok? then KnownBefore(cfg, last, a) else Known(None, None, last);
    AdjustedIsInOrder(db, known);
    var k := Adjusted(db, known).value;
    JobOfKnown(cfg, last, a);
    if k.last.Some? {
      SleepWithinAllowance(cfg, a.now1, k.last.value.ts, k.job);
    }
    if k.pickle.Some? {
      SleepWithinAllowance(cfg, a.now2, k.pickle.value.ts, k.job);
    }
  }

  lemma JobOfKnown(cfg: Config, last: Option<Stamp>, a: Attempt)
    requires a.peeked.Ok?
    ensures var known := if a.metadata.Ok? then KnownBefore(cfg, last, a) else Known(None, None, last);
            Adjusted(a.peeked.value, known).Ok?
            ==> cfg.tolerance + Discount(Adjusted(a.peeked.value, known).value.job) <= Allowance(cfg, a)
  {
    var known := if a.metadata.Ok? then KnownBefore(cfg, last, a) else Known(None, None, last);
    if Adjusted(a.peeked.value, known).Ok? {
      DiscountIsBounded(known.job);
    }
  }

  /** Data that may be returned for a peeked state of the database. */
  predicate Acceptable(cfg: Config, a: Attempt, root: Stamp, now: real)
    requires a.peeked.Ok?
  {
    root.ver == a.peeked.value.ver || now - root.ts < Allowance(cfg, a)
  }

  function PickleOf(cfg: Config, a: Attempt): Option<Stamp> {
    if cfg.pickling && a.metadata.Ok? && a.metadata.value.Some? then Some(a.metadata.value.value.stamp) else None
  }

  /** The last returned data are acceptable and the pickle is not newer, or the pickle is acceptable and
      not known to be unusable. */
  predicate CacheSuffices(cfg: Config, last: Option<Stamp>, a: Attempt)
    requires a.peeked.Ok?
  {
    var pickle := PickleOf(cfg, a);
    || (last.Some? && last.value.ver == a.peeked.value.ver)
    || (last.Some? && Acceptable(cfg, a, last.value, a.now1) && (pickle.None? || pickle.value.ver == last.value.ver))
    || (pickle.Some? && Acceptable(cfg, a, pickle.value, a.now2) && !a.unpickling.PickleError?)
  }

  /** Nothing contradicts anything: the ordinary case. */
  predicate Ordinary(cfg: Config, last: Option<Stamp>, a: Attempt) {
    && a.peeked.Ok? && a.metadata.Ok? && IsSound(a.peeked.value)
    && (last.Some? ==> IsSound(last.value) && !Contradicts(last.value, a.peeked.value))
    && (PickleOf(cfg, a).Some? ==>
          && IsSound(PickleOf(cfg, a).value) && !Contradicts(PickleOf(cfg, a).value, a.peeked.value)
          && a.metadata.value.value.jobDuration >= 0.0)
    && !BothContradict(last, PickleOf(cfg, a))
  }

  /** The same attempt, had loading from the database gone otherwise. */
  function HadLoading(a: Attempt, designated: bool, fetched: Result<Stamp, Failure>, stored: Result<real, Failure>)
    : Attempt
  {
    a.(designated := designated, fetched := fetched, stored := stored)
  }

  /** Fresh data are asked for exactly when neither the last returned nor the pickled ones will do: only
      then does the outcome depend on how loading goes. */
  lemma LoadsOnlyWhenNeeded(cfg: Config, last: Option<Stamp>, a: Attempt)
    requires Ordinary(cfg, last, a)
    ensures CacheSuffices(cfg, last, a)
            <==> forall d, f, s :: TryToPrefetch(cfg, last, HadLoading(a, d, f, s)) == TryToPrefetch(cfg, last, a)
  {
    var k := KnownBefore(cfg, last, a);
    assert Adjusted(a.peeked.value, k) == Ok(k);
    assert cfg.tolerance + Discount(k.job) == Allowance(cfg, a);
    if !CacheSuffices(cfg, last, a) {
      var b1 := HadLoading(a, true, Ok(Stamp(1, 1.0)), Ok(0.0));
      var b2 := HadLoading(a, true, Err(Failure), Ok(0.0));
      assert KnownBefore(cfg, last, b1) == k && KnownBefore(cfg, last, b2) == k;
      assert TryToPrefetch(cfg, last, b1).0 == Returned(Stamp(1, 1.0));
      assert TryToPrefetch(cfg, last, b2).0 == Raised;
    } else {
      forall d, f, s
        ensures TryToPrefetch(cfg, last, HadLoading(a, d, f, s)) == TryToPrefetch(cfg, last, a)
      {
        assert KnownBefore(cfg, last, HadLoading(a, d, f, s)) == k;
      }
    }
  }

  // ---------------------------------------------------------------- the whole outcome, in the ordinary case

  /** The allowance: the tolerance, plus the lesser of one and a half times the known duration of the last job
      and half an hour. */
  lemma AllowanceExactly(cfg: Config, a: Attempt)
    requires PickleOf(cfg, a).Some? ==> a.metadata.value.value.jobDuration >= 0.0
    ensures PickleOf(cfg, a).None? ==> Allowance(cfg, a) == cfg.tolerance
    ensures PickleOf(cfg, a).Some? ==>
              var job := a.metadata.value.value.jobDuration;
              Allowance(cfg, a) == cfg.tolerance + if 1.5 * job < 1800.0 then 1.5 * job else 1800.0
  {
  }

  /** The last returned data will do, whatever the pickle is. */
  predicate LastSuffices(cfg: Config, last: Option<Stamp>, a: Attempt)
    requires a.peeked.Ok?
  {
    && last.Some?
    && (|| last.value.ver == a.peeked.value.ver
        || (&& Acceptable(cfg, a, last.value, a.now1)
            && (PickleOf(cfg, a).None? || PickleOf(cfg, a).value.ver == last.value.ver)))
  }

  /** How long cached data may be used: as long as they stay acceptable, but no longer than the maximum. */
  function SleepWith(cfg: Config, a: Attempt, root: Stamp, now: real): real
    requires a.peeked.Ok?
  {
    if root.ver == a.peeked.value.ver || Allowance(cfg, a) - (now - root.ts) > cfg.maxSleep then cfg.maxSleep
    else Allowance(cfg, a) - (now - root.ts)
  }

  lemma KnownInOrdinary(cfg: Config, last: Option<Stamp>, a: Attempt)
    requires Ordinary(cfg, last, a)
    ensures var k := KnownBefore(cfg, last, a);
            && k.pickle == PickleOf(cfg, a) && k.last == last
            && cfg.tolerance + Discount(k.job) == Allowance(cfg, a)
            && Adjusted(a.peeked.value, k) == Ok(k)
            && TryToPrefetch(cfg, last, a)
               == (Decide(cfg, a.peeked.value, k, a).0, Some(Decide(cfg, a.peeked.value, k, a).1))
  {
  }

  /** The last returned data are preferred. */
  lemma LastIsPreferred(cfg: Config, last: Option<Stamp>, a: Attempt)
    requires Ordinary(cfg, last, a) && LastSuffices(cfg, last, a)
    ensures TryToPrefetch(cfg, last, a) == (Returned(last.value), Some(SleepWith(cfg, a, last.value, a.now1)))
  {
    KnownInOrdinary(cfg, last, a);
  }

  /** Then the pickled ones: they are returned, unless unpickling fails with an error of another kind. */
  lemma PickleIsNext(cfg: Config, last: Option<Stamp>, a: Attempt)
    requires Ordinary(cfg, last, a) && CacheSuffices(cfg, last, a) && !LastSuffices(cfg, last, a)
    ensures PickleOf(cfg, a).Some?
    ensures var pickle := PickleOf(cfg, a).value;
            if a.unpickling.Unpickled?
            then TryToPrefetch(cfg, last, a) == (Returned(pickle), Some(SleepWith(cfg, a, pickle, a.now2)))
            else TryToPrefetch(cfg, last, a) == (Raised, Some(cfg.maxSleep))
  {
    KnownInOrdinary(cfg, last, a);
  }

  /** When the cache does not suffice: without pickling, or being the designated process, this one loads (and
      pickles), and an error in either is raised; any other process is to try again. */
  lemma LoadsExactlyWhenDesignated(cfg: Config, last: Option<Stamp>, a: Attempt)
    requires Ordinary(cfg, last, a) && !CacheSuffices(cfg, last, a)
    ensures TryToPrefetch(cfg, last, a).1 == Some(cfg.maxSleep)
    ensures var o := TryToPrefetch(cfg, last, a).0;
            && (cfg.pickling && !a.designated ==> o == Again)
            && (!cfg.pickling || a.designated ==>
                  o == if a.fetched.Ok? && (cfg.pickling ==> a.stored.Ok?) then Returned(a.fetched.value) else Raised)
  {
    KnownInOrdinary(cfg, last, a);
  }

  /** The election decides: an attempt is to be repeated if and only if fresh data are needed and another
      process is to load them. */
  lemma AgainExactly(cfg: Config, last: Option<Stamp>, a: Attempt)
    requires Ordinary(cfg, last, a)
    ensures TryToPrefetch(cfg, last, a).0 == Again
            <==> cfg.pickling && !CacheSuffices(cfg, last, a) && !a.designated
  {
    if LastSuffices(cfg, last, a) {
      LastIsPreferred(cfg, last, a);
    } else if CacheSuffices(cfg, last, a) {
      PickleIsNext(cfg, last, a);
    } else {
      LoadsExactlyWhenDesignated(cfg, last, a);
    }
  }

  /** The same attempt, had fetching and storing gone otherwise. */
  function HadFetched(a: Attempt, fetched: Result<Stamp, Failure>, stored: Result<real, Failure>): Attempt {
    a.(fetched := fetched, stored := stored)
  }

  /** And the database is asked if and only if fresh data are needed and no other process is to load them. */
  lemma AsksDatabaseExactly(cfg: Config, last: Option<Stamp>, a: Attempt)
    requires Ordinary(cfg, last, a)
    ensures (exists f, s :: TryToPrefetch(cfg, last, HadFetched(a, f, s)) != TryToPrefetch(cfg, last, a))
            <==> !CacheSuffices(cfg, last, a) && (cfg.pickling ==> a.designated)
  {
    if CacheSuffices(cfg, last, a) {
      LoadsOnlyWhenNeeded(cfg, last, a);
      forall f, s
        ensures TryToPrefetch(cfg, last, HadFetched(a, f, s)) == TryToPrefetch(cfg, last, a)
      {
        assert HadFetched(a, f, s) == HadLoading(a, a.designated, f, s);
      }
    } else {
      forall f, s
        ensures var b := HadFetched(a, f, s); Ordinary(cfg, last, b) && !CacheSuffices(cfg, last, b)
      {
      }
      LoadsExactlyWhenDesignated(cfg, last, a);
      forall f, s
      {
        LoadsExactlyWhenDesignated(cfg, last, HadFetched(a, f, s));
      }
      if cfg.pickling ==> a.designated {
        FetchedMatters(cfg, last, a);
      }
    }
  }

  lemma FetchedMatters(cfg: Config, last: Option<Stamp>, a: Attempt)
    requires Ordinary(cfg, last, a) && !CacheSuffices(cfg, last, a) && (cfg.pickling ==> a.designated)
    ensures exists f, s :: TryToPrefetch(cfg, last, HadFetched(a, f, s)) != TryToPrefetch(cfg, last, a)
  {
    var one, other := Stamp(1, 1.0), Stamp(2, 1.0);
    LoadsExactlyWhenDesignated(cfg, last, HadFetched(a, Ok(one), Ok(0.0)));
    LoadsExactlyWhenDesignated(cfg, last, HadFetched(a, Ok(other), Ok(0.0)));
    assert TryToPrefetch(cfg, last, HadFetched(a, Ok(one), Ok(0.0))).0 == Returned(one);
    assert TryToPrefetch(cfg, last, HadFetched(a, Ok(other), Ok(0.0))).0 == Returned(other);
  }

  // ---------------------------------------------------------------- the other cases

  /** All values are legal. */
  predicate AllSound(db: Stamp, k: Known) {
    && db.ver > 0 && db.ts > 0.0
    && (k.pickle.Some? ==> k.pickle.value.ver > 0 && k.pickle.value.ts > 0.0)
    && (k.last.Some? ==> k.last.value.ver > 0 && k.last.value.ts > 0.0)
    && (k.job.Some? ==> k.job.value >= 0.0)
  }

  /** The values as they are found. */
  function Found(cfg: Config, last: Option<Stamp>, a: Attempt): Known {
    if a.metadata.Ok? then KnownBefore(cfg, last, a) else Known(None, None, last)
  }

  /** Does the pickle, or do the last returned data, contradict the database? */
  predicate ContradictsDb(s: Option<Stamp>, db: Stamp) {
    s.Some? && Contradicts(s.value, db)
  }

  /** Is it to be ignored: for contradicting the database, or, when neither does, for the two contradicting
      each other? */
  predicate PickleIgnored(db: Stamp, k: Known) {
    ContradictsDb(k.pickle, db) || (!ContradictsDb(k.last, db) && BothContradict(k.last, k.pickle))
  }

  predicate LastIgnored(db: Stamp, k: Known) {
    ContradictsDb(k.last, db) || (!ContradictsDb(k.pickle, db) && BothContradict(k.last, k.pickle))
  }

  /** The same attempt, had there been no usable metadata. */
  function WithoutPickle(a: Attempt): Attempt {
    a.(metadata := Ok(None))
  }

  /** Contradicting values are ignored as if they had never been there: the attempt goes as an ordinary one
      without them; and it ends at once if and only if some value cannot be had or is not legal. */
  lemma ContradictionsAreIgnored(cfg: Config, last: Option<Stamp>, a: Attempt)
    ensures TryToPrefetch(cfg, last, a) == (Raised, None)
            <==> a.peeked.Err? || (cfg.pickling && a.metadata.Err?) || !AllSound(a.peeked.value, Found(cfg, last, a))
    ensures TryToPrefetch(cfg, last, a).1.Some? ==>
              var db, k := a.peeked.value, Found(cfg, last, a);
              var last' := if LastIgnored(db, k) then None else last;
              var a' := if PickleIgnored(db, k) || a.metadata.Err? then WithoutPickle(a) else a;
              Ordinary(cfg, last', a') && TryToPrefetch(cfg, last, a) == TryToPrefetch(cfg, last', a')
  {
    if TryToPrefetch(cfg, last, a).1.Some? {
      var db, k := a.peeked.value, Found(cfg, last, a);
      var last' := if LastIgnored(db, k) then None else last;
      var a' := if PickleIgnored(db, k) || a.metadata.Err? then WithoutPickle(a) else a;
      var k' := KnownBefore(cfg, last', a');
      assert Adjusted(db, k) == Ok(k');
      KnownInOrdinary(cfg, last', a');
      assert Decide(cfg, db, k', a) == Decide(cfg, db, k', a');
    }
  }

  /** The first attempt that is not to be repeated. */
  predicate Decisive(cfg: Config, last: Option<Stamp>, attempts: seq<Attempt>, n: nat) {
    && n < |attempts| && TryToPrefetch(cfg, last, attempts[n]).0 != Again
    && forall i :: 0 <= i < n ==> TryToPrefetch(cfg, last, attempts[i]).0 == Again
  }

  /** A run repeats until a decisive attempt and returns its data; when that one fails, it goes on with the last
      returned data if and only if they are not older than the tolerance on error, and else gives up. */
  lemma {:induction false} RunEndsExactly(cfg: Config, last: Option<Stamp>, attempts: seq<Attempt>, now: real, n: nat)
    requires Decisive(cfg, last, attempts, n)
    ensures var o, root := TryToPrefetch(cfg, last, attempts[n]).0, TaskResult(cfg, last, attempts, now);
            && (o.Returned? ==> root == Some(o.root))
            && (o.Raised? ==> root.None? || root == last)
            && (o.Raised? ==> (root.None? <==> last.None? || now - last.value.ts > cfg.toleranceOnError))
    decreases n
  {
    if n > 0 {
      RunEndsExactly(cfg, last, attempts[1..], now, n - 1);
    }
  }

  // ---------------------------------------------------------------- versions never go back

  /** Where a returned root comes from. */
  lemma ReturnedFrom(cfg: Config, last: Option<Stamp>, a: Attempt)
    requires TryToPrefetch(cfg, last, a).0.Returned?
    ensures var root := TryToPrefetch(cfg, last, a).0.root;
            || (last == Some(root) && !Contradicts(root, a.peeked.value))
            || a.fetched == Ok(root)
            || (&& a.metadata.Ok? && a.metadata.value.Some? && a.metadata.value.value.stamp == root
                && !Contradicts(root, a.peeked.value)
                && (last.Some? ==> Contradicts(last.value, a.peeked.value) || !Contradicts(last.value, root)))
  {
    var db := a.peeked.value;
    var known := if a.metadata.Ok? then KnownBefore(cfg, last, a) else Known(None, None, last);
    AdjustedIsInOrder(db, known);
  }

  /** With a database that has not gone back behind the last returned data, nothing older is returned;
      whatever the pickle holds. */
  lemma VersionNeverGoesBack(cfg: Config, last: Option<Stamp>, a: Attempt)
    requires TryToPrefetch(cfg, last, a).0.Returned? && last.Some?
    requires !Contradicts(last.value, a.peeked.value)
    requires a.fetched.Ok? ==> a.fetched.value.ver >= a.peeked.value.ver
    ensures TryToPrefetch(cfg, last, a).0.root.ver >= last.value.ver
  {
    ReturnedFrom(cfg, last, a);
  }

  /** The condition is needed: a database rebuilt with an older version is followed back. */
  lemma RebuiltDatabaseIsFollowed()
    ensures exists cfg, last: Stamp, a ::
              && TryToPrefetch(cfg, Some(last), a).0.Returned? && Contradicts(last, a.peeked.value)
              && a.fetched.Ok? && a.fetched.value.ver >= a.peeked.value.ver
              && TryToPrefetch(cfg, Some(last), a).0.root.ver < last.ver
  {
    var cfg := Config(12.0, 300.0, 1200.0, false);
    var a := Attempt(Ok(Stamp(1, 1.0)), Ok(None), 2.0, 2.0, PickleError, true, Ok(Stamp(1, 1.0)), Ok(0.0));
    assert TryToPrefetch(cfg, Some(Stamp(2, 2.0)), a).0 == Returned(Stamp(1, 1.0));
    assert Contradicts(Stamp(2, 2.0), a.peeked.value);
  }

  /** The states the database goes through. */
  ghost predicate IsHistory(h: seq<Stamp>) {
    && (forall i | 0 <= i < |h| :: IsSound(h[i]))
    && (forall i, j | 0 <= i < j < |h| :: h[i].ver < h[j].ver && h[i].ts <= h[j].ts)
  }

  /** An attempt that sees the database move from state `p` to state `q` at most; the pickle may come
      from any state at all, even a later one. */
  ghost predicate Sees(a: Attempt, h: seq<Stamp>, p: nat, q: nat) {
    && p <= q < |h|
    && (a.peeked.Ok? ==> exists i :: p <= i <= q && a.peeked.value == h[i]
                                     && (a.fetched.Ok? ==> exists j :: i <= j <= q && a.fetched.value == h[j]))
    && (a.metadata.Ok? && a.metadata.value.Some? ==> exists m :: 0 <= m < |h| && a.metadata.value.value.stamp == h[m])
  }

  ghost predicate IsState(last: Option<Stamp>, h: seq<Stamp>, p: nat) {
    last.Some? ==> exists l :: 0 <= l <= p < |h| && last.value == h[l]
  }

  lemma HistoryOrder(h: seq<Stamp>, i: nat, j: nat)
    requires IsHistory(h) && i < |h| && j < |h|
    ensures h[i].ver < h[j].ver <==> i < j
    ensures i <= j ==> !Contradicts(h[i], h[j])
  {
  }

  lemma AttemptFollowsHistory(cfg: Config, last: Option<Stamp>, a: Attempt, h: seq<Stamp>, p: nat, q: nat)
    requires IsHistory(h) && Sees(a, h, p, q) && IsState(last, h, p)
    requires TryToPrefetch(cfg, last, a).0.Returned?
    ensures var root := TryToPrefetch(cfg, last, a).0.root;
            IsState(Some(root), h, q) && (last.Some? ==> root.ver >= last.value.ver)
  {
    var root := TryToPrefetch(cfg, last, a).0.root;
    ReturnedFrom(cfg, last, a);
    var i :| p <= i <= q && a.peeked.value == h[i]
             && (a.fetched.Ok? ==> exists j :: i <= j <= q && a.fetched.value == h[j]);
    if last.Some? {
      var l :| 0 <= l <= p && last.value == h[l];
      HistoryOrder(h, l, i);
      VersionNeverGoesBack(cfg, last, a);
    }
    if a.metadata.Ok? && a.metadata.value.Some? && a.metadata.value.value.stamp == root
       && !Contradicts(root, a.peeked.value) {
      var m :| 0 <= m < |h| && root == h[m];
      HistoryOrder(h, i, m);
    }
  }

  /** What one run meets: its attempts, and the time if it fails. */
  datatype Experience = Experience(attempts: seq<Attempt>, nowOnError: real)

  ghost predicate AllSee(attempts: seq<Attempt>, h: seq<Stamp>, p: nat, q: nat)
    decreases |attempts|
  {
    if attempts == [] then p <= q < |h|
    else exists r :: Sees(attempts[0], h, p, r) && AllSee(attempts[1..], h, r, q)
  }

  lemma {:induction false} RunFollowsHistory(
      cfg: Config, last: Option<Stamp>, e: Experience, h: seq<Stamp>, p: nat, q: nat)
    requires IsHistory(h) && AllSee(e.attempts, h, p, q) && IsState(last, h, p)
    ensures var root := TaskResult(cfg, last, e.attempts, e.nowOnError);
            p <= q && IsState(root, h, q) && IsState(last, h, q)
            && (root.Some? && last.Some? ==> root.value.ver >= last.value.ver)
    decreases |e.attempts|
  {
    if e.attempts != [] {
      var r :| Sees(e.attempts[0], h, p, r) && AllSee(e.attempts[1..], h, r, q);
      match TryToPrefetch(cfg, last, e.attempts[0]).0
      case Returned(root) =>
        AttemptFollowsHistory(cfg, last, e.attempts[0], h, p, r);
        RunFollowsHistory(cfg, Some(root), e.(attempts := e.attempts[1..]), h, r, q);
        RunFollowsHistory(cfg, last, e.(attempts := e.attempts[1..]), h, r, q);
      case _ =>
        RunFollowsHistory(cfg, last, e.(attempts := e.attempts[1..]), h, r, q);
    }
  }

  /** The roots returned by one run after another, up to the first that ends the process. */
  function Results(cfg: Config, last: Option<Stamp>, es: seq<Experience>): seq<Stamp>
    decreases |es|
  {
    if es == [] then []
    else
      var root := TaskResult(cfg, last, es[0].attempts, es[0].nowOnError);
      if root.None? then [] else [root.value] + Results(cfg, root, es[1..])
  }

  /** What a run starts from: what the run before it returned. */
  function LastBefore(last: Option<Stamp>, rs: seq<Stamp>, i: nat): Option<Stamp>
    requires i <= |rs|
  {
    if i == 0 then last else Some(rs[i - 1])
  }

  /** What run number `i` returns. */
  function ResultAt(cfg: Config, last: Option<Stamp>, es: seq<Experience>, rs: seq<Stamp>, i: nat): Option<Stamp>
    requires i <= |rs| && i < |es|
  {
    TaskResult(cfg, LastBefore(last, rs, i), es[i].attempts, es[i].nowOnError)
  }

  /** Each run starts from what the one before it returned, and the first one that gives up ends the process. */
  ghost predicate AreResults(cfg: Config, last: Option<Stamp>, es: seq<Experience>, rs: seq<Stamp>) {
    && |rs| <= |es|
    && (forall i :: 0 <= i < |rs| ==> ResultAt(cfg, last, es, rs, i) == Some(rs[i]))
    && (|rs| < |es| ==> ResultAt(cfg, last, es, rs, |rs|) == None)
  }

  lemma ResultsContinue(cfg: Config, last: Option<Stamp>, es: seq<Experience>, root: Stamp, rest: seq<Stamp>)
    requires es != [] && TaskResult(cfg, last, es[0].attempts, es[0].nowOnError) == Some(root)
    requires AreResults(cfg, Some(root), es[1..], rest)
    ensures AreResults(cfg, last, es, [root] + rest)
  {
    var rs := [root] + rest;
    forall i | 0 < i <= |rs| && i < |es|
      ensures ResultAt(cfg, last, es, rs, i) == ResultAt(cfg, Some(root), es[1..], rest, i - 1)
    {
      assert LastBefore(last, rs, i) == LastBefore(Some(root), rest, i - 1);
    }
    assert ResultAt(cfg, last, es, rs, 0) == Some(root);
    forall i | 0 < i < |rs|
      ensures ResultAt(cfg, last, es, rs, i) == Some(rs[i])
    {
      assert ResultAt(cfg, Some(root), es[1..], rest, i - 1) == Some(rest[i - 1]);
    }
  }

  lemma {:induction false} ResultsExactly(cfg: Config, last: Option<Stamp>, es: seq<Experience>)
    ensures AreResults(cfg, last, es, Results(cfg, last, es))
    decreases |es|
  {
    if es != [] {
      var root := TaskResult(cfg, last, es[0].attempts, es[0].nowOnError);
      if root.Some? {
        ResultsExactly(cfg, root, es[1..]);
        ResultsContinue(cfg, last, es, root.value, Results(cfg, root, es[1..]));
      } else {
        assert LastBefore(last, [], 0) == last;
      }
    }
  }

  ghost predicate Experienced(es: seq<Experience>, h: seq<Stamp>, p: nat)
    decreases |es|
  {
    es == [] || exists q :: AllSee(es[0].attempts, h, p, q) && Experienced(es[1..], h, q)
  }

  ghost predicate NeverBack(from: Option<Stamp>, rs: seq<Stamp>) {
    && (from.Some? && rs != [] ==> from.value.ver <= rs[0].ver)
    && (forall i, j | 0 <= i < j < |rs| :: rs[i].ver <= rs[j].ver)
  }

  lemma NeverBackFrom(from: Option<Stamp>, root: Stamp, rest: seq<Stamp>)
    requires NeverBack(Some(root), rest) && (from.Some? ==> from.value.ver <= root.ver)
    ensures NeverBack(from, [root] + rest)
  {
    var rs := [root] + rest;
    forall i, j | 0 <= i < j < |rs|
      ensures rs[i].ver <= rs[j].ver
    {
      assert rs[j] == rest[j - 1] && (i > 0 ==> rs[i] == rest[i - 1]);
      assert rest[0].ver <= rest[j - 1].ver;
    }
  }

  /** Over any number of runs, with other processes pickling whatever they saw and with failures in
      between, the returned versions never go back. */
  lemma {:induction false} VersionsNeverGoBack(
      cfg: Config, last: Option<Stamp>, es: seq<Experience>, h: seq<Stamp>, p: nat)
    requires IsHistory(h) && IsState(last, h, p) && Experienced(es, h, p)
    ensures NeverBack(last, Results(cfg, last, es)) && AreResults(cfg, last, es, Results(cfg, last, es))
    decreases |es|
  {
    ResultsExactly(cfg, last, es);
    if es != [] {
      var q :| AllSee(es[0].attempts, h, p, q) && Experienced(es[1..], h, q);
      RunFollowsHistory(cfg, last, es[0], h, p, q);
      var root := TaskResult(cfg, last, es[0].attempts, es[0].nowOnError);
      if root.Some? {
        VersionsNeverGoBack(cfg, root, es[1..], h, q);
        NeverBackFrom(last, root.value, Results(cfg, root, es[1..]));
      }
    }
  }
}
