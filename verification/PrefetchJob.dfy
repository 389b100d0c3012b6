/** The job does get done: what a process alone, and one that serves others, achieve. */
module PrefetchJob {
  import opened Options
  import opened FileLocks
  import opened PrefetchSynchronizer

  const Sh := View(Shared, Shared)
  const Ex := View(Exclusive, Exclusive)
  const Torn := View(Free, Exclusive)
  const Loose := View(Free, Shared)

  /** All processes but one are outside, with no lock. */
  ghost predicate OthersAway(s: Sys, p: nat) {
    forall q :: 0 <= q < |s.procs| && q != p ==> s.procs[q] == Gone(s.procs[q])
  }

  /** The state with process `p` as given, and these versions on disk. */
  function With(s: Sys, p: nat, pr: Proc, pickle: Option<nat>, meta: Option<nat>): Sys
    requires p < |s.procs|
  {
    s.(procs := s.procs[p := pr], pickle := pickle, meta := meta)
  }

  ghost predicate Arrives(s: Sys, p: nat, pr: Proc, pickle: Option<nat>, meta: Option<nat>)
    requires p < |s.procs|
  {
    exists run :: Exec(s, run) == Some(With(s, p, pr, pickle, meta))
  }

  /** What a move of a process does to the two files. */
  function PickleAfter(pickle: Option<nat>, m: Move): Option<nat> {
    if m.Store? then Some(m.ver) else pickle
  }

  function MetaAfter(meta: Option<nat>, pr: Proc, m: Move): Option<nat> {
    if m == Run && pr.pc == PickleReplaced then Some(pr.ver) else meta
  }

  lemma AloneIsGranted(s: Sys, p: nat, pr: Proc, pickle: Option<nat>, meta: Option<nat>)
    requires p < |s.procs| && OthersAway(s, p)
    ensures Granted(With(s, p, pr, pickle, meta), p)
  {
    var t := With(s, p, pr, pickle, meta);
    forall q, l: Lock, want | 0 <= q < |t.procs| && q != p
      ensures Compatible(want, t.procs[q].Get(l).kernel)
    {
      assert t.procs[q] == Gone(s.procs[q]);
    }
  }

  lemma OneStep(s: Sys, p: nat, a: Proc, pickle: Option<nat>, meta: Option<nat>, m: Move, b: Proc)
    requires p < |s.procs| && OthersAway(s, p) && m != UnlinkRaises && a.pc != DroppingMeta
    requires LocalStep(a, m, true) == Some(b)
    ensures Step(With(s, p, a, pickle, meta), p, m)
            == Some(With(s, p, b, PickleAfter(pickle, m), MetaAfter(meta, a, m)))
  {
    AloneIsGranted(s, p, a, pickle, meta);
    assert s.procs[p := a][p := b] == s.procs[p := b];
  }

  lemma Moves(s: Sys, p: nat, a: Proc, pickle: Option<nat>, meta: Option<nat>, m: Move, b: Proc)
    requires p < |s.procs| && OthersAway(s, p) && m != UnlinkRaises && a.pc != DroppingMeta
    requires Arrives(s, p, a, pickle, meta) && LocalStep(a, m, true) == Some(b)
    ensures Arrives(s, p, b, PickleAfter(pickle, m), MetaAfter(meta, a, m))
  {
    var run :| Exec(s, run) == Some(With(s, p, a, pickle, meta));
    OneStep(s, p, a, pickle, meta, m, b);
    ExecAppend(s, run, p, m);
    assert Exec(s, run + [(p, m)]) == Some(With(s, p, b, PickleAfter(pickle, m), MetaAfter(meta, a, m)));
  }

  /** A step that leaves the files alone. */
  lemma Goes(s: Sys, p: nat, a: Proc, m: Move, b: Proc)
    requires p < |s.procs| && OthersAway(s, p)
    requires m == Enter || m == Run || m == Designate || m == Leave
    requires a.pc != DroppingMeta && a.pc != PickleReplaced
    requires Arrives(s, p, a, s.pickle, s.meta) && LocalStep(a, m, true) == Some(b)
    ensures Arrives(s, p, b, s.pickle, s.meta)
  {
    Moves(s, p, a, s.pickle, s.meta, m, b);
  }

  lemma Enters(s: Sys, p: nat, ver: nat)
    requires p < |s.procs| && OthersAway(s, p)
    requires Arrives(s, p, Proc(Outside, Nothing, Nothing, Nothing, Nothing, ver), s.pickle, s.meta)
    ensures Arrives(s, p, Proc(EnterDropJob, Sh, Sh, Sh, Nothing, ver), s.pickle, s.meta)
  {
    var a := Proc(Outside, Nothing, Nothing, Nothing, Nothing, ver);
    Goes(s, p, a, Enter, a.(pc := EnterGetJob));
    Goes(s, p, a.(pc := EnterGetJob), Run, a.(pc := EnterTryJob, getJob := Sh));
    Goes(s, p, a.(pc := EnterTryJob, getJob := Sh), Run, a.(pc := EnterActivity, getJob := Sh, job := Sh));
    Goes(s, p, a.(pc := EnterActivity, getJob := Sh, job := Sh), Run,
         Proc(EnterDropJob, Sh, Sh, Sh, Nothing, ver));
  }

  lemma GetsInside(s: Sys, p: nat, ver: nat)
    requires p < |s.procs| && OthersAway(s, p)
    requires Arrives(s, p, Proc(EnterDropJob, Sh, Sh, Sh, Nothing, ver), s.pickle, s.meta)
    ensures Arrives(s, p, Proc(Inside, Nothing, Nothing, Sh, Nothing, ver), s.pickle, s.meta)
  {
    var a := Proc(EnterDropJob, Sh, Sh, Sh, Nothing, ver);
    Goes(s, p, a, Run, a.(pc := EnterDropGetJob, job := Nothing));
    Goes(s, p, a.(pc := EnterDropGetJob, job := Nothing), Run, a.(pc := EnterDone, job := Nothing, getJob := Nothing));
    Goes(s, p, a.(pc := EnterDone, job := Nothing, getJob := Nothing), Run,
         Proc(Inside, Nothing, Nothing, Sh, Nothing, ver));
  }

  lemma GoesForJob(s: Sys, p: nat, ver: nat)
    requires p < |s.procs| && OthersAway(s, p)
    requires Arrives(s, p, Proc(Inside, Nothing, Nothing, Sh, Nothing, ver), s.pickle, s.meta)
    ensures Arrives(s, p, Proc(JobTryJob, Ex, Nothing, Sh, Nothing, ver), s.pickle, s.meta)
  {
    var a := Proc(Inside, Nothing, Nothing, Sh, Nothing, ver);
    Goes(s, p, a, Designate, a.(pc := JobDropOutcome));
    Goes(s, p, a.(pc := JobDropOutcome), Run, a.(pc := JobGetJob));
    Goes(s, p, a.(pc := JobGetJob), Run, Proc(JobTryJob, Ex, Nothing, Sh, Nothing, ver));
  }

  lemma GetsJob(s: Sys, p: nat, ver: nat)
    requires p < |s.procs| && OthersAway(s, p)
    requires Arrives(s, p, Proc(JobTryJob, Ex, Nothing, Sh, Nothing, ver), s.pickle, s.meta)
    ensures Arrives(s, p, Proc(JobBeginExclusive, Nothing, Ex, Sh, Nothing, ver), s.pickle, s.meta)
  {
    var a := Proc(JobTryJob, Ex, Nothing, Sh, Nothing, ver);
    Goes(s, p, a, Run, a.(pc := JobDropGetJob, job := Ex));
    Goes(s, p, a.(pc := JobDropGetJob, job := Ex), Run, Proc(JobBeginExclusive, Nothing, Ex, Sh, Nothing, ver));
  }

  lemma Switches(s: Sys, p: nat, ver: nat)
    requires p < |s.procs| && OthersAway(s, p)
    requires Arrives(s, p, Proc(JobBeginExclusive, Nothing, Ex, Sh, Nothing, ver), s.pickle, s.meta)
    ensures Arrives(s, p, Proc(Working, Nothing, Ex, Sh, Nothing, ver), s.pickle, s.meta)
  {
    var a := Proc(JobBeginExclusive, Nothing, Ex, Sh, Nothing, ver);
    Goes(s, p, a, Run, a.(pc := JobWaitExclusive, activity := Loose));
    Goes(s, p, a.(pc := JobWaitExclusive, activity := Loose), Run, a.(pc := JobBeginShared, activity := Ex));
    Goes(s, p, a.(pc := JobBeginShared, activity := Ex), Run, a.(pc := JobWaitShared, activity := Torn));
    Goes(s, p, a.(pc := JobWaitShared, activity := Torn), Run, a.(pc := Working));
  }

  lemma Stores(s: Sys, p: nat, ver: nat, v: nat)
    requires p < |s.procs| && OthersAway(s, p)
    requires Arrives(s, p, Proc(Working, Nothing, Ex, Sh, Nothing, ver), s.pickle, s.meta)
    ensures Arrives(s, p, Proc(ServeDropJob, Nothing, Ex, Sh, Nothing, v), Some(v), Some(v))
  {
    var a := Proc(Working, Nothing, Ex, Sh, Nothing, ver);
    Moves(s, p, a, s.pickle, s.meta, Store(v), a.(pc := PickleReplaced, ver := v));
    Moves(s, p, a.(pc := PickleReplaced, ver := v), Some(v), s.meta, Run, a.(pc := ServeDropJob, ver := v));
  }

  lemma Serves(s: Sys, p: nat, v: nat)
    requires p < |s.procs| && OthersAway(s, p)
    requires Arrives(s, p, Proc(ServeDropJob, Nothing, Ex, Sh, Nothing, v), Some(v), Some(v))
    ensures Arrives(s, p, Proc(Inside, Nothing, Nothing, Sh, Nothing, v), Some(v), Some(v))
  {
    var a := Proc(ServeDropJob, Nothing, Ex, Sh, Nothing, v);
    Moves(s, p, a, Some(v), Some(v), Run, a.(pc := ServeWaitOutcome, job := Nothing));
    Moves(s, p, a.(pc := ServeWaitOutcome, job := Nothing), Some(v), Some(v), Run,
          a.(pc := ServeDropOutcome, job := Nothing, outcome := Ex));
    Moves(s, p, a.(pc := ServeDropOutcome, job := Nothing, outcome := Ex), Some(v), Some(v), Run,
          a.(pc := Inside, job := Nothing));
  }

  lemma Leaves(s: Sys, p: nat, v: nat)
    requires p < |s.procs| && OthersAway(s, p)
    requires Arrives(s, p, Proc(Inside, Nothing, Nothing, Sh, Nothing, v), Some(v), Some(v))
    ensures Arrives(s, p, Proc(CleanActivity, Nothing, Nothing, Sh, Nothing, v), Some(v), Some(v))
  {
    var a := Proc(Inside, Nothing, Nothing, Sh, Nothing, v);
    Moves(s, p, a, Some(v), Some(v), Leave, a.(pc := ExitCheck));
    Moves(s, p, a.(pc := ExitCheck), Some(v), Some(v), Run, a.(pc := CleanOutcome));
    Moves(s, p, a.(pc := CleanOutcome), Some(v), Some(v), Run, a.(pc := CleanActivity));
  }

  lemma GivesBack(s: Sys, p: nat, v: nat)
    requires p < |s.procs| && OthersAway(s, p)
    requires Arrives(s, p, Proc(CleanActivity, Nothing, Nothing, Sh, Nothing, v), Some(v), Some(v))
    ensures Arrives(s, p, Proc(Outside, Nothing, Nothing, Nothing, Nothing, v), Some(v), Some(v))
  {
    var free := Proc(Outside, Nothing, Nothing, Nothing, Nothing, v);
    Moves(s, p, free.(pc := CleanActivity, activity := Sh), Some(v), Some(v), Run, free.(pc := CleanJob));
    Moves(s, p, free.(pc := CleanJob), Some(v), Some(v), Run, free.(pc := CleanGetJob));
    Moves(s, p, free.(pc := CleanGetJob), Some(v), Some(v), Run, free);
  }

  lemma AllAway(s: Sys, p: nat)
    requires Reachable(s) && AllOutside(s) && p < |s.procs|
    ensures OthersAway(s, p) && s.procs[p] == Gone(s.procs[p])
  {
    ReachableInv(s);
    forall q | 0 <= q < |s.procs|
      ensures s.procs[q] == Gone(s.procs[q])
    {
      assert !Engaged(s, q);
      assert LocalOk(s.procs[q]);
    }
  }

  /** When nobody is engaged, any process can enter, get the job, store any version in both files, serve and
      leave, by its own steps; only the files have changed then. */
  lemma JobGetsDone(s: Sys, p: nat, v: nat)
    requires Reachable(s) && AllOutside(s) && p < |s.procs|
    ensures Arrives(s, p, s.procs[p].(ver := v), Some(v), Some(v))
  {
    var ver := s.procs[p].ver;
    AllAway(s, p);
    assert s.procs[p := s.procs[p]] == s.procs;
    assert Exec(s, []) == Some(With(s, p, s.procs[p], s.pickle, s.meta));
    Enters(s, p, ver);
    GetsInside(s, p, ver);
    GoesForJob(s, p, ver);
    GetsJob(s, p, ver);
    Switches(s, p, ver);
    Stores(s, p, ver, v);
    Serves(s, p, v);
    Leaves(s, p, v);
    GivesBack(s, p, v);
  }

  /** A server that has got OUTCOME has served everybody: no other process is still between being late and
      having left the body or gone for the job itself. */
  lemma ServedMeansNobodyLate(s: Sys, p: nat, q: nat)
    requires Reachable(s) && p < |s.procs| && q < |s.procs| && q != p
    requires s.procs[p].pc == ServeDropOutcome
    ensures s.procs[q].outcome.kernel == Free
    ensures !s.procs[q].pc.LateJob? && !s.procs[q].pc.LateActivity? && !s.procs[q].pc.LateDropJob?
  {
    ReachableInv(s);
    assert LocalOk(s.procs[p]) && LocalOk(s.procs[q]);
    assert PairOk(s.procs[p], s.procs[q]);
    assert Compatible(s.procs[p].Get(Outcome).kernel, s.procs[q].Get(Outcome).kernel);
  }
}
