/** The protocol by which processes that share one pickle file elect the process that reloads the
    data while the others wait and then unpickle it.

    Any number of processes run `__enter__`, the body of the `with` block and `__exit__`, one lock
    call at a time and in any interleaving.  A mode switch of a held lock takes two steps (the old
    mode goes first).  Any step may be replaced by an exception.
 */
module PrefetchSynchronizer {
  import opened Options
  import opened FileLocks

  datatype Lock = GetJob | Job | Activity | Outcome

  /** Where a process is.  The comments give the line about to be executed. */
  datatype Pc =
    | Outside            // not in the `with` block
    | EnterGetJob        // 2923 (waits)
    | EnterTryJob        // 2924
    | EnterActivity      // 2925
    | EnterDropJob       // 2926
    | EnterDropGetJob    // 2927
    | LateDropGetJob     // 2929
    | LateOutcome        // 2937 (waits)
    | LateJob            // 2943 (waits)
    | LateActivity       // 2945
    | LateDropJob        // 2946
    | EnterDone          // 2948
    | Inside             // in the body: reading the database's version, metadata, pickle file
    | JobDropOutcome     // 2965, 2971
    | JobGetJob          // 2974 (waits)
    | JobTryJob          // 2975
    | JobDropGetJob      // 2976
    | JobBeginExclusive  // 2990, before the kernel drops the shared mode
    | JobWaitExclusive   // 2990, after that (waits)
    | JobBeginShared     // 2993, before the kernel drops the exclusive mode
    | JobWaitShared      // 2993, after that (waits)
    | GiveUp             // 3000
    | Working            // returned True: loading and pickling
    | PickleReplaced     // the pickle file is replaced, the metadata file not yet
    | DroppingMeta       // an exception while storing: removing the metadata file
    | ServeDropJob       // 3008, 3026
    | ServeWaitOutcome   // 3030 (waits)
    | ServeDropOutcome   // 3031
    | Unexpected         // 3079: RuntimeError
    | ExitCheck          // 2960
    | CleanOutcome       // 3050
    | CleanActivity      // 3052
    | CleanJob           // 3054
    | CleanGetJob        // 3056

  datatype Proc = Proc(pc: Pc, getJob: View, job: View, activity: View, outcome: View, ver: nat) {
    function Get(l: Lock): View {
      match l
      case GetJob => getJob
      case Job => job
      case Activity => activity
      case Outcome => outcome
    }

    function Put(l: Lock, v: View): Proc {
      match l
      case GetJob => this.(getJob := v)
      case Job => this.(job := v)
      case Activity => this.(activity := v)
      case Outcome => this.(outcome := v)
    }
  }

  /** All processes, the versions of the two shared files, and whether removing the metadata file
      has ever failed. */
  datatype Sys = Sys(procs: seq<Proc>, pickle: Option<nat>, meta: Option<nat>, unlinkFailed: bool)

  datatype Move =
    | Enter
    | Run
    | Designate
    | Leave
    | Store(ver: nat)
    | StoreRaises
    | UnlinkRaises
    | Raise

  // ---------------------------------------------------------------- the program

  datatype Instr =
    | Wait(lock: Lock, want: Mode, next: Pc)               // a call that waits until the mode is granted
    | Try(lock: Lock, want: Mode, onYes: Pc, onNo: Pc)     // a call that does not wait
    | Drop(lock: Lock, next: Pc)
    | BeginSwitch(lock: Lock, want: Mode, next: Pc)        // the kernel drops the mode held so far
    | Go(next: Pc)
    | Stop

  /** The next call of a process that is not raising. */
  function Code(pc: Pc): Instr {
    match pc
    case EnterGetJob => Wait(GetJob, Shared, EnterTryJob)
    case EnterTryJob => Try(Job, Shared, EnterActivity, LateDropGetJob)
    case EnterActivity => Try(Activity, Shared, EnterDropJob, Unexpected)
    case EnterDropJob => Drop(Job, EnterDropGetJob)
    case EnterDropGetJob => Drop(GetJob, EnterDone)
    case LateDropGetJob => Drop(GetJob, LateOutcome)
    case LateOutcome => Wait(Outcome, Shared, LateJob)
    case LateJob => Wait(Job, Shared, LateActivity)
    case LateActivity => Try(Activity, Shared, LateDropJob, Unexpected)
    case LateDropJob => Drop(Job, EnterDone)
    case EnterDone => Go(Inside)
    case JobDropOutcome => Drop(Outcome, JobGetJob)
    case JobGetJob => Wait(GetJob, Exclusive, JobTryJob)
    case JobTryJob => Try(Job, Exclusive, JobDropGetJob, GiveUp)
    case JobDropGetJob => Drop(GetJob, JobBeginExclusive)
    case JobBeginExclusive => BeginSwitch(Activity, Exclusive, JobWaitExclusive)
    case JobWaitExclusive => Wait(Activity, Exclusive, JobBeginShared)
    case JobBeginShared => BeginSwitch(Activity, Shared, JobWaitShared)
    case JobWaitShared => Wait(Activity, Shared, Working)
    case GiveUp => Drop(GetJob, Inside)
    case PickleReplaced => Go(ServeDropJob)
    case DroppingMeta => Go(ExitCheck)
    case ServeDropJob => Drop(Job, ServeWaitOutcome)
    case ServeWaitOutcome => Wait(Outcome, Exclusive, ServeDropOutcome)
    case ServeDropOutcome => Drop(Outcome, Inside)
    case Unexpected => Go(CleanOutcome)
    case ExitCheck => Go(CleanOutcome)
    case CleanOutcome => Drop(Outcome, CleanActivity)
    case CleanActivity => Drop(Activity, CleanJob)
    case CleanJob => Drop(Job, CleanGetJob)
    case CleanGetJob => Drop(GetJob, Outside)
    case Outside | Inside | Working => Stop
  }

  predicate InEnter(pc: Pc) {
    || pc.EnterGetJob? || pc.EnterTryJob? || pc.EnterActivity? || pc.EnterDropJob? || pc.EnterDropGetJob?
    || pc.LateDropGetJob? || pc.LateOutcome? || pc.LateJob? || pc.LateActivity? || pc.LateDropJob?
    || pc.EnterDone?
  }

  predicate InBody(pc: Pc) {
    || pc.Inside? || pc.JobDropOutcome? || pc.JobGetJob? || pc.JobTryJob? || pc.JobDropGetJob?
    || pc.JobBeginExclusive? || pc.JobWaitExclusive? || pc.JobBeginShared? || pc.JobWaitShared?
    || pc.GiveUp? || pc.Working? || pc.ServeDropJob? || pc.ServeWaitOutcome? || pc.ServeDropOutcome?
  }

  /** What one instruction does to its process, given whether the kernel grants what it asks for. */
  function Effect(pr: Proc, i: Instr, granted: bool): Option<Proc> {
    match i
    case Wait(l, want, next) =>
      if granted then Some(pr.Put(l, Attempt(pr.Get(l), true, want)).(pc := next)) else None
    case Try(l, want, onYes, onNo) =>
      Some(pr.Put(l, Attempt(pr.Get(l), granted, want)).(pc := if granted then onYes else onNo))
    case Drop(l, next) => Some(pr.Put(l, Nothing).(pc := next))
    case BeginSwitch(l, want, next) => Some(pr.Put(l, Attempt(pr.Get(l), false, want)).(pc := next))
    case Go(next) => Some(pr.(pc := next))
    case Stop => None
  }

  /** What a move does to its process; `None` when it cannot make that move now. */
  function LocalStep(pr: Proc, m: Move, granted: bool): Option<Proc> {
    match m
    case Run => Effect(pr, Code(pr.pc), granted)
    case Enter => if pr.pc == Outside then Some(pr.(pc := EnterGetJob)) else None
    case Designate => if pr.pc == Inside then Some(pr.(pc := JobDropOutcome)) else None
    case Leave => if pr.pc == Inside then Some(pr.(pc := ExitCheck)) else None
    case Store(v) => if pr.pc == Working then Some(pr.(pc := PickleReplaced, ver := v)) else None
    case StoreRaises => if pr.pc == Working then Some(pr.(pc := DroppingMeta)) else None
    case UnlinkRaises => if pr.pc == DroppingMeta then Some(pr.(pc := ExitCheck)) else None
    case Raise =>
      if InEnter(pr.pc) then Some(pr.(pc := CleanOutcome))
      else if InBody(pr.pc) then Some(pr.(pc := ExitCheck))
      else if pr.pc == PickleReplaced then Some(pr.(pc := DroppingMeta))
      else None
  }

  // ---------------------------------------------------------------- the system

  /** The kernel grants a mode when every other process's mode allows it. */
  predicate Grants(s: Sys, p: nat, l: Lock, want: Mode) {
    forall q :: 0 <= q < |s.procs| && q != p ==> Compatible(want, s.procs[q].Get(l).kernel)
  }

  predicate Asks(i: Instr) {
    i.Wait? || i.Try?
  }

  predicate Granted(s: Sys, p: nat)
    requires p < |s.procs|
  {
    var i := Code(s.procs[p].pc);
    Asks(i) ==> Grants(s, p, i.lock, i.want)
  }

  function OnDisk(s: Sys, pr: Proc, m: Move): Sys {
    match m
    case Store(v) => s.(pickle := Some(v))
    case UnlinkRaises => s.(unlinkFailed := true)
    case Run =>
      if pr.pc == PickleReplaced then s.(meta := Some(pr.ver))
      else if pr.pc == DroppingMeta then s.(meta := None)
      else s
    case _ => s
  }

  /** One step of process `p`. */
  function Step(s: Sys, p: nat, m: Move): Option<Sys>
    requires p < |s.procs|
  {
    match LocalStep(s.procs[p], m, Granted(s, p))
    case None => None
    case Some(pr) => Some(OnDisk(s, s.procs[p], m).(procs := s.procs[p := pr]))
  }

  /** `n` processes, none engaged; the metadata file, if any, describes the pickle file. */
  ghost predicate Init(s: Sys) {
    && (forall p :: 0 <= p < |s.procs| ==>
          s.procs[p] == Proc(Outside, Nothing, Nothing, Nothing, Nothing, s.procs[p].ver))
    && (s.meta.Some? ==> s.meta == s.pickle)
    && !s.unlinkFailed
  }

  /** A run: which process moved, and how. */
  type Run = seq<(nat, Move)>

  function Exec(s: Sys, run: Run): Option<Sys>
    decreases |run|
  {
    if run == [] then Some(s)
    else if run[0].0 >= |s.procs| then None
    else
      match Step(s, run[0].0, run[0].1)
      case None => None
      case Some(t) => Exec(t, run[1..])
  }

  ghost predicate Reachable(s: Sys) {
    exists start: Sys, run: Run :: Init(start) && Exec(start, run) == Some(s)
  }

  // ---------------------------------------------------------------- invariant

  /** The job holder, from its grant of ACTIVITY exclusive until it gives JOB up. */
  predicate Guarding(pc: Pc) {
    || pc.JobBeginShared? || pc.JobWaitShared? || pc.Working? || pc.PickleReplaced? || pc.DroppingMeta?
    || pc.ServeDropJob?
  }

  /** Between the two replacements of a store, or undoing it. */
  predicate Storing(pc: Pc) {
    pc.PickleReplaced? || pc.DroppingMeta?
  }

  /** What the kernel and the lock objects say at each place of the program. */
  ghost predicate LocalOk(pr: Proc) {
    var sh := View(Shared, Shared);
    var ex := View(Exclusive, Exclusive);
    var maybe := pr.outcome == Nothing || pr.outcome == sh;
    match pr.pc
    case Outside | EnterGetJob | LateOutcome => Views(pr, Nothing, Nothing, Nothing, Nothing)
    case EnterTryJob | LateDropGetJob => Views(pr, sh, Nothing, Nothing, Nothing)
    case EnterActivity => Views(pr, sh, sh, Nothing, Nothing)
    case EnterDropJob => Views(pr, sh, sh, sh, Nothing)
    case EnterDropGetJob => Views(pr, sh, Nothing, sh, Nothing)
    case LateJob => Views(pr, Nothing, Nothing, Nothing, sh)
    case LateActivity => Views(pr, Nothing, sh, Nothing, sh)
    case LateDropJob => Views(pr, Nothing, sh, sh, sh)
    case EnterDone | Inside | JobDropOutcome => Views(pr, Nothing, Nothing, sh, pr.outcome) && maybe
    case JobGetJob | ServeWaitOutcome => Views(pr, Nothing, Nothing, sh, Nothing)
    case JobTryJob | GiveUp => Views(pr, ex, Nothing, sh, Nothing)
    case JobDropGetJob => Views(pr, ex, ex, sh, Nothing)
    case JobBeginExclusive => Views(pr, Nothing, ex, sh, Nothing)
    case JobWaitExclusive => Views(pr, Nothing, ex, View(Free, Shared), Nothing)
    case JobBeginShared => Views(pr, Nothing, ex, ex, Nothing)
    case JobWaitShared => Views(pr, Nothing, ex, View(Free, Exclusive), Nothing)
    case Working | PickleReplaced | DroppingMeta | ServeDropJob => Views(pr, Nothing, ex, sh, Nothing)
    case ServeDropOutcome => Views(pr, Nothing, Nothing, sh, ex)
    case Unexpected => false
    case ExitCheck | CleanOutcome => CleanupOk(pr)
    case CleanActivity => CleanupOk(pr) && pr.outcome == Nothing
    case CleanJob => CleanupOk(pr) && pr.outcome == Nothing && pr.activity == Nothing
    case CleanGetJob => CleanupOk(pr) && pr.outcome == Nothing && pr.activity == Nothing && pr.job == Nothing
  }

  predicate Views(pr: Proc, getJob: View, job: View, activity: View, outcome: View) {
    pr.getJob == getJob && pr.job == job && pr.activity == activity && pr.outcome == outcome
  }

  /** During cleanup: ACTIVITY is not held exclusively without JOB, and the kernel holds nothing an
      object does not know about. */
  predicate CleanupOk(pr: Proc) {
    && (pr.activity.kernel == Exclusive ==> pr.job.kernel == Exclusive)
    && (pr.getJob.believed == Free ==> pr.getJob.kernel == Free)
    && (pr.job.believed == Free ==> pr.job.kernel == Free)
    && (pr.activity.believed == Free ==> pr.activity.kernel == Free)
    && (pr.outcome.believed == Free ==> pr.outcome.kernel == Free)
  }

  ghost predicate PairOk(a: Proc, b: Proc) {
    && (forall l: Lock :: Compatible(a.Get(l).kernel, b.Get(l).kernel))
    && (Guarding(a.pc) ==> b.activity.kernel == Free)
  }

  /** The metadata describes the pickle file unless its writer is between the two replacements, or
      a removal failed. */
  ghost predicate DiskOk(s: Sys) {
    || s.unlinkFailed
    || s.meta == None
    || s.meta == s.pickle
    || exists p :: 0 <= p < |s.procs| && Storing(s.procs[p].pc)
  }

  ghost predicate Inv(s: Sys) {
    && (forall p :: 0 <= p < |s.procs| ==> LocalOk(s.procs[p]))
    && (forall p, q :: 0 <= p < |s.procs| && 0 <= q < |s.procs| && p != q ==> PairOk(s.procs[p], s.procs[q]))
    && (forall p :: 0 <= p < |s.procs| && s.procs[p].pc == PickleReplaced ==> s.pickle == Some(s.procs[p].ver))
    && DiskOk(s)
  }

  /** Everything held follows from the place and from the pairwise rule; ACTIVITY exclusive implies
      JOB exclusive everywhere, cleanup included. */
  lemma ActivityExclusiveNeedsJob(pr: Proc)
    requires LocalOk(pr) && pr.activity.kernel == Exclusive
    ensures pr.job.kernel == Exclusive
  {
  }

  /** Each lock of the mover is kept, dropped, or taken as its instruction asks. */
  lemma EffectOnLocks(pr: Proc, m: Move, granted: bool, l: Lock)
    requires LocalStep(pr, m, granted).Some?
    ensures var k := LocalStep(pr, m, granted).value.Get(l).kernel;
            var i := Code(pr.pc);
            || k == Free
            || k == pr.Get(l).kernel
            || (granted && Asks(i) && i.lock == l && i.want == k)
  {
  }

  lemma EnterEffectKeepsLocalOk(pr: Proc, granted: bool)
    requires InEnter(pr.pc) && LocalOk(pr) && Effect(pr, Code(pr.pc), granted).Some?
    requires pr.pc == EnterActivity || pr.pc == LateActivity ==> granted
    ensures LocalOk(Effect(pr, Code(pr.pc), granted).value)
  {
  }

  lemma BodyEffectKeepsLocalOk(pr: Proc, granted: bool)
    requires InBody(pr.pc) && LocalOk(pr) && Effect(pr, Code(pr.pc), granted).Some?
    ensures LocalOk(Effect(pr, Code(pr.pc), granted).value)
  {
  }

  lemma CleanEffectKeepsLocalOk(pr: Proc, granted: bool)
    requires !InEnter(pr.pc) && !InBody(pr.pc) && LocalOk(pr) && Effect(pr, Code(pr.pc), granted).Some?
    ensures LocalOk(Effect(pr, Code(pr.pc), granted).value)
  {
  }

  lemma LocalStepKeepsLocalOk(pr: Proc, m: Move, granted: bool)
    requires LocalOk(pr) && LocalStep(pr, m, granted).Some?
    requires pr.pc == EnterActivity || pr.pc == LateActivity ==> granted
    ensures LocalOk(LocalStep(pr, m, granted).value)
  {
    if m == Run {
      if InEnter(pr.pc) {
        EnterEffectKeepsLocalOk(pr, granted);
      } else if InBody(pr.pc) {
        BodyEffectKeepsLocalOk(pr, granted);
      } else {
        CleanEffectKeepsLocalOk(pr, granted);
      }
    } else if m == Raise {
      RaiseKeepsLocalOk(pr);
    }
  }

  lemma RaiseKeepsLocalOk(pr: Proc)
    requires LocalOk(pr) && LocalStep(pr, Raise, true).Some?
    ensures LocalOk(LocalStep(pr, Raise, true).value)
  {
    var next := LocalStep(pr, Raise, true).value;
    if next.pc != DroppingMeta {
      assert CleanupOk(next);
    }
  }

  /** Whoever holds JOB shared finds ACTIVITY free or shared. */
  lemma ImmediateActivitySucceeds(s: Sys, p: nat)
    requires Inv(s) && p < |s.procs| && s.procs[p].job.kernel == Shared
    ensures Grants(s, p, Activity, Shared)
  {
    forall q | 0 <= q < |s.procs| && q != p
      ensures Compatible(Shared, s.procs[q].Get(Activity).kernel)
    {
      assert PairOk(s.procs[p], s.procs[q]);
      assert Compatible(s.procs[p].Get(Job).kernel, s.procs[q].Get(Job).kernel);
      if s.procs[q].activity.kernel == Exclusive {
        ActivityExclusiveNeedsJob(s.procs[q]);
      }
    }
  }

  lemma StepKeepsLocalOk(s: Sys, p: nat, m: Move)
    requires Inv(s) && p < |s.procs| && Step(s, p, m).Some?
    ensures LocalOk(Step(s, p, m).value.procs[p])
  {
    if s.procs[p].pc in {EnterActivity, LateActivity} {
      ImmediateActivitySucceeds(s, p);
    }
    LocalStepKeepsLocalOk(s.procs[p], m, Granted(s, p));
  }

  lemma CompatibleSymmetric(a: Mode, b: Mode)
    ensures Compatible(a, b) == Compatible(b, a)
  {
  }

  /** A mode granted to the mover excludes nobody. */
  lemma StepKeepsPair(s: Sys, p: nat, m: Move, q: nat)
    requires Inv(s) && p < |s.procs| && q < |s.procs| && q != p && Step(s, p, m).Some?
    ensures var t := Step(s, p, m).value; PairOk(t.procs[p], t.procs[q]) && PairOk(t.procs[q], t.procs[p])
  {
    var t := Step(s, p, m).value;
    var a, b := s.procs[p], s.procs[q];
    assert PairOk(a, b) && PairOk(b, a);
    forall l: Lock
      ensures Compatible(t.procs[p].Get(l).kernel, b.Get(l).kernel)
      ensures Compatible(b.Get(l).kernel, t.procs[p].Get(l).kernel)
    {
      var k := t.procs[p].Get(l).kernel;
      CompatibleSymmetric(k, b.Get(l).kernel);
      EffectOnLocks(a, m, Granted(s, p), l);
      assert Compatible(a.Get(l).kernel, b.Get(l).kernel);
    }
    GuardKept(s, p, m, q);
  }

  lemma GuardStartsAlone(pr: Proc, m: Move, granted: bool)
    requires LocalOk(pr) && LocalStep(pr, m, granted).Some?
    requires Guarding(LocalStep(pr, m, granted).value.pc) && !Guarding(pr.pc)
    ensures pr.pc == JobWaitExclusive && granted
  {
  }

  lemma TakesActivityHoldingJob(pr: Proc, m: Move, granted: bool)
    requires LocalOk(pr) && LocalStep(pr, m, granted).Some?
    requires pr.activity.kernel == Free && LocalStep(pr, m, granted).value.activity.kernel != Free
    ensures pr.job.kernel != Free
  {
  }

  /** Nobody takes ACTIVITY while another process guards it, and the guard starts with nobody on it. */
  lemma GuardKept(s: Sys, p: nat, m: Move, q: nat)
    requires Inv(s) && p < |s.procs| && q < |s.procs| && q != p && Step(s, p, m).Some?
    ensures var t := Step(s, p, m).value;
            && (Guarding(t.procs[p].pc) ==> s.procs[q].activity.kernel == Free)
            && (Guarding(s.procs[q].pc) ==> t.procs[p].activity.kernel == Free)
  {
    var t := Step(s, p, m).value;
    var a, b := s.procs[p], s.procs[q];
    assert PairOk(a, b) && PairOk(b, a);
    assert Compatible(a.Get(Job).kernel, b.Get(Job).kernel);
    if Guarding(t.procs[p].pc) && !Guarding(a.pc) {
      GuardStartsAlone(a, m, Granted(s, p));
      assert Compatible(Exclusive, b.Get(Activity).kernel);
    }
    if Guarding(b.pc) && t.procs[p].activity.kernel != Free {
      GuardHoldsJob(b);
      TakesActivityHoldingJob(a, m, Granted(s, p));
    }
  }

  lemma GuardHoldsJob(pr: Proc)
    requires LocalOk(pr) && Guarding(pr.pc)
    ensures pr.job.kernel == Exclusive
  {
  }

  lemma GuardExcludes(a: Proc, b: Proc)
    requires LocalOk(a) && LocalOk(b) && PairOk(a, b) && Guarding(a.pc)
    ensures b.activity.kernel == Free && b.pc != Inside && !Guarding(b.pc)
  {
    assert Compatible(a.Get(Job).kernel, b.Get(Job).kernel);
  }

  lemma OnlyGuardsTouchDisk(s: Sys, pr: Proc, m: Move, granted: bool)
    requires LocalStep(pr, m, granted).Some? && !Guarding(pr.pc)
    ensures OnDisk(s, pr, m) == s && !Storing(LocalStep(pr, m, granted).value.pc)
  {
  }

  /** What the job holder leaves behind after one more step. */
  lemma GuardStepOnDisk(s: Sys, pr: Proc, m: Move, granted: bool)
    requires LocalStep(pr, m, granted).Some? && Guarding(pr.pc)
    requires pr.pc == PickleReplaced ==> s.pickle == Some(pr.ver)
    ensures var d, pr' := OnDisk(s, pr, m), LocalStep(pr, m, granted).value;
            && (pr'.pc == PickleReplaced ==> d.pickle == Some(pr'.ver))
            && (!Storing(pr'.pc) && Storing(pr.pc) ==> d.unlinkFailed || d.meta == None || d.meta == d.pickle)
            && (!Storing(pr'.pc) && !Storing(pr.pc) ==> d == s)
  {
  }

  lemma OnlyOneStores(s: Sys, p: nat, q: nat)
    requires Inv(s) && p < |s.procs| && q < |s.procs| && p != q && Guarding(s.procs[p].pc)
    ensures !Storing(s.procs[q].pc)
  {
    assert PairOk(s.procs[p], s.procs[q]);
    GuardExcludes(s.procs[p], s.procs[q]);
  }

  lemma StepKeepsDisk(s: Sys, p: nat, m: Move)
    requires Inv(s) && p < |s.procs| && Step(s, p, m).Some?
    ensures var t := Step(s, p, m).value;
            && DiskOk(t)
            && (forall q :: 0 <= q < |t.procs| && t.procs[q].pc == PickleReplaced ==> t.pickle == Some(t.procs[q].ver))
  {
    var t := Step(s, p, m).value;
    var a := s.procs[p];
    if Guarding(a.pc) {
      forall q | 0 <= q < |s.procs| && q != p
        ensures !Storing(s.procs[q].pc)
      {
        OnlyOneStores(s, p, q);
      }
      GuardStepOnDisk(s, a, m, Granted(s, p));
      if Storing(t.procs[p].pc) {
        assert DiskOk(t);
      }
    } else {
      OnlyGuardsTouchDisk(s, a, m, Granted(s, p));
      if q :| 0 <= q < |s.procs| && Storing(s.procs[q].pc) {
        assert Storing(t.procs[q].pc);
      }
    }
  }

  lemma StepKeepsInv(s: Sys, p: nat, m: Move)
    requires Inv(s) && p < |s.procs| && Step(s, p, m).Some?
    ensures Inv(Step(s, p, m).value)
  {
    var t := Step(s, p, m).value;
    StepKeepsLocalOk(s, p, m);
    StepKeepsDisk(s, p, m);
    forall a, b | 0 <= a < |t.procs| && 0 <= b < |t.procs| && a != b
      ensures PairOk(t.procs[a], t.procs[b])
    {
      if a == p {
        StepKeepsPair(s, p, m, b);
      } else if b == p {
        StepKeepsPair(s, p, m, a);
      } else {
        assert PairOk(s.procs[a], s.procs[b]);
      }
    }
  }

  lemma {:induction false} RunKeepsInv(s: Sys, run: Run)
    requires Inv(s) && Exec(s, run).Some?
    ensures Inv(Exec(s, run).value)
    decreases |run|
  {
    if run != [] {
      StepKeepsInv(s, run[0].0, run[0].1);
      RunKeepsInv(Step(s, run[0].0, run[0].1).value, run[1..]);
    }
  }

  lemma ReachableInv(s: Sys)
    requires Reachable(s)
    ensures Inv(s)
  {
    var start: Sys, run: Run :| Init(start) && Exec(start, run) == Some(s);
    assert Inv(start);
    RunKeepsInv(start, run);
  }

  // ---------------------------------------------------------------- safety

  /** While one process does the job, no other holds ACTIVITY in any mode: none is reading, and none
      does the job too. */
  lemma JobExcludesReaders(s: Sys, p: nat, q: nat)
    requires Reachable(s) && p < |s.procs| && q < |s.procs| && p != q
    requires Guarding(s.procs[p].pc)
    ensures s.procs[q].activity.kernel == Free
    ensures s.procs[q].pc != Inside && !Guarding(s.procs[q].pc)
  {
    ReachableInv(s);
    GuardExcludes(s.procs[p], s.procs[q]);
  }

  /** ACTIVITY is held exclusively only by the process that holds JOB exclusively, on every run,
      cleanup after exceptions included. */
  lemma ActivityExclusiveOnlyWithJob(s: Sys, p: nat)
    requires Reachable(s) && p < |s.procs| && s.procs[p].activity.kernel == Exclusive
    ensures s.procs[p].job.kernel == Exclusive
    ensures forall q :: 0 <= q < |s.procs| && q != p ==> s.procs[q].job.kernel == Free
  {
    ReachableInv(s);
    ActivityExclusiveNeedsJob(s.procs[p]);
    forall q | 0 <= q < |s.procs| && q != p
      ensures s.procs[q].job.kernel == Free
    {
      assert PairOk(s.procs[p], s.procs[q]);
      assert Compatible(s.procs[p].Get(Job).kernel, s.procs[q].Get(Job).kernel);
    }
  }

  predicate AcquiredByUs(v: View) {
    v.believed != Free
  }

  /** The assertions about the lock objects, by place. */
  predicate AssertionsHold(pr: Proc) {
    match pr.pc
    case Outside =>
      !AcquiredByUs(pr.getJob) && !AcquiredByUs(pr.job) && !AcquiredByUs(pr.activity) && !AcquiredByUs(pr.outcome)
    case EnterDone | JobDropOutcome =>
      && !AcquiredByUs(pr.getJob) && !AcquiredByUs(pr.job)
      && pr.activity.believed == Shared
      && (pr.outcome.believed == Shared || !AcquiredByUs(pr.outcome))
    case ServeDropJob =>
      && !AcquiredByUs(pr.getJob)
      && AcquiredByUs(pr.job) && pr.job.believed != Shared
      && pr.activity.believed == Shared
      && !AcquiredByUs(pr.outcome)
    case ExitCheck => pr.activity.believed == Shared
    case _ => true
  }

  /** The non-waiting acquisition of ACTIVITY always succeeds, so `RuntimeError` is never raised, and
      every lock-state assertion holds, except possibly the one in `__exit__`. */
  lemma NoUnexpectedError(s: Sys, p: nat)
    requires Reachable(s) && p < |s.procs|
    ensures s.procs[p].pc != Unexpected
    ensures s.procs[p].pc != ExitCheck ==> AssertionsHold(s.procs[p])
    ensures s.procs[p].pc == EnterActivity || s.procs[p].pc == LateActivity ==> Granted(s, p)
  {
    ReachableInv(s);
    assert LocalOk(s.procs[p]);
    if s.procs[p].pc == EnterActivity || s.procs[p].pc == LateActivity {
      ImmediateActivitySucceeds(s, p);
    }
  }

  lemma ExitCheckComesFrom(pr: Proc, m: Move, granted: bool)
    requires LocalOk(pr) && LocalStep(pr, m, granted).Some? && LocalStep(pr, m, granted).value.pc == ExitCheck
    ensures LocalStep(pr, m, granted).value.activity == pr.activity
    ensures pr.activity.believed == Shared <==> pr.pc != JobBeginShared && pr.pc != JobWaitShared
  {
  }

  /** The assertion in `__exit__` fails exactly when the exception came while the mode of ACTIVITY
      was being switched back from exclusive to shared. */
  lemma ExitAssertionFailsOnlyMidSwitch(s: Sys, p: nat, m: Move)
    requires Reachable(s) && p < |s.procs| && Step(s, p, m).Some?
    requires Step(s, p, m).value.procs[p].pc == ExitCheck
    ensures AssertionsHold(Step(s, p, m).value.procs[p])
            <==> s.procs[p].pc != JobBeginShared && s.procs[p].pc != JobWaitShared
  {
    ReachableInv(s);
    ExitCheckComesFrom(s.procs[p], m, Granted(s, p));
  }

  lemma ExecAppend(s: Sys, run: Run, p: nat, m: Move)
    requires Exec(s, run).Some? && p < |Exec(s, run).value.procs|
    ensures Exec(s, run + [(p, m)]) == Step(Exec(s, run).value, p, m)
    decreases |run|
  {
    if run == [] {
      assert run + [(p, m)] == [(p, m)];
    } else {
      ExecAppend(Step(s, run[0].0, run[0].1).value, run[1..], p, m);
      assert (run + [(p, m)])[1..] == run[1..] + [(p, m)];
    }
  }

  lemma ReachableStep(s: Sys, p: nat, m: Move)
    requires Reachable(s) && p < |s.procs| && Step(s, p, m).Some?
    ensures Reachable(Step(s, p, m).value)
  {
    var start: Sys, run: Run :| Init(start) && Exec(start, run) == Some(s);
    ExecAppend(start, run, p, m);
    assert Exec(start, run + [(p, m)]) == Step(s, p, m);
  }

  /** One writer, no concurrent reader: whoever changes the pickle file or the metadata file, no
      other process is reading them, before or after. */
  lemma FilesAreStableForReaders(s: Sys, p: nat, m: Move, q: nat)
    requires Reachable(s) && p < |s.procs| && q < |s.procs| && p != q && Step(s, p, m).Some?
    requires var t := Step(s, p, m).value; t.pickle != s.pickle || t.meta != s.meta
    ensures s.procs[q].pc != Inside && Step(s, p, m).value.procs[q].pc != Inside
  {
    assert Guarding(s.procs[p].pc);
    JobExcludesReaders(s, p, q);
  }

  /** A reader finds metadata that describes the pickle file, or none, unless removing the metadata
      file has once failed. */
  lemma ReadersSeeConsistentFiles(s: Sys, q: nat)
    requires Reachable(s) && q < |s.procs| && s.procs[q].pc == Inside && !s.unlinkFailed
    ensures s.meta == None || s.meta == s.pickle
  {
    ReachableInv(s);
    if s.meta != None && s.meta != s.pickle {
      var p :| 0 <= p < |s.procs| && Storing(s.procs[p].pc);
      JobExcludesReaders(s, p, q);
    }
  }

  // ---------------------------------------------------------------- waiting

  predicate Engaged(s: Sys, p: nat)
    requires p < |s.procs|
  {
    s.procs[p].pc != Outside
  }

  /** A waiting call that is not granted. */
  predicate Blocked(s: Sys, p: nat)
    requires p < |s.procs|
  {
    Code(s.procs[p].pc).Wait? && !Granted(s, p)
  }

  /** A move that is not an exception. */
  predicate Plain(m: Move) {
    m != Raise && m != StoreRaises && m != UnlinkRaises
  }

  /** An engaged process is blocked exactly when it has no step but raising. */
  lemma BlockedMeansNoMove(s: Sys, p: nat)
    requires p < |s.procs| && Engaged(s, p)
    ensures Blocked(s, p) <==> forall m :: Plain(m) ==> Step(s, p, m) == None
  {
    if !Blocked(s, p) {
      var m := PlainMove(s.procs[p].pc);
      assert Plain(m) && Step(s, p, m).Some?;
    }
  }

  /** Some process is engaged, and every engaged process is blocked. */
  ghost predicate Stuck(s: Sys) {
    && (exists p :: 0 <= p < |s.procs| && Engaged(s, p))
    && (forall p :: 0 <= p < |s.procs| && Engaged(s, p) ==> Blocked(s, p))
  }

  predicate InCycle(pc: Pc) {
    pc.LateJob? || pc.JobWaitExclusive? || pc.ServeWaitOutcome?
  }

  ghost predicate Someone(s: Sys, pc: Pc) {
    exists p :: 0 <= p < |s.procs| && s.procs[p].pc == pc
  }

  /** One process waits for JOB shared, one for ACTIVITY exclusive, one for OUTCOME exclusive. */
  ghost predicate WaitCycle(s: Sys) {
    Someone(s, LateJob) && Someone(s, JobWaitExclusive) && Someone(s, ServeWaitOutcome)
  }

  lemma OutsideHoldsNothing(pr: Proc, l: Lock)
    requires LocalOk(pr) && pr.Get(l).kernel != Free
    ensures pr.pc != Outside
  {
  }

  lemma WaitingHolds(pr: Proc)
    requires LocalOk(pr) && Code(pr.pc).Wait?
    ensures pr.getJob.kernel == Free
    ensures pr.job.kernel != Free ==> pr.pc == JobWaitExclusive || pr.pc == JobWaitShared
    ensures pr.activity.kernel != Free ==>
              pr.activity.kernel == Shared && (pr.pc == ServeWaitOutcome || pr.pc == JobGetJob)
    ensures pr.outcome.kernel != Free ==> pr.outcome.kernel == Shared && pr.pc == LateJob
  {
  }

  lemma WhoBlocksWhom(a: Proc, b: Proc)
    requires LocalOk(b) && Code(a.pc).Wait? && Code(b.pc).Wait?
    requires !Compatible(Code(a.pc).want, b.Get(Code(a.pc).lock).kernel)
    ensures InCycle(a.pc)
    ensures a.pc == LateJob ==> b.pc == JobWaitExclusive || b.pc == JobWaitShared
    ensures a.pc == JobWaitExclusive ==> b.pc == ServeWaitOutcome || b.pc == JobGetJob
    ensures a.pc == ServeWaitOutcome ==> b.pc == LateJob
  {
    WaitingHolds(b);
  }

  /** When all engaged processes wait, nobody holds GETJOB, nobody holds OUTCOME or ACTIVITY
      exclusively: only the three kinds of waiting of the cycle can be blocked. */
  lemma BlockedOnlyInCycle(s: Sys, p: nat)
    requires Inv(s) && p < |s.procs| && Blocked(s, p)
    requires forall q :: 0 <= q < |s.procs| && Engaged(s, q) ==> Code(s.procs[q].pc).Wait?
    ensures InCycle(s.procs[p].pc)
    ensures s.procs[p].pc == LateJob ==> Someone(s, JobWaitExclusive) || Someone(s, JobWaitShared)
    ensures s.procs[p].pc == JobWaitExclusive ==> Someone(s, ServeWaitOutcome) || Someone(s, JobGetJob)
    ensures s.procs[p].pc == ServeWaitOutcome ==> Someone(s, LateJob)
  {
    var i := Code(s.procs[p].pc);
    var q :| 0 <= q < |s.procs| && q != p && !Compatible(i.want, s.procs[q].Get(i.lock).kernel);
    assert LocalOk(s.procs[q]);
    OutsideHoldsNothing(s.procs[q], i.lock);
    WhoBlocksWhom(s.procs[p], s.procs[q]);
  }

  /** The only way to get stuck, for any number of processes: all engaged processes are of the three
      kinds, and all three kinds are present.  Conversely, that is always stuck. */
  lemma StuckIsExactlyTheCycle(s: Sys)
    requires Reachable(s)
    ensures Stuck(s) <==> WaitCycle(s) && AllInCycle(s)
  {
    ReachableInv(s);
    if Stuck(s) {
      forall p | 0 <= p < |s.procs| && Engaged(s, p)
        ensures InCycle(s.procs[p].pc)
      {
        BlockedOnlyInCycle(s, p);
      }
      StuckHasAllThree(s);
    }
    if WaitCycle(s) && AllInCycle(s) {
      CycleIsStuck(s);
    }
  }

  ghost predicate AllInCycle(s: Sys) {
    forall p :: 0 <= p < |s.procs| && Engaged(s, p) ==> InCycle(s.procs[p].pc)
  }

  lemma OnlyTheCycleWaits(s: Sys)
    requires AllInCycle(s)
    ensures forall q :: 0 <= q < |s.procs| && Engaged(s, q) ==> Code(s.procs[q].pc).Wait?
    ensures !Someone(s, JobWaitShared) && !Someone(s, JobGetJob)
  {
  }

  lemma NextInCycle(s: Sys, pc: Pc)
    requires Inv(s) && Stuck(s) && AllInCycle(s) && Someone(s, pc) && InCycle(pc)
    ensures pc == LateJob ==> Someone(s, JobWaitExclusive)
    ensures pc == JobWaitExclusive ==> Someone(s, ServeWaitOutcome)
    ensures pc == ServeWaitOutcome ==> Someone(s, LateJob)
  {
    var p :| 0 <= p < |s.procs| && s.procs[p].pc == pc;
    assert Engaged(s, p);
    OnlyTheCycleWaits(s);
    BlockedOnlyInCycle(s, p);
  }

  /** From any stuck process, following who blocks whom meets all three kinds. */
  lemma StuckHasAllThree(s: Sys)
    requires Inv(s) && Stuck(s) && AllInCycle(s)
    ensures WaitCycle(s)
  {
    var p :| 0 <= p < |s.procs| && Engaged(s, p);
    var pc := s.procs[p].pc;
    assert Someone(s, pc);
    NextInCycle(s, pc);
    if pc == LateJob {
      NextInCycle(s, JobWaitExclusive);
    } else if pc == JobWaitExclusive {
      NextInCycle(s, ServeWaitOutcome);
    } else {
      NextInCycle(s, LateJob);
    }
  }

  lemma CycleIsStuck(s: Sys)
    requires Inv(s) && WaitCycle(s) && AllInCycle(s)
    ensures Stuck(s)
  {
    var a :| 0 <= a < |s.procs| && s.procs[a].pc == LateJob;
    var b :| 0 <= b < |s.procs| && s.procs[b].pc == JobWaitExclusive;
    var c :| 0 <= c < |s.procs| && s.procs[c].pc == ServeWaitOutcome;
    assert Engaged(s, a);
    forall p | 0 <= p < |s.procs| && Engaged(s, p)
      ensures Blocked(s, p)
    {
      CycleBlocks(s, a, b, c, p);
    }
  }

  /** In a cycle each kind of waiting is blocked by the next one. */
  lemma CycleBlocks(s: Sys, a: nat, b: nat, c: nat, p: nat)
    requires Inv(s) && a < |s.procs| && b < |s.procs| && c < |s.procs| && p < |s.procs|
    requires s.procs[a].pc == LateJob && s.procs[b].pc == JobWaitExclusive && s.procs[c].pc == ServeWaitOutcome
    requires InCycle(s.procs[p].pc)
    ensures Blocked(s, p)
  {
    assert LocalOk(s.procs[a]) && LocalOk(s.procs[b]) && LocalOk(s.procs[c]);
    match s.procs[p].pc
    case LateJob => assert !Compatible(Shared, s.procs[b].Get(Job).kernel);
    case JobWaitExclusive => assert !Compatible(Exclusive, s.procs[c].Get(Activity).kernel);
    case ServeWaitOutcome => assert !Compatible(Exclusive, s.procs[a].Get(Outcome).kernel);
  }

  lemma CycleNeedsThree(s: Sys)
    requires WaitCycle(s)
    ensures |s.procs| >= 3
  {
    var a :| 0 <= a < |s.procs| && s.procs[a].pc == LateJob;
    var b :| 0 <= b < |s.procs| && s.procs[b].pc == JobWaitExclusive;
    var c :| 0 <= c < |s.procs| && s.procs[c].pc == ServeWaitOutcome;
    assert a != b && b != c && a != c;
  }

  /** At most two processes never get stuck. */
  lemma TwoProcessesNeverStuck(s: Sys)
    requires Reachable(s) && |s.procs| <= 2
    ensures !Stuck(s)
  {
    if Stuck(s) {
      StuckIsExactlyTheCycle(s);
      CycleNeedsThree(s);
    }
  }

  lemma CycleMemberCannotMove(s: Sys, a: nat, b: nat, c: nat, p: nat, m: Move)
    requires Reachable(s) && a < |s.procs| && b < |s.procs| && c < |s.procs|
    requires s.procs[a].pc == LateJob && s.procs[b].pc == JobWaitExclusive && s.procs[c].pc == ServeWaitOutcome
    requires (p == a || p == b || p == c) && Plain(m)
    ensures Step(s, p, m) == None
  {
    ReachableInv(s);
    CycleBlocks(s, a, b, c, p);
    BlockedMeansNoMove(s, p);
  }

  /** A cycle never resolves by itself: whatever the processes do short of raising, the same three
      keep waiting. */
  lemma {:induction false} CycleIsPermanent(s: Sys, a: nat, b: nat, c: nat, run: Run)
    requires Reachable(s) && a < |s.procs| && b < |s.procs| && c < |s.procs|
    requires s.procs[a].pc == LateJob && s.procs[b].pc == JobWaitExclusive && s.procs[c].pc == ServeWaitOutcome
    requires Exec(s, run).Some? && forall i :: 0 <= i < |run| ==> Plain(run[i].1)
    ensures var t := Exec(s, run).value;
            && |t.procs| == |s.procs|
            && t.procs[a] == s.procs[a] && t.procs[b] == s.procs[b] && t.procs[c] == s.procs[c]
    decreases |run|
  {
    if run != [] {
      var (p, m) := run[0];
      if p == a || p == b || p == c {
        CycleMemberCannotMove(s, a, b, c, p, m);
      }
      ReachableStep(s, p, m);
      CycleIsPermanent(Step(s, p, m).value, a, b, c, run[1..]);
    }
  }

  // ---------------------------------------------------------------- getting out

  /** The move that brings a process nearer to the end of its `with` block. */
  function PlainMove(pc: Pc): Move {
    match pc
    case Inside => Leave
    case Working => Store(0)
    case _ => Run
  }

  /** An upper bound on the moves left before the process is out. */
  function Rank(pc: Pc): nat {
    match pc
    case Outside => 0
    case CleanGetJob => 1
    case CleanJob => 2
    case CleanActivity => 3
    case CleanOutcome => 4
    case ExitCheck => 5
    case Inside => 6
    case EnterDone | GiveUp | ServeDropOutcome => 7
    case EnterDropGetJob | LateDropJob | ServeWaitOutcome | Unexpected => 8
    case EnterDropJob | LateActivity | ServeDropJob => 9
    case EnterActivity | LateJob | PickleReplaced | DroppingMeta => 10
    case LateOutcome | Working => 11
    case LateDropGetJob | JobWaitShared => 12
    case EnterTryJob | JobBeginShared => 13
    case EnterGetJob | JobWaitExclusive => 14
    case JobBeginExclusive => 15
    case JobDropGetJob => 16
    case JobTryJob => 17
    case JobGetJob => 18
    case JobDropOutcome => 19
  }

  lemma EnterLowersRank(pr: Proc, granted: bool)
    requires InEnter(pr.pc) && Effect(pr, Code(pr.pc), granted).Some?
    ensures Rank(Effect(pr, Code(pr.pc), granted).value.pc) < Rank(pr.pc)
  {
  }

  lemma BodyLowersRank(pr: Proc, granted: bool)
    requires InBody(pr.pc) && Effect(pr, Code(pr.pc), granted).Some?
    ensures Rank(Effect(pr, Code(pr.pc), granted).value.pc) < Rank(pr.pc)
  {
  }

  lemma CleanLowersRank(pr: Proc, granted: bool)
    requires !InEnter(pr.pc) && !InBody(pr.pc) && Effect(pr, Code(pr.pc), granted).Some?
    ensures Rank(Effect(pr, Code(pr.pc), granted).value.pc) < Rank(pr.pc)
  {
  }

  lemma PlainMoveLowersRank(pr: Proc, granted: bool)
    requires pr.pc != Outside && LocalStep(pr, PlainMove(pr.pc), granted).Some?
    ensures Rank(LocalStep(pr, PlainMove(pr.pc), granted).value.pc) < Rank(pr.pc)
  {
    if InEnter(pr.pc) {
      EnterLowersRank(pr, granted);
    } else if pr.pc != Inside && pr.pc != Working {
      if InBody(pr.pc) {
        BodyLowersRank(pr, granted);
      } else {
        CleanLowersRank(pr, granted);
      }
    }
  }

  function Total(procs: seq<Proc>): nat {
    if procs == [] then 0 else Rank(procs[0].pc) + Total(procs[1..])
  }

  lemma {:induction false} TotalUpdate(procs: seq<Proc>, p: nat, pr: Proc)
    requires p < |procs|
    ensures Total(procs[p := pr]) + Rank(procs[p].pc) == Total(procs) + Rank(pr.pc)
  {
    if p > 0 {
      TotalUpdate(procs[1..], p - 1, pr);
      assert procs[p := pr][1..] == procs[1..][p - 1 := pr];
    } else {
      assert procs[p := pr][1..] == procs[1..];
    }
  }

  /** A process that is not blocked can make its plain move, and the total goes down. */
  lemma PlainMoveAdvances(s: Sys, p: nat)
    requires p < |s.procs| && Engaged(s, p) && !Blocked(s, p)
    ensures var m := PlainMove(s.procs[p].pc);
            && Plain(m)
            && Step(s, p, m).Some?
            && |Step(s, p, m).value.procs| == |s.procs|
            && Total(Step(s, p, m).value.procs) < Total(s.procs)
  {
    var m := PlainMove(s.procs[p].pc);
    PlainMoveLowersRank(s.procs[p], Granted(s, p));
    TotalUpdate(s.procs, p, Step(s, p, m).value.procs[p]);
  }

  ghost predicate AllOutside(s: Sys) {
    forall p :: 0 <= p < |s.procs| ==> !Engaged(s, p)
  }

  /** From every reachable state some run without exceptions takes all processes out of the `with`
      block, or into the wait cycle. */
  lemma {:induction false} SomeRunEnds(s: Sys) returns (run: Run)
    requires Reachable(s)
    ensures forall i :: 0 <= i < |run| ==> Plain(run[i].1)
    ensures Exec(s, run).Some?
    ensures var t := Exec(s, run).value; |t.procs| == |s.procs| && Reachable(t) && (AllOutside(t) || Stuck(t))
    decreases Total(s.procs)
  {
    if AllOutside(s) || Stuck(s) {
      return [];
    }
    var p :| 0 <= p < |s.procs| && Engaged(s, p) && !Blocked(s, p);
    var m := PlainMove(s.procs[p].pc);
    PlainMoveAdvances(s, p);
    ReachableStep(s, p, m);
    var rest := SomeRunEnds(Step(s, p, m).value);
    run := [(p, m)] + rest;
    assert run[1..] == rest;
  }

  /** With at most two processes every reachable state can be left by everybody. */
  lemma TwoProcessesCanAlwaysFinish(s: Sys) returns (run: Run)
    requires Reachable(s) && |s.procs| <= 2
    ensures Exec(s, run).Some? && AllOutside(Exec(s, run).value)
    ensures forall i :: 0 <= i < |run| ==> Plain(run[i].1)
  {
    run := SomeRunEnds(s);
    TwoProcessesNeverStuck(Exec(s, run).value);
  }

  // ---------------------------------------------------------------- exceptions

  /** The kinds of exceptions: an ordinary one, one while storing, and one while the metadata file is being
      removed because of the former. */
  predicate Exceptional(m: Move) {
    m == Raise || m == StoreRaises || m == UnlinkRaises
  }

  /** An exception may strike at every place but outside, after an exception has begun to propagate, and in the
      final release of the locks. */
  lemma {:induction false} RaisesExactly(s: Sys, p: nat)
    requires p < |s.procs|
    ensures (exists m :: Exceptional(m) && Step(s, p, m).Some?)
            <==> match s.procs[p].pc
                 case Outside | Unexpected | ExitCheck => false
                 case CleanOutcome | CleanActivity | CleanJob | CleanGetJob => false
                 case _ => true
    ensures Step(s, p, StoreRaises).Some? <==> s.procs[p].pc == Working
  {
    if s.procs[p].pc == DroppingMeta {
      assert Exceptional(UnlinkRaises) && Step(s, p, UnlinkRaises).Some?;
    } else {
      assert Exceptional(Raise);
    }
  }

  /** The next `k` steps of process `p` alone. */
  function Alone(p: nat, k: nat): Run {
    if k == 0 then [] else [(p, Run)] + Alone(p, k - 1)
  }

  lemma {:induction false} AloneSteps(s: Sys, p: nat, k: nat, t: Sys)
    requires p < |s.procs| && Step(s, p, Run) == Some(t)
    ensures Exec(s, Alone(p, k + 1)) == Exec(t, Alone(p, k))
  {
    assert Alone(p, k + 1)[1..] == Alone(p, k);
  }

  /** How many steps take a process that unwinds out of the `with` block. */
  function Unwinding(pc: Pc): nat {
    match pc
    case DroppingMeta => 6
    case ExitCheck => 5
    case CleanOutcome => 4
    case CleanActivity => 3
    case CleanJob => 2
    case CleanGetJob => 1
    case _ => 0
  }

  /** A process outside, with no lock. */
  function Gone(pr: Proc): Proc {
    Proc(Outside, Nothing, Nothing, Nothing, Nothing, pr.ver)
  }

  /** The locks that an unwinding process has given back already. */
  ghost predicate GivenBack(pr: Proc) {
    && (pr.pc.CleanActivity? || pr.pc.CleanJob? || pr.pc.CleanGetJob? ==> pr.outcome == Nothing)
    && (pr.pc.CleanJob? || pr.pc.CleanGetJob? ==> pr.activity == Nothing)
    && (pr.pc.CleanGetJob? ==> pr.job == Nothing)
  }

  lemma {:induction false} UnwindLocally(pr: Proc, granted: bool)
    requires Unwinding(pr.pc) > 0 && GivenBack(pr)
    ensures LocalStep(pr, Run, granted).Some?
    ensures var pr' := LocalStep(pr, Run, granted).value;
            && GivenBack(pr') && Unwinding(pr'.pc) + 1 == Unwinding(pr.pc) && pr'.ver == pr.ver
            && (Unwinding(pr'.pc) == 0 ==> pr' == Gone(pr))
  {
  }

  lemma {:induction false} UnwindStep(s: Sys, p: nat)
    requires p < |s.procs| && Unwinding(s.procs[p].pc) > 0 && GivenBack(s.procs[p])
    ensures Step(s, p, Run).Some?
    ensures var u := Step(s, p, Run).value;
            && |u.procs| == |s.procs| && GivenBack(u.procs[p])
            && Unwinding(u.procs[p].pc) + 1 == Unwinding(s.procs[p].pc)
            && (Unwinding(u.procs[p].pc) == 0 ==> u.procs[p] == Gone(s.procs[p]))
            && u == (if s.procs[p].pc == DroppingMeta then s.(meta := None) else s).(procs := s.procs[p := u.procs[p]])
            && u.procs[p].ver == s.procs[p].ver
  {
    UnwindLocally(s.procs[p], Granted(s, p));
  }

  lemma {:induction false} UnwindsAlone(s: Sys, p: nat)
    requires p < |s.procs| && Unwinding(s.procs[p].pc) > 0 && GivenBack(s.procs[p])
    ensures var t := if s.procs[p].pc == DroppingMeta then s.(meta := None) else s;
            Exec(s, Alone(p, Unwinding(s.procs[p].pc))) == Some(t.(procs := s.procs[p := Gone(s.procs[p])]))
    decreases Unwinding(s.procs[p].pc)
  {
    UnwindStep(s, p);
    var u, k := Step(s, p, Run).value, Unwinding(s.procs[p].pc) - 1;
    AloneSteps(s, p, k, u);
    if k > 0 {
      UnwindsAlone(u, p);
    }
    assert s.procs[p := u.procs[p]][p := Gone(s.procs[p])] == s.procs[p := Gone(s.procs[p])];
  }

  /** Whatever exception strikes, and wherever: the process needs nobody else to leave the `with` block without
      any lock, in at most six steps; no other process is touched; and of the files only the metadata file is,
      which is removed exactly when the exception came while storing. */
  lemma {:induction false} ExceptionFreesEverything(s: Sys, p: nat, m: Move)
    requires p < |s.procs| && Exceptional(m) && Step(s, p, m).Some?
    ensures var u := Step(s, p, m).value;
            var t := Exec(u, Alone(p, Unwinding(u.procs[p].pc)));
            && 4 <= Unwinding(u.procs[p].pc) <= 6
            && t.Some? && t.value.procs == s.procs[p := Gone(s.procs[p])]
            && t.value.pickle == s.pickle
            && t.value.meta == (if m == StoreRaises || s.procs[p].pc == PickleReplaced then None else s.meta)
  {
    var u := Step(s, p, m).value;
    RaiseBeginsUnwinding(s.procs[p], m, Granted(s, p));
    UnwindsAlone(u, p);
    assert s.procs[p := u.procs[p]][p := Gone(s.procs[p])] == s.procs[p := Gone(s.procs[p])];
  }

  lemma {:induction false} RaiseBeginsUnwinding(pr: Proc, m: Move, granted: bool)
    requires Exceptional(m) && LocalStep(pr, m, granted).Some?
    ensures var pr' := LocalStep(pr, m, granted).value;
            && pr' == pr.(pc := pr'.pc) && GivenBack(pr')
            && (pr'.pc == DroppingMeta <==> m == StoreRaises || pr.pc == PickleReplaced)
            && (pr'.pc == DroppingMeta || pr'.pc == ExitCheck || pr'.pc == CleanOutcome)
  {
  }
}
