/** The wait cycle is reachable as soon as there are three processes. */
module PrefetchDeadlock {
  import opened Options
  import opened FileLocks
  import opened PrefetchSynchronizer

  const Sh := View(Shared, Shared)
  const Ex := View(Exclusive, Exclusive)

  function At(pc: Pc, getJob: View, job: View, activity: View, outcome: View): Proc {
    Proc(pc, getJob, job, activity, outcome, 0)
  }

  const Idle := At(Outside, Nothing, Nothing, Nothing, Nothing)
  const Reading := At(Inside, Nothing, Nothing, Sh, Nothing)
  const AtWork := At(Working, Nothing, Ex, Sh, Nothing)
  const Serving := At(ServeWaitOutcome, Nothing, Nothing, Sh, Nothing)
  const Late := At(LateJob, Nothing, Nothing, Nothing, Sh)
  const Switching := At(JobWaitExclusive, Nothing, Ex, View(Free, Shared), Nothing)

  /** Three named processes; all others stay outside. */
  function Trio(n: nat, a: Proc, b: Proc, c: Proc, disk: Option<nat>): Sys
    requires n >= 3
  {
    Sys([a, b, c] + seq(n - 3, _ => Idle), disk, disk, false)
  }

  /** Does the kernel grant process `a` what it asks for, in view of `b` and `c`? */
  predicate Allowed(a: Proc, b: Proc, c: Proc) {
    var i := Code(a.pc);
    Asks(i) ==>
      && Compatible(i.want, b.Get(i.lock).kernel)
      && Compatible(i.want, c.Get(i.lock).kernel)
  }

  lemma GrantedInTrio(n: nat, a: Proc, b: Proc, c: Proc, disk: Option<nat>)
    requires n >= 3
    ensures Granted(Trio(n, a, b, c, disk), 0) == Allowed(a, b, c)
    ensures Granted(Trio(n, a, b, c, disk), 1) == Allowed(b, a, c)
    ensures Granted(Trio(n, a, b, c, disk), 2) == Allowed(c, a, b)
  {
    var s := Trio(n, a, b, c, disk);
    assert s.procs[0] == a && s.procs[1] == b && s.procs[2] == c;
    forall q, l: Lock, want | 3 <= q < |s.procs|
      ensures Compatible(want, s.procs[q].Get(l).kernel)
    {
      assert s.procs[q] == Idle;
    }
    if Granted(s, 0) {
      assert Allowed(a, b, c);
    }
    if Granted(s, 1) {
      assert Allowed(b, a, c);
    }
    if Granted(s, 2) {
      assert Allowed(c, a, b);
    }
  }

  /** A process that enters, goes for the job, and raises nothing. */
  function Plan(pc: Pc): Move {
    match pc
    case Outside => Enter
    case Inside => Designate
    case _ => Run
  }

  function Next(a: Proc, b: Proc, c: Proc): Option<Proc> {
    if a.pc == PickleReplaced || a.pc == DroppingMeta then None
    else LocalStep(a, Plan(a.pc), Allowed(a, b, c))
  }

  function Iterate<T>(f: T -> Option<T>, x: T, k: nat): Option<T>
    decreases k
  {
    if k == 0 then Some(x)
    else
      match f(x)
      case None => None
      case Some(y) => Iterate(f, y, k - 1)
  }

  lemma {:induction false} IterateAdds<T>(f: T -> Option<T>, x: T, j: nat, k: nat)
    requires Iterate(f, x, j).Some?
    ensures Iterate(f, x, j + k) == Iterate(f, Iterate(f, x, j).value, k)
    decreases j
  {
    if j > 0 {
      IterateAdds(f, f(x).value, j - 1, k);
    }
  }

  /** `k` steps of a process while two others stand still. */
  function Drive(a: Proc, b: Proc, c: Proc, k: nat): Option<Proc> {
    Iterate(x => Next(x, b, c), a, k)
  }

  lemma DriveAdds(a: Proc, b: Proc, c: Proc, j: nat, k: nat)
    requires Drive(a, b, c, j).Some?
    ensures Drive(a, b, c, j + k) == Drive(Drive(a, b, c, j).value, b, c, k)
  {
    IterateAdds(x => Next(x, b, c), a, j, k);
  }

  lemma FirstOnce(n: nat, a: Proc, b: Proc, c: Proc, disk: Option<nat>)
    requires n >= 3 && Next(a, b, c).Some?
    ensures Step(Trio(n, a, b, c, disk), 0, Plan(a.pc)) == Some(Trio(n, Next(a, b, c).value, b, c, disk))
  {
    var s := Trio(n, a, b, c, disk);
    GrantedInTrio(n, a, b, c, disk);
    assert s.procs[0] == a;
    assert s.procs[0 := Next(a, b, c).value] == Trio(n, Next(a, b, c).value, b, c, disk).procs;
  }

  lemma {:induction false} First(n: nat, a: Proc, b: Proc, c: Proc, disk: Option<nat>, k: nat)
    requires n >= 3 && Reachable(Trio(n, a, b, c, disk)) && Drive(a, b, c, k).Some?
    ensures Reachable(Trio(n, Drive(a, b, c, k).value, b, c, disk))
    decreases k
  {
    if k > 0 {
      FirstOnce(n, a, b, c, disk);
      ReachableStep(Trio(n, a, b, c, disk), 0, Plan(a.pc));
      First(n, Next(a, b, c).value, b, c, disk, k - 1);
    }
  }

  lemma SecondOnce(n: nat, a: Proc, b: Proc, c: Proc, disk: Option<nat>)
    requires n >= 3 && Next(b, a, c).Some?
    ensures Step(Trio(n, a, b, c, disk), 1, Plan(b.pc)) == Some(Trio(n, a, Next(b, a, c).value, c, disk))
  {
    var s := Trio(n, a, b, c, disk);
    GrantedInTrio(n, a, b, c, disk);
    assert s.procs[1] == b;
    assert s.procs[1 := Next(b, a, c).value] == Trio(n, a, Next(b, a, c).value, c, disk).procs;
  }

  lemma {:induction false} Second(n: nat, a: Proc, b: Proc, c: Proc, disk: Option<nat>, k: nat)
    requires n >= 3 && Reachable(Trio(n, a, b, c, disk)) && Drive(b, a, c, k).Some?
    ensures Reachable(Trio(n, a, Drive(b, a, c, k).value, c, disk))
    decreases k
  {
    if k > 0 {
      SecondOnce(n, a, b, c, disk);
      ReachableStep(Trio(n, a, b, c, disk), 1, Plan(b.pc));
      Second(n, a, Next(b, a, c).value, c, disk, k - 1);
    }
  }

  lemma ThirdOnce(n: nat, a: Proc, b: Proc, c: Proc, disk: Option<nat>)
    requires n >= 3 && Next(c, a, b).Some?
    ensures Step(Trio(n, a, b, c, disk), 2, Plan(c.pc)) == Some(Trio(n, a, b, Next(c, a, b).value, disk))
  {
    var s := Trio(n, a, b, c, disk);
    GrantedInTrio(n, a, b, c, disk);
    assert s.procs[2] == c;
    assert s.procs[2 := Next(c, a, b).value] == Trio(n, a, b, Next(c, a, b).value, disk).procs;
  }

  lemma {:induction false} Third(n: nat, a: Proc, b: Proc, c: Proc, disk: Option<nat>, k: nat)
    requires n >= 3 && Reachable(Trio(n, a, b, c, disk)) && Drive(c, a, b, k).Some?
    ensures Reachable(Trio(n, a, b, Drive(c, a, b, k).value, disk))
    decreases k
  {
    if k > 0 {
      ThirdOnce(n, a, b, c, disk);
      ReachableStep(Trio(n, a, b, c, disk), 2, Plan(c.pc));
      Third(n, a, b, Next(c, a, b).value, disk, k - 1);
    }
  }

  const Trying := At(EnterTryJob, Sh, Nothing, Nothing, Nothing)
  const Entering := At(EnterDropJob, Sh, Sh, Sh, Nothing)

  predicate AllowsEntering(b: Proc) {
    b.getJob.kernel != Exclusive && b.job.kernel != Exclusive && b.activity.kernel != Exclusive
  }

  lemma DriveTrying(b: Proc, c: Proc)
    requires b.getJob.kernel != Exclusive && c.getJob.kernel != Exclusive
    ensures Drive(Idle, b, c, 2) == Some(Trying)
  {
  }

  lemma DriveEntering(b: Proc, c: Proc)
    requires AllowsEntering(b) && AllowsEntering(c)
    ensures Drive(Trying, b, c, 2) == Some(Entering)
  {
  }

  lemma DriveEntered(b: Proc, c: Proc)
    ensures Drive(Entering, b, c, 3) == Some(Reading)
  {
  }

  /** A process nobody keeps from JOB reaches the body in 7 steps. */
  lemma DriveInside(b: Proc, c: Proc)
    requires AllowsEntering(b) && AllowsEntering(c)
    ensures Drive(Idle, b, c, 7) == Some(Reading)
  {
    assert Drive(Idle, b, c, 4) == Some(Entering) by {
      DriveTrying(b, c);
      DriveEntering(b, c);
      DriveAdds(Idle, b, c, 2, 2);
    }
    assert Drive(Idle, b, c, 7) == Some(Reading) by {
      DriveEntered(b, c);
      DriveAdds(Idle, b, c, 4, 3);
    }
  }

  const NoOutcome := At(JobGetJob, Nothing, Nothing, Sh, Nothing)
  const JobTaken := At(JobDropGetJob, Ex, Ex, Sh, Nothing)

  predicate HoldsNoJob(b: Proc) {
    b.getJob.kernel == Free && b.job.kernel == Free
  }

  lemma DriveNoOutcome(b: Proc, c: Proc)
    ensures Drive(Reading, b, c, 2) == Some(NoOutcome)
  {
  }

  lemma DriveJobTaken(b: Proc, c: Proc)
    requires HoldsNoJob(b) && HoldsNoJob(c)
    ensures Drive(NoOutcome, b, c, 2) == Some(JobTaken)
  {
  }

  lemma DriveDropGetJob(b: Proc, c: Proc)
    ensures Drive(JobTaken, b, c, 2) == Some(Switching)
  {
  }

  /** From the body a process gets the job in 6 steps when nobody holds GETJOB or JOB. */
  lemma DriveSwitching(b: Proc, c: Proc)
    requires HoldsNoJob(b) && HoldsNoJob(c)
    ensures Drive(Reading, b, c, 6) == Some(Switching)
  {
    assert Drive(Reading, b, c, 4) == Some(JobTaken) by {
      DriveNoOutcome(b, c);
      DriveJobTaken(b, c);
      DriveAdds(Reading, b, c, 2, 2);
    }
    assert Drive(Reading, b, c, 6) == Some(Switching) by {
      DriveDropGetJob(b, c);
      DriveAdds(Reading, b, c, 4, 2);
    }
  }

  const Alone := At(JobBeginShared, Nothing, Ex, Ex, Nothing)

  lemma DriveAlone()
    ensures Drive(Switching, Idle, Idle, 1) == Some(Alone)
  {
  }

  lemma DriveShared()
    ensures Drive(Alone, Idle, Idle, 2) == Some(AtWork)
  {
  }

  lemma DriveToWork()
    ensures Drive(Switching, Idle, Idle, 3) == Some(AtWork)
  {
    DriveAlone();
    DriveShared();
    DriveAdds(Switching, Idle, Idle, 1, 2);
  }

  const Shut := At(LateDropGetJob, Sh, Nothing, Nothing, Nothing)

  lemma DriveShut()
    ensures Drive(Trying, AtWork, Idle, 1) == Some(Shut)
  {
  }

  lemma DriveShutLate()
    ensures Drive(Shut, AtWork, Idle, 2) == Some(Late)
  {
  }

  /** While the first one works, the third process takes the late path. */
  lemma DriveLate()
    ensures Drive(Idle, AtWork, Idle, 5) == Some(Late)
  {
    DriveTrying(AtWork, Idle);
    DriveShut();
    DriveAdds(Idle, AtWork, Idle, 2, 1);
    DriveShutLate();
    DriveAdds(Idle, AtWork, Idle, 3, 2);
  }

  lemma NobodyYet(n: nat)
    requires n >= 3
    ensures Reachable(Trio(n, Idle, Idle, Idle, None))
  {
    var s := Trio(n, Idle, Idle, Idle, None);
    forall p | 0 <= p < |s.procs|
      ensures s.procs[p] == Idle
    {
    }
    assert Init(s) && Exec(s, []) == Some(s);
  }

  /** The first process enters, finds nobody, and gets the job. */
  lemma FirstGetsTheJob(n: nat)
    requires n >= 3
    ensures Reachable(Trio(n, AtWork, Idle, Idle, None))
  {
    NobodyYet(n);
    DriveInside(Idle, Idle);
    First(n, Idle, Idle, Idle, None, 7);
    DriveSwitching(Idle, Idle);
    First(n, Reading, Idle, Idle, None, 6);
    DriveToWork();
    First(n, Switching, Idle, Idle, None, 3);
  }

  const Replaced := At(PickleReplaced, Nothing, Ex, Sh, Nothing)
  const Stored := At(ServeDropJob, Nothing, Ex, Sh, Nothing)

  lemma StoreSteps(s: Sys)
    requires |s.procs| > 0 && s.procs[0] == AtWork
    ensures Step(s, 0, Store(0)) == Some(s.(procs := s.procs[0 := Replaced], pickle := Some(0)))
  {
  }

  lemma MetadataSteps(s: Sys)
    requires |s.procs| > 0 && s.procs[0] == Replaced
    ensures Step(s, 0, Run) == Some(s.(procs := s.procs[0 := Stored], meta := Some(0)))
  {
  }

  /** The first process stores what it loaded. */
  lemma FirstStores(n: nat, b: Proc, c: Proc)
    requires n >= 3 && Reachable(Trio(n, AtWork, b, c, None))
    ensures Reachable(Trio(n, Stored, b, c, Some(0)))
  {
    var s := Trio(n, AtWork, b, c, None);
    StoreSteps(s);
    ReachableStep(s, 0, Store(0));
    var t := s.(procs := s.procs[0 := Replaced], pickle := Some(0));
    MetadataSteps(t);
    ReachableStep(t, 0, Run);
    assert t.procs[0 := Stored] == Trio(n, Stored, b, c, Some(0)).procs;
  }

  lemma DriveServing()
    ensures Drive(Stored, Idle, Late, 1) == Some(Serving)
  {
  }

  /** The third process comes late, takes OUTCOME shared, and is held up just there; the first one
      finishes the job and waits for OUTCOME. */
  lemma ThirdIsLateAndFirstServes(n: nat)
    requires n >= 3
    ensures Reachable(Trio(n, Serving, Idle, Late, Some(0)))
  {
    FirstGetsTheJob(n);
    DriveLate();
    Third(n, AtWork, Idle, Idle, None, 5);
    FirstStores(n, Idle, Late);
    DriveServing();
    First(n, Stored, Idle, Late, Some(0), 1);
  }

  /** With three or more processes the system can get stuck. */
  lemma ThreeProcessesCanGetStuck(n: nat)
    requires n >= 3
    ensures var s := Trio(n, Serving, Switching, Late, Some(0));
            Reachable(s) && |s.procs| == n && Stuck(s)
  {
    ThirdIsLateAndFirstServes(n);
    DriveInside(Serving, Late);
    Second(n, Serving, Idle, Late, Some(0), 7);
    DriveSwitching(Serving, Late);
    Second(n, Serving, Reading, Late, Some(0), 6);
    ThatIsStuck(n);
  }

  lemma TrioProcs(n: nat, a: Proc, b: Proc, c: Proc, disk: Option<nat>)
    requires n >= 3
    ensures var s := Trio(n, a, b, c, disk);
            && |s.procs| == n && s.procs[0] == a && s.procs[1] == b && s.procs[2] == c
            && forall p :: 3 <= p < n ==> s.procs[p] == Idle
  {
  }

  lemma ThatIsStuck(n: nat)
    requires n >= 3
    requires Reachable(Trio(n, Serving, Switching, Late, Some(0)))
    ensures Stuck(Trio(n, Serving, Switching, Late, Some(0)))
  {
    var s := Trio(n, Serving, Switching, Late, Some(0));
    TrioProcs(n, Serving, Switching, Late, Some(0));
    StuckIsExactlyTheCycle(s);
  }

  // ---------------------------------------------------------------- the assertion that can fail

  /** The first process alone; all others stay outside. */
  function Lone(n: nat, a: Proc): Sys
    requires n >= 1
  {
    Sys([a] + seq(n - 1, _ => Idle), None, None, false)
  }

  lemma LoneOnce(n: nat, a: Proc)
    requires n >= 1 && Next(a, Idle, Idle).Some?
    ensures Step(Lone(n, a), 0, Plan(a.pc)) == Some(Lone(n, Next(a, Idle, Idle).value))
  {
    var s := Lone(n, a);
    forall q, l: Lock, want | 1 <= q < |s.procs|
      ensures Compatible(want, s.procs[q].Get(l).kernel)
    {
      assert s.procs[q] == Idle;
    }
    assert Granted(s, 0) && Allowed(a, Idle, Idle);
    assert s.procs[0 := Next(a, Idle, Idle).value] == Lone(n, Next(a, Idle, Idle).value).procs;
  }

  lemma {:induction false} LoneRuns(n: nat, a: Proc, k: nat)
    requires n >= 1 && Reachable(Lone(n, a)) && Drive(a, Idle, Idle, k).Some?
    ensures Reachable(Lone(n, Drive(a, Idle, Idle, k).value))
    decreases k
  {
    if k > 0 {
      LoneOnce(n, a);
      ReachableStep(Lone(n, a), 0, Plan(a.pc));
      LoneRuns(n, Next(a, Idle, Idle).value, k - 1);
    }
  }

  const MidSwitch := At(JobWaitShared, Nothing, Ex, View(Free, Exclusive), Nothing)

  lemma DriveMidSwitch()
    ensures Drive(Switching, Idle, Idle, 2) == Some(MidSwitch)
  {
    DriveAlone();
    DriveAdds(Switching, Idle, Idle, 1, 1);
    assert Drive(Alone, Idle, Idle, 1) == Some(MidSwitch);
  }

  lemma LoneReachesMidSwitch(n: nat)
    requires n >= 1
    ensures Reachable(Lone(n, MidSwitch))
  {
    var s := Lone(n, Idle);
    assert forall p | 0 <= p < |s.procs| :: s.procs[p] == Idle;
    assert Init(s) && Exec(s, []) == Some(s);
    DriveInside(Idle, Idle);
    LoneRuns(n, Idle, 7);
    DriveSwitching(Idle, Idle);
    LoneRuns(n, Reading, 6);
    DriveMidSwitch();
    LoneRuns(n, Switching, 2);
  }

  /** A single process can come to `__exit__` with its assertion failing: it gets the job, and an exception
      strikes just after the kernel has dropped ACTIVITY exclusive. */
  lemma ExitAssertionCanFail(n: nat)
    requires n >= 1
    ensures var s, failing := Lone(n, MidSwitch), MidSwitch.(pc := ExitCheck);
            && Reachable(s) && Step(s, 0, Raise) == Some(Lone(n, failing))
            && Reachable(Lone(n, failing)) && !AssertionsHold(failing)
  {
    LoneReachesMidSwitch(n);
    var s, failing := Lone(n, MidSwitch), MidSwitch.(pc := ExitCheck);
    assert s.procs[0 := failing] == Lone(n, failing).procs;
    ReachableStep(s, 0, Raise);
  }
}
