/** The threaded AMQP pusher: any number of threads push items or shut the pusher down, one
    publishing thread takes the items from a bounded queue and hands them on.

    Every step of every thread is one access to the shared state; the steps interleave freely.
 */
module ThreadedPusher {
  import opened Options

  type Item = nat

  /** What lies in the queue: an item, or the sentinel that wakes the publishing thread up. */
  datatype Slot = Sentinel | Data(item: Item)

  /** Where a calling thread is. */
  datatype Pc =
    | Idle
    // push()
    | PushWaitsForLock(item: Item)      // 386
    | PushChecksFlag(item: Item)        // 387
    | PushPuts(item: Item)              // 516
    | PushUnlocks(item: Item, ok: bool)
    // shutdown()
    | CloseWaitsForShutdownLock         // 129
    | CloseWaitsForLock                 // 426
    | CloseClearsFlag                   // 519
    | CloseAsksAlive                    // 520
    | ClosePutsSentinel                 // 523
    | CloseClearsIndicator              // 527
    | CloseJoins                        // 528
    | CloseAsksAliveAgain               // 529
    | CloseReadsIndicator               // 530
    | CloseVerifiesDead                 // 534
    | CloseCountsPending                // 541
    | CloseUnlocks(ok: bool)
    | CloseDropsConnection(ok: bool)    // 137
    | CloseReturns(ok: bool)

  /** Where the publishing thread is. */
  datatype PubPc =
    | ReadsFlag                         // 564, first operand
    | AsksEmpty                         // 564, second operand
    | SetsIndicator                     // 566
    | Gets                              // 567 (waits)
    | Hands(item: Item)                 // 571
    | ClearsFlag                        // 578
    | Ends
    | Dead

  /** What the threads share, and the history of the run. */
  datatype Shared = Shared(
    publishing: bool,                   // the flag
    indicator: bool,
    fifo: seq<Slot>,
    capacity: nat,                      // 0: unbounded
    pushLock: Option<nat>,
    shutdownLock: Option<nat>,
    pub: PubPc,
    crashed: bool,                      // the publishing thread left its loop by an exception
    stopTried: bool,                    // some `_stop_publishing()` is past its sentinel attempt
    verified: bool,                     // some `_check_state_after_stop()` raised nothing
    closed: bool,                       // some `shutdown()` came back without an exception
    log: Log)

  /** The history of the items. */
  datatype Log = Log(
    accepted: seq<Item>,                // put in the queue by `push()`
    returned: seq<Item>,                // those whose `push()` came back
    owed: seq<Item>,                    // the one put by a `push()` that is about to come back
    handled: seq<Item>)                 // handed to `_handle_data()`

  datatype Sys = Sys(threads: seq<Pc>, sh: Shared)

  datatype Move =
    | Run
    | Push(item: Item)
    | Shutdown
    | Fail            // join times out; closing the connection raises; handing an item kills the thread

  // ---------------------------------------------------------------- steps

  function Items(fifo: seq<Slot>): seq<Item> {
    if fifo == [] then []
    else if fifo[0].Data? then [fifo[0].item] + Items(fifo[1..])
    else Items(fifo[1..])
  }

  predicate Full(sh: Shared) {
    0 < sh.capacity <= |sh.fifo|
  }

  function Put(log: Log, x: Item): Log {
    log.(accepted := log.accepted + [x], owed := [x])
  }

  function Returned(log: Log, x: Item, ok: bool): Log {
    log.(returned := if ok then log.returned + [x] else log.returned, owed := [])
  }

  function Handed(log: Log, x: Item): Log {
    log.(handled := log.handled + [x])
  }

  type Next = Option<(Shared, Pc)>

  /** One step of `push()` in thread `t`. */
  function PushStep(sh: Shared, t: nat, pc: Pc): Next {
    match pc
    case PushWaitsForLock(x) =>
      if sh.pushLock == None then Some((sh.(pushLock := Some(t)), PushChecksFlag(x))) else None
    case PushChecksFlag(x) => Some((sh, if sh.publishing then PushPuts(x) else PushUnlocks(x, false)))
    case PushPuts(x) =>
      if Full(sh) then Some((sh, PushUnlocks(x, false)))
      else Some((sh.(fifo := sh.fifo + [Data(x)], log := Put(sh.log, x)), PushUnlocks(x, true)))
    case PushUnlocks(x, ok) =>
      Some((sh.(pushLock := None, log := Returned(sh.log, x, ok)), Idle))
    case _ => None
  }

  /** One step of `shutdown()` in thread `t`. */
  function CloseStep(sh: Shared, t: nat, pc: Pc, fails: bool): Next {
    match pc
    case CloseWaitsForShutdownLock =>
      if sh.shutdownLock == None then Some((sh.(shutdownLock := Some(t)), CloseWaitsForLock)) else None
    case CloseWaitsForLock =>
      if sh.pushLock == None then Some((sh.(pushLock := Some(t)), CloseClearsFlag)) else None
    case CloseClearsFlag => Some((sh.(publishing := false), CloseAsksAlive))
    case CloseAsksAlive =>
      if sh.pub != Dead then Some((sh, ClosePutsSentinel))
      else Some((sh.(stopTried := true), CloseClearsIndicator))
    case ClosePutsSentinel =>
      var fifo := if Full(sh) then sh.fifo else sh.fifo + [Sentinel];
      Some((sh.(fifo := fifo, stopTried := true), CloseClearsIndicator))
    case CloseClearsIndicator => Some((sh.(indicator := false), CloseJoins))
    case CloseJoins => if sh.pub == Dead || fails then Some((sh, CloseAsksAliveAgain)) else None
    case CloseAsksAliveAgain => Some((sh, if sh.pub != Dead then CloseReadsIndicator else CloseVerifiesDead))
    case CloseReadsIndicator => Some((sh, if sh.indicator then CloseClearsIndicator else CloseVerifiesDead))
    case CloseVerifiesDead => Some((sh, if sh.pub != Dead then CloseUnlocks(false) else CloseCountsPending))
    case CloseCountsPending =>
      var ok := Items(sh.fifo) == [];
      Some((sh.(verified := sh.verified || ok), CloseUnlocks(ok)))
    case CloseUnlocks(ok) => Some((sh.(pushLock := None), CloseDropsConnection(ok)))
    case CloseDropsConnection(ok) => Some((sh, CloseReturns(ok && !fails)))
    case CloseReturns(ok) => Some((sh.(shutdownLock := None, closed := sh.closed || ok), Idle))
    case _ => None
  }

  /** One step of the publishing thread. */
  function PublisherStep(sh: Shared, fails: bool): Option<Shared> {
    match sh.pub
    case ReadsFlag => Some(sh.(pub := if sh.publishing then SetsIndicator else AsksEmpty))
    case AsksEmpty => Some(sh.(pub := if sh.fifo == [] then ClearsFlag else SetsIndicator))
    case SetsIndicator => Some(sh.(pub := Gets, indicator := true))
    case Gets =>
      if sh.fifo == [] then None
      else Some(sh.(pub := if sh.fifo[0].Data? then Hands(sh.fifo[0].item) else ReadsFlag, fifo := sh.fifo[1..]))
    case Hands(x) =>
      // an `Exception` is reported and swallowed; anything else ends the thread
      Some(sh.(pub := if fails then ClearsFlag else ReadsFlag, log := Handed(sh.log, x), crashed := fails))
    case ClearsFlag => Some(sh.(pub := Ends, publishing := false))
    case Ends => Some(sh.(pub := Dead))
    case Dead => None
  }

  predicate Pushing(pc: Pc) {
    pc.PushWaitsForLock? || pc.PushChecksFlag? || pc.PushPuts? || pc.PushUnlocks?
  }

  /** One step of a calling thread. */
  function CallerStep(sh: Shared, t: nat, pc: Pc, m: Move): Next {
    match m
    case Push(x) => if pc == Idle then Some((sh, PushWaitsForLock(x))) else None
    case Shutdown => if pc == Idle then Some((sh, CloseWaitsForShutdownLock)) else None
    case Run => if Pushing(pc) then PushStep(sh, t, pc) else CloseStep(sh, t, pc, false)
    case Fail => CloseStep(sh, t, pc, true)
  }

  /** One step of calling thread `t`, or of the publishing thread when `t == |threads|`. */
  function Step(s: Sys, t: nat, m: Move): Option<Sys>
    requires t <= |s.threads|
  {
    if t == |s.threads| then
      if m != Run && m != Fail then None
      else
        match PublisherStep(s.sh, m == Fail)
        case None => None
        case Some(sh) => Some(Sys(s.threads, sh))
    else
      match CallerStep(s.sh, t, s.threads[t], m)
      case None => None
      case Some((sh, pc)) => Some(Sys(s.threads[t := pc], sh))
  }

  /** The pusher right after its publishing thread has started. */
  ghost predicate Init(s: Sys) {
    && (forall t :: 0 <= t < |s.threads| ==> s.threads[t] == Idle)
    && s.sh == Shared(true, false, [], s.sh.capacity, None, None, ReadsFlag, false, false, false, false,
                      Log([], [], [], []))
  }

  function Exec(s: Sys, run: seq<(nat, Move)>): Option<Sys>
    decreases |run|
  {
    if run == [] then Some(s)
    else if run[0].0 > |s.threads| then None
    else
      match Step(s, run[0].0, run[0].1)
      case None => None
      case Some(u) => Exec(u, run[1..])
  }

  ghost predicate Reachable(s: Sys) {
    exists start: Sys, run :: Init(start) && Exec(start, run) == Some(s)
  }

  // ---------------------------------------------------------------- invariant

  predicate HoldsPushLock(pc: Pc) {
    || pc.PushChecksFlag? || pc.PushPuts? || pc.PushUnlocks?
    || pc.CloseClearsFlag? || pc.CloseAsksAlive? || pc.ClosePutsSentinel? || pc.CloseClearsIndicator?
    || pc.CloseJoins? || pc.CloseAsksAliveAgain? || pc.CloseReadsIndicator? || pc.CloseVerifiesDead?
    || pc.CloseCountsPending? || pc.CloseUnlocks?
  }

  predicate HoldsShutdownLock(pc: Pc) {
    || pc.CloseWaitsForLock? || (HoldsPushLock(pc) && !Pushing(pc))
    || pc.CloseDropsConnection? || pc.CloseReturns?
  }

  /** The item taken from the queue and not handed on yet. */
  function InHand(pub: PubPc): seq<Item> {
    if pub.Hands? then [pub.item] else []
  }

  predicate InLoop(pub: PubPc) {
    !pub.ClearsFlag? && !pub.Ends? && !pub.Dead?
  }

  /** Nothing is lost, duplicated or reordered. */
  ghost predicate Conserved(sh: Shared) {
    && sh.log.accepted == sh.log.handled + InHand(sh.pub) + Items(sh.fifo)
    && sh.log.accepted == sh.log.returned + sh.log.owed
  }

  ghost predicate SharedOk(sh: Shared) {
    Conserved(sh) && PhaseOk(sh) && WithinCapacity(sh)
  }

  ghost predicate PhaseOk(sh: Shared) {
    && (sh.pushLock == None ==> sh.log.owed == [])
    && (sh.crashed ==> !InLoop(sh.pub))
    && (sh.pub.AsksEmpty? || sh.pub.Ends? || sh.pub.Dead? ==> !sh.publishing)
    // a loop that ended by its own condition left nothing behind
    && (!InLoop(sh.pub) && !sh.crashed ==> !sh.publishing && Items(sh.fifo) == [])
    && (sh.stopTried ==> !sh.publishing)
    && (sh.stopTried && (sh.pub.SetsIndicator? || sh.pub.Gets?) ==> sh.fifo != [])
    && (sh.verified ==> sh.pub == Dead && Items(sh.fifo) == [])
    && (sh.verified || (!sh.publishing && !sh.crashed) ==> sh.log.owed == [])
    && (sh.closed ==> sh.verified)
  }

  /** The queue never holds more than it may. */
  predicate WithinCapacity(sh: Shared) {
    sh.capacity == 0 || |sh.fifo| <= sh.capacity
  }

  /** The flag is down while a closing thread is between clearing it and giving the lock back. */
  predicate PastClearing(pc: Pc) {
    HoldsPushLock(pc) && !Pushing(pc) && !pc.CloseClearsFlag?
  }

  /** What calling thread `t`, being at `pc`, relies on. */
  ghost predicate CallerOk(sh: Shared, t: nat, pc: Pc) {
    && (HoldsPushLock(pc) <==> sh.pushLock == Some(t))
    && (HoldsShutdownLock(pc) <==> sh.shutdownLock == Some(t))
    && (HoldsPushLock(pc) ==> sh.log.owed == if pc.PushUnlocks? && pc.ok then [pc.item] else [])
    // only a crash of the publishing thread can clear the flag behind a pushing thread's back
    && (pc.PushPuts? ==> sh.publishing || sh.crashed)
    && (pc.PushPuts? ==> !sh.verified)
    && (PastClearing(pc) ==> !sh.publishing)
    && (pc.CloseCountsPending? ==> sh.pub == Dead)
    && ((pc.CloseUnlocks? || pc.CloseDropsConnection? || pc.CloseReturns?) && pc.ok ==> sh.verified)
  }

  /** The locks are held by calling threads. */
  ghost predicate LocksOk(sh: Shared, n: nat) {
    && (sh.pushLock.Some? ==> sh.pushLock.value < n)
    && (sh.shutdownLock.Some? ==> sh.shutdownLock.value < n)
  }

  ghost predicate Inv(s: Sys) {
    && SharedOk(s.sh)
    && LocksOk(s.sh, |s.threads|)
    && forall t :: 0 <= t < |s.threads| ==> CallerOk(s.sh, t, s.threads[t])
  }

  lemma {:induction false} ItemsAppend(a: seq<Slot>, b: seq<Slot>)
    ensures Items(a + b) == Items(a) + Items(b)
  {
    if a == [] {
      assert a + b == b;
    } else {
      ItemsAppend(a[1..], b);
      assert (a + b)[1..] == a[1..] + b;
    }
  }

  lemma PutKeepsItems(sh: Shared, x: Item)
    requires Conserved(sh) && sh.log.owed == []
    ensures Conserved(sh.(fifo := sh.fifo + [Data(x)], log := Put(sh.log, x)))
  {
    ItemsAppend(sh.fifo, [Data(x)]);
    assert Items([Data(x)]) == [x];
  }

  lemma PushKeepsItems(sh: Shared, t: nat, pc: Pc)
    requires SharedOk(sh) && CallerOk(sh, t, pc) && PushStep(sh, t, pc).Some?
    ensures Conserved(PushStep(sh, t, pc).value.0)
  {
    if pc.PushPuts? {
      PutKeepsItems(sh, pc.item);
    }
  }

  lemma PushKeepsPhase(sh: Shared, t: nat, pc: Pc)
    requires SharedOk(sh) && CallerOk(sh, t, pc) && PushStep(sh, t, pc).Some?
    ensures PhaseOk(PushStep(sh, t, pc).value.0)
  {
  }

  lemma CloseKeepsShared(sh: Shared, t: nat, pc: Pc, fails: bool)
    requires SharedOk(sh) && CallerOk(sh, t, pc) && CloseStep(sh, t, pc, fails).Some?
    ensures SharedOk(CloseStep(sh, t, pc, fails).value.0)
  {
    if pc.ClosePutsSentinel? {
      ItemsAppend(sh.fifo, [Sentinel]);
      assert Items([Sentinel]) == [];
    }
  }

  /** Taking the first slot moves one item from the queue into the hand. */
  lemma GetKeepsItems(handled: seq<Item>, fifo: seq<Slot>)
    requires fifo != []
    ensures handled + [] + Items(fifo)
            == handled + (if fifo[0].Data? then [fifo[0].item] else []) + Items(fifo[1..])
  {
    var hand: seq<Item>, rest := if fifo[0].Data? then [fifo[0].item] else [], Items(fifo[1..]);
    assert Items(fifo) == hand + rest;
    Regroup(handled, hand, rest);
  }

  lemma Regroup(a: seq<Item>, b: seq<Item>, c: seq<Item>)
    ensures a + [] + (b + c) == a + b + c
  {
  }

  lemma GettingKeepsItems(sh: Shared)
    requires Conserved(sh) && sh.pub.Gets? && sh.fifo != []
    ensures Conserved(PublisherStep(sh, false).value)
  {
    GetKeepsItems(sh.log.handled, sh.fifo);
  }

  lemma HandingKeepsItems(sh: Shared, fails: bool)
    requires Conserved(sh) && sh.pub.Hands?
    ensures Conserved(PublisherStep(sh, fails).value)
  {
    assert sh.log.handled + [sh.pub.item] + [] == sh.log.handled + [sh.pub.item];
  }

  /** Taking the first slot and handing the item on each move one item one place to the left. */
  lemma PublisherKeepsItems(sh: Shared, fails: bool)
    requires Conserved(sh) && PublisherStep(sh, fails).Some?
    ensures Conserved(PublisherStep(sh, fails).value)
  {
    if sh.pub.Gets? {
      GettingKeepsItems(sh);
      assert PublisherStep(sh, fails) == PublisherStep(sh, false);
    } else if sh.pub.Hands? {
      HandingKeepsItems(sh, fails);
    } else {
      OtherPublisherStepLogsNothing(sh, fails);
      OtherPublisherStepTakesNothing(sh, fails);
    }
  }

  lemma OtherPublisherStepLogsNothing(sh: Shared, fails: bool)
    requires PublisherStep(sh, fails).Some? && !sh.pub.Hands?
    ensures PublisherStep(sh, fails).value.log == sh.log
  {
  }

  lemma OtherPublisherStepTakesNothing(sh: Shared, fails: bool)
    requires PublisherStep(sh, fails).Some? && !sh.pub.Gets? && !sh.pub.Hands?
    ensures PublisherStep(sh, fails).value.fifo == sh.fifo && !PublisherStep(sh, fails).value.pub.Hands?
  {
  }

  lemma {:induction false} PublisherKeepsCapacity(sh: Shared, fails: bool)
    requires WithinCapacity(sh) && PublisherStep(sh, fails).Some?
    ensures WithinCapacity(PublisherStep(sh, fails).value)
  {
    match sh.pub
    case ReadsFlag =>
    case AsksEmpty =>
    case SetsIndicator =>
    case Gets =>
    case Hands(_) =>
    case ClearsFlag =>
    case Ends =>
  }

  lemma {:induction false} PushKeepsCapacity(sh: Shared, t: nat, pc: Pc)
    requires WithinCapacity(sh) && PushStep(sh, t, pc).Some?
    ensures WithinCapacity(PushStep(sh, t, pc).value.0)
  {
  }

  lemma PublisherKeepsPhase(sh: Shared, fails: bool)
    requires PhaseOk(sh) && PublisherStep(sh, fails).Some?
    ensures PhaseOk(PublisherStep(sh, fails).value)
  {
  }

  lemma PushKeepsItself(sh: Shared, t: nat, pc: Pc)
    requires SharedOk(sh) && CallerOk(sh, t, pc) && PushStep(sh, t, pc).Some?
    ensures var (sh', pc') := PushStep(sh, t, pc).value; CallerOk(sh', t, pc')
  {
  }

  lemma CloseKeepsItself(sh: Shared, t: nat, pc: Pc, fails: bool)
    requires SharedOk(sh) && CallerOk(sh, t, pc) && CloseStep(sh, t, pc, fails).Some?
    ensures var (sh', pc') := CloseStep(sh, t, pc, fails).value; CallerOk(sh', t, pc')
  {
  }

  lemma CallerKeepsItself(sh: Shared, t: nat, pc: Pc, m: Move)
    requires SharedOk(sh) && CallerOk(sh, t, pc) && CallerStep(sh, t, pc, m).Some?
    ensures var (sh', pc') := CallerStep(sh, t, pc, m).value; CallerOk(sh', t, pc')
  {
    if m == Run && Pushing(pc) {
      PushKeepsItself(sh, t, pc);
    } else if m == Run || m == Fail {
      CloseKeepsItself(sh, t, pc, m == Fail);
    }
  }

  /** No caller's step disturbs what another caller relies on. */
  lemma CallerKeepsOther(sh: Shared, t: nat, pc: Pc, m: Move, t': nat, other: Pc)
    requires SharedOk(sh) && CallerOk(sh, t, pc) && CallerStep(sh, t, pc, m).Some?
    requires t' != t && CallerOk(sh, t', other)
    ensures CallerOk(CallerStep(sh, t, pc, m).value.0, t', other)
  {
  }

  lemma {:induction false} PublisherLeavesLocks(sh: Shared, fails: bool)
    requires PublisherStep(sh, fails).Some?
    ensures var sh' := PublisherStep(sh, fails).value;
            sh'.pushLock == sh.pushLock && sh'.shutdownLock == sh.shutdownLock
  {
    match sh.pub
    case ReadsFlag =>
    case AsksEmpty =>
    case SetsIndicator =>
    case Gets =>
    case Hands(_) =>
    case ClearsFlag =>
    case Ends =>
  }

  lemma {:induction false} PublisherLeavesOwed(sh: Shared, fails: bool)
    requires PublisherStep(sh, fails).Some?
    ensures var sh' := PublisherStep(sh, fails).value;
            sh'.log.owed == sh.log.owed && sh'.verified == sh.verified && (sh.pub == Dead ==> sh'.pub == Dead)
  {
    match sh.pub
    case ReadsFlag =>
    case AsksEmpty =>
    case SetsIndicator =>
    case Gets =>
    case Hands(_) =>
    case ClearsFlag =>
    case Ends =>
  }

  /** It clears the flag only after a crash, or when it is down already. */
  lemma {:induction false} PublisherLeavesFlag(sh: Shared, fails: bool)
    requires SharedOk(sh) && PublisherStep(sh, fails).Some?
    ensures var sh' := PublisherStep(sh, fails).value;
            (sh'.publishing ==> sh.publishing) && (sh.publishing || sh.crashed ==> sh'.publishing || sh'.crashed)
  {
  }

  lemma PublisherKeepsCaller(sh: Shared, fails: bool, t: nat, pc: Pc)
    requires SharedOk(sh) && CallerOk(sh, t, pc) && PublisherStep(sh, fails).Some?
    ensures CallerOk(PublisherStep(sh, fails).value, t, pc)
  {
    PublisherLeavesLocks(sh, fails);
    PublisherLeavesOwed(sh, fails);
    PublisherLeavesFlag(sh, fails);
  }

  lemma CallerKeepsLocks(sh: Shared, t: nat, pc: Pc, m: Move, n: nat)
    requires LocksOk(sh, n) && t < n && CallerStep(sh, t, pc, m).Some?
    ensures LocksOk(CallerStep(sh, t, pc, m).value.0, n)
  {
  }

  lemma {:induction false} PublisherKeepsShared(sh: Shared, fails: bool)
    requires SharedOk(sh) && PublisherStep(sh, fails).Some?
    ensures SharedOk(PublisherStep(sh, fails).value)
  {
    PublisherKeepsItems(sh, fails);
    PublisherKeepsPhase(sh, fails);
    PublisherKeepsCapacity(sh, fails);
  }

  lemma {:induction false} CallerKeepsShared(sh: Shared, t: nat, pc: Pc, m: Move)
    requires SharedOk(sh) && CallerOk(sh, t, pc) && CallerStep(sh, t, pc, m).Some?
    ensures SharedOk(CallerStep(sh, t, pc, m).value.0)
  {
    if m == Fail || (m == Run && !Pushing(pc)) {
      CloseKeepsShared(sh, t, pc, m == Fail);
    } else if m == Run {
      PushKeepsItems(sh, t, pc);
      PushKeepsPhase(sh, t, pc);
      PushKeepsCapacity(sh, t, pc);
    }
  }

  lemma {:induction false} PublisherKeepsInv(s: Sys, fails: bool)
    requires Inv(s) && PublisherStep(s.sh, fails).Some?
    ensures Inv(Sys(s.threads, PublisherStep(s.sh, fails).value))
  {
    PublisherKeepsShared(s.sh, fails);
    PublisherLeavesLocks(s.sh, fails);
    forall q | 0 <= q < |s.threads|
      ensures CallerOk(PublisherStep(s.sh, fails).value, q, s.threads[q])
    {
      PublisherKeepsCaller(s.sh, fails, q, s.threads[q]);
    }
  }

  lemma {:induction false} CallerKeepsInv(s: Sys, t: nat, m: Move)
    requires Inv(s) && t < |s.threads| && CallerStep(s.sh, t, s.threads[t], m).Some?
    ensures var (sh, pc) := CallerStep(s.sh, t, s.threads[t], m).value; Inv(Sys(s.threads[t := pc], sh))
  {
    var (sh, pc) := CallerStep(s.sh, t, s.threads[t], m).value;
    CallerKeepsShared(s.sh, t, s.threads[t], m);
    CallerKeepsItself(s.sh, t, s.threads[t], m);
    CallerKeepsLocks(s.sh, t, s.threads[t], m, |s.threads|);
    forall q | 0 <= q < |s.threads| && q != t
      ensures CallerOk(sh, q, s.threads[q])
    {
      CallerKeepsOther(s.sh, t, s.threads[t], m, q, s.threads[q]);
    }
  }

  lemma {:induction false} StepKeepsInv(s: Sys, t: nat, m: Move)
    requires Inv(s) && t <= |s.threads| && Step(s, t, m).Some?
    ensures Inv(Step(s, t, m).value)
  {
    if t == |s.threads| {
      PublisherKeepsInv(s, m == Fail);
    } else {
      CallerKeepsInv(s, t, m);
    }
  }

  lemma {:induction false} RunKeepsInv(s: Sys, run: seq<(nat, Move)>)
    requires Inv(s) && Exec(s, run).Some?
    ensures Inv(Exec(s, run).value)
    decreases |run|
  {
    if run != [] {
      StepKeepsInv(s, run[0].0, run[0].1);
      RunKeepsInv(Step(s, run[0].0, run[0].1).value, run[1..]);
    }
  }

  lemma ReachableInv(s: Sys)
    requires Reachable(s)
    ensures Inv(s)
  {
    var start: Sys, run :| Init(start) && Exec(start, run) == Some(s);
    assert Inv(start);
    RunKeepsInv(start, run);
  }

  // ---------------------------------------------------------------- safety

  lemma NothingLeft(sh: Shared)
    requires Conserved(sh) && InHand(sh.pub) == [] && sh.log.owed == []
    ensures sh.log.handled + Items(sh.fifo) == sh.log.returned == sh.log.accepted
    ensures Items(sh.fifo) == [] ==> sh.log.handled == sh.log.accepted
    ensures sh.log.handled == sh.log.accepted ==> Items(sh.fifo) == []
  {
    assert sh.log.handled + [] + Items(sh.fifo) == sh.log.handled + Items(sh.fifo);
    assert sh.log.returned + [] == sh.log.returned;
    assert sh.log.handled + [] == sh.log.handled;
    assert |sh.log.handled + Items(sh.fifo)| == |sh.log.handled| + |Items(sh.fifo)|;
  }

  /** Items are handed on in the order they were put, each at most once, at every moment. */
  lemma HandedInOrder(s: Sys)
    requires Reachable(s)
    ensures s.sh.log.handled <= s.sh.log.accepted && s.sh.log.returned <= s.sh.log.accepted
  {
    ReachableInv(s);
  }

  /** Once some `shutdown()` has come back without an exception, the items handed on are exactly those
      whose `push()` came back, once each and in order; that holds from then on. */
  lemma ShutdownMeansAllHandled(s: Sys)
    requires Reachable(s) && s.sh.closed
    ensures s.sh.log.handled == s.sh.log.returned == s.sh.log.accepted
    ensures s.sh.pub == Dead && !s.sh.publishing && Items(s.sh.fifo) == []
  {
    ReachableInv(s);
    NothingLeft(s.sh);
  }

  /** At any moment at most one thread is past the lock of `push()` and `_before_close()`, and at most one past
      the lock of `shutdown()`; a thread waits for either lock exactly while another one has it; and the queue
      never holds more than it may. */
  lemma OneAtATime(s: Sys, t: nat, u: nat)
    requires Reachable(s) && t < |s.threads| && u < |s.threads|
    ensures HoldsPushLock(s.threads[t]) && HoldsPushLock(s.threads[u]) ==> t == u
    ensures HoldsShutdownLock(s.threads[t]) && HoldsShutdownLock(s.threads[u]) ==> t == u
    ensures s.threads[t].PushWaitsForLock? || s.threads[t].CloseWaitsForLock? ==>
              (Step(s, t, Run) == None <==> exists q :: 0 <= q < |s.threads| && HoldsPushLock(s.threads[q]))
    ensures s.threads[t].CloseWaitsForShutdownLock? ==>
              (Step(s, t, Run) == None <==> exists q :: 0 <= q < |s.threads| && HoldsShutdownLock(s.threads[q]))
    ensures WithinCapacity(s.sh)
  {
    ReachableInv(s);
    assert CallerOk(s.sh, t, s.threads[t]) && CallerOk(s.sh, u, s.threads[u]);
    HolderExists(s);
  }

  lemma HolderExists(s: Sys)
    requires Inv(s)
    ensures s.sh.pushLock == None <==> !(exists q :: 0 <= q < |s.threads| && HoldsPushLock(s.threads[q]))
    ensures s.sh.shutdownLock == None <==> !(exists q :: 0 <= q < |s.threads| && HoldsShutdownLock(s.threads[q]))
  {
    if s.sh.pushLock.Some? {
      var q := s.sh.pushLock.value;
      assert CallerOk(s.sh, q, s.threads[q]);
    }
    if s.sh.shutdownLock.Some? {
      var q := s.sh.shutdownLock.value;
      assert CallerOk(s.sh, q, s.threads[q]);
    }
    forall q | 0 <= q < |s.threads|
      ensures HoldsPushLock(s.threads[q]) ==> s.sh.pushLock.Some?
      ensures HoldsShutdownLock(s.threads[q]) ==> s.sh.shutdownLock.Some?
    {
      assert CallerOk(s.sh, q, s.threads[q]);
    }
  }

  lemma CallerPutsNothing(sh: Shared, t: nat, pc: Pc, m: Move)
    requires CallerStep(sh, t, pc, m).Some? && !pc.PushPuts?
    ensures CallerStep(sh, t, pc, m).value.0.log.accepted == sh.log.accepted
  {
    if m == Run && Pushing(pc) {
      assert PushStep(sh, t, pc).value.0.log.accepted == sh.log.accepted;
    } else if m == Run || m == Fail {
      CloseAccepts(sh, t, pc, m == Fail);
    }
  }

  lemma {:induction false} CloseAccepts(sh: Shared, t: nat, pc: Pc, fails: bool)
    requires CloseStep(sh, t, pc, fails).Some?
    ensures CloseStep(sh, t, pc, fails).value.0.log == sh.log
  {
    match pc
    case CloseAsksAlive =>
    case ClosePutsSentinel =>
    case CloseCountsPending =>
    case CloseReturns(_) =>
    case _ =>
  }

  /** The argument of the comment in the publishing loop: a loop that ends by its own condition (the
      flag read first, the queue second) has handed on everything ever put, and nothing is put later. */
  lemma LoopEndLosesNothing(s: Sys, t: nat, m: Move)
    requires Reachable(s) && !InLoop(s.sh.pub) && !s.sh.crashed
    ensures s.sh.log.handled == s.sh.log.returned == s.sh.log.accepted
    ensures t <= |s.threads| && Step(s, t, m).Some? ==> Step(s, t, m).value.sh.log.accepted == s.sh.log.accepted
  {
    ReachableInv(s);
    NothingLeft(s.sh);
    if t < |s.threads| && Step(s, t, m).Some? {
      assert CallerOk(s.sh, t, s.threads[t]);
      CallerPutsNothing(s.sh, t, s.threads[t], m);
    }
  }

  /** With the publishing thread dead, the count of what is left passes exactly when all was handed on. */
  lemma CountDecides(s: Sys, t: nat)
    requires Inv(s) && t < |s.threads| && s.threads[t] == CloseCountsPending
    ensures Step(s, t, Run).Some?
    ensures Step(s, t, Run).value.threads[t] == CloseUnlocks(s.sh.log.handled == s.sh.log.returned)
  {
    assert CallerOk(s.sh, t, s.threads[t]);
    NothingLeft(s.sh);
  }

  /** The steps of other threads only. */
  ghost predicate OfOthers(run: seq<(nat, Move)>, t: nat) {
    forall i :: 0 <= i < |run| ==> run[i].0 != t
  }

  /** While thread `t` holds the push lock, nobody else puts anything, and nobody else's push comes
      back; and a dead publishing thread hands nothing on. */
  lemma OthersPutNothing(s: Sys, t: nat, p: nat, m: Move)
    requires Inv(s) && t < |s.threads| && HoldsPushLock(s.threads[t])
    requires p <= |s.threads| && p != t && Step(s, p, m).Some?
    ensures var u := Step(s, p, m).value;
            && |u.threads| == |s.threads| && u.threads[t] == s.threads[t]
            && u.sh.log.accepted == s.sh.log.accepted && u.sh.log.returned == s.sh.log.returned
            && (s.sh.pub == Dead ==> u.sh.pub == Dead && u.sh.log == s.sh.log)
  {
    assert CallerOk(s.sh, t, s.threads[t]);
    if p < |s.threads| {
      assert CallerOk(s.sh, p, s.threads[p]);
      if m == Fail || (m == Run && !Pushing(s.threads[p])) {
        CloseAccepts(s.sh, p, s.threads[p], m == Fail);
      }
    }
  }

  lemma {:induction false} OthersRunWithoutPutting(s: Sys, t: nat, others: seq<(nat, Move)>)
    requires Inv(s) && t < |s.threads| && HoldsPushLock(s.threads[t])
    requires OfOthers(others, t) && Exec(s, others).Some?
    ensures var u := Exec(s, others).value;
            && Inv(u) && |u.threads| == |s.threads| && u.threads[t] == s.threads[t]
            && u.sh.log.accepted == s.sh.log.accepted && u.sh.log.returned == s.sh.log.returned
            && (s.sh.pub == Dead ==> u.sh.pub == Dead && u.sh.log == s.sh.log)
    decreases |others|
  {
    if others != [] {
      StepKeepsInv(s, others[0].0, others[0].1);
      OthersPutNothing(s, t, others[0].0, others[0].1);
      OthersRunWithoutPutting(Step(s, others[0].0, others[0].1).value, t, others[1..]);
    }
  }

  /** The check of `shutdown()`, from its start and with any steps of other threads in between, raises
      nothing if and only if the publishing thread is dead and has handed on all items whose `push()` came back:
      items left in the queue by a dead publishing thread always make it raise. */
  lemma LeftoversMakeShutdownRaise(s: Sys, t: nat, others: seq<(nat, Move)>)
    requires Reachable(s) && t < |s.threads| && s.threads[t] == CloseVerifiesDead && OfOthers(others, t)
    ensures Step(s, t, Run).Some?
    ensures s.sh.pub != Dead ==> Step(s, t, Run).value.threads[t] == CloseUnlocks(false)
    ensures s.sh.pub == Dead && Exec(Step(s, t, Run).value, others).Some? ==>
              var u := Exec(Step(s, t, Run).value, others).value;
              && t < |u.threads| && Step(u, t, Run).Some?
              && Step(u, t, Run).value.threads[t] == CloseUnlocks(s.sh.log.handled == s.sh.log.returned)
  {
    ReachableInv(s);
    var v := Step(s, t, Run).value;
    if s.sh.pub == Dead && Exec(v, others).Some? {
      StepKeepsInv(s, t, Run);
      OthersRunWithoutPutting(v, t, others);
      CountDecides(Exec(v, others).value, t);
    }
  }

  // ---------------------------------------------------------------- how long shutdown() waits

  /** Between clearing the indicator and reading it. */
  predicate WatchesIndicator(pc: Pc) {
    pc.CloseJoins? || pc.CloseAsksAliveAgain? || pc.CloseReadsIndicator?
  }

  /** Nobody else clears the indicator meanwhile, and a publishing thread that begins a round raises it. */
  lemma OthersKeepIndicator(s: Sys, t: nat, p: nat, m: Move)
    requires Inv(s) && t < |s.threads| && WatchesIndicator(s.threads[t])
    requires p <= |s.threads| && p != t && Step(s, p, m).Some?
    ensures var u := Step(s, p, m).value;
            && |u.threads| == |s.threads| && u.threads[t] == s.threads[t]
            && (u.sh.indicator <==> s.sh.indicator || (p == |s.threads| && s.sh.pub.SetsIndicator?))
  {
    assert CallerOk(s.sh, t, s.threads[t]);
    if p < |s.threads| {
      assert CallerOk(s.sh, p, s.threads[p]);
    }
  }

  /** Does the publishing thread begin a round of its loop in the run? */
  predicate BeginsRound(s: Sys, run: seq<(nat, Move)>)
    requires Exec(s, run).Some?
    decreases |run|
  {
    run != [] &&
    (|| (run[0].0 == |s.threads| && s.sh.pub.SetsIndicator?)
     || BeginsRound(Step(s, run[0].0, run[0].1).value, run[1..]))
  }

  /** Thread `t` stays between the two, whatever steps it and the others make. */
  predicate StaysWatching(s: Sys, t: nat, run: seq<(nat, Move)>)
    requires Exec(s, run).Some?
    decreases |run|
  {
    && t < |s.threads| && WatchesIndicator(s.threads[t])
    && (run != [] ==> StaysWatching(Step(s, run[0].0, run[0].1).value, t, run[1..]))
  }

  lemma WatchingKeepsIndicator(s: Sys, t: nat, m: Move)
    requires t < |s.threads| && WatchesIndicator(s.threads[t]) && Step(s, t, m).Some?
    ensures Step(s, t, m).value.sh.indicator == s.sh.indicator
  {
  }

  lemma {:induction false} IndicatorShowsRounds(s: Sys, t: nat, run: seq<(nat, Move)>)
    requires Inv(s) && Exec(s, run).Some? && StaysWatching(s, t, run)
    ensures Exec(s, run).value.sh.indicator <==> s.sh.indicator || BeginsRound(s, run)
    decreases |run|
  {
    if run != [] {
      var (p, m) := run[0];
      StepKeepsInv(s, p, m);
      if p == t {
        WatchingKeepsIndicator(s, t, m);
      } else {
        OthersKeepIndicator(s, t, p, m);
      }
      IndicatorShowsRounds(Step(s, p, m).value, t, run[1..]);
    }
  }

  /** A `shutdown()` whose `join()` has timed out with the publishing thread alive goes on waiting if and only
      if that thread has begun a round of its loop since the indicator was cleared. */
  lemma WaitsExactlyWhileLively(s: Sys, t: nat, run: seq<(nat, Move)>)
    requires Reachable(s) && t < |s.threads| && s.threads[t] == CloseClearsIndicator
    requires Step(s, t, Run).Some? && Exec(Step(s, t, Run).value, run).Some?
    requires StaysWatching(Step(s, t, Run).value, t, run)
    requires var u := Exec(Step(s, t, Run).value, run).value;
             t < |u.threads| && u.threads[t] == CloseReadsIndicator
    ensures var u := Exec(Step(s, t, Run).value, run).value;
            && Step(u, t, Run).Some?
            && Step(u, t, Run).value.threads[t]
               == if BeginsRound(Step(s, t, Run).value, run) then CloseClearsIndicator else CloseVerifiesDead
  {
    ReachableInv(s);
    StepKeepsInv(s, t, Run);
    IndicatorShowsRounds(Step(s, t, Run).value, t, run);
  }

  /** Is there room for one more? */
  predicate HasRoom(sh: Shared) {
    sh.capacity == 0 || |sh.fifo| < sh.capacity
  }

  // ---------------------------------------------------------------- how shutdown() comes back

  lemma {:induction false} OthersKeepPlace(s: Sys, t: nat, others: seq<(nat, Move)>)
    requires t < |s.threads| && OfOthers(others, t) && Exec(s, others).Some?
    ensures var u := Exec(s, others).value; |u.threads| == |s.threads| && u.threads[t] == s.threads[t]
    decreases |others|
  {
    if others != [] {
      OthersKeepPlace(Step(s, others[0].0, others[0].1).value, t, others[1..]);
    }
  }

  /** The flag cleared, a `shutdown()` puts its sentinel, as the last slot, if and only if it found the
      publishing thread alive and there is room at the moment of putting. */
  lemma SentinelExactly(s: Sys, t: nat, others: seq<(nat, Move)>)
    requires t < |s.threads| && s.threads[t] == CloseAsksAlive && OfOthers(others, t)
    ensures Step(s, t, Run).Some? && Step(s, t, Run).value.sh.fifo == s.sh.fifo
    ensures s.sh.pub == Dead ==>
              Step(s, t, Run).value.threads[t] == CloseClearsIndicator && Step(s, t, Run).value.sh.stopTried
    ensures s.sh.pub != Dead && Exec(Step(s, t, Run).value, others).Some? ==>
              var u := Exec(Step(s, t, Run).value, others).value;
              && t < |u.threads| && Step(u, t, Run).Some?
              && Step(u, t, Run).value.threads[t] == CloseClearsIndicator && Step(u, t, Run).value.sh.stopTried
              && Step(u, t, Run).value.sh.fifo == if HasRoom(u.sh) then u.sh.fifo + [Sentinel] else u.sh.fifo
  {
    if Exec(Step(s, t, Run).value, others).Some? {
      OthersKeepPlace(Step(s, t, Run).value, t, others);
    }
  }

  /** `join()` comes back when it times out, or else exactly when the publishing thread is dead; and then
      the indicator is read if and only if that thread is found alive. */
  lemma JoinExactly(s: Sys, t: nat, m: Move, others: seq<(nat, Move)>)
    requires t < |s.threads| && s.threads[t] == CloseJoins && OfOthers(others, t)
    requires m == Run || m == Fail
    ensures Step(s, t, m).Some? <==> m == Fail || s.sh.pub == Dead
    ensures Step(s, t, m).Some? && Exec(Step(s, t, m).value, others).Some? ==>
              var u := Exec(Step(s, t, m).value, others).value;
              && t < |u.threads| && Step(u, t, Run).Some?
              && Step(u, t, Run).value.threads[t]
                 == if u.sh.pub == Dead then CloseVerifiesDead else CloseReadsIndicator
  {
    if Step(s, t, m).Some? && Exec(Step(s, t, m).value, others).Some? {
      OthersKeepPlace(Step(s, t, m).value, t, others);
    }
  }

  /** After the check a `shutdown()` gives the push lock back, closes the connection and gives its own lock back,
      whatever others do in between; it comes back without an exception if and only if neither the check nor
      closing the connection raised one. */
  lemma ShutdownRaisesExactly(s: Sys, t: nat, a: seq<(nat, Move)>, m: Move, b: seq<(nat, Move)>)
    requires t < |s.threads| && s.threads[t].CloseUnlocks? && OfOthers(a, t) && OfOthers(b, t)
    requires m == Run || m == Fail
    ensures Step(s, t, Run).Some? && Step(s, t, Run).value.sh.pushLock == None
    ensures Exec(Step(s, t, Run).value, a).Some? ==>
              var u := Exec(Step(s, t, Run).value, a).value;
              && t < |u.threads| && Step(u, t, m).Some?
              && (Exec(Step(u, t, m).value, b).Some? ==>
                    var v := Exec(Step(u, t, m).value, b).value;
                    && t < |v.threads| && Step(v, t, Run).Some?
                    && Step(v, t, Run).value.threads[t] == Idle
                    && Step(v, t, Run).value.sh.shutdownLock == None
                    && (Step(v, t, Run).value.sh.closed <==> v.sh.closed || (s.threads[t].ok && m != Fail)))
  {
    if Exec(Step(s, t, Run).value, a).Some? {
      OthersKeepPlace(Step(s, t, Run).value, t, a);
      var u := Exec(Step(s, t, Run).value, a).value;
      if Exec(Step(u, t, m).value, b).Some? {
        OthersKeepPlace(Step(u, t, m).value, t, b);
      }
    }
  }

  // ---------------------------------------------------------------- what a push does

  /** A push that holds the lock goes on to put its item if and only if the flag is up, and changes nothing
      yet. */
  lemma PushGoesOnExactly(s: Sys, t: nat)
    requires t < |s.threads| && s.threads[t].PushChecksFlag?
    ensures Step(s, t, Run).Some? && Step(s, t, Run).value.sh == s.sh
    ensures Step(s, t, Run).value.threads[t].PushPuts? <==> s.sh.publishing
    ensures var x := s.threads[t].item;
            Step(s, t, Run).value.threads[t] == if s.sh.publishing then PushPuts(x) else PushUnlocks(x, false)
  {
  }

  /** A push that found the flag up puts its item, as the last one in the queue, if and only if there is room,
      and then comes back normally, whatever other threads do in between; else it fails and leaves the queue
      and the log alone. */
  lemma PushPutsExactly(s: Sys, t: nat, others: seq<(nat, Move)>)
    requires Reachable(s) && t < |s.threads| && s.threads[t].PushPuts? && OfOthers(others, t)
    ensures Step(s, t, Run).Some?
    ensures var x, room, u := s.threads[t].item, HasRoom(s.sh), Step(s, t, Run).value;
            && u.sh.fifo == (if room then s.sh.fifo + [Data(x)] else s.sh.fifo)
            && u.sh.log.accepted == (if room then s.sh.log.accepted + [x] else s.sh.log.accepted)
            && u.sh.log.handled == s.sh.log.handled && u.sh.log.returned == s.sh.log.returned
            && (Exec(u, others).Some? ==>
                  var v := Exec(u, others).value;
                  && t < |v.threads| && Step(v, t, Run).Some?
                  && Step(v, t, Run).value.threads[t] == Idle
                  && Step(v, t, Run).value.sh.pushLock == None
                  && Step(v, t, Run).value.sh.log.returned
                     == if room then s.sh.log.returned + [x] else s.sh.log.returned)
  {
    ReachableInv(s);
    var u := Step(s, t, Run).value;
    if Exec(u, others).Some? {
      StepKeepsInv(s, t, Run);
      OthersRunWithoutPutting(u, t, others);
    }
  }

  // ---------------------------------------------------------------- items do get through

  ghost predicate Leads(s: Sys, u: Sys) {
    exists run :: Exec(s, run) == Some(u)
  }

  lemma {:induction false} ExecAppend(s: Sys, run: seq<(nat, Move)>, t: nat, m: Move)
    requires Exec(s, run).Some? && t <= |Exec(s, run).value.threads|
    ensures Exec(s, run + [(t, m)]) == Step(Exec(s, run).value, t, m)
    decreases |run|
  {
    if run == [] {
      assert run + [(t, m)] == [(t, m)];
    } else {
      ExecAppend(Step(s, run[0].0, run[0].1).value, run[1..], t, m);
      assert (run + [(t, m)])[1..] == run[1..] + [(t, m)];
    }
  }

  lemma Goes(s: Sys, u: Sys, t: nat, m: Move, v: Sys)
    requires Leads(s, u) && t <= |u.threads| && Step(u, t, m) == Some(v)
    ensures Leads(s, v)
  {
    var run :| Exec(s, run) == Some(u);
    ExecAppend(s, run, t, m);
    assert Exec(s, run + [(t, m)]) == Some(v);
  }

  /** One calling thread, between two calls; everything put has been handed on. */
  function Calm(pc: Pc, capacity: nat, indicator: bool, lock: Option<nat>, fifo: seq<Slot>, pub: PubPc, log: Log): Sys {
    Sys([pc], Shared(true, indicator, fifo, capacity, lock, None, pub, false, false, false, false, log))
  }

  function AllDone(items: seq<Item>): Log {
    Log(items, items, [], items)
  }

  /** The publishing thread comes to wait for the queue. */
  lemma PublisherWaits(s: Sys, capacity: nat, indicator: bool, items: seq<Item>)
    requires Leads(s, Calm(Idle, capacity, indicator, None, [], ReadsFlag, AllDone(items)))
    ensures Leads(s, Calm(Idle, capacity, true, None, [], Gets, AllDone(items)))
  {
    var log := AllDone(items);
    var u := Calm(Idle, capacity, indicator, None, [], SetsIndicator, log);
    Goes(s, Calm(Idle, capacity, indicator, None, [], ReadsFlag, log), 1, Run, u);
    Goes(s, u, 1, Run, Calm(Idle, capacity, true, None, [], Gets, log));
  }

  lemma PushStarts(s: Sys, capacity: nat, items: seq<Item>, x: Item)
    requires Leads(s, Calm(Idle, capacity, true, None, [], Gets, AllDone(items)))
    ensures Leads(s, Calm(PushPuts(x), capacity, true, Some(0), [], Gets, AllDone(items)))
  {
    var log := AllDone(items);
    var u1 := Calm(PushWaitsForLock(x), capacity, true, None, [], Gets, log);
    var u2 := Calm(PushChecksFlag(x), capacity, true, Some(0), [], Gets, log);
    assert [Idle][0 := PushWaitsForLock(x)] == [PushWaitsForLock(x)];
    Goes(s, Calm(Idle, capacity, true, None, [], Gets, log), 0, Push(x), u1);
    assert [PushWaitsForLock(x)][0 := PushChecksFlag(x)] == [PushChecksFlag(x)];
    Goes(s, u1, 0, Run, u2);
    assert [PushChecksFlag(x)][0 := PushPuts(x)] == [PushPuts(x)];
    Goes(s, u2, 0, Run, Calm(PushPuts(x), capacity, true, Some(0), [], Gets, log));
  }

  lemma PushEnds(s: Sys, capacity: nat, items: seq<Item>, x: Item)
    requires Leads(s, Calm(PushPuts(x), capacity, true, Some(0), [], Gets, AllDone(items)))
    ensures Leads(s, Calm(Idle, capacity, true, None, [Data(x)], Gets, Log(items + [x], items + [x], [], items)))
  {
    var u := Calm(PushUnlocks(x, true), capacity, true, Some(0), [Data(x)], Gets, Log(items + [x], items, [x], items));
    assert [] + [Data(x)] == [Data(x)];
    assert [PushPuts(x)][0 := PushUnlocks(x, true)] == [PushUnlocks(x, true)];
    Goes(s, Calm(PushPuts(x), capacity, true, Some(0), [], Gets, AllDone(items)), 0, Run, u);
    assert [PushUnlocks(x, true)][0 := Idle] == [Idle];
    Goes(s, u, 0, Run, Calm(Idle, capacity, true, None, [Data(x)], Gets, Log(items + [x], items + [x], [], items)));
  }

  lemma PublisherHands(s: Sys, capacity: nat, items: seq<Item>, x: Item)
    requires Leads(s, Calm(Idle, capacity, true, None, [Data(x)], Gets, Log(items + [x], items + [x], [], items)))
    ensures Leads(s, Calm(Idle, capacity, true, None, [], ReadsFlag, AllDone(items + [x])))
  {
    var log := Log(items + [x], items + [x], [], items);
    var u := Calm(Idle, capacity, true, None, [], Hands(x), log);
    assert [Data(x)][1..] == [];
    Goes(s, Calm(Idle, capacity, true, None, [Data(x)], Gets, log), 1, Run, u);
    Goes(s, u, 1, Run, Calm(Idle, capacity, true, None, [], ReadsFlag, AllDone(items + [x])));
  }

  /** A pusher with one calling thread, just started. */
  function Started(capacity: nat): Sys {
    Calm(Idle, capacity, false, None, [], ReadsFlag, AllDone([]))
  }

  lemma {:induction false} EveryItemGetsThrough(capacity: nat, items: seq<Item>)
    ensures exists indicator ::
              Leads(Started(capacity), Calm(Idle, capacity, indicator, None, [], ReadsFlag, AllDone(items)))
    decreases |items|
  {
    var s := Started(capacity);
    if items == [] {
      assert Exec(s, []) == Some(s);
      assert Leads(s, Calm(Idle, capacity, false, None, [], ReadsFlag, AllDone([])));
    } else {
      var before, x := items[..|items| - 1], items[|items| - 1];
      EveryItemGetsThrough(capacity, before);
      var indicator :| Leads(s, Calm(Idle, capacity, indicator, None, [], ReadsFlag, AllDone(before)));
      PublisherWaits(s, capacity, indicator, before);
      PushStarts(s, capacity, before, x);
      PushEnds(s, capacity, before, x);
      PublisherHands(s, capacity, before, x);
      assert before + [x] == items;
    }
  }

  // ---- and the pusher can be shut down

  /** One thread in `shutdown()` that holds both locks. */
  function Closing(pc: Pc, capacity: nat, publishing: bool, indicator: bool, fifo: seq<Slot>, pub: PubPc,
      stopTried: bool, verified: bool, items: seq<Item>): Sys
  {
    Sys([pc], Shared(publishing, indicator, fifo, capacity, Some(0), Some(0), pub, false, stopTried, verified, false,
                     AllDone(items)))
  }

  lemma CloserTakesLocks(s: Sys, capacity: nat, indicator: bool, items: seq<Item>)
    requires Leads(s, Calm(Idle, capacity, indicator, None, [], ReadsFlag, AllDone(items)))
    ensures Leads(s, Closing(CloseClearsFlag, capacity, true, indicator, [], ReadsFlag, false, false, items))
  {
    var log := AllDone(items);
    var u := Calm(CloseWaitsForShutdownLock, capacity, indicator, None, [], ReadsFlag, log);
    var v := Sys([CloseWaitsForLock], u.sh.(shutdownLock := Some(0)));
    assert [Idle][0 := CloseWaitsForShutdownLock] == [CloseWaitsForShutdownLock];
    Goes(s, Calm(Idle, capacity, indicator, None, [], ReadsFlag, log), 0, Shutdown, u);
    assert [CloseWaitsForShutdownLock][0 := CloseWaitsForLock] == [CloseWaitsForLock];
    Goes(s, u, 0, Run, v);
    assert [CloseWaitsForLock][0 := CloseClearsFlag] == [CloseClearsFlag];
    Goes(s, v, 0, Run, Closing(CloseClearsFlag, capacity, true, indicator, [], ReadsFlag, false, false, items));
  }

  lemma CloserPutsSentinel(s: Sys, capacity: nat, indicator: bool, items: seq<Item>)
    requires Leads(s, Closing(CloseClearsFlag, capacity, true, indicator, [], ReadsFlag, false, false, items))
    ensures Leads(s, Closing(CloseJoins, capacity, false, false, [Sentinel], ReadsFlag, true, false, items))
  {
    var u1 := Closing(CloseAsksAlive, capacity, false, indicator, [], ReadsFlag, false, false, items);
    var u2 := Closing(ClosePutsSentinel, capacity, false, indicator, [], ReadsFlag, false, false, items);
    var u3 := Closing(CloseClearsIndicator, capacity, false, indicator, [Sentinel], ReadsFlag, true, false, items);
    assert [CloseClearsFlag][0 := CloseAsksAlive] == [CloseAsksAlive];
    Goes(s, Closing(CloseClearsFlag, capacity, true, indicator, [], ReadsFlag, false, false, items), 0, Run, u1);
    assert [CloseAsksAlive][0 := ClosePutsSentinel] == [ClosePutsSentinel];
    Goes(s, u1, 0, Run, u2);
    assert [ClosePutsSentinel][0 := CloseClearsIndicator] == [CloseClearsIndicator] && [] + [Sentinel] == [Sentinel];
    Goes(s, u2, 0, Run, u3);
    assert [CloseClearsIndicator][0 := CloseJoins] == [CloseJoins];
    Goes(s, u3, 0, Run, Closing(CloseJoins, capacity, false, false, [Sentinel], ReadsFlag, true, false, items));
  }

  lemma PublisherTakesSentinel(s: Sys, capacity: nat, items: seq<Item>)
    requires Leads(s, Closing(CloseJoins, capacity, false, false, [Sentinel], ReadsFlag, true, false, items))
    ensures Leads(s, Closing(CloseJoins, capacity, false, true, [], ReadsFlag, true, false, items))
  {
    var u1 := Closing(CloseJoins, capacity, false, false, [Sentinel], AsksEmpty, true, false, items);
    var u2 := Closing(CloseJoins, capacity, false, false, [Sentinel], SetsIndicator, true, false, items);
    var u3 := Closing(CloseJoins, capacity, false, true, [Sentinel], Gets, true, false, items);
    Goes(s, Closing(CloseJoins, capacity, false, false, [Sentinel], ReadsFlag, true, false, items), 1, Run, u1);
    Goes(s, u1, 1, Run, u2);
    Goes(s, u2, 1, Run, u3);
    assert [Sentinel][1..] == [];
    Goes(s, u3, 1, Run, Closing(CloseJoins, capacity, false, true, [], ReadsFlag, true, false, items));
  }

  lemma PublisherEnds(s: Sys, capacity: nat, items: seq<Item>)
    requires Leads(s, Closing(CloseJoins, capacity, false, true, [], ReadsFlag, true, false, items))
    ensures Leads(s, Closing(CloseJoins, capacity, false, true, [], Dead, true, false, items))
  {
    var u1 := Closing(CloseJoins, capacity, false, true, [], AsksEmpty, true, false, items);
    var u2 := Closing(CloseJoins, capacity, false, true, [], ClearsFlag, true, false, items);
    var u3 := Closing(CloseJoins, capacity, false, true, [], Ends, true, false, items);
    Goes(s, Closing(CloseJoins, capacity, false, true, [], ReadsFlag, true, false, items), 1, Run, u1);
    Goes(s, u1, 1, Run, u2);
    Goes(s, u2, 1, Run, u3);
    Goes(s, u3, 1, Run, Closing(CloseJoins, capacity, false, true, [], Dead, true, false, items));
  }

  lemma CloserVerifies(s: Sys, capacity: nat, items: seq<Item>)
    requires Leads(s, Closing(CloseJoins, capacity, false, true, [], Dead, true, false, items))
    ensures Leads(s, Closing(CloseUnlocks(true), capacity, false, true, [], Dead, true, true, items))
  {
    var u1 := Closing(CloseAsksAliveAgain, capacity, false, true, [], Dead, true, false, items);
    var u2 := Closing(CloseVerifiesDead, capacity, false, true, [], Dead, true, false, items);
    var u3 := Closing(CloseCountsPending, capacity, false, true, [], Dead, true, false, items);
    assert [CloseJoins][0 := CloseAsksAliveAgain] == [CloseAsksAliveAgain];
    Goes(s, Closing(CloseJoins, capacity, false, true, [], Dead, true, false, items), 0, Run, u1);
    assert [CloseAsksAliveAgain][0 := CloseVerifiesDead] == [CloseVerifiesDead];
    Goes(s, u1, 0, Run, u2);
    assert [CloseVerifiesDead][0 := CloseCountsPending] == [CloseCountsPending];
    Goes(s, u2, 0, Run, u3);
    assert [CloseCountsPending][0 := CloseUnlocks(true)] == [CloseUnlocks(true)];
    Goes(s, u3, 0, Run, Closing(CloseUnlocks(true), capacity, false, true, [], Dead, true, true, items));
  }

  /** Everything handed on, and shut down. */
  function Closed(capacity: nat, items: seq<Item>): Sys {
    Sys([Idle], Shared(false, true, [], capacity, None, None, Dead, false, true, true, true, AllDone(items)))
  }

  lemma CloserReturns(s: Sys, capacity: nat, items: seq<Item>)
    requires Leads(s, Closing(CloseUnlocks(true), capacity, false, true, [], Dead, true, true, items))
    ensures Leads(s, Closed(capacity, items))
  {
    var u0 := Closing(CloseUnlocks(true), capacity, false, true, [], Dead, true, true, items);
    var u1 := Sys([CloseDropsConnection(true)], u0.sh.(pushLock := None));
    var u2 := Sys([CloseReturns(true)], u1.sh);
    assert [CloseUnlocks(true)][0 := CloseDropsConnection(true)] == [CloseDropsConnection(true)];
    Goes(s, u0, 0, Run, u1);
    assert [CloseDropsConnection(true)][0 := CloseReturns(true)] == [CloseReturns(true)];
    Goes(s, u1, 0, Run, u2);
    assert [CloseReturns(true)][0 := Idle] == [Idle];
    Goes(s, u2, 0, Run, Closed(capacity, items));
  }

  /** The service is not empty: for every list of items and every capacity of the queue, some run of a freshly
      started pusher puts, hands on and returns exactly these items, and then shuts down without an
      exception. */
  lemma EveryListCanBePublished(capacity: nat, items: seq<Item>)
    ensures Init(Started(capacity)) && Started(capacity).sh.capacity == capacity
    ensures Leads(Started(capacity), Closed(capacity, items))
    ensures var log := Closed(capacity, items).sh.log; log.handled == log.returned == log.accepted == items
  {
    var s := Started(capacity);
    EveryItemGetsThrough(capacity, items);
    var indicator :| Leads(s, Calm(Idle, capacity, indicator, None, [], ReadsFlag, AllDone(items)));
    CloserTakesLocks(s, capacity, indicator, items);
    CloserPutsSentinel(s, capacity, indicator, items);
    PublisherTakesSentinel(s, capacity, items);
    PublisherEnds(s, capacity, items);
    CloserVerifies(s, capacity, items);
    CloserReturns(s, capacity, items);
  }

  // ---------------------------------------------------------------- the publishing thread never hangs

  /** Past the sentinel attempt of `_stop_publishing()`, put or not, the publishing thread never waits
      on an empty queue. */
  lemma AwakeAfterStop(s: Sys)
    requires Reachable(s) && s.sh.stopTried && s.sh.pub != Dead
    ensures PublisherStep(s.sh, false).Some?
  {
    ReachableInv(s);
  }

  /** The steps that the queue and the place of the publishing thread still ask for. */
  function StepsLeft(sh: Shared): nat {
    var q := QueueSteps(sh.fifo);
    match sh.pub
    case ReadsFlag => q + 4
    case AsksEmpty => q + 3
    case SetsIndicator => q + 2
    case Gets => q + 1
    case Hands(_) => q + 5
    case ClearsFlag => 2
    case Ends => 1
    case Dead => 0
  }

  /** Four steps take a sentinel off the queue, five an item. */
  function QueueSteps(fifo: seq<Slot>): nat {
    if fifo == [] then 0 else (if fifo[0].Data? then 5 else 4) + QueueSteps(fifo[1..])
  }

  lemma {:induction false} QueueStepsAppend(a: seq<Slot>, b: seq<Slot>)
    ensures QueueSteps(a + b) == QueueSteps(a) + QueueSteps(b)
  {
    if a == [] {
      assert a + b == b;
    } else {
      QueueStepsAppend(a[1..], b);
      assert (a + b)[1..] == a[1..] + b;
    }
  }

  /** With the flag down, each step of the publishing thread that kills nothing uses one of them up. */
  lemma PublisherUsesSteps(sh: Shared)
    requires PhaseOk(sh) && sh.stopTried && sh.pub != Dead
    ensures PublisherStep(sh, false).Some?
    ensures StepsLeft(PublisherStep(sh, false).value) + 1 == StepsLeft(sh)
    ensures PublisherStep(sh, false).value.stopTried
  {
  }

  /** The callers add no steps, except that another `shutdown()` may put its own sentinel. */
  lemma CallersAddNoSteps(s: Sys, t: nat, m: Move)
    requires Inv(s) && s.sh.stopTried && t < |s.threads| && Step(s, t, m).Some?
    ensures StepsLeft(Step(s, t, m).value.sh)
            <= StepsLeft(s.sh) + if s.threads[t] == ClosePutsSentinel then 4 else 0
  {
    assert CallerOk(s.sh, t, s.threads[t]);
    CallerOnQueue(s.sh, t, s.threads[t], m);
    QueueStepsAppend(s.sh.fifo, [Sentinel]);
    assert QueueSteps([Sentinel]) == 4;
  }

  /** What a caller does to the queue when nobody can push any more. */
  lemma CallerOnQueue(sh: Shared, t: nat, pc: Pc, m: Move)
    requires CallerStep(sh, t, pc, m).Some?
    ensures var sh' := CallerStep(sh, t, pc, m).value.0;
            && sh'.pub == sh.pub
            && (!pc.ClosePutsSentinel? && !pc.PushPuts? ==> sh'.fifo == sh.fifo)
            && (pc.ClosePutsSentinel? ==> sh'.fifo == sh.fifo || sh'.fifo == sh.fifo + [Sentinel])
  {
    if Pushing(pc) {
      PushOnQueue(sh, t, pc);
    }
    CloseOnQueue(sh, t, pc, m == Fail);
  }

  lemma PushOnQueue(sh: Shared, t: nat, pc: Pc)
    requires PushStep(sh, t, pc).Some?
    ensures PushStep(sh, t, pc).value.0.pub == sh.pub
    ensures !pc.PushPuts? ==> PushStep(sh, t, pc).value.0.fifo == sh.fifo
  {
  }

  lemma CloseOnQueue(sh: Shared, t: nat, pc: Pc, fails: bool)
    ensures var n := CloseStep(sh, t, pc, fails);
            && (Pushing(pc) ==> n == None)
            && (n.Some? ==> n.value.0.pub == sh.pub)
            && (n.Some? && !pc.ClosePutsSentinel? ==> n.value.0.fifo == sh.fifo)
            && (n.Some? ==> n.value.0.fifo == sh.fifo || n.value.0.fifo == sh.fifo + [Sentinel])
  {
  }

  // ---------------------------------------------------------------- the publishing thread comes to its end

  /** Whatever happens to the items, no step of the publishing thread in the run kills it. */
  ghost predicate HandlingReturns(n: nat, run: seq<(nat, Move)>) {
    forall i :: 0 <= i < |run| && run[i].0 == n ==> run[i].1 == Run
  }

  /** How many of the steps are the publishing thread's. */
  function PublisherSteps(n: nat, run: seq<(nat, Move)>): nat {
    if run == [] then 0 else (if run[0].0 == n then 1 else 0) + PublisherSteps(n, run[1..])
  }

  /** How often a caller tries to put its sentinel. */
  function SentinelAttempts(s: Sys, run: seq<(nat, Move)>): nat
    requires Exec(s, run).Some?
    decreases |run|
  {
    if run == [] then 0
    else
      var (t, m) := run[0];
      (if t < |s.threads| && s.threads[t] == ClosePutsSentinel then 1 else 0)
      + SentinelAttempts(Step(s, t, m).value, run[1..])
  }

  /** How many rounds of its loop take a slot off the queue. */
  function Rounds(s: Sys, run: seq<(nat, Move)>): nat
    requires Exec(s, run).Some?
    decreases |run|
  {
    if run == [] then 0
    else
      var (t, m) := run[0];
      (if t == |s.threads| && s.sh.pub.Gets? then 1 else 0) + Rounds(Step(s, t, m).value, run[1..])
  }

  /** The slots the publishing thread may still take. */
  function SlotsLeft(sh: Shared): nat {
    if InLoop(sh.pub) then |sh.fifo| else 0
  }

  /** What one step, by whichever thread, uses up and may add. */
  ghost predicate UsesUp(s: Sys, t: nat, u: Sys)
    requires t <= |s.threads|
  {
    var publisher, more := t == |s.threads|, if t < |s.threads| && s.threads[t] == ClosePutsSentinel then 1 else 0;
    && StepsLeft(u.sh) + (if publisher then 1 else 0) <= StepsLeft(s.sh) + 4 * more
    && SlotsLeft(u.sh) + (if publisher && s.sh.pub.Gets? then 1 else 0) <= SlotsLeft(s.sh) + more
  }

  /** What stays as it is. */
  ghost predicate StaysStopped(s: Sys, u: Sys) {
    && |u.threads| == |s.threads| && u.sh.stopTried
    && (!s.sh.crashed ==> !u.sh.crashed && u.sh.log.accepted == s.sh.log.accepted)
  }

  lemma PublisherUsesUp(s: Sys)
    requires Inv(s) && s.sh.stopTried && PublisherStep(s.sh, false).Some?
    ensures var u := Step(s, |s.threads|, Run); u.Some? && UsesUp(s, |s.threads|, u.value) && StaysStopped(s, u.value)
  {
    PublisherUsesSteps(s.sh);
    var sh := PublisherStep(s.sh, false).value;
    assert SlotsLeft(sh) + (if s.sh.pub.Gets? then 1 else 0) <= SlotsLeft(s.sh);
  }

  lemma CallerUsesUp(s: Sys, t: nat, m: Move)
    requires Inv(s) && s.sh.stopTried && t < |s.threads| && Step(s, t, m).Some?
    ensures UsesUp(s, t, Step(s, t, m).value)
  {
    CallersAddNoSteps(s, t, m);
    assert CallerOk(s.sh, t, s.threads[t]);
    CallerOnQueue(s.sh, t, s.threads[t], m);
  }

  lemma CallerStaysStopped(s: Sys, t: nat, m: Move)
    requires Inv(s) && s.sh.stopTried && t < |s.threads| && Step(s, t, m).Some?
    ensures StaysStopped(s, Step(s, t, m).value)
  {
    assert CallerOk(s.sh, t, s.threads[t]);
    if !s.sh.crashed {
      CallerPutsNothing(s.sh, t, s.threads[t], m);
    }
    CallerKeepsMarks(s.sh, t, s.threads[t], m);
  }

  predicate KeepsMarks(sh: Shared, sh': Shared) {
    sh'.crashed == sh.crashed && (sh.stopTried ==> sh'.stopTried)
  }

  lemma PushKeepsMarks(sh: Shared, t: nat, pc: Pc)
    requires PushStep(sh, t, pc).Some?
    ensures KeepsMarks(sh, PushStep(sh, t, pc).value.0)
  {
  }

  lemma CloseKeepsMarks(sh: Shared, t: nat, pc: Pc, fails: bool)
    requires CloseStep(sh, t, pc, fails).Some?
    ensures KeepsMarks(sh, CloseStep(sh, t, pc, fails).value.0)
  {
  }

  lemma CallerKeepsMarks(sh: Shared, t: nat, pc: Pc, m: Move)
    requires CallerStep(sh, t, pc, m).Some?
    ensures KeepsMarks(sh, CallerStep(sh, t, pc, m).value.0)
  {
    if m == Run && Pushing(pc) {
      PushKeepsMarks(sh, t, pc);
    } else if m == Run || m == Fail {
      CloseKeepsMarks(sh, t, pc, m == Fail);
    }
  }

  lemma {:induction false} RunUsesUp(s: Sys, run: seq<(nat, Move)>)
    requires Inv(s) && s.sh.stopTried && Exec(s, run).Some? && HandlingReturns(|s.threads|, run)
    ensures var u, n := Exec(s, run).value, |s.threads|;
            && Inv(u) && StaysStopped(s, u)
            && StepsLeft(u.sh) + PublisherSteps(n, run) <= StepsLeft(s.sh) + 4 * SentinelAttempts(s, run)
            && SlotsLeft(u.sh) + Rounds(s, run) <= SlotsLeft(s.sh) + SentinelAttempts(s, run)
    decreases |run|
  {
    if run != [] {
      var (t, m) := run[0];
      StepKeepsInv(s, t, m);
      if t == |s.threads| {
        PublisherUsesUp(s);
      } else {
        CallerUsesUp(s, t, m);
        CallerStaysStopped(s, t, m);
      }
      RunUsesUp(Step(s, t, m).value, run[1..]);
    }
  }

  /** From any moment past the sentinel attempt, in every interleaving: the publishing thread makes a
      bounded number of steps, and takes at most one round for each slot of the queue and each later
      sentinel.  Until it has ended it can always make its next step; and once it has used its steps up it
      has ended, with everything ever put handed on. */
  lemma PublisherDrains(s: Sys, run: seq<(nat, Move)>)
    requires Reachable(s) && s.sh.stopTried && Exec(s, run).Some? && HandlingReturns(|s.threads|, run)
    ensures var u, n, sentinels := Exec(s, run).value, |s.threads|, SentinelAttempts(s, run);
            && PublisherSteps(n, run) <= StepsLeft(s.sh) + 4 * sentinels
            && Rounds(s, run) <= |s.sh.fifo| + sentinels
            && (u.sh.pub == Dead || PublisherStep(u.sh, false).Some?)
            && (PublisherSteps(n, run) == StepsLeft(s.sh) + 4 * sentinels ==> u.sh.pub == Dead)
            && (u.sh.pub == Dead && !s.sh.crashed ==>
                  && u.sh.log.handled == u.sh.log.returned == s.sh.log.accepted && Items(u.sh.fifo) == [])
  {
    ReachableInv(s);
    RunUsesUp(s, run);
    var u := Exec(s, run).value;
    if u.sh.pub == Dead && !s.sh.crashed {
      NothingLeft(u.sh);
    }
  }
}
