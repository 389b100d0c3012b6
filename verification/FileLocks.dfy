/** Advisory file locks as `flock(2)` offers them, and the lock objects built on top of them.

    A lock object remembers its open file and the mode it believes it has; the kernel has its own
    opinion.  The two differ while a mode is being switched: the kernel drops the old mode first
    and grants the new one later, and the object's fields change only after the grant.
 */
module FileLocks {
  datatype Mode = Free | Shared | Exclusive

  /** Both opinions about one lock of one process: what the kernel granted, and what the object says. */
  datatype View = View(kernel: Mode, believed: Mode)

  const Nothing := View(Free, Free)

  /** May a process be granted `want` while another process holds `other`? */
  predicate Compatible(want: Mode, other: Mode) {
    want == Free || other == Free || (want == Shared && other == Shared)
  }

  /** One attempt to take a lock in mode `want`.  A refused attempt leaves the object as it was,
      but the kernel has already dropped the mode held before. */
  function Attempt(v: View, granted: bool, want: Mode): View {
    if granted then View(want, want) else v.(kernel := Free)
  }

  /** The kernel's table for one lock file: the modes granted, by process. */
  type Table = map<nat, Mode>

  function ModeOf(t: Table, pid: nat): Mode {
    if pid in t then t[pid] else Free
  }

  ghost predicate Grantable(t: Table, pid: nat, want: Mode) {
    forall q :: q in t && q != pid ==> Compatible(want, t[q])
  }

  /** No two processes hold modes that exclude each other. */
  ghost predicate Consistent(t: Table) {
    forall p, q :: p in t && q in t && p != q ==> Compatible(t[p], t[q])
  }

  /** A lock file shared by all processes. */
  class LockFile {
    var table: Table

    constructor ()
      ensures Consistent(table) && forall p :: ModeOf(table, p) == Free
    {
      table := map[];
    }

    /** One non-waiting `flock` call; it drops the caller's old mode even when it refuses. */
    method Flock(pid: nat, want: Mode) returns (granted: bool)
      requires want != Free && Consistent(table)
      modifies this
      ensures Consistent(table)
      ensures granted <==> Grantable(old(table), pid, want)
      ensures ModeOf(table, pid) == if granted then want else Free
      ensures forall q :: q != pid ==> ModeOf(table, q) == ModeOf(old(table), q)
    {
      table := table - {pid};
      var todo := table.Keys;
      granted := true;
      while todo != {}
        invariant todo <= table.Keys
        invariant granted <==> forall q :: q in table && q !in todo ==> Compatible(want, table[q])
        decreases todo
      {
        var q :| q in todo;
        granted := granted && Compatible(want, table[q]);
        todo := todo - {q};
      }
      assert forall q :: q in old(table) && q != pid <==> q in table;
      if granted {
        table := table[pid := want];
      }
    }

    /** Closing the file gives the lock back. */
    method Close(pid: nat)
      requires Consistent(table)
      modifies this
      ensures Consistent(table) && ModeOf(table, pid) == Free
      ensures forall q :: q != pid ==> ModeOf(table, q) == ModeOf(old(table), q)
    {
      table := table - {pid};
    }
  }

  /** What an `acquire` call came to.  A waiting call that would have to wait reports `Waits`. */
  datatype Answer = Acquired | Refused | Waits

  /** The lock object of one process. */
  class InterprocessLock {
    const lockFile: LockFile
    const pid: nat
    var isOpen: bool
    var shared: bool

    ghost predicate Valid()
      reads this, lockFile
    {
      && Consistent(lockFile.table)
      && (shared ==> isOpen)
      && (ModeOf(lockFile.table, pid) == Free || ModeOf(lockFile.table, pid) == Object())
    }

    function Object(): Mode
      reads this
    {
      if !isOpen then Free else if shared then Shared else Exclusive
    }

    ghost function Sight(): View
      reads this, lockFile
    {
      View(ModeOf(lockFile.table, pid), Object())
    }

    constructor (f: LockFile, pid: nat)
      requires Consistent(f.table) && ModeOf(f.table, pid) == Free
      ensures Valid() && lockFile == f && this.pid == pid && Sight() == Nothing
    {
      lockFile, this.pid, isOpen, shared := f, pid, false, false;
    }

    /** `acquire()`: the object changes only when the kernel grants the mode. */
    method Acquire(wantShared: bool, nonblocking: bool) returns (r: Answer)
      requires Valid()
      modifies this, lockFile
      ensures Valid()
      ensures var want := if wantShared then Shared else Exclusive;
              && (r == Acquired <==> Grantable(old(lockFile.table), pid, want))
              && Sight() == Attempt(old(Sight()), r == Acquired, want)
      ensures r == Refused ==> nonblocking
      ensures r == Waits ==> !nonblocking
      ensures forall q :: q != pid ==> ModeOf(lockFile.table, q) == ModeOf(old(lockFile.table), q)
    {
      var granted := lockFile.Flock(pid, if wantShared then Shared else Exclusive);
      if !granted {
        return if nonblocking then Refused else Waits;
      }
      isOpen := true;
      shared := wantShared;
      return Acquired;
    }

    /** `release()`: harmless when nothing is held. */
    method Release()
      requires Valid()
      modifies this, lockFile
      ensures Valid() && Sight() == Nothing
      ensures forall q :: q != pid ==> ModeOf(lockFile.table, q) == ModeOf(old(lockFile.table), q)
    {
      if isOpen {
        lockFile.Close(pid);
        isOpen := false;
      }
      shared := false;
    }
  }
}
