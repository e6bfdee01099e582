/** do_dup2_to_remote among other tasks: it looks into the tracer's table under the lock of the tracee's.

    Steps are atomic where the code holds a lock, and where it takes a reference. The references of a file are
    the slots that hold it; a file without one is freed. */
module RemoteDup {
  import opened Areas

  /** The tracer's table, and the tracee's. */
  datatype Table = Local | Remote

  datatype Slot = Slot(table: Table, n: nat)

  /** Where the tracer is: holding the tracee's lock, with slot fd still to be read; or with the file it read
      there, and no reference to it yet. */
  datatype Pc = Idle | Locked(fd: nat, n: nat) | Checked(fd: nat, n: nat, file: FileId)

  datatype State = State(slots: map<Slot, FileId>, pc: Pc)

  /** Whether tracer and tracee have one table, and files->count of the tracer's, the number of its users. Anybody
      may act in the seat of another user: that user itself or, while it is stopped, the one that traces it. */
  datatype Setup = Setup(same: bool, users: nat)

  datatype Action =
    | Lock(fd: nat, n: nat)                   // the tracee's file_lock is taken
    | Check                                   // fcheck
    | Take                                    // get_file and the store into slot n, whose old file is dropped
    | Fail                                    // the call fails and unlocks
    | Close(slot: Slot)                       // a number is closed in another user's seat
    | Open(slot: Slot, file: FileId)          // a file is put there in another user's seat

  /** The slot that the tracer reads. */
  function Source(u: Setup, fd: nat): Slot {
    Slot(if u.same then Remote else Local, fd)
  }

  /** Others may write to the table: the tracee's while its lock is free, the tracer's if it has another user. */
  predicate Writable(u: Setup, s: State, table: Table) {
    if table == Remote then s.pc == Idle else !u.same && u.users > 1
  }

  predicate Enabled(u: Setup, s: State, a: Action) {
    match a
    case Lock(fd, n) => s.pc == Idle
    case Check => s.pc.Locked? && Source(u, s.pc.fd) in s.slots
    case Take => s.pc.Checked?
    case Fail => s.pc != Idle
    case Close(slot) => Writable(u, s, slot.table)
    case Open(slot, file) => Writable(u, s, slot.table)
  }

  function Do(u: Setup, s: State, a: Action): State
    requires Enabled(u, s, a)
  {
    match a
    case Lock(fd, n) => s.(pc := Locked(fd, n))
    case Check => s.(pc := Checked(s.pc.fd, s.pc.n, s.slots[Source(u, s.pc.fd)]))
    case Take => State(s.slots[Slot(Remote, s.pc.n) := s.pc.file], Idle)
    case Fail => s.(pc := Idle)
    case Close(slot) => s.(slots := s.slots - {slot})
    case Open(slot, file) => s.(slots := s.slots[slot := file])
  }

  /** The slots that hold the file, and f_count, their number. */
  ghost function Holders(s: State, f: FileId): set<Slot> {
    set x | x in s.slots && s.slots[x] == f
  }

  ghost function Count(s: State, f: FileId): nat {
    |Holders(s, f)|
  }

  /** A file that is about to be given a reference has not been freed. */
  ghost predicate Alive(s: State) {
    s.pc.Checked? ==> Count(s, s.pc.file) > 0
  }

  ghost predicate IsRun(u: Setup, run: seq<State>, acts: seq<Action>) {
    && |run| == |acts| + 1 && run[0].pc == Idle
    && forall i :: 0 <= i < |acts| ==> Enabled(u, run[i], acts[i]) && run[i + 1] == Do(u, run[i], acts[i])
  }

  /** What was read is still there. */
  ghost predicate Inv(u: Setup, s: State) {
    s.pc.Checked? ==> Source(u, s.pc.fd) in s.slots && s.slots[Source(u, s.pc.fd)] == s.pc.file
  }

  lemma {:induction false} RunInv(u: Setup, run: seq<State>, acts: seq<Action>, i: nat)
    requires (u.same || u.users <= 1) && IsRun(u, run, acts) && i < |run|
    ensures Inv(u, run[i])
  {
    if i > 0 {
      RunInv(u, run, acts, i - 1);
      assert Enabled(u, run[i - 1], acts[i - 1]);
    }
  }

  lemma {:induction false} StillAlive(u: Setup, s: State)
    requires Inv(u, s)
    ensures Alive(s)
  {
    if s.pc.Checked? {
      assert Source(u, s.pc.fd) in Holders(s, s.pc.file);
    }
  }

  /** Two tables, and the tracer's has another user: in that one's seat the number is closed between the look and
      the reference. */
  lemma {:induction false} ClosedMeanwhile(u: Setup, fd: nat, n: nat, f: FileId)
    returns (run: seq<State>, acts: seq<Action>)
    requires !u.same && u.users > 1
    ensures IsRun(u, run, acts) && |run| == 4 && run[3].pc == Checked(fd, n, f) && Count(run[3], f) == 0
  {
    var full: map<Slot, FileId> := map[Slot(Local, fd) := f];
    var none: map<Slot, FileId> := map[];
    acts := [Lock(fd, n), Check, Close(Slot(Local, fd))];
    run := [State(full, Idle), State(full, Locked(fd, n)), State(full, Checked(fd, n, f)),
            State(none, Checked(fd, n, f))];
    assert full - {Slot(Local, fd)} == none;
    assert Holders(run[3], f) == {};
  }

  /** In every run the file is alive when its reference is taken, if and only if tracer and tracee have one table or
      the tracer is the only user of its own. */
  lemma {:induction false} AliveExactly(u: Setup)
    ensures u.same || u.users <= 1 <==> forall run, acts, i :: IsRun(u, run, acts) && 0 <= i < |run| ==> Alive(run[i])
  {
    if u.same || u.users <= 1 {
      forall run, acts, i | IsRun(u, run, acts) && 0 <= i < |run| ensures Alive(run[i]) {
        RunInv(u, run, acts, i);
        StillAlive(u, run[i]);
      }
    } else {
      var run, acts := ClosedMeanwhile(u, 0, 0, 0);
      assert !Alive(run[3]);
    }
  }
}
