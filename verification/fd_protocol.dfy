/** The descriptor table under concurrency: lock-free __fd_install against table expansion, and reserve,
    install, dup2, close and release by many tasks.

    Steps are sequentially consistent. Work done under file_lock is one step, except that a resize lets
    the lock go and takes it again. A grace period waits for the readers that were inside when it began. */
module FdProtocol {
  import opened Areas

  type Tid = nat
  type TableId = nat

  /** One fdtable: its size, its files and its open numbers. */
  datatype Table = Table(size: nat, fd: map<nat, FileId>, open: set<nat>)

  /** Where a task is. */
  datatype Pc =
    | Away                                                // not using the table
    | Ready                                               // using it, outside the modelled calls
    | Reserved(n: nat)                                    // has reserved n
    | Entering(n: nat, file: FileId)                      // in __fd_install, before rcu_read_lock_sched or waiting
    | Inside(n: nat, file: FileId)                        // in the read section, flag not yet read
    | Backing(n: nat, file: FileId)                       // saw resize_in_progress
    | Checked(n: nat, file: FileId)                       // saw no resize
    | Loaded(n: nat, file: FileId, table: TableId)        // has read the table pointer
    | Leaving                                             // stored, still in the read section
    | Flagged(min: nat)                                   // has set resize_in_progress, holds the lock
    | Unlocked(min: nat)                                  // let the lock go
    | Waiting(min: nat, readers: set<Tid>)                // in synchronize_sched
    | Relocked(min: nat)                                  // has the lock again
    | Copied(table: TableId)                              // new table filled, not yet published
    | Published                                           // new table published, flag still set

  /** `users` hold a reference on the table, so files->count is their number; `seat` says for which user a
      task acts: itself, or the stopped tracee of a tracer. `content` is what is installed and not closed. */
  datatype State = State(users: set<Tid>, seat: map<Tid, Tid>, pc: map<Tid, Pc>, tables: map<TableId, Table>,
                         cur: TableId, lock: Option<Tid>, resizer: Option<Tid>, content: map<nat, FileId>)

  function PcOf(s: State, t: Tid): Pc {
    if t in s.pc then s.pc[t] else Away
  }

  /** The number that a task has reserved and not yet installed into. */
  function Owns(pc: Pc): Option<nat> {
    match pc
    case Reserved(n) => Some(n)
    case Entering(n, _) => Some(n)
    case Inside(n, _) => Some(n)
    case Backing(n, _) => Some(n)
    case Checked(n, _) => Some(n)
    case Loaded(n, _, _) => Some(n)
    case _ => None
  }

  /** In the read section of __fd_install. */
  predicate Reading(pc: Pc) {
    pc.Inside? || pc.Backing? || pc.Checked? || pc.Loaded? || pc.Leaving?
  }

  /** Has seen that no resize is in progress and not yet stored. */
  predicate PastCheck(pc: Pc) {
    pc.Checked? || pc.Loaded?
  }

  predicate Resizing(pc: Pc) {
    pc.Flagged? || pc.Unlocked? || pc.Waiting? || pc.Relocked? || pc.Copied? || pc.Published?
  }

  predicate HoldsLock(pc: Pc) {
    pc.Flagged? || pc.Relocked? || pc.Copied? || pc.Published?
  }

  datatype Action =
    | Join(u: Tid) | Quit(u: Tid)
    | Come(t: Tid, u: Tid) | Go(t: Tid)
    | Reserve(t: Tid, n: nat) | Release(t: Tid)
    | Close(t: Tid, n: nat) | Dup2(t: Tid, n: nat, file: FileId)
    | Install(t: Tid, file: FileId) | ReadLock(t: Tid) | ReadFlag(t: Tid) | BackOff(t: Tid)
    | LoadTable(t: Tid) | Store(t: Tid) | ReadUnlock(t: Tid)
    | SetFlag(t: Tid, min: nat) | Unlock(t: Tid) | BeginWait(t: Tid) | EndWait(t: Tid) | GiveUp(t: Tid)
    | Copy(t: Tid, id: TableId, size: nat) | Publish(t: Tid) | ClearFlag(t: Tid)

  /** Tasks in the read section. */
  function Readers(s: State): set<Tid> {
    set t | t in s.pc && Reading(s.pc[t])
  }

  /** The table without number n. */
  function Without(tab: Table, n: nat): Table {
    tab.(fd := tab.fd - {n}, open := tab.open - {n})
  }

  predicate Enabled(s: State, a: Action)
    requires s.cur in s.tables
  {
    var tab := s.tables[s.cur];
    match a
    case Join(u) => u !in s.users
    case Quit(u) => u in s.users && u !in s.seat.Values
    case Come(t, u) => PcOf(s, t) == Away && u in s.users && u !in s.seat.Values
    case Go(t) => PcOf(s, t) == Ready
    case Reserve(t, n) => PcOf(s, t) == Ready && s.lock == None && n < tab.size && n !in tab.open
    case Release(t) => PcOf(s, t).Reserved? && s.lock == None
    case Close(t, n) => PcOf(s, t) == Ready && s.lock == None && n in tab.fd
    case Dup2(t, n, _) => PcOf(s, t) == Ready && s.lock == None && n < tab.size && (n in tab.fd || n !in tab.open)
    case Install(t, _) => PcOf(s, t).Reserved?
    case ReadLock(t) => PcOf(s, t).Entering?
    case ReadFlag(t) => PcOf(s, t).Inside?
    case BackOff(t) => PcOf(s, t).Backing?
    case LoadTable(t) => PcOf(s, t).Checked?
    case Store(t) => PcOf(s, t).Loaded? && PcOf(s, t).table in s.tables
    case ReadUnlock(t) => PcOf(s, t).Leaving?
    case SetFlag(t, min) => PcOf(s, t) == Ready && s.lock == None && s.resizer == None && tab.size <= min
    case Unlock(t) => PcOf(s, t).Flagged?
    case BeginWait(t) => PcOf(s, t).Unlocked?
    case EndWait(t) => PcOf(s, t).Waiting? && PcOf(s, t).readers == {} && s.lock == None
    case GiveUp(t) => PcOf(s, t).Relocked?
    case Copy(t, id, size) => PcOf(s, t).Relocked? && PcOf(s, t).min < size && tab.size <= size && id !in s.tables
    case Publish(t) => PcOf(s, t).Copied?
    case ClearFlag(t) => PcOf(s, t).Published?
  }

  function SetPc(s: State, t: Tid, pc: Pc): State {
    s.(pc := s.pc[t := pc])
  }

  /** The state with the current table changed. */
  function SetTable(s: State, tab: Table): State {
    s.(tables := s.tables[s.cur := tab])
  }

  /** A resizer that waits no longer waits for t. */
  function Unread(s: State, t: Tid): State {
    if s.resizer.Some? && PcOf(s, s.resizer.value).Waiting? then
      var r := s.resizer.value;
      SetPc(s, r, Waiting(s.pc[r].min, s.pc[r].readers - {t}))
    else s
  }

  function Do(s: State, a: Action): State
    requires s.cur in s.tables && Enabled(s, a)
  {
    var tab := s.tables[s.cur];
    match a
    case Join(u) => s.(users := s.users + {u})
    case Quit(u) => s.(users := s.users - {u})
    case Come(t, u) => SetPc(s.(seat := s.seat[t := u]), t, Ready)
    case Go(t) => SetPc(s.(seat := s.seat - {t}), t, Away)
    case Reserve(t, n) => SetPc(SetTable(s, tab.(open := tab.open + {n})), t, Reserved(n))
    case Release(t) => SetPc(SetTable(s, tab.(open := tab.open - {s.pc[t].n})), t, Ready)
    case Close(t, n) => SetTable(s, Without(tab, n)).(content := s.content - {n})
    case Dup2(t, n, file) =>
      SetTable(s, tab.(fd := tab.fd[n := file], open := tab.open + {n})).(content := s.content[n := file])
    case Install(t, file) => SetPc(s, t, Entering(s.pc[t].n, file))
    case ReadLock(t) => SetPc(s, t, Inside(s.pc[t].n, s.pc[t].file))
    case ReadFlag(t) =>
      SetPc(s, t, if s.resizer.Some? then Backing(s.pc[t].n, s.pc[t].file) else Checked(s.pc[t].n, s.pc[t].file))
    case BackOff(t) => Unread(SetPc(s, t, Entering(s.pc[t].n, s.pc[t].file)), t)
    case LoadTable(t) => SetPc(s, t, Loaded(s.pc[t].n, s.pc[t].file, s.cur))
    case Store(t) =>
      var k, n, file := s.pc[t].table, s.pc[t].n, s.pc[t].file;
      SetPc(s.(tables := s.tables[k := s.tables[k].(fd := s.tables[k].fd[n := file])], content := s.content[n := file]),
            t, Leaving)
    case ReadUnlock(t) => Unread(SetPc(s, t, Ready), t)
    case SetFlag(t, min) => SetPc(s.(lock := Some(t), resizer := Some(t)), t, Flagged(min))
    case Unlock(t) => SetPc(s.(lock := None), t, Unlocked(s.pc[t].min))
    case BeginWait(t) => SetPc(s, t, Waiting(s.pc[t].min, if |s.users| > 1 then Readers(s) else {}))
    case EndWait(t) => SetPc(s.(lock := Some(t)), t, Relocked(s.pc[t].min))
    case GiveUp(t) => SetPc(s.(lock := None, resizer := None), t, Ready)
    case Copy(t, id, size) => SetPc(s.(tables := s.tables[id := Table(size, tab.fd, tab.open)]), t, Copied(id))
    case Publish(t) => SetPc(s.(cur := s.pc[t].table), t, Published)
    case ClearFlag(t) => SetPc(s.(lock := None, resizer := None), t, Ready)
  }

  // ---------- what every step keeps ----------

  /** The table holds exactly what is installed and not closed; its files have their open bits. */
  ghost predicate Holds(tab: Table, content: map<nat, FileId>) {
    tab.fd == content && (forall n :: n in content ==> n in tab.open) && (forall n :: n in tab.open ==> n < tab.size)
  }

  /** A reserved number is open and its slot empty. */
  ghost predicate Vacant(s: State, n: nat)
    requires s.cur in s.tables
  {
    n in s.tables[s.cur].open && n !in s.content
  }

  /** What holds of every task. */
  ghost predicate TaskOk(s: State, t: Tid)
    requires s.cur in s.tables
  {
    var pc := PcOf(s, t);
    && (pc == Away <==> t !in s.seat)
    && (t in s.seat ==> s.seat[t] in s.users)
    && (Owns(pc).Some? ==> Vacant(s, Owns(pc).value))
    && (pc.Loaded? ==> pc.table == s.cur)
    && (Resizing(pc) <==> s.resizer == Some(t))
    && (HoldsLock(pc) <==> s.lock == Some(t))
    && ((pc.Flagged? || pc.Unlocked? || pc.Waiting? || pc.Relocked?) ==> s.tables[s.cur].size <= pc.min)
    && (pc.Copied? ==> pc.table in s.tables && Holds(s.tables[pc.table], s.content)
                       && s.tables[pc.table].open == s.tables[s.cur].open
                          && s.tables[s.cur].size <= s.tables[pc.table].size)
  }

  /** Two tasks act for different users and own different numbers. */
  ghost predicate PairOk(s: State, t: Tid, u: Tid) {
    t != u ==>
      && (t in s.seat && u in s.seat ==> s.seat[t] != s.seat[u])
      && (Owns(PcOf(s, t)).Some? ==> Owns(PcOf(s, t)) != Owns(PcOf(s, u)))
  }

  /** While a resize waits, every task past its check is waited for; from then on there is none. */
  ghost predicate GraceOk(s: State, t: Tid) {
    s.resizer.Some? && PastCheck(PcOf(s, t)) ==>
      var r := PcOf(s, s.resizer.value);
      r.Flagged? || r.Unlocked? || (r.Waiting? && t in r.readers)
  }

  ghost predicate Inv(s: State) {
    && s.cur in s.tables && Holds(s.tables[s.cur], s.content)
    && (s.lock.Some? ==> s.lock == s.resizer)
    && (forall t {:trigger PcOf(s, t)} :: TaskOk(s, t))
    && (forall t, u {:trigger PairOk(s, t, u)} :: PairOk(s, t, u))
    && (forall t {:trigger GraceOk(s, t)} :: GraceOk(s, t))
  }

  ghost predicate Init(s: State) {
    && s.cur in s.tables && Holds(s.tables[s.cur], s.content)
    && s.seat == map[] && s.pc == map[] && s.lock == None && s.resizer == None
  }

  lemma {:induction false} InitInv(s: State)
    requires Init(s)
    ensures Inv(s)
  {
    forall t ensures TaskOk(s, t) { }
    forall t, u ensures PairOk(s, t, u) { }
    forall t ensures GraceOk(s, t) { }
  }

  /** Users come and go. */
  lemma {:induction false} KeepUsers(s: State, a: Action)
    requires Inv(s) && Enabled(s, a) && (a.Join? || a.Quit?)
    ensures Inv(Do(s, a))
  {
    var s' := Do(s, a);
    forall x ensures TaskOk(s', x) { assert TaskOk(s, x); }
    forall x, y ensures PairOk(s', x, y) { assert PairOk(s, x, y); }
    forall x ensures GraceOk(s', x) { assert GraceOk(s, x); }
  }

  /** Tasks take and leave their seats. */
  lemma {:induction false} KeepSeats(s: State, a: Action)
    requires Inv(s) && Enabled(s, a) && (a.Come? || a.Go?)
    ensures Inv(Do(s, a))
  {
    var s' := Do(s, a);
    forall x ensures TaskOk(s', x) { assert TaskOk(s, x); }
    forall x, y ensures PairOk(s', x, y) { assert PairOk(s, x, y); }
    forall x ensures GraceOk(s', x) { assert GraceOk(s, x); }
  }

  /** Steps of __fd_install that touch only the task itself. */
  lemma {:induction false} KeepEnter(s: State, a: Action)
    requires Inv(s) && Enabled(s, a) && (a.Install? || a.ReadLock?)
    ensures Inv(Do(s, a))
  {
    var s' := Do(s, a);
    forall x ensures TaskOk(s', x) { assert TaskOk(s, x); }
    forall x, y ensures PairOk(s', x, y) { assert PairOk(s, x, y); }
    forall x ensures GraceOk(s', x) { assert GraceOk(s, x); }
  }

  lemma {:induction false} KeepFlagRead(s: State, a: Action)
    requires Inv(s) && Enabled(s, a) && (a.ReadFlag?)
    ensures Inv(Do(s, a))
  {
    var s' := Do(s, a);
    forall x ensures TaskOk(s', x) { assert TaskOk(s, x); }
    forall x, y ensures PairOk(s', x, y) { assert PairOk(s, x, y); }
    forall x ensures GraceOk(s', x) { assert GraceOk(s, x); }
  }

  lemma {:induction false} KeepLoad(s: State, a: Action)
    requires Inv(s) && Enabled(s, a) && (a.LoadTable?)
    ensures Inv(Do(s, a))
  {
    var s' := Do(s, a);
    forall x ensures TaskOk(s', x) { assert TaskOk(s, x); }
    forall x, y ensures PairOk(s', x, y) { assert PairOk(s, x, y); }
    forall x ensures GraceOk(s', x) { assert GraceOk(s, x); }
  }

  /** Work under the lock. */
  lemma {:induction false} KeepReserve(s: State, a: Action)
    requires Inv(s) && Enabled(s, a) && (a.Reserve? || a.Release?)
    ensures Inv(Do(s, a))
  {
    var s' := Do(s, a);
    forall x ensures TaskOk(s', x) { assert TaskOk(s, x) && PairOk(s, x, a.t); }
    forall x, y ensures PairOk(s', x, y) { assert PairOk(s, x, y) && TaskOk(s, x) && TaskOk(s, y); }
    forall x ensures GraceOk(s', x) { assert GraceOk(s, x); }
  }

  lemma {:induction false} KeepWrite(s: State, a: Action)
    requires Inv(s) && Enabled(s, a) && (a.Close? || a.Dup2?)
    ensures Inv(Do(s, a))
  {
    var s' := Do(s, a);
    forall x ensures TaskOk(s', x) { assert TaskOk(s, x) && PairOk(s, x, a.t); }
    forall x, y ensures PairOk(s', x, y) { assert PairOk(s, x, y) && TaskOk(s, x) && TaskOk(s, y); }
    forall x ensures GraceOk(s', x) { assert GraceOk(s, x); }
  }

  /** A task steps out of the read section. */
  lemma {:induction false} KeepOut(s: State, t: Tid, pc: Pc)
    requires Inv(s) && ((PcOf(s, t).Backing? && pc == Entering(s.pc[t].n, s.pc[t].file))
                        || (PcOf(s, t).Leaving? && pc == Ready))
    ensures Inv(SetPc(s, t, pc))
  {
    var s' := SetPc(s, t, pc);
    forall x ensures TaskOk(s', x) { assert TaskOk(s, x); }
    forall x, y ensures PairOk(s', x, y) { assert PairOk(s, x, y); }
    forall x ensures GraceOk(s', x) { assert GraceOk(s, x); }
  }

  /** A resizer need not wait for a task that has left. */
  lemma {:induction false} KeepUnread(s: State, t: Tid)
    requires Inv(s) && !PastCheck(PcOf(s, t))
    ensures Inv(Unread(s, t))
  {
    if s.resizer.Some? && PcOf(s, s.resizer.value).Waiting? {
      var s' := Unread(s, t);
      forall x ensures TaskOk(s', x) { assert TaskOk(s, x); }
      forall x, y ensures PairOk(s', x, y) { assert PairOk(s, x, y); }
      forall x ensures GraceOk(s', x) { assert GraceOk(s, x); }
    }
  }

  lemma {:induction false} KeepLeave(s: State, a: Action)
    requires Inv(s) && Enabled(s, a) && (a.BackOff? || a.ReadUnlock?)
    ensures Inv(Do(s, a))
  {
    hide Inv;
    var pc := if a.BackOff? then Entering(s.pc[a.t].n, s.pc[a.t].file) else Ready;
    KeepOut(s, a.t, pc);
    KeepUnread(SetPc(s, a.t, pc), a.t);
  }

  /** The lock-free store: the table it goes to is the current one, and no copy of it has been made. */
  lemma {:induction false} KeepStore(s: State, a: Action)
    requires Inv(s) && Enabled(s, a) && (a.Store?)
    ensures Inv(Do(s, a))
  {
    var s' := Do(s, a);
    assert TaskOk(s, a.t);
    forall x ensures TaskOk(s', x) {
      assert TaskOk(s, x) && PairOk(s, x, a.t) && GraceOk(s, a.t);
    }
    forall x, y ensures PairOk(s', x, y) { assert PairOk(s, x, y); }
    forall x ensures GraceOk(s', x) { assert GraceOk(s, x); }
  }

  lemma {:induction false} KeepFlag(s: State, a: Action)
    requires Inv(s) && Enabled(s, a) && (a.SetFlag? || a.Unlock?)
    ensures Inv(Do(s, a))
  {
    var s' := Do(s, a);
    assert TaskOk(s, a.t);
    forall x ensures TaskOk(s', x) {
      assert TaskOk(s, x) && PairOk(s, x, a.t) && GraceOk(s, a.t);
    }
    forall x, y ensures PairOk(s', x, y) { assert PairOk(s, x, y); }
    forall x ensures GraceOk(s', x) { assert GraceOk(s, x); }
  }

  /** The grace period: with one user there is no other task inside, with more all of them are waited for. */
  lemma {:induction false} KeepWait(s: State, a: Action)
    requires Inv(s) && Enabled(s, a) && (a.BeginWait?)
    ensures Inv(Do(s, a))
  {
    var s' := Do(s, a);
    assert TaskOk(s, a.t);
    forall x ensures TaskOk(s', x) { assert TaskOk(s, x); }
    forall x, y ensures PairOk(s', x, y) { assert PairOk(s, x, y); }
    forall x ensures GraceOk(s', x) {
      assert GraceOk(s, x) && TaskOk(s, x) && PairOk(s, x, a.t);
      if x != a.t && PastCheck(PcOf(s, x)) { TwoUsers(s.users, s.seat[x], s.seat[a.t]); }
    }
  }

  lemma {:induction false} KeepRelock(s: State, a: Action)
    requires Inv(s) && Enabled(s, a) && (a.EndWait? || a.GiveUp? || a.ClearFlag?)
    ensures Inv(Do(s, a))
  {
    var s' := Do(s, a);
    assert TaskOk(s, a.t);
    forall x ensures TaskOk(s', x) {
      assert TaskOk(s, x) && PairOk(s, x, a.t) && GraceOk(s, a.t);
    }
    forall x, y ensures PairOk(s', x, y) { assert PairOk(s, x, y); }
    forall x ensures GraceOk(s', x) { assert GraceOk(s, x); }
  }

  lemma {:induction false} KeepCopy(s: State, a: Action)
    requires Inv(s) && Enabled(s, a) && (a.Copy? || a.Publish?)
    ensures Inv(Do(s, a))
  {
    var s' := Do(s, a);
    assert TaskOk(s, a.t);
    forall x ensures TaskOk(s', x) { assert TaskOk(s, x) && GraceOk(s, x); }
    forall x, y ensures PairOk(s', x, y) { assert PairOk(s, x, y); }
    forall x ensures GraceOk(s', x) { assert GraceOk(s, x); }
  }

  lemma {:induction false} TwoUsers(users: set<Tid>, u: Tid, v: Tid)
    requires u in users && v in users && u != v
    ensures |users| > 1
  {
    assert {u, v} <= users;
    assert |users - {u}| == |users| - 1 && v in users - {u};
  }

  /** Every step keeps the invariant. */
  lemma {:induction false} Keep(s: State, a: Action)
    requires Inv(s) && Enabled(s, a)
    ensures Inv(Do(s, a))
  {
    hide Inv, Enabled, Do;
    match a
    case Join(_) => KeepUsers(s, a);
    case Quit(_) => KeepUsers(s, a);
    case Come(_, _) => KeepSeats(s, a);
    case Go(_) => KeepSeats(s, a);
    case Reserve(_, _) => KeepReserve(s, a);
    case Release(_) => KeepReserve(s, a);
    case Close(_, _) => KeepWrite(s, a);
    case Dup2(_, _, _) => KeepWrite(s, a);
    case Install(_, _) => KeepEnter(s, a);
    case ReadLock(_) => KeepEnter(s, a);
    case ReadFlag(_) => KeepFlagRead(s, a);
    case BackOff(_) => KeepLeave(s, a);
    case LoadTable(_) => KeepLoad(s, a);
    case Store(_) => KeepStore(s, a);
    case ReadUnlock(_) => KeepLeave(s, a);
    case SetFlag(_, _) => KeepFlag(s, a);
    case Unlock(_) => KeepFlag(s, a);
    case BeginWait(_) => KeepWait(s, a);
    case EndWait(_) => KeepRelock(s, a);
    case GiveUp(_) => KeepRelock(s, a);
    case Copy(_, _, _) => KeepCopy(s, a);
    case Publish(_) => KeepCopy(s, a);
    case ClearFlag(_) => KeepRelock(s, a);
  }

  // ---------- runs ----------

  /** Any interleaving: one action after the other from an initial state. */
  ghost predicate IsRun(run: seq<State>, acts: seq<Action>) {
    && |run| == |acts| + 1 && Init(run[0])
    && forall i :: 0 <= i < |acts| ==> run[i].cur in run[i].tables && Enabled(run[i], acts[i])
                                       && run[i + 1] == Do(run[i], acts[i])
  }

  lemma {:induction false} RunInv(run: seq<State>, acts: seq<Action>, i: nat)
    requires IsRun(run, acts) && i < |run|
    ensures Inv(run[i])
  {
    hide Inv, Enabled, Do, Init;
    if i == 0 {
      InitInv(run[0]);
    } else {
      RunInv(run, acts, i - 1);
      Keep(run[i - 1], acts[i - 1]);
    }
  }

  /** The step puts the file into slot n. */
  predicate Installs(s: State, a: Action, n: nat, file: FileId) {
    (a.Dup2? && a.n == n && a.file == file)
    || (a.Store? && PcOf(s, a.t).Loaded? && PcOf(s, a.t).n == n && PcOf(s, a.t).file == file)
  }

  /** The step closes number n or puts another file there. */
  predicate Removes(a: Action, n: nat) {
    (a.Close? && a.n == n) || (a.Dup2? && a.n == n)
  }

  lemma {:induction false} InstalledThen(s: State, a: Action, n: nat, file: FileId)
    requires Inv(s) && Enabled(s, a) && Installs(s, a, n, file)
    ensures n in Do(s, a).content && Do(s, a).content[n] == file
  {
  }

  /** Only closing or dup2 takes a file out of its slot. */
  lemma {:induction false} Persists(s: State, a: Action, n: nat)
    requires Inv(s) && Enabled(s, a) && n in s.content && !Removes(a, n)
    ensures n in Do(s, a).content && Do(s, a).content[n] == s.content[n]
  {
    if a.Store? { assert TaskOk(s, a.t); }
  }

  lemma {:induction false} PersistsRun(run: seq<State>, acts: seq<Action>, i: nat, j: nat, n: nat, file: FileId)
    requires IsRun(run, acts) && i <= j < |run| && n in run[i].content && run[i].content[n] == file
    requires forall k :: i <= k < j ==> !Removes(acts[k], n)
    ensures n in run[j].content && run[j].content[n] == file
    decreases j - i
  {
    hide Inv, Enabled, Do, Init, Removes;
    if i < j {
      RunInv(run, acts, i);
      Persists(run[i], acts[i], n);
      PersistsRun(run, acts, i + 1, j, n, file);
    }
  }

  /** No installed file is lost: whatever resizes come between, from the step that installs it until a step
      removes it, the table in force holds the file in its slot. */
  lemma {:induction false} NothingLost(run: seq<State>, acts: seq<Action>, i: nat, j: nat, n: nat, file: FileId)
    requires IsRun(run, acts) && i < j < |run| && Installs(run[i], acts[i], n, file)
    requires forall k :: i < k < j ==> !Removes(acts[k], n)
    ensures run[j].cur in run[j].tables && n in run[j].tables[run[j].cur].fd && run[j].tables[run[j].cur].fd[n] == file
  {
    hide Enabled, Do, Init, Removes, Installs, TaskOk, PairOk, GraceOk;
    RunInv(run, acts, i);
    RunInv(run, acts, j);
    InstalledThen(run[i], acts[i], n, file);
    PersistsRun(run, acts, i + 1, j, n, file);
  }

  /** The BUG_ON in __fd_install, the BUG_ON in expand_fdtable and the slot check in __alloc_fd never fire. */
  lemma {:induction false} NoBug(run: seq<State>, acts: seq<Action>, i: nat, t: Tid)
    requires IsRun(run, acts) && i < |run|
    ensures var s := run[i];
            && s.cur in s.tables
            && (PcOf(s, t).Loaded? ==> PcOf(s, t).table in s.tables && PcOf(s, t).n < s.tables[PcOf(s, t).table].size
                                       && PcOf(s, t).n !in s.tables[PcOf(s, t).table].fd)
            && (PcOf(s, t).Relocked? ==> s.tables[s.cur].size <= PcOf(s, t).min)
            && (forall n :: n !in s.tables[s.cur].open ==> n !in s.tables[s.cur].fd)
  {
    RunInv(run, acts, i);
    assert TaskOk(run[i], t);
  }

  /** In every run: a reserved number stays reserved and its slot empty until its owner stores into it or
      releases it. */
  lemma {:induction false} ReservedStays(run: seq<State>, acts: seq<Action>, i: nat, j: nat, t: Tid, n: nat)
    requires IsRun(run, acts) && i <= j < |run| && Owns(PcOf(run[i], t)) == Some(n)
    requires forall k :: i <= k < j ==> acts[k] != Store(t) && acts[k] != Release(t)
    ensures run[j].cur in run[j].tables && Owns(PcOf(run[j], t)) == Some(n) && Vacant(run[j], n)
    decreases j - i
  {
    hide Enabled, Do, Init, TaskOk, PairOk, GraceOk, Vacant;
    RunInv(run, acts, i);
    if i < j {
      ReservedStep(run[i], acts[i], t, n);
      ReservedStays(run, acts, i + 1, j, t, n);
    } else {
      OwnedVacant(run[i], t, n);
    }
  }

  lemma {:induction false} OwnedVacant(s: State, t: Tid, n: nat)
    requires Inv(s) && Owns(PcOf(s, t)) == Some(n)
    ensures Vacant(s, n)
  {
    assert TaskOk(s, t);
  }

  lemma {:induction false} ReservedStep(s: State, a: Action, t: Tid, n: nat)
    requires Inv(s) && Enabled(s, a) && Owns(PcOf(s, t)) == Some(n) && a != Store(t) && a != Release(t)
    ensures Owns(PcOf(Do(s, a), t)) == Some(n) && Inv(Do(s, a)) && Vacant(Do(s, a), n)
  {
    assert TaskOk(s, t);
    if s.resizer.Some? { assert TaskOk(s, s.resizer.value); }
    Keep(s, a);
    assert TaskOk(Do(s, a), t);
  }

  // ---------- no number leaks ----------

  /** Every open number holds a file or is reserved by a task. */
  ghost predicate Accounted(s: State)
    requires s.cur in s.tables
  {
    forall n :: n in s.tables[s.cur].open && n !in s.content ==> exists t :: Owns(PcOf(s, t)) == Some(n)
  }

  lemma {:induction false} KeepAccounted(s: State, a: Action)
    requires Inv(s) && Accounted(s) && Enabled(s, a)
    ensures Do(s, a).cur in Do(s, a).tables && Accounted(Do(s, a))
  {
    hide Enabled, Do;
    Keep(s, a);
    var s' := Do(s, a);
    forall n | n in s'.tables[s'.cur].open && n !in s'.content ensures exists t :: Owns(PcOf(s', t)) == Some(n) {
      OpenedBy(s, a, n);
      if a.Reserve? && a.n == n {
        assert Owns(PcOf(s', a.t)) == Some(n);
      } else {
        var t :| Owns(PcOf(s, t)) == Some(n);
        OwnerKeeps(s, a, t, n);
      }
    }
  }

  /** A number that is open and empty after a step was reserved by it, or was so before. */
  lemma {:induction false} OpenedBy(s: State, a: Action, n: nat)
    requires Inv(s) && Enabled(s, a) && Do(s, a).cur in Do(s, a).tables
    requires n in Do(s, a).tables[Do(s, a).cur].open && n !in Do(s, a).content
    ensures if a.Reserve? && a.n == n then Owns(PcOf(Do(s, a), a.t)) == Some(n)
            else n in s.tables[s.cur].open && n !in s.content
  {
    if a.Store? || a.Publish? { assert TaskOk(s, a.t); }
  }

  lemma {:induction false} OwnerKeeps(s: State, a: Action, t: Tid, n: nat)
    requires Inv(s) && Enabled(s, a) && Owns(PcOf(s, t)) == Some(n) && Do(s, a).cur in Do(s, a).tables
    requires n in Do(s, a).tables[Do(s, a).cur].open && n !in Do(s, a).content
    ensures Owns(PcOf(Do(s, a), t)) == Some(n)
  {
    hide Inv, Enabled, Do;
    OwnerEnds(s, a, t, n);
    ReservedStep(s, a, t, n);
  }

  /** When its owner stores or releases, a number is full or free. */
  lemma {:induction false} OwnerEnds(s: State, a: Action, t: Tid, n: nat)
    requires Inv(s) && Enabled(s, a) && Owns(PcOf(s, t)) == Some(n) && Do(s, a).cur in Do(s, a).tables
    ensures a == Store(t) ==> n in Do(s, a).content
    ensures a == Release(t) ==> n !in Do(s, a).tables[Do(s, a).cur].open
  {
    if a == Store(t) || a == Release(t) { assert TaskOk(s, t); }
  }

  /** In every run that starts without reservations: a number is open exactly if its slot holds a file or a task has
      reserved it, and then only one has. So no number that is closed or released stays taken. */
  lemma {:induction false} NoLeak(run: seq<State>, acts: seq<Action>, i: nat, n: nat)
    requires IsRun(run, acts) && i < |run| && Accounted(run[0])
    ensures var s := run[i];
            && s.cur in s.tables && Accounted(s)
            && (n in s.tables[s.cur].open <==> n in s.tables[s.cur].fd || exists t :: Owns(PcOf(s, t)) == Some(n))
            && forall t, u :: Owns(PcOf(s, t)) == Some(n) && Owns(PcOf(s, u)) == Some(n) ==> t == u
  {
    hide Enabled, Do;
    RunInv(run, acts, i);
    if i > 0 {
      NoLeak(run, acts, i - 1, n);
      RunInv(run, acts, i - 1);
      KeepAccounted(run[i - 1], acts[i - 1]);
    }
    forall t | Owns(PcOf(run[i], t)) == Some(n) ensures Vacant(run[i], n) { assert TaskOk(run[i], t); }
    forall t, u | Owns(PcOf(run[i], t)) == Some(n) && Owns(PcOf(run[i], u)) == Some(n) ensures t == u {
      assert PairOk(run[i], t, u);
    }
  }

  /** Nobody has reserved the number. */
  ghost predicate Unclaimed(s: State, n: nat) {
    forall t :: Owns(PcOf(s, t)) != Some(n)
  }

  /** In every run that starts without reservations, while the lock is free: a number of the table can be reserved
      exactly if it holds no file and nobody has reserved it; closed exactly if it holds a file; and be the target of
      dup2 exactly if nobody has reserved it. */
  lemma {:induction false} CallsAllowed(run: seq<State>, acts: seq<Action>, i: nat, t: Tid, n: nat, file: FileId)
    requires IsRun(run, acts) && i < |run| && Accounted(run[0]) && PcOf(run[i], t) == Ready && run[i].lock == None
    ensures var s := run[i];
            && s.cur in s.tables
            && (Enabled(s, Reserve(t, n)) <==> n < s.tables[s.cur].size && n !in s.content && Unclaimed(s, n))
            && (Enabled(s, Close(t, n)) <==> n in s.content)
            && (Enabled(s, Dup2(t, n, file)) <==> n < s.tables[s.cur].size && Unclaimed(s, n))
  {
    hide Do, Init, IsRun, TaskOk, PairOk, GraceOk, Accounted;
    RunInv(run, acts, i);
    NoLeak(run, acts, i, n);
    forall u | Owns(PcOf(run[i], u)) == Some(n) ensures Vacant(run[i], n) { OwnedVacant(run[i], u, n); }
  }

  /** And then it is reserved, closed or replaced, and no other slot changes. */
  lemma {:induction false} CallsDo(s: State, t: Tid, n: nat, file: FileId)
    requires Inv(s)
    ensures Enabled(s, Reserve(t, n)) ==>
              Owns(PcOf(Do(s, Reserve(t, n)), t)) == Some(n) && Do(s, Reserve(t, n)).content == s.content
    ensures Enabled(s, Release(t)) ==>
              PcOf(Do(s, Release(t)), t) == Ready && Do(s, Release(t)).content == s.content
    ensures Enabled(s, Close(t, n)) ==> Do(s, Close(t, n)).content == s.content - {n}
    ensures Enabled(s, Dup2(t, n, file)) ==> Do(s, Dup2(t, n, file)).content == s.content[n := file]
  {
  }

  // ---------- nobody is stuck ----------

  /** What a task does next if nothing fails. */
  function Next(pc: Pc, t: Tid, file: FileId): Action {
    match pc
    case Away => Come(t, t)
    case Ready => Go(t)
    case Reserved(_) => Install(t, file)
    case Entering(_, _) => ReadLock(t)
    case Inside(_, _) => ReadFlag(t)
    case Backing(_, _) => BackOff(t)
    case Checked(_, _) => LoadTable(t)
    case Loaded(_, _, _) => Store(t)
    case Leaving => ReadUnlock(t)
    case Flagged(_) => Unlock(t)
    case Unlocked(_) => BeginWait(t)
    case Waiting(_, _) => EndWait(t)
    case Relocked(_) => GiveUp(t)
    case Copied(_) => Publish(t)
    case Published => ClearFlag(t)
  }

  /** A resizer waits only for tasks that are in the read section. */
  ghost predicate Awaits(s: State) {
    forall t, u :: PcOf(s, t).Waiting? && u in PcOf(s, t).readers ==> Reading(PcOf(s, u))
  }

  /** One that begins to wait has asked who is there, and who leaves is no longer waited for. */
  lemma {:induction false} KeepAwaits(s: State, a: Action)
    requires Inv(s) && Awaits(s) && Enabled(s, a)
    ensures Awaits(Do(s, a))
  {
    hide Enabled, Do, TaskOk, PairOk, GraceOk, Holds;
    if a.BeginWait? {
      AwaitsBegin(s, a);
    } else if a.BackOff? || a.ReadUnlock? {
      AwaitsLeave(s, a);
    } else {
      AwaitsElse(s, a);
    }
  }

  lemma {:induction false} AwaitsBegin(s: State, a: Action)
    requires s.cur in s.tables && Awaits(s) && Enabled(s, a) && a.BeginWait?
    ensures Awaits(Do(s, a))
  {
    var s' := Do(s, a);
    forall t, u | PcOf(s', t).Waiting? && u in PcOf(s', t).readers ensures Reading(PcOf(s', u)) {
      assert t != a.t ==> PcOf(s, t).Waiting? && u in PcOf(s, t).readers && Reading(PcOf(s, u));
    }
  }

  lemma {:induction false} AwaitsLeave(s: State, a: Action)
    requires Inv(s) && Awaits(s) && Enabled(s, a) && (a.BackOff? || a.ReadUnlock?)
    ensures Awaits(Do(s, a))
  {
    var s' := Do(s, a);
    forall t, u | PcOf(s', t).Waiting? && u in PcOf(s', t).readers ensures Reading(PcOf(s', u)) {
      assert TaskOk(s, t) && TaskOk(s, u);
    }
  }

  lemma {:induction false} AwaitsElse(s: State, a: Action)
    requires s.cur in s.tables && Awaits(s) && Enabled(s, a) && !a.BeginWait? && !a.BackOff? && !a.ReadUnlock?
    ensures Awaits(Do(s, a))
  {
    var s' := Do(s, a);
    forall t, u | PcOf(s', t).Waiting? && u in PcOf(s', t).readers ensures Reading(PcOf(s', u)) {
      assert PcOf(s, t).Waiting? && u in PcOf(s, t).readers && Reading(PcOf(s, u));
    }
  }

  lemma {:induction false} RunAwaits(run: seq<State>, acts: seq<Action>, i: nat)
    requires IsRun(run, acts) && i < |run|
    ensures Awaits(run[i])
  {
    hide Inv, Enabled, Do;
    if i > 0 {
      RunAwaits(run, acts, i - 1);
      RunInv(run, acts, i - 1);
      KeepAwaits(run[i - 1], acts[i - 1]);
    }
  }

  lemma {:induction false} NextEnabled(s: State, t: Tid, file: FileId)
    requires Inv(s) && PcOf(s, t) != Away && (PcOf(s, t).Waiting? ==> PcOf(s, t).readers == {})
    ensures Enabled(s, Next(PcOf(s, t), t, file))
    ensures PcOf(s, t).Relocked? ==> forall id, size :: id !in s.tables && PcOf(s, t).min < size ==>
                                                          Enabled(s, Copy(t, id, size))
  {
    assert TaskOk(s, t);
    if s.lock.Some? { assert TaskOk(s, s.lock.value); }
  }

  /** In every run: a task in the middle of a call can always go on by itself, install without any lock included, but
      for a resizer in its grace period. That one waits for tasks in the read section, and each of them can go on.
      Who wants the lock waits for a resizer, which can. */
  lemma {:induction false} NeverStuck(run: seq<State>, acts: seq<Action>, i: nat, t: Tid, file: FileId)
    requires IsRun(run, acts) && i < |run| && PcOf(run[i], t) != Away
    ensures var s, pc := run[i], PcOf(run[i], t);
            && s.cur in s.tables
            && (if pc.Waiting? && pc.readers != {} then
                  forall u :: u in pc.readers ==> u != t && Reading(PcOf(s, u)) && Enabled(s, Next(PcOf(s, u), u, file))
                else Enabled(s, Next(pc, t, file)))
            && (s.lock.Some? ==> s.lock == s.resizer && !PcOf(s, s.lock.value).Waiting?
                                 && Enabled(s, Next(PcOf(s, s.lock.value), s.lock.value, file)))
  {
    hide Enabled, Do, Init, Next;
    var s, pc := run[i], PcOf(run[i], t);
    RunInv(run, acts, i);
    RunAwaits(run, acts, i);
    if pc.Waiting? && pc.readers != {} {
      forall u | u in pc.readers ensures u != t && Reading(PcOf(s, u)) && Enabled(s, Next(PcOf(s, u), u, file)) {
        NextEnabled(s, u, file);
      }
    } else {
      NextEnabled(s, t, file);
    }
    if s.lock.Some? {
      assert TaskOk(s, s.lock.value);
      NextEnabled(s, s.lock.value, file);
    }
  }

  /** Actions one after the other from any state. */
  ghost predicate Steps(run: seq<State>, acts: seq<Action>) {
    && |run| == |acts| + 1
    && forall i :: 0 <= i < |acts| ==> run[i].cur in run[i].tables && Enabled(run[i], acts[i])
                                       && run[i + 1] == Do(run[i], acts[i])
  }

  /** What each step of an install does when no resize is in progress. */
  lemma {:induction false} InstallStep(s: State, t: Tid)
    requires Inv(s) && s.resizer == None
    ensures s.cur in s.tables
    ensures PcOf(s, t).Entering? ==>
              Enabled(s, ReadLock(t)) && Do(s, ReadLock(t)) == SetPc(s, t, Inside(s.pc[t].n, s.pc[t].file))
    ensures PcOf(s, t).Inside? ==>
              Enabled(s, ReadFlag(t)) && Do(s, ReadFlag(t)) == SetPc(s, t, Checked(s.pc[t].n, s.pc[t].file))
    ensures PcOf(s, t).Checked? ==>
              Enabled(s, LoadTable(t)) && Do(s, LoadTable(t)) == SetPc(s, t, Loaded(s.pc[t].n, s.pc[t].file, s.cur))
    ensures PcOf(s, t).Leaving? ==> Enabled(s, ReadUnlock(t)) && Do(s, ReadUnlock(t)) == SetPc(s, t, Ready)
  {
  }

  lemma {:induction false} StoreStep(s: State, t: Tid)
    requires Inv(s) && PcOf(s, t).Loaded?
    ensures s.cur in s.tables && Enabled(s, Store(t))
    ensures var n, file, tab := s.pc[t].n, s.pc[t].file, s.tables[s.cur];
            Do(s, Store(t)) == SetPc(SetTable(s, tab.(fd := tab.fd[n := file])).(content := s.content[n := file]), t,
                                     Leaving)
  {
    assert TaskOk(s, t);
  }

  /** An install that no resize comes between puts its file into its slot, and changes no other. */
  lemma {:induction false} InstallAlone(s: State, t: Tid) returns (run: seq<State>)
    requires Inv(s) && PcOf(s, t).Entering? && s.resizer == None
    ensures Steps(run, [ReadLock(t), ReadFlag(t), LoadTable(t), Store(t), ReadUnlock(t)]) && run[0] == s
    ensures var n, file, tab := s.pc[t].n, s.pc[t].file, s.tables[s.cur];
            run[5] == SetPc(SetTable(s, tab.(fd := tab.fd[n := file])).(content := s.content[n := file]), t, Ready)
  {
    hide Inv, Enabled, Do;
    var acts := [ReadLock(t), ReadFlag(t), LoadTable(t), Store(t), ReadUnlock(t)];
    InstallStep(s, t);
    var s1 := Do(s, ReadLock(t));
    Keep(s, ReadLock(t));
    InstallStep(s1, t);
    var s2 := Do(s1, ReadFlag(t));
    Keep(s1, ReadFlag(t));
    InstallStep(s2, t);
    var s3 := Do(s2, LoadTable(t));
    Keep(s2, LoadTable(t));
    StoreStep(s3, t);
    var s4 := Do(s3, Store(t));
    Keep(s3, Store(t));
    InstallStep(s4, t);
    run := [s, s1, s2, s3, s4, Do(s4, ReadUnlock(t))];
  }

  /** What each step of a resize does: announcing it and waiting. */
  lemma {:induction false} ResizeStep(s: State, t: Tid)
    requires Inv(s) && s.cur in s.tables
    ensures forall min :: PcOf(s, t) == Ready && s.lock == None && s.resizer == None && s.tables[s.cur].size <= min ==>
              Enabled(s, SetFlag(t, min))
              && Do(s, SetFlag(t, min)) == SetPc(s.(lock := Some(t), resizer := Some(t)), t, Flagged(min))
    ensures PcOf(s, t).Flagged? ==> Enabled(s, Unlock(t))
                                    && Do(s, Unlock(t)) == SetPc(s.(lock := None), t, Unlocked(s.pc[t].min))
    ensures PcOf(s, t).Unlocked? && Readers(s) == {} ==>
              Enabled(s, BeginWait(t)) && Do(s, BeginWait(t)) == SetPc(s, t, Waiting(s.pc[t].min, {}))
    ensures PcOf(s, t).Waiting? && s.pc[t].readers == {} && s.lock == None ==>
              Enabled(s, EndWait(t)) && Do(s, EndWait(t)) == SetPc(s.(lock := Some(t)), t, Relocked(s.pc[t].min))
  {
    hide Inv;
  }

  /** And copying the table. */
  lemma {:induction false} CopyStep(s: State, t: Tid, id: TableId, size: nat)
    requires Inv(s)
    ensures s.cur in s.tables
    ensures PcOf(s, t).Relocked? && s.pc[t].min < size && id !in s.tables ==>
              var tab := s.tables[s.cur];
              Enabled(s, Copy(t, id, size))
              && Do(s, Copy(t, id, size)) ==
                 SetPc(s.(tables := s.tables[id := Table(size, tab.fd, tab.open)]), t, Copied(id))
    ensures PcOf(s, t).Copied? ==> Enabled(s, Publish(t))
                                   && Do(s, Publish(t)) == SetPc(s.(cur := s.pc[t].table), t, Published)
    ensures PcOf(s, t).Published? ==>
              Enabled(s, ClearFlag(t)) && Do(s, ClearFlag(t)) == SetPc(s.(lock := None, resizer := None), t, Ready)
  {
    assert TaskOk(s, t);
  }

  lemma {:induction false} NoReaders(s: State, s': State, t: Tid, pc: Pc)
    requires Readers(s) == {} && !Reading(pc) && s'.pc == s.pc[t := pc]
    ensures Readers(s') == {}
  {
    forall u | u in s.pc ensures !Reading(s.pc[u]) { assert u !in Readers(s); }
  }

  lemma {:induction false} StepsJoin(run: seq<State>, acts: seq<Action>, run': seq<State>, acts': seq<Action>)
    requires Steps(run, acts) && Steps(run', acts') && run[|acts|] == run'[0]
    ensures Steps(run + run'[1..], acts + acts')
  {
    hide Enabled, Do;
    var all := run + run'[1..];
    assert forall i :: 0 <= i < |run| ==> all[i] == run[i];
    assert forall i :: 0 <= i < |run'| ==> all[|acts| + i] == run'[i];
    assert forall i :: 0 <= i < |acts'| ==> (acts + acts')[|acts| + i] == acts'[i];
    forall i | |acts| <= i < |acts + acts'|
      ensures all[i].cur in all[i].tables && Enabled(all[i], (acts + acts')[i]) && all[i + 1] ==
              Do(all[i], (acts + acts')[i]) {
      var j := i - |acts|;
      assert all[i] == run'[j] && all[i + 1] == run'[j + 1];
    }
  }

  /** A resize is announced and nobody is in the read section. */
  lemma {:induction false} AnnounceAlone(s: State, t: Tid, min: nat) returns (run: seq<State>)
    requires Inv(s) && s.cur in s.tables && PcOf(s, t) == Ready && s.lock == None && s.resizer == None
             && Readers(s) == {} && s.tables[s.cur].size <= min
    ensures Steps(run, [SetFlag(t, min), Unlock(t), BeginWait(t), EndWait(t)]) && run[0] == s && Inv(run[4])
    ensures run[4] == SetPc(s.(lock := Some(t), resizer := Some(t)), t, Relocked(min))
  {
    hide Inv, Enabled, Do, Readers;
    ResizeStep(s, t);
    var s1 := Do(s, SetFlag(t, min));
    Keep(s, SetFlag(t, min));
    NoReaders(s, s1, t, Flagged(min));
    ResizeStep(s1, t);
    var s2 := Do(s1, Unlock(t));
    Keep(s1, Unlock(t));
    NoReaders(s1, s2, t, Unlocked(min));
    ResizeStep(s2, t);
    var s3 := Do(s2, BeginWait(t));
    Keep(s2, BeginWait(t));
    ResizeStep(s3, t);
    var s4 := Do(s3, EndWait(t));
    Keep(s3, EndWait(t));
    run := [s, s1, s2, s3, s4];
  }

  /** The lock is held again: the copy is made and published. */
  lemma {:induction false} CopyAlone(s: State, t: Tid, id: TableId, size: nat) returns (run: seq<State>)
    requires Inv(s) && s.cur in s.tables && PcOf(s, t).Relocked? && PcOf(s, t).min < size && id !in s.tables
    ensures Steps(run, [Copy(t, id, size), Publish(t), ClearFlag(t)]) && run[0] == s
    ensures run[3] == SetPc(s.(tables := s.tables[id := s.tables[s.cur].(size := size)], cur := id, lock := None,
                               resizer := None), t, Ready)
  {
    hide Inv, Enabled, Do;
    CopyStep(s, t, id, size);
    var s1 := Do(s, Copy(t, id, size));
    Keep(s, Copy(t, id, size));
    CopyStep(s1, t, id, size);
    var s2 := Do(s1, Publish(t));
    Keep(s1, Publish(t));
    CopyStep(s2, t, id, size);
    run := [s, s1, s2, Do(s2, ClearFlag(t))];
  }

  /** A resize that finds nobody in the read section and is let alone: the new table has the new size, the same files
      and the same open numbers, and nothing else has changed. */
  lemma {:induction false} ResizeAlone(s: State, t: Tid, min: nat, id: TableId, size: nat)
    returns (run: seq<State>, acts: seq<Action>)
    requires Inv(s) && PcOf(s, t) == Ready && s.lock == None && s.resizer == None && Readers(s) == {}
    requires s.tables[s.cur].size <= min < size && id !in s.tables
    ensures Steps(run, acts) && acts == [SetFlag(t, min), Unlock(t), BeginWait(t), EndWait(t), Copy(t, id, size),
                                         Publish(t), ClearFlag(t)]
    ensures run[0] == s
    ensures run[7] == SetPc(s.(tables := s.tables[id := s.tables[s.cur].(size := size)], cur := id), t, Ready)
  {
    hide Enabled, Do, Readers, Steps, Holds, TaskOk, PairOk, GraceOk;
    var first := AnnounceAlone(s, t, min);
    acts := [SetFlag(t, min), Unlock(t), BeginWait(t), EndWait(t)];
    StepsSize(first, acts);
    var second := CopyAlone(first[4], t, id, size);
    StepsSize(second, [Copy(t, id, size), Publish(t), ClearFlag(t)]);
    StepsJoin(first, acts, second, [Copy(t, id, size), Publish(t), ClearFlag(t)]);
    run, acts := first + second[1..], acts + [Copy(t, id, size), Publish(t), ClearFlag(t)];
    StepsSize(run, acts);
    assert run[7] == second[3];
  }

  lemma {:induction false} StepsSize(run: seq<State>, acts: seq<Action>)
    requires Steps(run, acts)
    ensures |run| == |acts| + 1
  {
  }
}
