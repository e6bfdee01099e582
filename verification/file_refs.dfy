/** Reference counts: for each file, as many references as descriptor slots and mapped areas hold it. */
module FileRefs {
  import opened Errors
  import opened Areas
  import opened VmaIndex
  import opened MmStruct
  import opened Descriptors
  import opened RemoteFiles
  import Mmap
  import RemoteMmap
  import TaskMmap
  import Session

  // ---------- counting ----------

  /** How many of the first n slots hold the file. */
  ghost function SlotCount(s: seq<Option<FileId>>, n: nat, f: FileId): nat
    requires n <= |s|
  {
    if n == 0 then 0 else SlotCount(s, n - 1, f) + if s[n - 1] == Some(f) then 1 else 0
  }

  lemma {:induction false} SlotsCount(s: seq<Option<FileId>>, n: nat, f: FileId)
    requires n <= |s|
    ensures SlotsTo(s, n)[f] == SlotCount(s, n, f)
  {
    if n > 0 { SlotsCount(s, n - 1, f); }
  }

  /** How many of the first n areas map the file. */
  ghost function AreaCount(s: seq<Vma>, n: nat, f: FileId): nat
    requires n <= |s|
  {
    if n == 0 then 0 else AreaCount(s, n - 1, f) + if s[n - 1].file == Some(f) then 1 else 0
  }

  lemma {:induction false} AreasCount(s: seq<Vma>, n: nat, f: FileId)
    requires n <= |s|
    ensures FilesOf(s, n)[f] == AreaCount(s, n, f)
  {
    if n > 0 { AreasCount(s, n - 1, f); }
  }

  // ---------- all tables and all address spaces ----------

  /** References to f that were taken for descriptor tables and not dropped. */
  ghost function TableRefs(tables: seq<Files>, n: nat, f: FileId): nat
    requires n <= |tables|
    reads tables
  {
    if n == 0 then 0 else TableRefs(tables, n - 1, f) + tables[n - 1].held[f]
  }

  /** Slots of all tables that hold f. */
  ghost function TableUses(tables: seq<Files>, n: nat, f: FileId): nat
    requires n <= |tables|
    reads tables, set t | t in tables :: t.fdt.fd
  {
    if n == 0 then 0
    else TableUses(tables, n - 1, f) + SlotCount(tables[n - 1].fdt.fd[..], tables[n - 1].fdt.fd.Length, f)
  }

  /** References to f that were taken for mapped areas and not dropped. */
  ghost function MapRefs(mms: seq<Mm>, n: nat, f: FileId): nat
    requires n <= |mms|
    reads mms
  {
    if n == 0 then 0 else MapRefs(mms, n - 1, f) + mms[n - 1].space.held[f]
  }

  /** Areas of all address spaces that map f. */
  ghost function MapUses(mms: seq<Mm>, n: nat, f: FileId): nat
    requires n <= |mms|
    reads mms
  {
    if n == 0 then 0 else MapUses(mms, n - 1, f) + AreaCount(mms[n - 1].space.list, |mms[n - 1].space.list|, f)
  }

  /** The reference count of every file is the number of slots and areas that hold it. */
  lemma {:induction false} RefsAreUses(tables: seq<Files>, mms: seq<Mm>, f: FileId)
    requires forall t :: t in tables ==> t.Valid()
    requires forall m :: m in mms ==> Shaped(m.space)
    ensures TableRefs(tables, |tables|, f) + MapRefs(mms, |mms|, f) == TableUses(tables, |tables|, f)
            + MapUses(mms, |mms|, f)
  {
    TablesBalance(tables, |tables|, f);
    MapsBalance(mms, |mms|, f);
  }

  lemma {:induction false} TablesBalance(tables: seq<Files>, n: nat, f: FileId)
    requires n <= |tables| && forall t :: t in tables ==> t.Valid()
    ensures TableRefs(tables, n, f) == TableUses(tables, n, f)
  {
    if n > 0 {
      TablesBalance(tables, n - 1, f);
      var t := tables[n - 1];
      assert t in tables && t.held == Slots(t.fdt.fd[..]);
      SlotsCount(t.fdt.fd[..], t.fdt.fd.Length, f);
    }
  }

  lemma {:induction false} MapsBalance(mms: seq<Mm>, n: nat, f: FileId)
    requires n <= |mms| && forall m :: m in mms ==> Shaped(m.space)
    ensures MapRefs(mms, n, f) == MapUses(mms, n, f)
  {
    if n > 0 {
      MapsBalance(mms, n - 1, f);
      AreasCount(mms[n - 1].space.list, |mms[n - 1].space.list|, f);
    }
  }

  // ---------- runs over many tables ----------

  /** A descriptor request: between tables i and j, or on table j. */
  datatype FdCall =
    | Dup(i: nat, j: nat, fd: nat, raw: bool, cloexec: bool)
    | Dup2(i: nat, j: nat, fd: nat, n: nat, cloexec: bool)
    | Close(j: nat, fd: nat)
    | Exec(j: nat)
    | Exit(j: nat)
    | Fork(j: nat)

  /** A table and its arrays. */
  ghost function Whole(t: Files): set<object>
    reads t
  {
    {t, t.fdt.fd, t.fdt.open, t.fdt.cloexec, t.fdt.full}
  }

  /** The tables are in order and share nothing. */
  ghost predicate Apart(tables: seq<Files>)
    reads tables, (set t | t in tables :: t.fdt.fd), (set t | t in tables :: t.fdt.open),
          (set t | t in tables :: t.fdt.full)
  {
    && (forall t :: t in tables ==> t.Valid())
    && (forall i, j :: 0 <= i < |tables| && 0 <= j < |tables| && i != j ==> Whole(tables[i]) !! Whole(tables[j]))
  }

  /** All tables with their arrays. */
  ghost function AllOf(tables: seq<Files>): set<object>
    reads tables
  {
    set t, o | t in tables && o in Whole(t) :: o
  }

  /** Dup of a slot of table i into table j, which may be the same. */
  method ServeDup(tables: seq<Files>, i: nat, j: nat, fd: nat, mask: FileId -> bool, cloexec: bool, rlimit: nat,
                  nrOpen: nat, limit: nat, loose: multiset<FileId>)
    returns (err: Errno, n: nat, left: multiset<FileId>)
    requires Apart(tables) && i < |tables| && j < |tables| && limit > 0
    modifies tables[j], tables[j].fdt.fd, tables[j].fdt.open, tables[j].fdt.cloexec, tables[j].fdt.full
    ensures Apart(tables) && left == loose && forall o :: o in AllOf(tables) ==> fresh(o) || o in old(AllOf(tables))
    ensures err == OK ==> tables[j].SlotAt(n) == old(tables[i].SlotAt(fd))
  {
    hide Files.Valid, SlotIn, BitIn, RefOf, Files.RoomErr, Files.LowestFree;
    ghost var first;
    assert tables[i] in tables && tables[j] in tables && (i != j ==> Whole(tables[i]) !! Whole(tables[j]));
    err, n, left, first := DupAcross(tables[i], tables[j], fd, mask, cloexec, false, rlimit, nrOpen, limit, loose,
                                     false);
    forall k | 0 <= k < |tables| && k != j ensures tables[k].Valid() && Whole(tables[k]) == old(Whole(tables[k])) {
      assert tables[k] in tables && old(Whole(tables[k])) !! old(Whole(tables[j]));
    }
    forall o | o in AllOf(tables) ensures fresh(o) || o in old(AllOf(tables)) {
      var k :| 0 <= k < |tables| && o in Whole(tables[k]);
      assert tables[k] in tables && (o in old(Whole(tables[k])) ==> o in old(AllOf(tables)));
    }
  }

  method ServeDup2(tables: seq<Files>, i: nat, j: nat, fd: nat, n: nat, cloexec: bool, rlimit: nat, nrOpen: nat,
                   limit: nat) returns (err: Errno)
    requires Apart(tables) && i < |tables| && j < |tables| && limit > 0
    modifies tables[j], tables[j].fdt.fd, tables[j].fdt.open, tables[j].fdt.cloexec, tables[j].fdt.full
    ensures Apart(tables) && forall o :: o in AllOf(tables) ==> fresh(o) || o in old(AllOf(tables))
    ensures err == OK ==> tables[j].SlotAt(n) == old(tables[i].SlotAt(fd))
  {
    hide Files.Valid, SlotIn, BitIn, RefOf, Files.RoomErr;
    assert tables[i] in tables && tables[j] in tables && (i != j ==> Whole(tables[i]) !! Whole(tables[j]));
    err := Dup2ToRemote(tables[i], tables[j], fd, n, cloexec, false, rlimit, nrOpen, limit, false);
    forall k | 0 <= k < |tables| && k != j ensures tables[k].Valid() && Whole(tables[k]) == old(Whole(tables[k])) {
      assert tables[k] in tables && old(Whole(tables[k])) !! old(Whole(tables[j]));
    }
    forall o | o in AllOf(tables) ensures fresh(o) || o in old(AllOf(tables)) {
      var k :| 0 <= k < |tables| && o in Whole(tables[k]);
      assert tables[k] in tables && (o in old(Whole(tables[k])) ==> o in old(AllOf(tables)));
    }
  }

  /** Close, close-on-exec and exit of table j. */
  method ServeOne(tables: seq<Files>, j: nat, c: FdCall) returns (err: Errno)
    requires Apart(tables) && j < |tables| && (c.Close? || c.Exec? || c.Exit?)
    modifies tables[j], tables[j].fdt.fd, tables[j].fdt.open, tables[j].fdt.cloexec, tables[j].fdt.full
    ensures Apart(tables) && forall o :: o in AllOf(tables) ==> fresh(o) || o in old(AllOf(tables))
    ensures c.Close? ==> err == (if old(tables[j].SlotAt(c.fd)).Some? then OK else EBADF)
                         && tables[j].SlotAt(c.fd) == None
    ensures c.Exec? ==> err == OK && forall n: nat ::
              tables[j].SlotAt(n) == if old(tables[j].CloexecAt(n)) then None else old(tables[j].SlotAt(n))
    ensures c.Exit? ==> err == OK && forall n: nat :: tables[j].SlotAt(n) == None
  {
    hide Files.Valid;
    var t := tables[j];
    assert t in tables;
    err := OK;
    match c {
      case Close(_, fd) => err := t.CloseFd(fd);
      case Exec(_) => t.DoCloseOnExec();
      case Exit(_) => t.CloseFiles();
    }
    forall k | 0 <= k < |tables| && k != j ensures tables[k].Valid() && Whole(tables[k]) == old(Whole(tables[k])) {
      assert tables[k] in tables && old(Whole(tables[k])) !! old(Whole(tables[j]));
    }
    forall o | o in AllOf(tables) ensures fresh(o) || o in old(AllOf(tables)) {
      var k :| 0 <= k < |tables| && o in Whole(tables[k]);
      assert tables[k] in tables && (o in old(Whole(tables[k])) ==> o in old(AllOf(tables)));
    }
  }

  /** Serve one descriptor request, whatever it asks for. A fork adds a table. */
  method ServeFd(tables: seq<Files>, path: FileId -> bool, c: FdCall, rlimit: nat, nrOpen: nat, limit: nat,
                 loose: multiset<FileId>)
    returns (err: Errno, all: seq<Files>, left: multiset<FileId>)
    requires Apart(tables) && limit > 0
    modifies AllOf(tables)
    ensures Apart(all) && left == loose
    ensures forall o :: o in AllOf(all) ==> fresh(o) || o in old(AllOf(tables))
  {
    hide Files.Valid;
    err, all, left := EBADF, tables, loose;
    if c.j >= |tables| || ((c.Dup? || c.Dup2?) && c.i >= |tables|) { return; }
    var to := tables[c.j];
    assert to in tables && forall o :: o in Whole(to) ==> o in AllOf(tables);
    match c {
      case Dup(i, j, fd, raw, cloexec) =>
        var n;
        err, n, left := ServeDup(tables, i, j, fd, if raw then _ => false
                                                   else path, cloexec, rlimit, nrOpen, limit, loose);
      case Dup2(i, j, fd, n, cloexec) => err := ServeDup2(tables, i, j, fd, n, cloexec, rlimit, nrOpen, limit);
      case Close(j, fd) => err := ServeOne(tables, j, c);
      case Exec(j) => err := ServeOne(tables, j, c);
      case Exit(j) => err := ServeOne(tables, j, c);
      case Fork(j) => err, all := ServeFork(tables, j, limit);
    }
  }

  /** Fork: the new table stands apart from all others. */
  method ServeFork(tables: seq<Files>, j: nat, limit: nat) returns (err: Errno, all: seq<Files>)
    requires Apart(tables) && j < |tables| && limit > 0
    ensures Apart(all) && forall o :: o in AllOf(all) ==> fresh(o) || o in old(AllOf(tables))
    ensures err == OK ==> |all| == |tables| + 1 && all[..|tables|] == tables && Forked(tables[j], all[|tables|])
    ensures err != OK ==> all == tables
  {
    hide Files.Valid, Forked, CountsOpen, Files.RoomErr;
    all := tables;
    assert tables[j] in tables;
    var newf;
    ghost var count;
    err, newf, count := DupFd(tables[j], limit, false);
    if err == OK {
      all := tables + [newf];
      assert forall k :: 0 <= k < |tables| ==> all[k] == tables[k];
    }
  }

  /** A request on descriptors; on the mappings of address space m; or to map a file from a slot of table j into
      address space m. */
  datatype Step =
    | OnFiles(call: FdCall)
    | OnMaps(m: nat, deed: Session.Call)
    | OnBoth(j: nat, m: nat, args: RemoteMmap.MapArgs, setting: RemoteMmap.Setting)

  /** The step is one that its address space can be asked for. */
  ghost predicate Served(mms: seq<Mm>, known: FileId -> TaskMmap.File, s: Step) {
    && (s.OnMaps? && s.m < |mms| ==> Session.Sound(s.deed, mms[s.m].writable))
    && (s.OnBoth? && s.m < |mms| ==>
          RemoteMmap.Settled(s.setting, known, mms[s.m].writable) && s.args.offset < WORD && s.args.len < WORD)
  }

  /** The address spaces are in order, and what is known of each file agrees with who may write it. */
  ghost predicate Sound(mms: seq<Mm>, known: FileId -> TaskMmap.File)
    reads mms
  {
    forall x :: x in mms ==> x.Valid() && RemoteMmap.Told(known, x.writable)
  }

  /** For every file, the references held for tables, for address spaces and by the callers themselves are as
      many as the slots and areas that hold it. */
  ghost predicate Balanced(tables: seq<Files>, mms: seq<Mm>, loose: multiset<FileId>)
    reads tables, mms, set t | t in tables :: t.fdt.fd
  {
    forall f: FileId ::
      TableRefs(tables, |tables|, f) + MapRefs(mms, |mms|, f) + loose[f] == TableUses(tables, |tables|, f)
        + MapUses(mms, |mms|, f)
  }

  /** A request on the mappings: the tables and the other address spaces stay as they are. */
  method ServeMaps(tables: seq<Files>, mms: seq<Mm>, known: FileId -> TaskMmap.File, s: Step, lim: Mmap.Limits,
                   loose: multiset<FileId>)
    returns (err: Errno, left: multiset<FileId>)
    requires Apart(tables) && Sound(mms, known) && Served(mms, known, s) && !s.OnFiles? && s.m < |mms|
    modifies mms[s.m]
    ensures Apart(tables) && Sound(mms, known) && AllOf(tables) == old(AllOf(tables)) && left == loose
  {
    hide Files.Valid, Mm.Valid, Session.Sound, RemoteMmap.Mapped, RemoteMmap.Settled, RemoteMmap.Told,
      RemoteMmap.AskFor;
    assert mms[s.m] in mms;
    left := loose;
    if s.OnMaps? {
      ghost var flaw;
      err, flaw := Session.Serve(mms[s.m], s.deed, lim);
    } else if s.j >= |tables| {
      err := ESRCH;
    } else {
      var at, driverFailed;
      err, at, driverFailed, left := RemoteMmap.DoMmapRemote(mms[s.m], tables[s.j], s.args, s.setting, known, lim,
                                                             loose, false);
    }
  }

  /** A request on the tables: the address spaces stay as they are. */
  method ServeFiles(tables: seq<Files>, mms: seq<Mm>, known: FileId -> TaskMmap.File, c: FdCall, rlimit: nat,
                    nrOpen: nat, limit: nat, loose: multiset<FileId>)
    returns (err: Errno, all: seq<Files>, left: multiset<FileId>)
    requires Apart(tables) && limit > 0 && Sound(mms, known)
    modifies AllOf(tables)
    ensures Apart(all) && Sound(mms, known) && left == loose
    ensures forall o :: o in AllOf(all) ==> fresh(o) || o in old(AllOf(tables))
  {
    hide Files.Valid, Mm.Valid, Apart, RemoteMmap.Told;
    err, all, left := ServeFd(tables, RemoteMmap.PathOnly(known), c, rlimit, nrOpen, limit, loose);
  }

  /** Serve one request of any kind. The callers hold no more and no fewer references of their own than before. */
  method ServeStep(tables: seq<Files>, mms: seq<Mm>, known: FileId -> TaskMmap.File, s: Step, rlimit: nat, nrOpen: nat,
                   limit: nat, lim: Mmap.Limits, loose: multiset<FileId>)
    returns (err: Errno, all: seq<Files>, left: multiset<FileId>)
    requires Apart(tables) && limit > 0 && Sound(mms, known) && Served(mms, known, s)
    modifies AllOf(tables), mms
    ensures Apart(all) && Sound(mms, known) && left == loose
    ensures forall o :: o in AllOf(all) ==> fresh(o) || o in old(AllOf(tables))
  {
    hide Files.Valid, Mm.Valid, Served, Apart, Sound, Whole;
    err, all, left := ESRCH, tables, loose;
    if s.OnFiles? {
      err, all, left := ServeFiles(tables, mms, known, s.call, rlimit, nrOpen, limit, loose);
    } else if s.m < |mms| {
      err, left := ServeMaps(tables, mms, known, s, lim, loose);
    }
  }

  /** Serve any sequence of requests on any tables and any address spaces, mixed in any way: afterwards every
      table and every address space is in order and every file has as many references as uses. */
  method ServeSteps(tables: seq<Files>, mms: seq<Mm>, known: FileId -> TaskMmap.File, steps: seq<Step>, rlimit: nat,
                    nrOpen: nat, limit: nat, lim: Mmap.Limits)
    returns (all: seq<Files>, loose: multiset<FileId>)
    requires Apart(tables) && limit > 0 && Sound(mms, known) && forall i :: 0 <= i < |steps| ==>
               Served(mms, known, steps[i])
    modifies AllOf(tables), mms
    ensures Apart(all) && Sound(mms, known) && loose == multiset{} && Balanced(all, mms, loose)
  {
    hide Files.Valid, Mm.Valid, Served, Apart, Balanced, Sound;
    all, loose := tables, multiset{};
    var n := 0;
    while n < |steps|
      invariant 0 <= n <= |steps| && Apart(all) && Sound(mms, known) && loose == multiset{}
      invariant forall o :: o in AllOf(all) ==> fresh(o) || o in old(AllOf(tables))
    {
      var err;
      err, all, loose := ServeStep(all, mms, known, steps[n], rlimit, nrOpen, limit, lim, loose);
      n := n + 1;
    }
    BalancedAll(all, mms, known);
  }

  lemma {:induction false} BalancedAll(tables: seq<Files>, mms: seq<Mm>, known: FileId -> TaskMmap.File)
    requires Apart(tables) && Sound(mms, known)
    ensures Balanced(tables, mms, multiset{})
  {
    forall f: FileId
      ensures TableRefs(tables, |tables|, f) + MapRefs(mms, |mms|, f) == TableUses(tables, |tables|, f)
              + MapUses(mms, |mms|, f) {
      RefsAreUses(tables, mms, f);
    }
  }
}
