/** do_mmap_remote: a tracer maps one of its own files, or anonymous memory, into its tracee. */
module RemoteMmap {
  import opened Errors
  import opened VmFlags
  import opened Areas
  import opened VmaIndex
  import opened Merge
  import opened Munmap
  import opened Edits
  import opened MmStruct
  import opened Mmap
  import opened TaskMmap
  import opened Descriptors
  import opened RemoteFiles

  /** What the tracer passes in. Addresses, lengths and offsets are in bytes. */
  datatype MapArgs = MapArgs(addr: nat, len: nat, prot: Flags, kind: MapType, fixed: bool, growsDown: bool,
                             locked: bool, noReserve: bool, anonymous: bool, hugeTlb: bool, fd: nat, offset: nat)

  /** What else the outcome depends on: the address space of the tracer, the settings of the tracee and of the
      system, and the files that shmem and hugetlb would make. */
  datatype Setting = Setting(cur: Space, defFlags: Flags, readImpliesExec: bool, neverOvercommit: bool, l: Layout,
                             shmem: FileId, hugeFile: FileId)

  /** What is known of each file agrees with who may write it. */
  ghost predicate Told(known: FileId -> File, writable: iset<FileId>) {
    forall id: FileId :: known(id).id == id && (known(id).canWrite <==> id in writable)
  }

  ghost predicate Settled(e: Setting, known: FileId -> File, writable: iset<FileId>) {
    Shaped(e.cur) && Sane(e.l) && Harmless(e.defFlags) && e.shmem in writable && known(e.hugeFile).huge
  }

  /** fget does not give out files that were opened with O_PATH. */
  function PathOnly(known: FileId -> File): FileId -> bool {
    (f: FileId) => known(f).path
  }

  /** ALIGN of a length to the size of a huge page, on 64-bit words. */
  function HugeAlign(len: nat): nat {
    (len + HPAGE * PAGE - 1) % WORD / (HPAGE * PAGE) * (HPAGE * PAGE)
  }

  /** The file that gets mapped. */
  function Target(c: MapArgs, slot: Option<FileId>, hugeFile: FileId): Option<FileId> {
    if !c.anonymous then slot else if c.hugeTlb then Some(hugeFile) else None
  }

  /** What do_task_mmap is asked for. */
  function AskFor(c: MapArgs, file: Option<FileId>, known: FileId -> File): Ask {
    var f := if file.Some? then Some(known(file.value)) else None;
    Ask(f, c.addr, if f.Some? && f.value.huge then HugeAlign(c.len) else c.len, c.prot, c.kind, c.fixed, c.growsDown,
        c.locked, c.noReserve, c.offset / PAGE)
  }

  /** What is passed in is asked for, nothing added and nothing lost, but a length in huge pages is rounded up. */
  lemma {:induction false} AskedAsPassed(c: MapArgs, file: Option<FileId>, known: FileId -> File,
                                         writable: iset<FileId>)
    requires Told(known, writable)
    ensures var ask := AskFor(c, file, known);
            && IdOf(ask.file) == file && ask.addr == c.addr && ask.prot == c.prot && ask.kind == c.kind
            && (ask.fixed <==> c.fixed) && (ask.growsDown <==> c.growsDown) && (ask.locked <==> c.locked)
            && (ask.noReserve <==> c.noReserve) && ask.pgoff * PAGE <= c.offset < ask.pgoff * PAGE + PAGE
            && (file == None || !known(file.value).huge ==> ask.len == c.len)
  {
  }

  /** A mapping of huge pages is of a hugetlb file and whole huge pages long. */
  predicate HugeLength(ask: Ask) {
    ask.file.Some? && ask.file.value.huge && ask.len % (HPAGE * PAGE) == 0
  }

  /** The errno of do_task_mmap in this setting. */
  ghost function SettledErr(s: seq<Vma>, maxMapCount: nat, totalVm: int, dataVm: int, ask: Ask, e: Setting, lim: Limits,
                            at: nat): Errno {
    var prot := Want(ask, e.readImpliesExec);
    MapErr(s, maxMapCount, totalVm, dataVm, e.cur.list, ask, prot,
           Sought(ask, prot, e.defFlags, e.neverOvercommit, e.shmem, at), e.l, lim)
  }

  /** vm_mmap_remote: the offset has to be whole pages, and the range must not wrap around. */
  method VmMmapRemote(mm: Mm, c: MapArgs, ask: Ask, e: Setting, lim: Limits, willing: bool)
    returns (err: Errno, at: nat, driverFailed: bool)
    requires mm.Valid() && Shaped(e.cur) && Sane(e.l) && Harmless(e.defFlags) && e.shmem in mm.writable
    requires c.offset < WORD && ask.len < WORD && ask.pgoff == c.offset / PAGE
    requires ask.file.Some? ==> (ask.file.value.canWrite <==> ask.file.value.id in mm.writable)
    modifies mm
    ensures Mapped(old(mm.space.list), mm.space.list, ask, e, err, at) && mm.Valid()
    ensures mm.drift == Overcharged(old(mm.drift),
                                    if driverFailed && WillCharge(ask, Want(ask, e.readImpliesExec), e.neverOvercommit)
                                                   then PageAlign(ask.len) / PAGE else 0)
    ensures driverFailed ==> err != OK && ask.file.Some?
    ensures c.offset % PAGE != 0 || c.offset + PageAlign(ask.len) >= WORD ==> err == EINVAL && mm.space == old(mm.space)
    ensures err == OK || willing ==>
              err == if c.offset % PAGE != 0 || c.offset + PageAlign(ask.len) >= WORD then EINVAL
                     else SettledErr(old(mm.space.list), mm.maxMapCount, old(mm.totalVm), old(mm.dataVm), ask, e, lim,
                                     at)
  {
    hide Shaped, Guarded, Weight, Overlaid, SameView, Cleared, PageAlign, WillCharge, Want, Sought, PlaceFor, Overlaps,
      Vacant, WithinMay, MapErr;
    at, driverFailed := 0, false;
    Unchanged(mm.space.list);
    AlignExactly(ask.len);
    if (c.offset + PageAlign(ask.len)) % WORD < c.offset || c.offset % PAGE != 0 { return EINVAL, at, driverFailed; }
    var denied: bool, killed: bool := *, *;
    if denied && !willing { return EACCES, at, driverFailed; }
    if killed && !willing { return EINTR, at, driverFailed; }
    err, at, driverFailed := DoTaskMmap(mm, e.cur, ask, e.defFlags, e.readImpliesExec, e.neverOvercommit, e.l, lim,
                                        e.shmem, willing);
  }

  /** On success the page view shows what was asked for; on failure the range is all kept or all removed. */
  ghost predicate Mapped(s: seq<Vma>, r: seq<Vma>, ask: Ask, e: Setting, err: Errno, at: nat) {
    if err == OK then Overlaid(s, r, Sought(ask, Want(ask, e.readImpliesExec), e.defFlags, e.neverOvercommit, e.shmem,
                                            at))
    else SameView(s, r) || Cleared(s, r, at, at + PageAlign(ask.len) / PAGE)
  }

  /** do_mmap_remote. The file is kept alive by a reference of the caller's own while it is being mapped, and
      that reference is dropped on every path: `left` are the caller's references afterwards. */
  method DoMmapRemote(mm: Mm, files: Files, c: MapArgs, e: Setting, known: FileId -> File, lim: Limits,
                      loose: multiset<FileId>, willing: bool)
    returns (err: Errno, at: nat, driverFailed: bool, left: multiset<FileId>)
    requires mm.Valid() && Settled(e, known, mm.writable) && Told(known, mm.writable) && c.offset < WORD && c.len < WORD
    modifies mm
    ensures mm.Valid() && left == loose
    ensures !c.anonymous && Got(files.SlotAt(c.fd), PathOnly(known)) == None ==>
              err == EBADF && mm.space == old(mm.space)
    ensures err == OK && c.hugeTlb ==> HugeLength(AskFor(c, Target(c, files.SlotAt(c.fd), e.hugeFile), known))
    ensures var ask := AskFor(c, Target(c, files.SlotAt(c.fd), e.hugeFile), known);
            && Mapped(old(mm.space.list), mm.space.list, ask, e, err, at)
            && mm.drift == Overcharged(old(mm.drift),
                                       if driverFailed
                                       && WillCharge(ask, Want(ask, e.readImpliesExec), e.neverOvercommit)
                                                      then PageAlign(ask.len) / PAGE else 0)
    ensures !c.anonymous && c.hugeTlb && !(files.SlotAt(c.fd).Some? && known(files.SlotAt(c.fd).value).huge) ==>
              err != OK
    ensures err == OK || willing ==>
              var slot := Got(files.SlotAt(c.fd), PathOnly(known));
              var ask := AskFor(c, Target(c, files.SlotAt(c.fd), e.hugeFile), known);
              err == if !c.anonymous && slot == None then EBADF
                     else if !c.anonymous && c.hugeTlb && !known(slot.value).huge then EINVAL
                     else if c.offset % PAGE != 0 || c.offset + PageAlign(ask.len) >= WORD then EINVAL
                     else SettledErr(old(mm.space.list), mm.maxMapCount, old(mm.totalVm), old(mm.dataVm), ask, e, lim,
                                     at)
  {
    hide Shaped, Guarded, Weight, Mapped, PageAlign, WillCharge, Want, RefOf, SettledErr;
    at, driverFailed, left := 0, false, loose;
    var file := None;
    MappedNothing(mm.space.list, AskFor(c, Target(c, files.SlotAt(c.fd), e.hugeFile), known), e);
    if !c.anonymous {
      file, left := Fget(files, c.fd, PathOnly(known), left);
      OneMore(loose, file);
      if file == None { return EBADF, at, driverFailed, left; }
      if c.hugeTlb && !known(file.value).huge {
        left := Fput(file.value, left);
        return EINVAL, at, driverFailed, left;
      }
    } else if c.hugeTlb {
      var setupErr: Errno := *;
      if setupErr != OK && !willing { return setupErr, at, driverFailed, left; }
      file, left := Some(e.hugeFile), left + RefOf(Some(e.hugeFile));
      OneMore(loose, file);
    }
    var ask := AskFor(c, file, known);
    AlignBound(c.len);
    err, at, driverFailed := VmMmapRemote(mm, c, ask, e, lim, willing);
    if file.Some? { left := Fput(file.value, left); }
  }

  lemma {:induction false} MappedNothing(s: seq<Vma>, ask: Ask, e: Setting)
    ensures forall err: Errno :: err != OK ==> Mapped(s, s, ask, e, err, 0)
  {
    Unchanged(s);
  }

  /** ALIGN to huge pages rounds up to whole ones, and comes to 0 when that overflows. */
  lemma {:induction false} AlignBound(len: nat)
    requires len < WORD
    ensures HugeAlign(len) < WORD && HugeAlign(len) % (HPAGE * PAGE) == 0
    ensures if len <= WORD - HPAGE * PAGE then len <= HugeAlign(len) < len + HPAGE * PAGE else HugeAlign(len) == 0
  {
  }
}
