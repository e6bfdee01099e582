/** do_task_mmap: choosing an address and the flags of a new mapping.

    The address is looked for in the address space of the calling task, while the mapping goes into
    the address space of the task it is made for. */
module TaskMmap {
  import opened Errors
  import opened VmFlags
  import opened Areas
  import opened GapTree
  import opened VmaIndex
  import opened Merge
  import opened Munmap
  import opened GapSearch
  import opened Edits
  import opened MmStruct
  import opened Mmap

  // ---------- get_task_unmapped_area ----------

  /** Where addresses may be given out: mmap_base, TASK_UNMAPPED_BASE and mmap_min_addr, in pages, and whether
      the task gets them from the top down. */
  datatype Layout = Layout(base: nat, unmappedBase: nat, minAddr: nat, topDown: bool)

  ghost predicate Sane(l: Layout) {
    l.base <= TASK_SIZE && l.unmappedBase <= TASK_SIZE && l.minAddr <= TASK_SIZE
  }

  /** The search below mmap_base, and the one from `low` to the top. */
  function BelowBase(len: nat, l: Layout): Info {
    Info(len, if l.minAddr > 1 then l.minAddr else 1, l.base, 1, 0)
  }

  function UpFrom(len: nat, low: nat): Info {
    Info(len, low, TASK_SIZE, 1, 0)
  }

  /** Where the search upward begins. */
  function LowEnd(l: Layout): nat {
    if l.topDown then l.unmappedBase else l.base
  }

  /** Where a linear scan finds room: top-down below mmap_base and then bottom-up from the fallback base, or
      bottom-up from mmap_base. */
  function Scan(s: seq<Vma>, len: nat, l: Layout): Option<int> {
    var down := if l.topDown then ScanDown(s, |s| + 1, BelowBase(len, l)) else None;
    if down.Some? then down else ScanUp(s, 0, UpFrom(len, LowEnd(l)))
  }

  /** The searches of arch_get_unmapped_area and arch_get_unmapped_area_topdown. */
  method SearchArea(cur: Space, len: nat, l: Layout) returns (at: Option<int>)
    requires Shaped(cur) && Sane(l) && 0 < len <= TASK_SIZE
    ensures at == Scan(cur.list, len, l)
    ensures at.Some? ==> 0 <= at.value && at.value + len <= TASK_SIZE && !Overlaps(cur.list, at.value, at.value + len)
  {
    hide InOrder, ConsistentBut, Files, Ids, Fit, Free;
    var info := BelowBase(len, l);
    at := None;
    if l.topDown {
      at := UnmappedAreaTopdown(cur.tree, cur.list, cur.highest, info);
      ScanDownFinds(cur.list, |cur.list| + 1, info);
    }
    if at == None {
      info := UpFrom(len, LowEnd(l));
      at := UnmappedArea(cur.tree, cur.list, cur.highest, info);
      ScanUpFinds(cur.list, 0, info);
    }
    if at.Some? { FreeApart(cur.list, info, at.value); }
  }

  /** A range of that length between the bounds meets no area. */
  ghost predicate FreeIn(s: seq<Vma>, lo: nat, hi: nat, len: nat, a: nat) {
    lo <= a && a + len <= hi && !Overlaps(s, a, a + len)
  }

  ghost predicate IsLowest(s: seq<Vma>, lo: nat, hi: nat, len: nat, at: Option<int>) {
    && (at == None <==> forall a: nat :: !FreeIn(s, lo, hi, len, a))
    && (at.Some? ==> at.value >= 0 && FreeIn(s, lo, hi, len, at.value)
                     && forall a: nat :: FreeIn(s, lo, hi, len, a) ==> at.value <= a)
  }

  ghost predicate IsHighest(s: seq<Vma>, lo: nat, hi: nat, len: nat, at: Option<int>) {
    && (at == None <==> forall a: nat :: !FreeIn(s, lo, hi, len, a))
    && (at.Some? ==> at.value >= 0 && FreeIn(s, lo, hi, len, at.value)
                     && forall a: nat :: FreeIn(s, lo, hi, len, a) ==> a <= at.value)
  }

  /** The scan gives the highest free range below mmap_base; if there is none, or the layout is bottom-up, the lowest
      one from TASK_UNMAPPED_BASE or mmap_base on; and nothing if and only if there is none either. */
  lemma {:induction false} ScanExactly(s: seq<Vma>, len: nat, l: Layout)
    requires Sorted(s) && Sane(l) && 0 < len <= TASK_SIZE
    ensures l.topDown ==>
              var low := if l.minAddr == 0 then 1 else l.minAddr;
              if exists a: nat :: FreeIn(s, low, l.base, len, a) then IsHighest(s, low, l.base, len, Scan(s, len, l))
              else IsLowest(s, l.unmappedBase, TASK_SIZE, len, Scan(s, len, l))
    ensures !l.topDown ==> IsLowest(s, l.base, TASK_SIZE, len, Scan(s, len, l))
  {
    hide ScanUp, ScanDown, IsLowest, IsHighest, Sorted;
    var down, up := BelowBase(len, l), UpFrom(len, LowEnd(l));
    HighestScan(s, down);
    LowestScan(s, up);
    assert IsLowest(s, LowEnd(l), TASK_SIZE, len, ScanUp(s, 0, up));
    assert IsHighest(s, down.low, l.base, len, ScanDown(s, |s| + 1, down));
    FoundIff(s, down.low, l.base, len, ScanDown(s, |s| + 1, down));
  }

  lemma {:induction false} FoundIff(s: seq<Vma>, lo: nat, hi: nat, len: nat, at: Option<int>)
    requires IsHighest(s, lo, hi, len, at)
    ensures at.Some? <==> exists a: nat :: FreeIn(s, lo, hi, len, a)
  {
  }

  lemma {:induction false} LowestScan(s: seq<Vma>, info: Info)
    requires Sorted(s) && GapSearch.Valid(info) && info.align == 1 && info.length > 0
    ensures IsLowest(s, info.low, info.high, info.length, ScanUp(s, 0, info))
  {
    hide ScanUp, ScanDown, Free, FreeIn, Sorted;
    PlainExactly(s, info);
    forall a: int ensures Free(s, info, a) <==> a >= 0 && FreeIn(s, info.low, info.high, info.length, a) {
      FreeMeans(s, info, a);
    }
    forall a: nat | FreeIn(s, info.low, info.high, info.length, a) ensures Free(s, info, a) { FreeMeans(s, info, a); }
  }

  lemma {:induction false} HighestScan(s: seq<Vma>, info: Info)
    requires Sorted(s) && GapSearch.Valid(info) && info.align == 1 && info.length > 0
    ensures IsHighest(s, info.low, info.high, info.length, ScanDown(s, |s| + 1, info))
  {
    hide ScanUp, ScanDown, Free, FreeIn, Sorted;
    PlainExactly(s, info);
    forall a: int ensures Free(s, info, a) <==> a >= 0 && FreeIn(s, info.low, info.high, info.length, a) {
      FreeMeans(s, info, a);
    }
    forall a: nat | FreeIn(s, info.low, info.high, info.length, a) ensures Free(s, info, a) { FreeMeans(s, info, a); }
  }

  lemma {:induction false} FreeMeans(s: seq<Vma>, info: Info, a: int)
    requires info.align == 1 && info.length > 0
    ensures Free(s, info, a) <==> a >= 0 && FreeIn(s, info.low, info.high, info.length, a)
  {
  }

  lemma {:induction false} FreeApart(s: seq<Vma>, info: Info, addr: int)
    requires Free(s, info, addr)
    ensures addr >= 0 && addr + info.length <= info.high && !Overlaps(s, addr, addr + info.length)
  {
  }

  /** The page a hint stands for is taken when it is within bounds and the range is free. */
  ghost predicate HintTaken(s: seq<Vma>, hint: nat, len: nat, l: Layout) {
    var addr := PageAlign(hint) / PAGE;
    hint != 0 && l.minAddr <= addr && addr + len <= TASK_SIZE && !Overlaps(s, addr, addr + len)
  }

  /** The place that is chosen: the hint if it can be taken, or else what the scan finds. */
  ghost function Chosen(s: seq<Vma>, hint: nat, len: nat, l: Layout): Option<int> {
    if len > TASK_SIZE - l.minAddr then None
    else if HintTaken(s, hint, len, l) then Some(PageAlign(hint) / PAGE)
    else Scan(s, len, l)
  }

  /** Why a place is refused: there is no room at all, a fixed range does not fit or does not begin with a page, or
      no place is found. */
  ghost function PlaceErr(s: seq<Vma>, hint: nat, len: nat, fixed: bool, l: Layout): Errno {
    if len + l.minAddr > TASK_SIZE then ENOMEM
    else if fixed then
      if hint + len * PAGE > TASK_SIZE * PAGE then ENOMEM else if hint % PAGE != 0 then EINVAL else OK
    else if Chosen(s, hint, len, l) == None then ENOMEM else OK
  }

  /** get_task_unmapped_area with the generic searches. `hint` is in bytes when the address is fixed and
      page-aligned otherwise. */
  method GetUnmappedArea(cur: Space, hint: nat, len: nat, fixed: bool, l: Layout, willing: bool)
    returns (err: Errno, at: nat)
    requires Shaped(cur) && Sane(l) && 0 < len
    ensures err == OK || (err == EPERM && !willing) || err == PlaceErr(cur.list, hint, len, fixed, l)
    ensures PlaceErr(cur.list, hint, len, fixed, l) != OK ==> err == PlaceErr(cur.list, hint, len, fixed, l)
    ensures err == OK ==> at + len <= TASK_SIZE
    ensures err == OK && fixed ==> hint == at * PAGE
    ensures err == OK && !fixed ==> Chosen(cur.list, hint, len, l) == Some(at) && !Overlaps(cur.list, at, at + len)
  {
    hide InOrder, ConsistentBut, Files, Ids, Fit, Overlaps, PageAlign, Scan;
    err, at := ENOMEM, 0;
    if len > TASK_SIZE || len > TASK_SIZE - l.minAddr { return; }
    var denied: bool := *;
    denied := denied && !willing;
    if fixed {
      if hint > (TASK_SIZE - len) * PAGE { return; }
      if hint % PAGE != 0 { return EINVAL, 0; }
      at := hint / PAGE;
      err := if denied then EPERM else OK;
      return;
    }
    var addr := PageAlign(hint) / PAGE;
    if hint != 0 {
      var vma := FindVma(cur.tree, cur.list, addr);
      HintFits(cur.list, vma, addr, addr + len);
      if TASK_SIZE - len >= addr && addr >= l.minAddr && (vma == |cur.list| || addr + len <= cur.list[vma].start) {
        err, at := if denied then EPERM else OK, addr;
        return;
      }
    }
    var found := SearchArea(cur, len, l);
    if found.Some? {
      err, at := if denied then EPERM else OK, found.value;
    }
  }

  lemma {:induction false} HintFits(s: seq<Vma>, vma: nat, addr: nat, end: nat)
    requires Sorted(s) && FirstAbove(s, addr, vma) && addr < end
    ensures vma == |s| || end <= s[vma].start <==> !Overlaps(s, addr, end)
  {
    if vma == |s| || end <= s[vma].start { FitsAt(s, vma, addr, end); }
  }

  // ---------- the flags of the mapping ----------

  /** What do_task_mmap looks at in an open file, and whether it was opened with O_PATH. */
  datatype File = File(id: FileId, canRead: bool, canWrite: bool, appendOnly: bool, lockedOut: bool, noExec: bool,
                       canMap: bool, huge: bool, path: bool)

  datatype MapType = MapShared | MapPrivate | MapOther

  datatype Verdict = Grant(flags: Flags, pgoff: nat) | Deny(err: Errno)

  /** The bits do_task_mmap starts from. */
  function StartFlags(prot: Flags, growsDown: bool, locked: bool, defFlags: Flags): Flags {
    prot * {VmRead, VmWrite, VmExec} + (if growsDown then {VmGrowsDown} else {}) + (if locked then {VmLocked} else {})
    + defFlags + {VmMayRead, VmMayWrite, VmMayExec}
  }

  /** The checks on a file and on the type of the mapping, and the bits they set and clear. */
  function Decide(file: Option<File>, kind: MapType, start: Flags, at: nat, pgoff: nat): Verdict {
    if kind == MapOther then Deny(EINVAL)
    else if file == None then
      if kind == MapShared then
        if VmGrowsDown in start || VmGrowsUp in start then Deny(EINVAL) else Grant(start + {VmShared, VmMayShare}, 0)
      else Grant(start, at)
    else
      var f := file.value;
      if kind == MapShared && VmWrite in start && !f.canWrite then Deny(EACCES)
      else if kind == MapShared && f.appendOnly && f.canWrite then Deny(EACCES)
      else if kind == MapShared && f.lockedOut then Deny(EAGAIN)
      else
        var shared := if kind == MapPrivate then start
                      else if f.canWrite then start + {VmShared, VmMayShare}
                      else start + {VmMayShare} - {VmMayWrite, VmShared};
        if !f.canRead then Deny(EACCES)
        else if f.noExec && VmExec in shared then Deny(EPERM)
        else if !f.canMap then Deny(ENODEV)
        else if VmGrowsDown in shared || VmGrowsUp in shared then Deny(EINVAL)
        else Grant(if f.noExec then shared - {VmMayExec} else shared, pgoff)
  }

  /** def_flags holds none of the bits that mmap itself sets, VM_LOCKED aside. */
  ghost predicate Harmless(defFlags: Flags) {
    forall x :: x in defFlags ==> x == VmLocked || x.VmOther?
  }

  function IdOf(file: Option<File>): Option<FileId> {
    if file == None then None else Some(file.value.id)
  }

  /** None of the bits that depend on the file, all of the MAY bits. */
  ghost predicate Plain(f: Flags) {
    && VmAccount !in f && VmNoReserve !in f && !Special(f) && VmHugeTlb !in f && VmShared !in f && VmMayShare !in f
    && VmMayRead in f && VmMayWrite in f && VmMayExec in f
  }

  lemma {:induction false} StartPlain(prot: Flags, growsDown: bool, locked: bool, defFlags: Flags)
    requires Harmless(defFlags)
    ensures VmGrowsUp !in StartFlags(prot, growsDown, locked, defFlags)
    ensures VmGrowsDown in StartFlags(prot, growsDown, locked, defFlags) <==> growsDown
    ensures Plain(StartFlags(prot, growsDown, locked, defFlags))
            && StartFlags(prot, growsDown, locked, defFlags) * PROT_BITS == prot * PROT_BITS
  {
  }

  /** Whatever is asked for, the flags granted keep permissions within the MAY bits, and a shared mapping
      of a file not open for writing can never be made writable. */
  lemma {:induction false} GrantProper(file: Option<File>, kind: MapType, start: Flags, at: nat, pgoff: nat, f: Flags,
                                       shmem: FileId, writable: iset<FileId>)
    requires Plain(start) && Decide(file, kind, start, at, pgoff).Grant?
    requires file.Some? ==> (file.value.canWrite <==> file.value.id in writable)
    requires shmem in writable
    requires f == Decide(file, kind, start, at, pgoff).flags
             || f == Decide(file, kind, start, at, pgoff).flags + {VmNoReserve}
    ensures VmAccount !in f && !Special(f) && VmHugeTlb !in f && WithinMay(f)
    ensures Proper(if file == None && VmShared in f then Some(shmem) else IdOf(file), f, writable)
    ensures VmMayShare in f && file.Some? && !file.value.canWrite ==> VmWrite !in f && VmMayWrite !in f
    ensures VmShared in f <==> kind == MapShared && (file == None || file.value.canWrite)
  {
  }

  // ---------- which mappings are refused ----------

  /** The permissions asked for are more than a shared mapping of the file may have. */
  predicate TooMuch(ask: Ask, prot: Flags) {
    && ask.kind == MapShared && ask.file.Some?
    && ((VmWrite in prot && !ask.file.value.canWrite) || (ask.file.value.appendOnly && ask.file.value.canWrite))
  }

  predicate LockedOut(ask: Ask) {
    ask.kind == MapShared && ask.file.Some? && ask.file.value.lockedOut
  }

  predicate NotExecutable(ask: Ask, prot: Flags) {
    ask.file.Some? && ask.file.value.noExec && VmExec in prot
  }

  /** Nothing about the file, the type of the mapping and the permissions stands against it. */
  predicate Permitted(ask: Ask, prot: Flags) {
    && ask.kind != MapOther
    && (ask.growsDown ==> ask.kind == MapPrivate && ask.file == None)
    && (ask.file.Some? ==> ask.file.value.canRead && ask.file.value.canMap)
    && !TooMuch(ask, prot) && !LockedOut(ask) && !NotExecutable(ask, prot)
  }

  /** The checks grant what is permitted and nothing else. Each refusal has its errno: EACCES for rights that the open
      file does not give, EAGAIN for a mandatory lock, EPERM on a noexec mount, ENODEV without an mmap operation, and
      EINVAL for another type of mapping or a growing one that is shared or of a file. */
  lemma {:induction false} RefusedExactly(ask: Ask, prot: Flags, start: Flags, at: nat)
    requires start * PROT_BITS == prot * PROT_BITS && VmGrowsUp !in start && (VmGrowsDown in start <==> ask.growsDown)
    ensures var d := Decide(ask.file, ask.kind, start, at, ask.pgoff);
            && (d.Grant? <==> Permitted(ask, prot)) && (d.Deny? ==> d.err == Refusal(ask, prot) != OK)
  {
    assert forall x: Flag :: x in start * PROT_BITS <==> x in prot * PROT_BITS;
    assert (VmWrite in start <==> VmWrite in prot) && (VmExec in start <==> VmExec in prot) by {
      assert VmWrite in start * PROT_BITS <==> VmWrite in prot * PROT_BITS;
      assert VmExec in start * PROT_BITS <==> VmExec in prot * PROT_BITS;
    }
  }

  /** The errno of what is not permitted. No two of the conditions hold together. */
  ghost function Refusal(ask: Ask, prot: Flags): Errno {
    if ask.kind != MapOther && (TooMuch(ask, prot) || (ask.file.Some? && !ask.file.value.canRead
                                                       && !LockedOut(ask))) then EACCES
    else if !TooMuch(ask, prot) && LockedOut(ask) then EAGAIN
    else if ask.kind != MapOther && ask.file.Some? && ask.file.value.canRead && NotExecutable(ask, prot) then EPERM
    else if ask.kind != MapOther && ask.file.Some? && ask.file.value.canRead && !ask.file.value.canMap then ENODEV
    else if ask.kind == MapOther || (ask.growsDown && (ask.kind == MapShared || ask.file.Some?)) then EINVAL
    else OK
  }

  // ---------- do_task_mmap ----------

  /** What a task asks do_task_mmap for. Addresses and lengths are in bytes. */
  datatype Ask = Ask(file: Option<File>, addr: nat, len: nat, prot: Flags, kind: MapType, fixed: bool, growsDown: bool,
                     locked: bool, noReserve: bool, pgoff: nat)

  /** round_hint_to_min, in bytes. */
  function RoundHint(hint: nat, minAddr: nat): nat {
    var h := hint / PAGE * PAGE;
    if h != 0 && h < minAddr * PAGE then minAddr * PAGE else h
  }

  /** The request that the granted flags come to. */
  function Granted(ask: Ask, at: nat, n: nat, flags: Flags, pgoff: nat): Request {
    Request(at, at + n, flags, IdOf(ask.file), pgoff, Tag(0, 0, false))
  }

  /** The permissions asked for; PROT_READ may imply PROT_EXEC unless the file is on a noexec mount. */
  function Want(ask: Ask, readImpliesExec: bool): Flags {
    if VmRead in ask.prot && readImpliesExec && !(ask.file.Some? && ask.file.value.noExec) then ask.prot + {VmExec}
      else ask.prot
  }

  lemma {:induction false} WantExactly(ask: Ask, readImpliesExec: bool, x: Flag)
    ensures x in Want(ask, readImpliesExec) <==>
            || x in ask.prot
            || (x == VmExec && VmRead in ask.prot && readImpliesExec && (ask.file == None || !ask.file.value.noExec))
  {
  }

  /** Memory is charged for the mapping: private, writable, reserved and not of a hugetlb file. */
  predicate WillCharge(ask: Ask, prot: Flags, neverOvercommit: bool) {
    && ask.kind == MapPrivate && VmWrite in prot && !(ask.file.Some? && ask.file.value.huge)
    && (ask.noReserve ==> neverOvercommit)
  }

  /** A bit that is set on a condition. */
  function Bit(on: bool, x: Flag): Flags {
    if on then {x} else {}
  }

  /** Bit by bit, the flags a mapping is asked for with. */
  function Bits(ask: Ask, prot: Flags, defFlags: Flags, neverOvercommit: bool): Flags {
    var readOnlyShare := ask.kind == MapShared && ask.file.Some? && !ask.file.value.canWrite;
    var huge := ask.file.Some? && ask.file.value.huge;
    prot * PROT_BITS + defFlags + {VmMayRead} + Bit(ask.growsDown, VmGrowsDown) + Bit(ask.locked, VmLocked)
    + Bit(!readOnlyShare, VmMayWrite) + Bit(!(ask.file.Some? && ask.file.value.noExec), VmMayExec)
    + Bit(ask.kind == MapShared, VmMayShare) + Bit(ask.kind == MapShared && !readOnlyShare, VmShared)
    + Bit(ask.noReserve && (!neverOvercommit || huge), VmNoReserve)
      + Bit(WillCharge(ask, prot, neverOvercommit), VmAccount)
  }

  /** What the mapping shows from page `at` on: the file asked for (a shmem file for shared memory without one)
      from the offset asked for on, with exactly those flags. */
  function Sought(ask: Ask, prot: Flags, defFlags: Flags, neverOvercommit: bool, shmem: FileId, at: nat): Request {
    var sharedMemory := ask.file == None && ask.kind == MapShared;
    Request(at, at + PageAlign(ask.len) / PAGE, Bits(ask, prot, defFlags, neverOvercommit),
            if sharedMemory then Some(shmem) else IdOf(ask.file),
            if ask.file.Some? then ask.pgoff else if sharedMemory then 0 else at, Tag(0, 0, false))
  }

  /** The place a request gets: the one asked for if it is fixed, or else the one chosen in the caller's
      address space. */
  ghost function PlaceFor(s: seq<Vma>, ask: Ask, l: Layout): Option<int> {
    if ask.fixed then Some(ask.addr / PAGE) else Chosen(s, RoundHint(ask.addr, l.minAddr), PageAlign(ask.len) / PAGE, l)
  }

  /** Why a mapping is refused when memory, hooks and drivers grant what they are asked for: its length or offset, the
      number of areas, its place, its file and type, the limits, or what is in the way. `q` is what it would show. */
  ghost function MapErr(s: seq<Vma>, maxMapCount: nat, totalVm: int, dataVm: int, cur: seq<Vma>, ask: Ask, prot: Flags,
                        q: Request, l: Layout, lim: Limits): Errno {
    var n := PageAlign(ask.len) / PAGE;
    var hint := if ask.fixed then ask.addr else RoundHint(ask.addr, l.minAddr);
    if ask.len == 0 then EINVAL
    else if ask.len > WORD - PAGE then ENOMEM
    else if ask.pgoff + n >= WORD then EOVERFLOW
    else if |s| > maxMapCount then ENOMEM
    else if PlaceErr(cur, hint, n, ask.fixed, l) != OK then PlaceErr(cur, hint, n, ask.fixed, l)
    else AtErr(s, maxMapCount, totalVm, dataVm, ask, prot, q, lim)
  }

  /** The same once the place is known. */
  ghost function AtErr(s: seq<Vma>, maxMapCount: nat, totalVm: int, dataVm: int, ask: Ask, prot: Flags, q: Request,
                       lim: Limits): Errno {
    if !Permitted(ask, prot) then Refusal(ask, prot)
    else if !RoomFor(s, totalVm, dataVm, q, lim) || Hindered(s, maxMapCount, q.addr, q.end) then ENOMEM
    else OK
  }

  /** do_task_mmap into mm, for a caller whose own address space is cur. */
  method DoTaskMmap(mm: Mm, cur: Space, ask: Ask, defFlags: Flags, readImpliesExec: bool, neverOvercommit: bool,
                    l: Layout, lim: Limits, shmem: FileId, willing: bool)
    returns (err: Errno, at: nat, driverFailed: bool)
    requires mm.Valid() && Shaped(cur) && Sane(l) && Harmless(defFlags) && ask.len < WORD && ask.pgoff < WORD
    requires ask.file.Some? ==> (ask.file.value.canWrite <==> ask.file.value.id in mm.writable)
    requires shmem in mm.writable
    modifies mm
    ensures mm.Valid() && (driverFailed ==> err != OK && ask.file.Some?)
    ensures mm.drift == Overcharged(old(mm.drift),
                                    if driverFailed && WillCharge(ask, Want(ask, readImpliesExec), neverOvercommit)
                                                   then PageAlign(ask.len) / PAGE else 0)
    ensures err == OK ==>
              var q := Sought(ask, Want(ask, readImpliesExec), defFlags, neverOvercommit, shmem, at);
              Overlaid(old(mm.space.list), mm.space.list, q) && WithinMay(q.flags)
    ensures err == OK ==> PlaceFor(cur.list, ask, l) == Some(at) && PageAlign(ask.len) / PAGE > 0
                          && (ask.fixed ==> at * PAGE == ask.addr)
    ensures err == OK && !ask.fixed ==> !Overlaps(cur.list, at, at + PageAlign(ask.len) / PAGE)
    ensures err == OK ==>
              var a, n := PlaceFor(cur.list, ask, l).value, PageAlign(ask.len) / PAGE;
              Vacant(old(mm.space.list), at, at + n) <==> !Overlaps(old(mm.space.list), a, a + n)
    ensures err == OK && old(mm.drift).total == 0 ==> mm.totalVm <= lim.space / PAGE
    ensures err != OK ==> SameView(old(mm.space.list), mm.space.list)
                          || Cleared(old(mm.space.list), mm.space.list, at, at + PageAlign(ask.len) / PAGE)
    ensures err == OK || willing ==>
              var prot := Want(ask, readImpliesExec);
              err == MapErr(old(mm.space.list), mm.maxMapCount, old(mm.totalVm), old(mm.dataVm), cur.list, ask, prot,
                            Sought(ask, prot, defFlags, neverOvercommit, shmem, at), l, lim)
  {
    hide Shaped, Guarded, Weight, Overlaps, Overlaid, SameView, Cleared, PageAlign, RoundHint, WithinMay, Want,
      WillCharge, Sought, Chosen, AtErr, PlaceErr, Vacant;
    at, driverFailed := 0, false;
    Unchanged(mm.space.list);
    if ask.len == 0 { return EINVAL, at, false; }
    var prot := Want(ask, readImpliesExec);
    var n := PageAlign(ask.len) / PAGE;
    PagesOf(ask.len);
    CountOf(mm.space);
    if n == 0 { return ENOMEM, at, false; }
    if (ask.pgoff + n) % WORD < ask.pgoff { return EOVERFLOW, at, false; }
    if mm.space.mapCount > mm.maxMapCount { return ENOMEM, at, false; }
    var hint := if ask.fixed then ask.addr else RoundHint(ask.addr, l.minAddr);
    err, at := GetUnmappedArea(cur, hint, n, ask.fixed, l, willing);
    if err != OK { return; }
    ShapedVacant(mm.space, at, at + n);
    err, driverFailed := MapAt(mm, ask, prot, defFlags, neverOvercommit, at, lim, shmem, willing);
  }

  /** do_task_mmap once the place is known: the flags, the checks, and the mapping. */
  method MapAt(mm: Mm, ask: Ask, prot: Flags, defFlags: Flags, neverOvercommit: bool, at: nat, lim: Limits,
               shmem: FileId, willing: bool)
    returns (err: Errno, driverFailed: bool)
    requires mm.Valid() && Harmless(defFlags) && at < at + PageAlign(ask.len) / PAGE <= TASK_SIZE
    requires ask.file.Some? ==> (ask.file.value.canWrite <==> ask.file.value.id in mm.writable)
    requires shmem in mm.writable
    modifies mm
    ensures mm.Valid() && (driverFailed ==> err != OK && ask.file.Some?)
    ensures mm.drift == Overcharged(old(mm.drift), if driverFailed && WillCharge(ask, prot, neverOvercommit)
                                                   then PageAlign(ask.len) / PAGE else 0)
    ensures err == OK ==>
              var q := Sought(ask, prot, defFlags, neverOvercommit, shmem, at);
              Overlaid(old(mm.space.list), mm.space.list, q) && WithinMay(q.flags)
    ensures err == OK && old(mm.drift).total == 0 ==> mm.totalVm <= lim.space / PAGE
    ensures err != OK ==> SameView(old(mm.space.list), mm.space.list)
                          || Cleared(old(mm.space.list), mm.space.list, at, at + PageAlign(ask.len) / PAGE)
    ensures err == OK || willing ==>
              err == AtErr(old(mm.space.list), mm.maxMapCount, old(mm.totalVm), old(mm.dataVm), ask, prot,
                           Sought(ask, prot, defFlags, neverOvercommit, shmem, at), lim)
  {
    hide Shaped, Guarded, Weight, Overlaid, SameView, Cleared, PageAlign, StartFlags, Decide, Proper, WithinMay,
      Charging, Mapped, WillCharge, Accountable, Sought, Permitted, Refusal, RoomFor, Hindered;
    driverFailed := false;
    Unchanged(mm.space.list);
    var start := StartFlags(prot, ask.growsDown, ask.locked, defFlags);
    StartPlain(prot, ask.growsDown, ask.locked, defFlags);
    var mayLock: bool := *;
    mayLock := mayLock || willing;
    if ask.locked && !mayLock { return EPERM, false; }
    if VmLocked in start && !mayLock { return EAGAIN, false; }
    var verdict := Decide(ask.file, ask.kind, start, at, ask.pgoff);
    RefusedExactly(ask, prot, start, at);
    if verdict.Deny? { return verdict.err, false; }
    var flags := verdict.flags;
    var hugeFile := ask.file.Some? && ask.file.value.huge;
    if ask.noReserve && (!neverOvercommit || hugeFile) { flags := flags + {VmNoReserve}; }
    GrantProper(ask.file, ask.kind, start, at, ask.pgoff, flags, shmem, mm.writable);
    GrantWillCharge(ask, prot, neverOvercommit, start, at, flags);
    var asked := Granted(ask, at, PageAlign(ask.len) / PAGE, flags, verdict.pgoff);
    GrantExact(ask, prot, defFlags, neverOvercommit, at, flags, shmem);
    SameRoom(mm.space.list, mm.totalVm, mm.dataVm, asked, hugeFile, shmem, lim);
    ghost var rounds;
    err, driverFailed, rounds := MmapRegion(mm, asked, hugeFile, lim, shmem, willing);
  }

  lemma {:induction false} PagesOf(len: nat)
    requires 0 < len < WORD
    ensures 0 <= PageAlign(len) / PAGE < WORD && (PageAlign(len) / PAGE == 0 <==> len > WORD - PAGE)
  {
    AlignExactly(len);
  }

  lemma {:induction false} CountOf(sp: Space)
    requires Shaped(sp)
    ensures sp.mapCount == |sp.list|
  {
  }

  /** Charging and finishing change nothing about the limits. */
  lemma {:induction false} SameRoom(s: seq<Vma>, totalVm: int, dataVm: int, q: Request, hugeFile: bool, shmem: FileId,
                                    lim: Limits)
    ensures var q2 := Mapped(Charging(q, hugeFile), shmem);
            q2.addr == q.addr && q2.end == q.end
              && (RoomFor(s, totalVm, dataVm, q2, lim) <==> RoomFor(s, totalVm, dataVm, q, lim))
  {
  }

  /** The granted mapping is accountable exactly when its caller can expect it to be. */
  lemma {:induction false} GrantWillCharge(ask: Ask, prot: Flags, neverOvercommit: bool, start: Flags, at: nat,
                                           f: Flags)
    requires Plain(start) && start * PROT_BITS == prot * PROT_BITS
             && Decide(ask.file, ask.kind, start, at, ask.pgoff).Grant?
    requires var huge := ask.file.Some? && ask.file.value.huge;
             f == Decide(ask.file, ask.kind, start, at, ask.pgoff).flags
                  + if ask.noReserve && (!neverOvercommit || huge) then {VmNoReserve} else {}
    ensures Accountable(ask.file.Some? && ask.file.value.huge, f) <==> WillCharge(ask, prot, neverOvercommit)
  {
    assert VmWrite in start * PROT_BITS <==> VmWrite in prot * PROT_BITS;
  }

  /** The flags of a grant: what the checks leave of the bits they began with, MAP_NORESERVE and the charge. */
  function GrantFlags(ask: Ask, start: Flags, neverOvercommit: bool, at: nat): Flags
    requires Decide(ask.file, ask.kind, start, at, ask.pgoff).Grant?
  {
    var huge := ask.file.Some? && ask.file.value.huge;
    Decide(ask.file, ask.kind, start, at, ask.pgoff).flags
    + if ask.noReserve && (!neverOvercommit || huge) then {VmNoReserve} else {}
  }

  /** What the checks leave of a bit, without the bits for MAP_NORESERVE and the charge. */
  lemma {:induction false} GrantBit(ask: Ask, start: Flags, at: nat, x: Flag)
    requires Plain(start) && Decide(ask.file, ask.kind, start, at, ask.pgoff).Grant?
    ensures x in Decide(ask.file, ask.kind, start, at, ask.pgoff).flags <==>
            match x
            case VmShared => ask.kind == MapShared && (ask.file == None || ask.file.value.canWrite)
            case VmMayShare => ask.kind == MapShared
            case VmMayWrite => !(ask.kind == MapShared && ask.file.Some? && !ask.file.value.canWrite)
            case VmMayExec => !(ask.file.Some? && ask.file.value.noExec)
            case _ => x in start
  {
  }

  /** What the checks grant and the charge adds is, bit by bit, what was asked for. */
  lemma {:induction false} GrantBits(ask: Ask, prot: Flags, defFlags: Flags, neverOvercommit: bool, at: nat)
    requires Harmless(defFlags) && Decide(ask.file, ask.kind, StartFlags(prot, ask.growsDown, ask.locked, defFlags), at,
                                          ask.pgoff).Grant?
    ensures var f := GrantFlags(ask, StartFlags(prot, ask.growsDown, ask.locked, defFlags), neverOvercommit, at);
            f + (if WillCharge(ask, prot, neverOvercommit) then {VmAccount} else {}) ==
              Bits(ask, prot, defFlags, neverOvercommit)
  {
    hide Decide, WillCharge, Harmless, Bits, StartFlags, Plain, GrantFlags;
    var start := StartFlags(prot, ask.growsDown, ask.locked, defFlags);
    StartPlain(prot, ask.growsDown, ask.locked, defFlags);
    var charge := if WillCharge(ask, prot, neverOvercommit) then {VmAccount} else {};
    var f := GrantFlags(ask, start, neverOvercommit, at) + charge;
    forall x: Flag ensures x in f <==> x in Bits(ask, prot, defFlags, neverOvercommit) {
      GrantBit(ask, start, at, x);
      StartBit(prot, ask.growsDown, ask.locked, defFlags, x);
      SoughtBit(ask, prot, defFlags, neverOvercommit, x);
      NoReserveBit(ask, start, neverOvercommit, at, x);
    }
  }

  lemma {:induction false} NoReserveBit(ask: Ask, start: Flags, neverOvercommit: bool, at: nat, x: Flag)
    requires Decide(ask.file, ask.kind, start, at, ask.pgoff).Grant?
    ensures x in GrantFlags(ask, start, neverOvercommit, at) <==>
            || x in Decide(ask.file, ask.kind, start, at, ask.pgoff).flags
            || (x == VmNoReserve && ask.noReserve && (!neverOvercommit || (ask.file.Some? && ask.file.value.huge)))
  {
    hide Decide;
  }

  lemma {:induction false} BitOn(on: bool, x: Flag, y: Flag)
    ensures y in Bit(on, x) <==> on && y == x
  {
  }

  lemma {:induction false} SoughtBit(ask: Ask, prot: Flags, defFlags: Flags, neverOvercommit: bool, x: Flag)
    ensures x in Bits(ask, prot, defFlags, neverOvercommit) <==>
            || x in prot * PROT_BITS || x in defFlags || x == VmMayRead
            || (ask.growsDown && x == VmGrowsDown) || (ask.locked && x == VmLocked)
            || (x == VmMayWrite && !(ask.kind == MapShared && ask.file.Some? && !ask.file.value.canWrite))
            || (x == VmMayExec && !(ask.file.Some? && ask.file.value.noExec))
            || (x == VmMayShare && ask.kind == MapShared)
            || (x == VmShared && ask.kind == MapShared && (ask.file == None || ask.file.value.canWrite))
            || (x == VmNoReserve && ask.noReserve && (!neverOvercommit || (ask.file.Some? && ask.file.value.huge)))
            || (x == VmAccount && WillCharge(ask, prot, neverOvercommit))
  {
    hide WillCharge, Bit;
    BitOn(ask.growsDown, VmGrowsDown, x);
    BitOn(ask.locked, VmLocked, x);
    BitOn(!(ask.kind == MapShared && ask.file.Some? && !ask.file.value.canWrite), VmMayWrite, x);
    BitOn(!(ask.file.Some? && ask.file.value.noExec), VmMayExec, x);
    BitOn(ask.kind == MapShared, VmMayShare, x);
    BitOn(ask.kind == MapShared && !(ask.kind == MapShared && ask.file.Some? && !ask.file.value.canWrite), VmShared, x);
    BitOn(ask.noReserve && (!neverOvercommit || (ask.file.Some? && ask.file.value.huge)), VmNoReserve, x);
    BitOn(WillCharge(ask, prot, neverOvercommit), VmAccount, x);
  }

  lemma {:induction false} StartBit(prot: Flags, growsDown: bool, locked: bool, defFlags: Flags, x: Flag)
    requires Harmless(defFlags)
    ensures x in StartFlags(prot, growsDown, locked, defFlags) <==>
            || x in prot * PROT_BITS || x in defFlags || x == VmMayRead || x == VmMayWrite || x == VmMayExec
            || (growsDown && x == VmGrowsDown) || (locked && x == VmLocked)
    ensures x in defFlags ==> x != VmShared && x != VmMayShare && x != VmMayWrite && x != VmMayExec
  {
  }

  lemma {:induction false} GrantExact(ask: Ask, prot: Flags, defFlags: Flags, neverOvercommit: bool, at: nat, f: Flags,
                                      shmem: FileId)
    requires Harmless(defFlags) && Decide(ask.file, ask.kind, StartFlags(prot, ask.growsDown, ask.locked, defFlags), at,
                                          ask.pgoff).Grant?
    requires f == GrantFlags(ask, StartFlags(prot, ask.growsDown, ask.locked, defFlags), neverOvercommit, at)
    requires !Special(f) && VmHugeTlb !in f && WithinMay(f)
    requires var huge := ask.file.Some? && ask.file.value.huge; Accountable(huge, f) <==>
               WillCharge(ask, prot, neverOvercommit)
    requires VmShared in f <==> ask.kind == MapShared && (ask.file == None || ask.file.value.canWrite)
    ensures var huge := ask.file.Some? && ask.file.value.huge;
            var pgoff := Decide(ask.file, ask.kind, StartFlags(prot, ask.growsDown, ask.locked, defFlags), at,
                                ask.pgoff).pgoff;
            var q := Mapped(Charging(Granted(ask, at, PageAlign(ask.len) / PAGE, f, pgoff), huge), shmem);
            q == Sought(ask, prot, defFlags, neverOvercommit, shmem, at) && WithinMay(q.flags)
  {
    hide PageAlign, WillCharge, Accountable, GrantFlags, Bits, StartFlags;
    GrantBits(ask, prot, defFlags, neverOvercommit, at);
    assert f + {} == f;
  }

  // ---------- what a mapping replaces ----------

  lemma {:induction false} VacantIff(s: seq<Vma>, a: nat, b: nat)
    requires Sorted(s) && a < b
    ensures Vacant(s, a, b) <==> !Overlaps(s, a, b)
  {
    if Vacant(s, a, b) {
      VacantApart(s, a, b);
    } else {
      var p: nat :| a <= p < b && At(s, p) != None;
      var i := AtWitness(s, p);
      assert s[i].start < b && a < s[i].end;
    }
  }

  lemma {:induction false} ShapedVacant(sp: Space, a: nat, b: nat)
    requires Shaped(sp) && a < b
    ensures Vacant(sp.list, a, b) <==> !Overlaps(sp.list, a, b)
  {
    VacantIff(sp.list, a, b);
  }

  /** A place that is chosen in an address space is free there. */
  lemma {:induction false} ChosenFree(s: seq<Vma>, hint: nat, len: nat, l: Layout)
    requires Sorted(s) && Sane(l) && 0 < len && Chosen(s, hint, len, l).Some?
    ensures var a := Chosen(s, hint, len, l).value; 0 <= a && a + len <= TASK_SIZE && !Overlaps(s, a, a + len)
  {
    hide Fit, Free, PageAlign, Overlaps;
    if !HintTaken(s, hint, len, l) {
      ScanDownFinds(s, |s| + 1, BelowBase(len, l));
      ScanUpFinds(s, 0, UpFrom(len, LowEnd(l)));
      var info := if l.topDown && ScanDown(s, |s| + 1, BelowBase(len, l)).Some? then BelowBase(len, l)
                  else UpFrom(len, LowEnd(l));
      FreeApart(s, info, Scan(s, len, l).value);
    }
  }

  /** A mapping that is not fixed replaces nothing in the address space that was searched. */
  lemma {:induction false} OwnKept(s: seq<Vma>, r: seq<Vma>, ask: Ask, l: Layout, q: Request, p: nat)
    requires Sorted(s) && Sane(l) && PageAlign(ask.len) / PAGE > 0 && !ask.fixed && PlaceFor(s, ask, l) == Some(q.addr)
    requires q.end == q.addr + PageAlign(ask.len) / PAGE && Overlaid(s, r, q)
    ensures Vacant(s, q.addr, q.end) && (At(s, p).Some? ==> At(r, p) == At(s, p))
  {
    hide At, PageAlign, Chosen, RoundHint, Overlaps;
    ChosenFree(s, RoundHint(ask.addr, l.minAddr), PageAlign(ask.len) / PAGE, l);
    VacantIff(s, q.addr, q.end);
    assert Shows(s, r, q, p);
  }

  /** In another address space the place can be taken. A caller with nothing mapped asks for one page, anywhere
      below page 100; it is given page 99, and the area that the task has there loses it. */
  lemma {:induction false} SearchedElsewhere(v: Vma, r: seq<Vma>, ask: Ask, l: Layout, q: Request)
    requires v.start == 99 && v.end == 100 && v.file.Some?
    requires ask == Ask(None, 0, PAGE, {VmRead}, MapPrivate, false, false, false, false, 0)
             && l == Layout(100, 50, 1, true)
    requires Overlaid([v], r, q) && q.addr == 99 && q.end == 100 && q.file == None
    ensures Sane(l) && PlaceFor([], ask, l) == Some(99) && Sorted([v]) && !Vacant([v], 99, 100)
            && At(r, 99) != At([v], 99)
  {
    assert PageAlign(PAGE) == PAGE && RoundHint(0, 1) == 0;
    assert Fit([], 0, BelowBase(1, l)) && Highest([], 0, BelowBase(1, l)) == 99;
    assert [v][0] == v && Overlaps([v], 99, 100);
    VacantIff([v], 99, 100);
    AtIndex([v], 0, 99);
    assert Shows([v], r, q, 99);
  }

  /** A private writable mapping of a readable file is granted and charged for, so that a failing driver
      operation leaves its page charged. */
  lemma {:induction false} DriverDrift(at: nat)
    ensures var ask := Ask(Some(File(1, true, false, false, false, false, true, false, false)), 0, PAGE,
                           {VmRead, VmWrite},
                           MapPrivate,
                           false, false, false, false, 0);
            && Decide(ask.file, ask.kind, StartFlags(Want(ask, false), false, false, {}), at, 0).Grant?
            && WillCharge(ask, Want(ask, false), false) && PageAlign(ask.len) / PAGE == 1
  {
  }

  /** Where a mapping of n pages that is not fixed goes: to the page of the hint, or mmap_min_addr if that is higher,
      when the hint is not in page 0 and the range there is free and below TASK_SIZE; or else where the scan says. */
  lemma {:induction false} PlaceExactly(s: seq<Vma>, ask: Ask, l: Layout, n: nat)
    requires !ask.fixed && ask.addr < WORD && Sane(l) && (n - 1) * PAGE < ask.len <= n * PAGE && n * PAGE < WORD
    ensures var h := if ask.addr / PAGE < l.minAddr then l.minAddr else ask.addr / PAGE;
            PlaceFor(s, ask, l) ==
            if n + l.minAddr > TASK_SIZE then None
            else if PAGE <= ask.addr && h + n <= TASK_SIZE && !Overlaps(s, h, h + n) then Some(h)
            else Scan(s, n, l)
  {
    hide Scan, Overlaps;
    AlignExactly(ask.len);
    assert PageAlign(ask.len) == n * PAGE;
    HintExactly(ask.addr, l.minAddr);
    AlignExactly(RoundHint(ask.addr, l.minAddr));
  }

  /** round_hint_to_min gives 0 for page 0, and otherwise the page of the hint or mmap_min_addr if that is higher. */
  lemma {:induction false} HintExactly(hint: nat, minAddr: nat)
    requires hint < WORD && minAddr <= TASK_SIZE
    ensures RoundHint(hint, minAddr) % PAGE == 0 && RoundHint(hint, minAddr) <= WORD - PAGE
    ensures RoundHint(hint, minAddr) / PAGE ==
            if hint < PAGE then 0 else if hint / PAGE < minAddr then minAddr else hint / PAGE
  {
  }

  // ---------- do_brk ----------

  /** What do_brk maps: private anonymous memory, readable, writable and accounted. */
  function HeapRequest(addr: nat, request: nat, exec: bool, defFlags: Flags): Request {
    Request(addr / PAGE, addr / PAGE + PageAlign(request) / PAGE,
            {VmRead, VmWrite, VmMayRead, VmMayWrite, VmMayExec, VmAccount} + Bit(exec, VmExec) + defFlags, None,
              addr / PAGE, Tag(0, 0, false))
  }

  lemma {:induction false} HeapProper(addr: nat, request: nat, exec: bool, defFlags: Flags, writable: iset<FileId>)
    requires 0 < PageAlign(request) / PAGE && addr / PAGE + PageAlign(request) / PAGE <= TASK_SIZE && Harmless(defFlags)
    ensures BrkRequest(HeapRequest(addr, request, exec, defFlags), writable)
  {
    hide PageAlign;
  }

  /** do_brk is a simplified mmap: it maps what a fixed private mapping of anonymous memory would. */
  lemma {:induction false} BrkIsMmap(addr: nat, request: nat, exec: bool, defFlags: Flags, neverOvercommit: bool,
                                     shmem: FileId)
    ensures var ask := Ask(None, addr, request, {VmRead, VmWrite} + Bit(exec, VmExec), MapPrivate, true, false, false,
                           false, 0);
            HeapRequest(addr, request, exec, defFlags) ==
            Sought(ask, Want(ask, false), defFlags, neverOvercommit, shmem, addr / PAGE)
  {
    hide PageAlign;
  }

  /** Why do_brk fails when memory is granted. */
  ghost function BrkErr(s: seq<Vma>, totalVm: int, dataVm: int, maxMapCount: nat, addr: nat, request: nat, q: Request,
                        l: Layout, lim: Limits, left: nat): Errno {
    if request == 0 then OK
    else if request > WORD - PAGE then ENOMEM
    else if PlaceErr(s, addr, PageAlign(request) / PAGE, true,
                     l) != OK then PlaceErr(s, addr, PageAlign(request) / PAGE, true, l)
    else if !BrkFits(s, totalVm, dataVm, maxMapCount, q, lim, left) then ENOMEM
    else OK
  }

  /** do_brk. The length is rounded up to pages, and the place is one that MAP_FIXED would be granted. */
  method DoBrk(mm: Mm, addr: nat, request: nat, exec: bool, defFlags: Flags, l: Layout, lim: Limits, willing: bool)
    returns (err: Errno, ghost left: nat)
    requires mm.Valid() && Sane(l) && Harmless(defFlags) && addr < WORD && request < WORD
    modifies mm
    ensures mm.Valid() && mm.drift == old(mm.drift)
    ensures request == 0 ==> err == OK && mm.space == old(mm.space)
    ensures err == OK && request > 0 ==>
              && addr % PAGE == 0 && mm.totalVm % WORD <= lim.space / PAGE
              && Overlaid(old(mm.space.list), mm.space.list, HeapRequest(addr, request, exec, defFlags))
    ensures err != OK ==> SameView(old(mm.space.list), mm.space.list)
                          || Cleared(old(mm.space.list), mm.space.list, addr / PAGE,
                                     addr / PAGE + PageAlign(request) / PAGE)
    ensures !Overlaps(old(mm.space.list), addr / PAGE, addr / PAGE + PageAlign(request) / PAGE) ==>
              left == old(|mm.space.list|)
    ensures left <= old(|mm.space.list|) || left <= mm.maxMapCount
    ensures err == OK || willing ==>
              err == BrkErr(old(mm.space.list), old(mm.totalVm), old(mm.dataVm), mm.maxMapCount, addr, request,
                            HeapRequest(addr, request, exec, defFlags), l, lim, left)
  {
    hide Guarded, Weight, Overlaid, SameView, Cleared, Shaped, HeapRequest, BrkRequest, PageAlign, PlaceErr, BrkFits,
      Overlaps;
    Unchanged(mm.space.list);
    left := |mm.space.list|;
    var len := PageAlign(request);
    AlignExactly(request);
    if len < request { return ENOMEM, left; }
    if len == 0 { return OK, left; }
    var at;
    err, at := GetUnmappedArea(mm.space, addr, len / PAGE, true, l, willing);
    if err != OK { return; }
    var mayLock: bool := *;
    if VmLocked in defFlags && !mayLock && !willing { return EAGAIN, left; }
    HeapProper(addr, request, exec, defFlags, mm.writable);
    HeapRange(addr, request, exec, defFlags);
    err, left := BrkRegion(mm, HeapRequest(addr, request, exec, defFlags), lim, willing);
  }

  lemma {:induction false} HeapRange(addr: nat, request: nat, exec: bool, defFlags: Flags)
    ensures var q := HeapRequest(addr, request, exec, defFlags);
            q.addr == addr / PAGE && q.end == addr / PAGE + PageAlign(request) / PAGE
  {
  }
}
