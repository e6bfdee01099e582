/** mmap_task_region and do_brk: laying new mappings over an address space. */
module Mmap {
  import opened Errors
  import opened VmFlags
  import opened Areas
  import opened GapTree
  import opened VmaIndex
  import opened Merge
  import opened Munmap
  import opened PageCount
  import opened Edits
  import opened MmStruct

  /** Resource limits of the calling task, in bytes. */
  datatype Limits = Limits(space: nat, data: nat, dataMax: nat, ignoreData: bool)

  /** may_expand_vm */
  predicate MayExpandVm(totalVm: int, dataVm: int, flags: Flags, npages: int, lim: Limits) {
    && (totalVm + npages) % WORD <= lim.space / PAGE
    && (InClass(flags, Data) && (dataVm + npages) % WORD > lim.data / PAGE ==>
          (lim.data == 0 && (dataVm + npages) % WORD <= lim.dataMax / PAGE) || lim.ignoreData)
  }

  /** accountable_mapping */
  predicate Accountable(hugeFile: bool, f: Flags) {
    !hugeFile && VmWrite in f && VmShared !in f && VmNoReserve !in f
  }

  /** While the sums do not wrap around: the pages stay within RLIMIT_AS, and those of private writable areas other
      than stacks within RLIMIT_DATA, unless that is not enforced or is 0 and they are within its hard limit. */
  lemma {:induction false} MayExpandExactly(totalVm: int, dataVm: int, flags: Flags, npages: int, lim: Limits)
    requires 0 <= totalVm + npages < WORD && 0 <= dataVm + npages < WORD
    ensures MayExpandVm(totalVm, dataVm, flags, npages, lim) <==>
            && (totalVm + npages) * PAGE <= lim.space
            && (VmWrite in flags && VmShared !in flags && VmGrowsDown !in flags ==>
                  || (dataVm + npages) * PAGE <= lim.data || lim.ignoreData
                  || (lim.data == 0 && (dataVm + npages) * PAGE <= lim.dataMax))
  {
    PageLimit(totalVm + npages, lim.space);
    PageLimit(dataVm + npages, lim.data);
    PageLimit(dataVm + npages, lim.dataMax);
  }

  lemma {:induction false} PageLimit(pages: int, limit: nat)
    ensures pages <= limit / PAGE <==> pages * PAGE <= limit
  {
  }

  // ---------- count_vma_pages_range ----------

  /** Pages inside one area are all mapped. */
  lemma {:induction false} CountArea(s: seq<Vma>, i: nat, a: nat, b: nat)
    requires Sorted(s) && i < |s| && s[i].start <= a <= b <= s[i].end
    ensures Count(s, Total, a, b) == b - a
  {
    forall p: nat ensures a <= p < b ==> Counts(At(s, p), Total) { if a <= p < b { AtIndex(s, i, p); } }
    CountUniform(s, Total, a, b, true);
  }

  /** Pages between two neighbours are all unmapped. */
  lemma {:induction false} HoleVacant(s: seq<Vma>, i: nat, a: nat, b: nat)
    requires Sorted(s) && i <= |s| && (i > 0 ==> s[i - 1].end <= a) && (i < |s| ==> b <= s[i].start)
    ensures Vacant(s, a, b)
  {
    forall p: nat | a <= p < b ensures At(s, p) == None {
      forall j | 0 <= j < |s| ensures !(s[j].start <= p < s[j].end) {
        if j < i - 1 { assert s[j].end <= s[i - 1].start; }
        if j > i { assert s[i].end <= s[j].start; }
      }
      AtNone(s, p);
    }
  }

  lemma {:induction false} CountHole(s: seq<Vma>, i: nat, a: nat, b: nat)
    requires Sorted(s) && i <= |s| && a <= b && (i > 0 ==> s[i - 1].end <= a) && (i < |s| ==> b <= s[i].start)
    ensures Count(s, Total, a, b) == 0
  {
    HoleVacant(s, i, a, b);
    CountUniform(s, Total, a, b, false);
  }

  /** From the hole in front of area i to the end of the area, or to `end` if that comes first. */
  lemma {:induction false} CountNext(s: seq<Vma>, i: nat, a: nat, end: nat)
    requires Sorted(s) && i < |s| && (i > 0 ==> s[i - 1].end <= a) && a <= s[i].start <= end
    ensures var b := if end < s[i].end then end else s[i].end;
            Count(s, Total, a, b) == b - s[i].start
  {
    var b := if end < s[i].end then end else s[i].end;
    CountSplit(s, Total, a, s[i].start, b);
    CountHole(s, i, a, s[i].start);
    CountArea(s, i, s[i].start, b);
  }

  /** count_vma_pages_range: exactly the mapped pages of the range. */
  method CountVmaPagesRange(t: Tree, s: seq<Vma>, addr: nat, end: nat) returns (nrPages: nat)
    requires Sorted(s) && DistinctIds(s) && InOrder(t) == Ids(s) && addr < end
    ensures nrPages == Count(s, Total, addr, end)
  {
    hide Count, At, InOrder, Ids;
    nrPages := 0;
    var vma := FindVma(t, s, addr);
    if vma == |s| || end <= s[vma].start {
      CountHole(s, vma, addr, end);
      return;
    }
    var upto := if end < s[vma].end then end else s[vma].end;
    nrPages := upto - (if addr > s[vma].start then addr else s[vma].start);
    if addr > s[vma].start { CountArea(s, vma, addr, upto); } else { CountNext(s, vma, addr, end); }
    vma := vma + 1;
    while vma < |s|
      invariant 0 < vma <= |s| && addr <= upto == (if end < s[vma - 1].end then end else s[vma - 1].end)
      invariant nrPages == Count(s, Total, addr, upto) && s[vma - 1].start <= end
    {
      if s[vma].start > end { break; }
      var next := if end < s[vma].end then end else s[vma].end;
      nrPages := nrPages + (next - s[vma].start);
      CountNext(s, vma, upto, end);
      CountSplit(s, Total, addr, upto, next);
      upto := next;
      vma := vma + 1;
    }
    if upto < end { CountHole(s, vma, upto, end); }
    CountSplit(s, Total, addr, upto, end);
    CountEmpty(s, end);
  }

  lemma {:induction false} CountEmpty(s: seq<Vma>, a: nat)
    ensures Count(s, Total, a, a) == 0
  {
  }

  // ---------- merging with a neighbour or linking a new area ----------

  datatype Outcome = Placed | Failed(err: Errno) | DriverFailed(err: Errno)

  /** The request as it is mapped: shared memory without a file gets a shmem file. */
  function Backed(q: Request, shmem: FileId): Request {
    if q.file == None && VmShared in q.flags then q.(file := Some(shmem)) else q
  }

  /** vma_merge, or else a new struct, the driver hook and vma_link. Area `at` then serves the request. */
  method PlaceArea(sp: Space, q: Request, prev: int, link: nat, parent: int, shmem: FileId, willing: bool)
    returns (out: Outcome, at: nat, r: Space, merged: bool)
    requires Shaped(sp) && q.addr < q.end <= TASK_SIZE
    requires link == prev + 1 && Fits(sp.list, link, q.addr, q.end)
    requires prev == -1 ==> parent == if sp.list == [] then -1 else 0
    ensures Shaped(r) && (out.Failed? ==> out.err != OK) && (out.DriverFailed? ==> out.err != OK)
    ensures !out.Placed? ==> r.list == sp.list
    ensures out.Placed? && merged ==> Overlaid(sp.list, r.list, q) && Serves(r.list, at, q)
    ensures out.Placed? && !merged ==> at == link <= |sp.list|
                                       && r.list == sp.list[..link] + [AreaOf(Backed(q, shmem), sp.nextId)]
                                       + sp.list[link..]
    ensures out.DriverFailed? ==> q.file.Some?
    ensures willing ==> out.Placed? && (merged <==> Mergeable(sp, prev, q, 0))
    ensures willing && merged ==> Reaches(sp, prev, q, 0, r.list, at)
  {
    hide Files, InOrder, Ids, ConsistentBut, Overlaid, Serves, LastEnd, Mergeable, Reaches, SameAnon;
    at := 0;
    var i;
    FitsBehind(sp.list, link, q.addr, q.end);
    merged, i, r := VmaMerge(sp, prev, q, 0, willing, Hole);
    out := Placed;
    if merged {
      at := i;
    } else {
      out, r := PlaceNew(r, q, prev, link, parent, shmem, willing);
      if out.Placed? { at := link; }
    }
  }

  /** The new struct of mmap_task_region. A reference to the file is taken before its driver is asked, and
      dropped again when that fails. */
  method PlaceNew(sp: Space, q: Request, prev: int, link: nat, parent: int, shmem: FileId, willing: bool)
    returns (out: Outcome, r: Space)
    requires Shaped(sp) && q.addr < q.end <= TASK_SIZE
    requires link == prev + 1 && Fits(sp.list, link, q.addr, q.end)
    requires prev == -1 ==> parent == if sp.list == [] then -1 else 0
    ensures Shaped(r) && (out.Failed? ==> out.err != OK) && (out.DriverFailed? ==> out.err != OK && q.file.Some?)
    ensures !out.Placed? ==> r == sp && !willing
    ensures out.Placed? ==> r.list == sp.list[..link] + [AreaOf(Backed(q, shmem), sp.nextId)] + sp.list[link..]
  {
    hide Shaped, Fits;
    r := sp;
    var gotMemory: bool, denied: bool, setupErr: Errno := *, *, *;
    if willing { gotMemory, denied, setupErr := true, false, OK; }
    if !gotMemory || (q.file.Some? && denied) { return Failed(ENOMEM), r; }
    // shmem_zero_setup makes a file, whose one reference is the area's.
    if q.file == None && VmShared in q.flags && setupErr != OK { return Failed(setupErr), r; }
    var file := Backed(q, shmem).file;
    r := GetFile(r, file);
    GetTaken(sp, file);
    if q.file.Some? && setupErr != OK {
      r := PutFile(r, file);
      return DriverFailed(setupErr), r;
    }
    r := LinkNew(r, Backed(q, shmem), 0, prev, link, parent);
    out := Placed;
  }

  lemma {:induction false} FitsBehind(s: seq<Vma>, link: nat, addr: nat, end: nat)
    requires Sorted(s) && Fits(s, link, addr, end)
    ensures link > 0 ==> s[link - 1].start < addr
  {
  }

  // ---------- the flags of the finished mapping ----------

  /** Areas that cannot be locked lose VM_LOCKED. */
  function Settled(f: Flags): Flags {
    if VmLocked in f && (Special(f) || VmHugeTlb in f) then f - {VmLocked} else f
  }

  lemma {:induction false} SettledExactly(f: Flags, x: Flag)
    ensures x in Settled(f) <==>
            x in f && (x != VmLocked || {VmIo, VmDontExpand, VmPfnMap, VmMixedMap, VmHugeTlb} !! f)
  {
  }

  /** What a request ends up mapping. */
  function Mapped(q: Request, shmem: FileId): Request {
    Backed(q, shmem).(flags := Settled(q.flags))
  }

  /** The flags that mmap_task_region leaves on the area that serves the request. */
  function Finish(q: Request, f: Flags): Flags {
    (if VmLocked in q.flags && (Special(q.flags) || VmHugeTlb in f) then f - {VmLocked} else f) + {VmSoftDirty}
  }

  /** An area with the request's flags and file was there before, so they are proper. */
  lemma {:induction false} NeighbourProper(s: seq<Vma>, r: seq<Vma>, at: nat, q: Request, writable: iset<FileId>)
    requires Guarded(s, writable) && Overlaid(s, r, q) && Serves(r, at, q) && Sorted(r) && q.addr < q.end
    ensures Proper(q.file, Clean(q.flags), writable)
  {
    hide At;
    var v := r[at];
    var p := if v.start < q.addr then q.addr - 1 else q.end;
    AtIndex(r, at, p);
    assert Shows(s, r, q, p);
  }

  lemma {:induction false} MergedFinish(s: seq<Vma>, r: seq<Vma>, at: nat, q: Request, shmem: FileId,
                                        writable: iset<FileId>)
    requires Guarded(s, writable) && Overlaid(s, r, q) && Serves(r, at, q) && Sorted(r) && q.addr < q.end
    ensures Overlaid(s, r[at := r[at].(flags := Finish(q, r[at].flags))], Mapped(q, shmem))
  {
    NeighbourProper(s, r, at, q, writable);
    var f := Finish(q, r[at].flags);
    FinishNeighbour(q, r[at].flags, writable);
    SoftDirtyView(r, at, f);
    var r' := r[at := r[at].(flags := f)];
    assert Mapped(q, shmem) == q;
    hide At, Sorted, Serves, Guarded;
    forall p: nat ensures Shows(s, r', q, p) { assert Shows(s, r, q, p) && At(r', p) == At(r, p); }
  }

  lemma {:induction false} FinishNeighbour(q: Request, f: Flags, writable: iset<FileId>)
    requires Proper(q.file, Clean(q.flags), writable) && Clean(f) == Clean(q.flags)
    ensures Finish(q, f) == f + {VmSoftDirty} && Settled(q.flags) == q.flags && (VmShared in q.flags ==> q.file.Some?)
  {
    assert (VmHugeTlb in Clean(f) <==> VmHugeTlb in f) && (VmHugeTlb in Clean(q.flags) <==> VmHugeTlb in q.flags);
    assert Special(Clean(q.flags)) == Special(q.flags);
  }

  lemma {:induction false} LinkedFinish(s: seq<Vma>, r: seq<Vma>, at: nat, q: Request, shmem: FileId, id: nat)
    requires Sorted(s) && Sorted(r) && at <= |s| && r == s[..at] + [AreaOf(Backed(q, shmem), id)] + s[at..]
    ensures Overlaid(s, r[at := r[at].(flags := Finish(q, r[at].flags))], Mapped(q, shmem))
  {
    hide At, Overlaid, Sorted, Clean;
    var q2 := Backed(q, shmem).(flags := Finish(q, q.flags));
    var f := Finish(q, r[at].flags);
    SortedFlags(r, at, f);
    Rewrite(s, at, AreaOf(Backed(q, shmem), id), AreaOf(q2, id));
    InsertOverlaid(s, at, q2, id);
    CleanDirty(Settled(q.flags));
    SameWanted(s, r[at := r[at].(flags := f)], q2, Mapped(q, shmem));
  }

  lemma {:induction false} SortedFlags(s: seq<Vma>, i: nat, f: Flags)
    requires Sorted(s) && i < |s|
    ensures Sorted(s[i := s[i].(flags := f)])
  {
    var r := s[i := s[i].(flags := f)];
    assert forall j :: 0 <= j < |r| ==> r[j].start == s[j].start && r[j].end == s[j].end;
  }

  lemma {:induction false} Rewrite(s: seq<Vma>, at: nat, v: Vma, w: Vma)
    requires at <= |s|
    ensures (s[..at] + [v] + s[at..])[at] == v && (s[..at] + [v] + s[at..])[at := w] == s[..at] + [w] + s[at..]
  {
  }

  lemma {:induction false} SameWanted(s: seq<Vma>, r: seq<Vma>, q: Request, q2: Request)
    requires Overlaid(s, r, q) && q2 == q.(flags := q2.flags) && Clean(q2.flags) == Clean(q.flags)
    ensures Overlaid(s, r, q2)
  {
    hide At, Clean;
    forall p: nat ensures Shows(s, r, q2, p) { assert Shows(s, r, q, p); }
  }

  // ---------- mmap_task_region ----------

  /** security_vm_enough_memory_mm: charge, and refund when the pages are not to be had. */
  method EnoughMemory(mm: Mm, pages: nat, willing: bool) returns (ok: bool)
    modifies mm`charged
    ensures willing ==> ok
    ensures mm.charged == old(mm.charged) + if ok then pages else 0
  {
    mm.charged := mm.charged + pages;
    ok := *;
    ok := ok || willing;
    if !ok { mm.charged := mm.charged - pages; }
  }

  /** The request with VM_ACCOUNT when its pages are charged. */
  function Charging(q: Request, hugeFile: bool): Request {
    if Accountable(hugeFile, q.flags) then q.(flags := q.flags + {VmAccount}) else q
  }

  /** The page sums after a request was laid over vacant pages. */
  lemma {:induction false} SumsMapped(s: seq<Vma>, r: seq<Vma>, q: Request, shmem: FileId)
    requires Sorted(s) && Sorted(r) && LastEnd(s) <= TASK_SIZE && LastEnd(r) <= TASK_SIZE
    requires q.addr <= q.end <= TASK_SIZE && Vacant(s, q.addr, q.end) && Overlaid(s, r, Mapped(q, shmem))
    ensures forall c: Class {:trigger Weight(r, c)} :: Weight(r, c) == Weight(s, c)
                                                       + if InClass(q.flags, c) then q.end - q.addr else 0
  {
    hide Overlaid, Vacant, Weight, Sorted, LastEnd;
    forall c: Class ensures Weight(r, c) == Weight(s, c) + if InClass(q.flags, c) then q.end - q.addr else 0 {
      WeightOverlaid(s, r, Mapped(q, shmem), c);
    }
  }

  /** Put the finishing flags on the area that serves the request. */
  method SetFinish(sp: Space, ghost was: Space, at: nat, q: Request, ghost merged: bool, ghost shmem: FileId,
                   ghost writable: iset<FileId>)
    returns (r: Space)
    requires Shaped(was) && Shaped(sp) && q.addr < q.end && Guarded(was.list, writable)
    requires merged ==> Overlaid(was.list, sp.list, q) && Serves(sp.list, at, q)
    requires !merged ==> at <= |was.list| && sp.list == was.list[..at] + [AreaOf(Backed(q, shmem), was.nextId)]
                         + was.list[at..]
    ensures Shaped(r) && Overlaid(was.list, r.list, Mapped(q, shmem))
  {
    hide Overlaid, InOrder, ConsistentBut, Files, Ids, Finish, Mapped, Guarded;
    r := SetFlags(sp, at, Finish(q, sp.list[at].flags));
    SetFlagsShape(sp, at, Finish(q, sp.list[at].flags));
    if merged {
      MergedFinish(was.list, sp.list, at, q, shmem, writable);
    } else {
      LinkedFinish(was.list, sp.list, at, q, shmem, was.nextId);
    }
  }

  /** The tail of mmap_task_region: count the pages, finish the flags. The pages are charged already. */
  method Settle(mm: Mm, sp: Space, at: nat, q: Request, ghost merged: bool, ghost shmem: FileId)
    requires Shaped(mm.space) && Guarded(mm.space.list, mm.writable) && Shaped(sp) && q.addr < q.end <= TASK_SIZE
    requires merged ==> Overlaid(mm.space.list, sp.list, q) && Serves(sp.list, at, q)
    requires !merged ==> at <= |mm.space.list| && sp.list == mm.space.list[..at]
                         + [AreaOf(Backed(q, shmem), mm.space.nextId)] + mm.space.list[at..]
    requires Vacant(mm.space.list, q.addr, q.end) && Proper(Mapped(q, shmem).file, Mapped(q, shmem).flags, mm.writable)
    requires forall c: Class {:trigger mm.Stat(c)} :: mm.Stat(c) == Weight(mm.space.list, c)
                                                      + if c == Account && VmAccount in q.flags then q.end - q.addr
                                                        else 0
    modifies mm
    ensures mm.Valid() && mm.drift == old(mm.drift) && mm.totalVm == old(mm.totalVm) + (q.end - q.addr)
    ensures Overlaid(old(mm.space.list), mm.space.list, Mapped(q, shmem))
  {
    hide Overlaid, InOrder, ConsistentBut, Files, Ids, Mapped, Guarded, Serves, Proper, Weight;
    mm.VmStatAccount(q.flags, q.end - q.addr);
    mm.space := SetFinish(sp, mm.space, at, q, merged, shmem, mm.writable);
    SumsMapped(old(mm.space.list), mm.space.list, q, shmem);
    GuardedOverlaid(old(mm.space.list), mm.space.list, Mapped(q, shmem), mm.writable);
    forall c: Class ensures mm.Stat(c) == Weight(mm.space.list, c) {
      assert mm.Stat(c) == old(mm.Stat(c)) + if c != Account && InClass(q.flags, c) then q.end - q.addr else 0;
    }
  }

  /** The second half of mmap_task_region: charge, place, count and finish the mapping. */
  method MapVacant(mm: Mm, q: Request, hugeFile: bool, shmem: FileId, prev: int, link: nat, parent: int, willing: bool)
    returns (err: Errno, driverFailed: bool)
    requires mm.Valid() && q.addr < q.end <= TASK_SIZE && VmAccount !in q.flags
    requires link == prev + 1 && Fits(mm.space.list, link, q.addr, q.end)
    requires prev == -1 ==> parent == if mm.space.list == [] then -1 else 0
    requires Proper(Backed(q, shmem).file, Settled(q.flags), mm.writable)
    modifies mm
    ensures mm.Valid() && (driverFailed ==> err != OK && q.file.Some?)
    ensures err == OK ==> Overlaid(old(mm.space.list), mm.space.list, Mapped(Charging(q, hugeFile), shmem))
    ensures err == OK ==> mm.totalVm == old(mm.totalVm) + (q.end - q.addr)
    ensures err != OK ==> mm.space.list == old(mm.space.list) && !willing
    ensures mm.drift == Overcharged(old(mm.drift),
                                    if driverFailed && Accountable(hugeFile, q.flags) then q.end - q.addr else 0)
  {
    hide Overlaid, Mapped, Guarded, Serves, Proper, Weight, Settled, Vacant, Shaped, Fits, Mergeable, Reaches;
    Prepared(mm, q, hugeFile, shmem, link);
    err, driverFailed := OK, false;
    var charge := 0;
    if Accountable(hugeFile, q.flags) {
      charge := q.end - q.addr;
      var ok := EnoughMemory(mm, charge, willing);
      if !ok { return ENOMEM, false; }
    }
    var q2 := Charging(q, hugeFile);
    var out, at, sp, merged := PlaceArea(mm.space, q2, prev, link, parent, shmem, willing);
    assert forall c: Class {:trigger mm.Stat(c)} :: mm.Stat(c) == old(mm.Stat(c)) + if c == Account then charge else 0;
    if out.Placed? {
      Settle(mm, sp, at, q2, merged, shmem);
    } else {
      mm.space := sp;
      err, driverFailed := out.err, out.DriverFailed?;
      if driverFailed {
        mm.drift := Overcharged(mm.drift, charge);
      } else {
        mm.charged := mm.charged - charge;
      }
      assert forall c: Class {:trigger mm.Stat(c)} :: mm.Stat(c) == old(mm.Stat(c));
    }
  }

  lemma {:induction false} Prepared(mm: Mm, q: Request, hugeFile: bool, shmem: FileId, link: nat)
    requires mm.Valid() && Fits(mm.space.list, link, q.addr, q.end)
             && Proper(Backed(q, shmem).file, Settled(q.flags), mm.writable)
    ensures Vacant(mm.space.list, q.addr, q.end) && link <= |mm.space.list|
    ensures Proper(Mapped(Charging(q, hugeFile), shmem).file, Mapped(Charging(q, hugeFile), shmem).flags, mm.writable)
  {
    FitsVacant(mm.space.list, link, q.addr, q.end);
    ChargedProper(q, hugeFile, shmem, mm.writable);
  }

  lemma {:induction false} FitsVacant(s: seq<Vma>, k: nat, addr: nat, end: nat)
    requires Sorted(s) && Fits(s, k, addr, end)
    ensures Vacant(s, addr, end) && k <= |s|
  {
    HoleVacant(s, k, addr, end);
  }

  lemma {:induction false} ChargedProper(q: Request, hugeFile: bool, shmem: FileId, writable: iset<FileId>)
    requires Proper(Backed(q, shmem).file, Settled(q.flags), writable)
    ensures Proper(Mapped(Charging(q, hugeFile), shmem).file, Mapped(Charging(q, hugeFile), shmem).flags, writable)
  {
  }

  lemma {:induction false} WeightCleared(s: seq<Vma>, r: seq<Vma>, a: nat, b: nat, c: Class)
    requires Sorted(s) && Sorted(r) && LastEnd(s) <= TASK_SIZE && LastEnd(r) <= TASK_SIZE && a <= b <= TASK_SIZE
    requires Cleared(s, r, a, b)
    ensures Weight(r, c) == Weight(s, c) - Count(s, c, a, b)
  {
    forall p: nat ensures a <= p < b ==> At(r, p) == None { }
    forall p: nat ensures !(a <= p < b) ==> At(r, p) == At(s, p) { }
    CountUniform(r, c, a, b, false);
    WeightMoves(s, r, c, a, b);
  }

  lemma {:induction false} VacantApart(s: seq<Vma>, a: nat, b: nat)
    requires Sorted(s) && a < b && Vacant(s, a, b)
    ensures !Overlaps(s, a, b)
  {
    forall j | 0 <= j < |s| ensures !(s[j].start < b && a < s[j].end) {
      var p := if a < s[j].start then s[j].start else a;
      if s[j].start <= p < s[j].end { AtIndex(s, j, p); }
    }
  }

  lemma {:induction false} ClearedVacant(s: seq<Vma>, r: seq<Vma>, a: nat, b: nat)
    requires Cleared(s, r, a, b)
    ensures Vacant(r, a, b)
  {
  }

  lemma {:induction false} VacantCleared(s: seq<Vma>, a: nat, b: nat)
    requires Vacant(s, a, b)
    ensures Cleared(s, s, a, b)
  {
  }

  lemma {:induction false} OverCleared(s: seq<Vma>, m: seq<Vma>, r: seq<Vma>, q: Request)
    requires Cleared(s, m, q.addr, q.end) && Overlaid(m, r, q)
    ensures Overlaid(s, r, q)
  {
    forall p: nat ensures Shows(s, r, q, p) { assert Shows(m, r, q, p); }
  }

  /** The clearing loop of mmap_task_region and do_brk. It takes at most one round. */
  method ClearOldMaps(mm: Mm, addr: nat, end: nat, willing: bool)
    returns (err: Errno, prev: int, link: nat, parent: int, ghost rounds: nat)
    requires mm.Valid() && addr < end <= TASK_SIZE
    modifies mm
    ensures mm.Valid() && mm.drift == old(mm.drift) && rounds <= 1
    ensures err == OK ==> !Hindered(old(mm.space.list), mm.maxMapCount, addr, end)
    ensures willing && !Hindered(old(mm.space.list), mm.maxMapCount, addr, end) ==> err == OK
    ensures err == OK || err == ENOMEM
    ensures err == OK ==> forall c: Class :: mm.Counter(c) ==
                                             old(mm.Counter(c)) - Count(old(mm.space.list), c, addr, end)
    ensures !Overlaps(old(mm.space.list), addr, end) ==> mm.space == old(mm.space)
    ensures err == OK ==> Cleared(old(mm.space.list), mm.space.list, addr, end)
    ensures err == OK ==> |mm.space.list| <= |old(mm.space.list)| || |mm.space.list| <= mm.maxMapCount
    ensures err == OK ==> link == prev + 1 && Fits(mm.space.list, link, addr, end)
    ensures err == OK && prev == -1 ==> parent == if mm.space.list == [] then -1 else 0
    ensures err != OK ==> SameView(old(mm.space.list), mm.space.list)
  {
    hide Guarded, Weight, ConsistentBut, Files, InOrder, Ids, Cleared, CarvedOut, Overlaps, SameView, Vacant, Hindered,
      Count;
    err, rounds := OK, 0;
    VacantUnhindered(mm.space.list, mm.maxMapCount, addr, end);
    var ok;
    ok, prev, link, parent := FindVmaLinks(mm.space.tree, mm.space.list, addr, end);
    while !ok
      invariant mm.Valid() && mm.drift == old(mm.drift)
      invariant rounds == 0 ==> mm.space == old(mm.space)
      invariant rounds == 1 ==> ok && Cleared(old(mm.space.list), mm.space.list, addr, end)
      invariant rounds == 1 ==> !Hindered(old(mm.space.list), mm.maxMapCount, addr, end)
      invariant rounds == 1 ==> Overlaps(old(mm.space.list), addr, end)
      invariant |mm.space.list| <= |old(mm.space.list)| || |mm.space.list| <= mm.maxMapCount
      invariant rounds <= 1
      invariant !ok <==> Overlaps(mm.space.list, addr, end)
      invariant ok ==> link == prev + 1 && Fits(mm.space.list, link, addr, end)
      invariant ok && prev == -1 ==> parent == if mm.space.list == [] then -1 else 0
      decreases !ok
    {
      var e;
      ghost var i, k;
      e, i, k := mm.Unmap(addr, end, willing);
      if e != OK {
        err := ENOMEM;
        return;
      }
      rounds := rounds + 1;
      ClearedVacant(old(mm.space.list), mm.space.list, addr, end);
      VacantApart(mm.space.list, addr, end);
      ok, prev, link, parent := FindVmaLinks(mm.space.tree, mm.space.list, addr, end);
    }
    FitsVacant(mm.space.list, link, addr, end);
    VacantCleared(mm.space.list, addr, end);
    forall c: Class ensures mm.Counter(c) == old(mm.Counter(c)) - Count(old(mm.space.list), c, addr, end) {
      WeightCleared(old(mm.space.list), mm.space.list, addr, end, c);
      assert mm.Stat(c) == Weight(mm.space.list, c) && old(mm.Stat(c)) == Weight(old(mm.space.list), c);
    }
  }

  /** Where nothing is mapped, nothing hinders. */
  lemma {:induction false} VacantUnhindered(s: seq<Vma>, maxMapCount: nat, addr: nat, end: nat)
    requires addr < end
    ensures Hindered(s, maxMapCount, addr, end) ==> Overlaps(s, addr, end)
  {
  }

  /** The address space limit, taken with the pages that are about to be replaced. */
  lemma {:induction false} WithinLimit(mm: Mm, was: seq<Vma>, q: Request, lim: Limits, total: int)
    requires mm.Valid() && Sorted(was) && LastEnd(was) <= TASK_SIZE && q.addr <= q.end <= TASK_SIZE
    requires total == Weight(was, Total) && mm.drift.total == 0 && Cleared(was, mm.space.list, q.addr, q.end)
    requires total + (q.end - q.addr) - Count(was, Total, q.addr, q.end) <= lim.space / PAGE
    ensures mm.totalVm + (q.end - q.addr) <= lim.space / PAGE
  {
    WeightCleared(was, mm.space.list, q.addr, q.end, Total);
    assert mm.Stat(Total) == mm.totalVm;
  }

  /** While total_vm is the page sum, its sums as an unsigned long are true sums. */
  lemma {:induction false} TrueSum(s: seq<Vma>, a: nat, b: nat)
    requires Sorted(s) && LastEnd(s) <= TASK_SIZE && a <= b <= TASK_SIZE
    ensures 0 <= Count(s, Total, a, b) <= Weight(s, Total) <= TASK_SIZE && Count(s, Total, a, b) <= b - a
  {
    WeightIsCount(s, Total, TASK_SIZE);
    CountSplit(s, Total, 0, a, TASK_SIZE);
    CountSplit(s, Total, a, b, TASK_SIZE);
    CountBound(s, Total, 0, TASK_SIZE);
    CountBound(s, Total, 0, a);
    CountBound(s, Total, a, b);
    CountBound(s, Total, b, TASK_SIZE);
  }

  /** The limits allow the pages to be added, as they are or less those that they replace. */
  ghost predicate RoomFor(s: seq<Vma>, totalVm: int, dataVm: int, q: Request, lim: Limits) {
    || MayExpandVm(totalVm, dataVm, q.flags, q.end - q.addr, lim)
    || MayExpandVm(totalVm, dataVm, q.flags, q.end - q.addr - Count(s, Total, q.addr, q.end), lim)
  }

  /** The first test of mmap_task_region: may the pages be added, at least after those they replace are gone? */
  method MayMap(mm: Mm, q: Request, lim: Limits) returns (ok: bool)
    requires mm.Valid() && q.addr < q.end <= TASK_SIZE
    ensures ok <==> RoomFor(mm.space.list, mm.totalVm, mm.dataVm, q, lim)
    ensures ok && mm.drift.total == 0 ==>
              mm.totalVm + (q.end - q.addr) - Count(mm.space.list, Total, q.addr, q.end) <= lim.space / PAGE
  {
    hide Count, Weight, Guarded, ConsistentBut, Files;
    TrueSum(mm.space.list, q.addr, q.end);
    assert mm.Stat(Total) == mm.totalVm - mm.drift.total;
    ok := MayExpandVm(mm.totalVm, mm.dataVm, q.flags, q.end - q.addr, lim);
    if !ok {
      var nrPages := CountVmaPagesRange(mm.space.tree, mm.space.list, q.addr, q.end);
      ok := MayExpandVm(mm.totalVm, mm.dataVm, q.flags, q.end - q.addr - nrPages, lim);
    }
  }

  /** mmap_task_region */
  method MmapRegion(mm: Mm, q: Request, hugeFile: bool, lim: Limits, shmem: FileId, willing: bool)
    returns (err: Errno, driverFailed: bool, ghost rounds: nat)
    requires mm.Valid() && q.addr < q.end <= TASK_SIZE && VmAccount !in q.flags
    requires Proper(Backed(q, shmem).file, Settled(q.flags), mm.writable)
    modifies mm
    ensures mm.Valid() && rounds <= 1
    ensures err == OK ==> Overlaid(old(mm.space.list), mm.space.list, Mapped(Charging(q, hugeFile), shmem))
    ensures err == OK && old(mm.drift).total == 0 ==> mm.totalVm <= lim.space / PAGE
    ensures err != OK ==> SameView(old(mm.space.list), mm.space.list)
                          || Cleared(old(mm.space.list), mm.space.list, q.addr, q.end)
    ensures driverFailed ==> err != OK && q.file.Some?
    ensures mm.drift == Overcharged(old(mm.drift),
                                    if driverFailed && Accountable(hugeFile, q.flags) then q.end - q.addr else 0)
    ensures err == OK ==> old(RoomFor(mm.space.list, mm.totalVm, mm.dataVm, q, lim))
                          && !Hindered(old(mm.space.list), mm.maxMapCount, q.addr, q.end)
    ensures willing && err != OK ==> !old(RoomFor(mm.space.list, mm.totalVm, mm.dataVm, q, lim))
                                     || Hindered(old(mm.space.list), mm.maxMapCount, q.addr, q.end)
    ensures willing ==> err == OK || err == ENOMEM
  {
    hide RoomFor, Hindered, Overlaps, Guarded, Weight, ConsistentBut, Files, InOrder, Ids, Cleared, SameView, Overlaid,
      Fits, Proper, Count, Sorted, DistinctIds, LastEnd, Settled, Mapped, Backed, Charging;
    rounds, driverFailed := 0, false;
    var ok := MayMap(mm, q, lim);
    if !ok {
      err := ENOMEM;
      Unchanged(mm.space.list);
      return;
    }
    ghost var was, total := mm.space.list, mm.totalVm;
    assert mm.Stat(Total) == total - mm.drift.total;
    var prev, link, parent;
    err, prev, link, parent, rounds := ClearOldMaps(mm, q.addr, q.end, willing);
    if err == OK {
      if mm.drift.total == 0 { WithinLimit(mm, was, q, lim, total); }
      ghost var cleared := mm.space.list;
      err, driverFailed := MapVacant(mm, q, hugeFile, shmem, prev, link, parent, willing);
      if err == OK {
        MappedRange(q, hugeFile, shmem);
        OverCleared(was, cleared, mm.space.list, Mapped(Charging(q, hugeFile), shmem));
      }
    }
  }

  lemma {:induction false} MappedRange(q: Request, hugeFile: bool, shmem: FileId)
    ensures Mapped(Charging(q, hugeFile), shmem).addr == q.addr && Mapped(Charging(q, hugeFile), shmem).end == q.end
  {
  }

  // ---------- do_brk ----------

  /** The heap area that do_brk asks for: private, anonymous, writable and accounted. */
  ghost predicate BrkRequest(q: Request, writable: iset<FileId>) {
    && q.addr < q.end <= TASK_SIZE && q.file == None && q.pgoff == q.addr
    && VmAccount in q.flags && InClass(q.flags, Data) && !Special(q.flags) && VmHugeTlb !in q.flags
       && Proper(None, q.flags, writable)
  }

  lemma {:induction false} BrkMapped(q: Request, shmem: FileId, writable: iset<FileId>)
    requires BrkRequest(q, writable)
    ensures Mapped(q, shmem) == q && Backed(q, shmem) == q
            && Proper(Mapped(q, shmem).file, Mapped(q, shmem).flags, writable)
    ensures forall c: Class :: InClass(q.flags, c) <==> c == Total || c == Data || c == Account
  {
  }

  /** The tail of do_brk: the pages count as data. They are charged already. */
  method BrkSettle(mm: Mm, sp: Space, at: nat, q: Request, ghost merged: bool)
    requires Shaped(mm.space) && Guarded(mm.space.list, mm.writable) && Shaped(sp) && BrkRequest(q, mm.writable)
    requires merged ==> Overlaid(mm.space.list, sp.list, q) && Serves(sp.list, at, q)
    requires !merged ==> at <= |mm.space.list| && sp.list == mm.space.list[..at]
                         + [AreaOf(Backed(q, 0), mm.space.nextId)] + mm.space.list[at..]
    requires Vacant(mm.space.list, q.addr, q.end)
    requires forall c: Class {:trigger mm.Stat(c)} :: mm.Stat(c) == Weight(mm.space.list, c)
                                                      + if c == Account then q.end - q.addr else 0
    modifies mm
    ensures mm.Valid() && mm.drift == old(mm.drift) && mm.totalVm == old(mm.totalVm) + (q.end - q.addr)
    ensures Overlaid(old(mm.space.list), mm.space.list, q)
  {
    hide Overlaid, InOrder, ConsistentBut, Files, Ids, Mapped, Guarded, Serves, Proper, Weight, InClass, Sorted,
      LastEnd, DistinctIds, Vacant;
    BrkMapped(q, 0, mm.writable);
    mm.totalVm := mm.totalVm + (q.end - q.addr);
    mm.dataVm := mm.dataVm + (q.end - q.addr);
    mm.space := SetFinish(sp, mm.space, at, q, merged, 0, mm.writable);
    SumsMapped(old(mm.space.list), mm.space.list, q, 0);
    GuardedOverlaid(old(mm.space.list), mm.space.list, q, mm.writable);
    forall c: Class ensures mm.Stat(c) == Weight(mm.space.list, c) {
      assert mm.Stat(c) == old(mm.Stat(c)) + if c == Total || c == Data then q.end - q.addr else 0;
    }
  }

  /** do_brk from the clearing loop on. The limits are tested after old maps are gone. */
  method BrkRegion(mm: Mm, q: Request, lim: Limits, willing: bool) returns (err: Errno, ghost left: nat)
    requires mm.Valid() && BrkRequest(q, mm.writable)
    modifies mm
    ensures mm.Valid() && mm.drift == old(mm.drift)
    ensures err == OK ==> Overlaid(old(mm.space.list), mm.space.list, q) && mm.totalVm % WORD <= lim.space / PAGE
    ensures err != OK ==> SameView(old(mm.space.list), mm.space.list)
                          || Cleared(old(mm.space.list), mm.space.list, q.addr, q.end)
    ensures !Overlaps(old(mm.space.list), q.addr, q.end) ==> left == old(|mm.space.list|)
    ensures left <= old(|mm.space.list|) || left <= mm.maxMapCount
    ensures err == OK ==> BrkFits(old(mm.space.list), old(mm.totalVm), old(mm.dataVm), mm.maxMapCount, q, lim, left)
    ensures willing && BrkFits(old(mm.space.list), old(mm.totalVm), old(mm.dataVm), mm.maxMapCount, q, lim, left) ==>
              err == OK
    ensures willing ==> err == OK || err == ENOMEM
  {
    hide Overlaid, Mapped, Guarded, Serves, Proper, Weight, Settled, Vacant, Shaped, Fits, Cleared, SameView, Hindered,
      Count, Overlaps;
    var prev, link, parent;
    ghost var rounds;
    left := |mm.space.list|;
    err, prev, link, parent, rounds := ClearOldMaps(mm, q.addr, q.end, willing);
    if err != OK { return; }
    left := |mm.space.list|;
    assert mm.totalVm == mm.Counter(Total) && mm.dataVm == mm.Counter(Data);
    if !MayExpandVm(mm.totalVm, mm.dataVm, q.flags, q.end - q.addr, lim) { return ENOMEM, left; }
    ghost var cleared := mm.space.list;
    err := BrkVacant(mm, q, prev, link, parent, willing);
    if err == OK { OverCleared(old(mm.space.list), cleared, mm.space.list, q); }
  }

  /** What do_brk needs: the old maps can go; without their pages the new ones are within the limits; and of the
      areas that are `left` there are not too many. */
  ghost predicate BrkFits(s: seq<Vma>, totalVm: int, dataVm: int, maxMapCount: nat, q: Request, lim: Limits,
                          left: nat) {
    && !Hindered(s, maxMapCount, q.addr, q.end) && left <= maxMapCount
    && MayExpandVm(totalVm - Count(s, Total, q.addr, q.end), dataVm - Count(s, Data, q.addr, q.end), q.flags,
                   q.end - q.addr, lim)
  }

  method BrkVacant(mm: Mm, q: Request, prev: int, link: nat, parent: int, willing: bool) returns (err: Errno)
    requires mm.Valid() && BrkRequest(q, mm.writable)
    requires link == prev + 1 && Fits(mm.space.list, link, q.addr, q.end)
    requires prev == -1 ==> parent == if mm.space.list == [] then -1 else 0
    modifies mm
    ensures mm.Valid() && mm.drift == old(mm.drift)
    ensures err == OK ==> Overlaid(old(mm.space.list), mm.space.list, q)
                          && mm.totalVm == old(mm.totalVm) + (q.end - q.addr)
    ensures err != OK ==> mm.space.list == old(mm.space.list)
    ensures err == OK ==> old(|mm.space.list|) <= mm.maxMapCount
    ensures willing && old(|mm.space.list|) <= mm.maxMapCount ==> err == OK
    ensures err == OK || err == ENOMEM
  {
    hide Overlaid, Mapped, Guarded, Serves, Proper, Weight, Settled, Vacant, Shaped, Fits, Mergeable, Reaches;
    BrkReady(mm, q, link);
    err := ENOMEM;
    if mm.space.mapCount > mm.maxMapCount { return; }
    var ok := EnoughMemory(mm, q.end - q.addr, willing);
    if !ok { return; }
    var out, at, sp, merged := PlaceArea(mm.space, q, prev, link, parent, 0, willing);
    assert forall c: Class {:trigger mm.Stat(c)} ::
        mm.Stat(c) == old(mm.Stat(c)) + if c == Account then q.end - q.addr else 0;
    if out.Placed? {
      err := OK;
      BrkSettle(mm, sp, at, q, merged);
    } else {
      mm.space := sp;
      mm.charged := mm.charged - (q.end - q.addr);
      assert forall c: Class {:trigger mm.Stat(c)} :: mm.Stat(c) == old(mm.Stat(c));
    }
  }

  lemma {:induction false} BrkReady(mm: Mm, q: Request, link: nat)
    requires mm.Valid() && Fits(mm.space.list, link, q.addr, q.end)
    ensures Vacant(mm.space.list, q.addr, q.end) && link <= |mm.space.list| == mm.space.mapCount
  {
    FitsVacant(mm.space.list, link, q.addr, q.end);
  }
}
