/** Whole runs: any sequence of requests against one address space. */
module Session {
  import opened Errors
  import opened VmFlags
  import opened Areas
  import opened VmaIndex
  import opened Merge
  import opened Munmap
  import opened Edits
  import opened MmStruct
  import opened Mmap
  import opened Mprotect
  import opened Mremap
  import opened StackGrowth
  import opened TaskMmap

  /** An unsigned long. */
  type Word = x: nat | x < WORD

  /** A request, by the tracer or by the task itself. `cur` is the address space of the caller. */
  datatype Call =
    | DoMmap(cur: Space, ask: Ask, defFlags: Flags, readImpliesExec: bool, neverOvercommit: bool, l: Layout,
             shmem: FileId)
    | DoUnmap(start: Word, len: Word)
    | DoProtect(start: Word, len: Word, prot: Flags, growsDown: bool, growsUp: bool, rier: bool)
    | DoRemap(cur: Space, l: Layout, addr: Word, oldLen: Word, newLen: Word, fixed: bool, mayMove: bool,
              otherFlags: bool,
              newAddr: Word)
    | DoBreak(addr: Word, request: Word, exec: bool, defFlags: Flags, l: Layout)
    | DoFault(page: nat, stackLimit: nat)

  /** The caller's own address space is in order, and what is known of the file agrees with who may write it. */
  ghost predicate Sound(c: Call, writable: iset<FileId>) {
    && (c.DoMmap? ==>
          && Shaped(c.cur) && c.ask.len < WORD && c.ask.pgoff < WORD && c.shmem in writable
          && (c.ask.file.Some? ==> (c.ask.file.value.canWrite <==> c.ask.file.value.id in writable)))
    && (c.DoMmap? || c.DoBreak? ==> Sane(c.l) && Harmless(c.defFlags))
    && (c.DoRemap? ==> Shaped(c.cur) && Sane(c.l))
  }

  /** What may come apart. A driver's mmap operation failed and the pages charged for the mapping stay charged;
      a stack without VM_ACCOUNT grew and its new pages are charged all the same; or counters are off, because
      an area with these flags grew in place by 2^31 pages or more. */
  datatype Flaw = NoFlaw | DriverKept(pages: nat) | StackGrew(pages: nat) | Miscounted(flags: Flags, pages: nat)

  /** By how much the counters are off after a request with that flaw. */
  function After(d: Drift, f: Flaw): Drift {
    match f
    case NoFlaw => d
    case DriverKept(pages) => Overcharged(d, pages)
    case StackGrew(pages) => Overcharged(d, pages)
    case Miscounted(flags, pages) => Regrown(d, flags, pages)
  }

  /** The request can have that flaw. */
  predicate Prone(c: Call, f: Flaw) {
    match f
    case NoFlaw => true
    case DriverKept(pages) =>
      && c.DoMmap? && c.ask.file.Some? && pages == PageAlign(c.ask.len) / PAGE
      && WillCharge(c.ask, Want(c.ask, c.readImpliesExec), c.neverOvercommit)
    case StackGrew(pages) => c.DoFault?
    case Miscounted(flags, pages) =>
      c.DoRemap? && 0x8000_0000 <= pages == PageAlign(c.newLen) / PAGE - PageAlign(c.oldLen) / PAGE
  }

  /** Growth of an area without VM_ACCOUNT down to an unmapped page, by so many pages. */
  ghost predicate GrowsUncounted(s: seq<Vma>, page: nat, pages: nat) {
    && At(s, page) == None
    && exists i :: 0 <= i < |s| && page < s[i].start && pages == s[i].start - page && VmGrowsDown in s[i].flags
                   && VmAccount !in s[i].flags
  }

  /** What a request that succeeds does to the page view. */
  ghost predicate Did(s: seq<Vma>, r: seq<Vma>, c: Call) {
    match c
    case DoMmap(cur, ask, defFlags, readImpliesExec, neverOvercommit, l, shmem) =>
      exists at: nat ::
        && PlaceFor(cur.list, ask, l) == Some(at)
        && Overlaid(s, r, Sought(ask, Want(ask, readImpliesExec), defFlags, neverOvercommit, shmem, at))
    case DoUnmap(start, len) => BytesCleared(s, r, start, start + len)
    case DoProtect(start, len, prot, growsDown, growsUp, rier) =>
      growsDown || growsUp || len == 0 || Protects(s, r, prot, rier, start / PAGE, (start + len + PAGE - 1) / PAGE)
    case DoRemap(_, _, addr, oldLen, newLen, _, _, _, _) =>
      exists at, deed :: Remapped(s, r, addr / PAGE, PageAlign(oldLen) / PAGE, PageAlign(newLen) / PAGE, OK, at, deed)
    case DoBreak(addr, request, exec, defFlags, _) =>
      request == 0 || Overlaid(s, r, HeapRequest(addr, request, exec, defFlags))
    case DoFault(page, _) => At(r, page).Some? && forall p: nat :: At(s, p).Some? ==> At(r, p) == At(s, p)
  }

  /** Serve one request. Unless it is flawed, every counter and every permission stays exact. */
  method Serve(mm: Mm, c: Call, lim: Limits) returns (err: Errno, ghost flaw: Flaw)
    requires mm.Valid() && Sound(c, mm.writable)
    modifies mm
    ensures mm.Valid() && mm.drift == After(old(mm.drift), flaw) && Prone(c, flaw)
    ensures flaw.DriverKept? ==> err != OK
    ensures flaw.StackGrew? ==> GrowsUncounted(old(mm.space.list), c.page, flaw.pages)
    ensures err == OK ==> Did(old(mm.space.list), mm.space.list, c)
  {
    hide Guarded, Weight, Proper, Overlaid, SameView, Cleared, SourceKept, PageAlign, Protects, WillCharge, Want,
      GrowsUncounted, At, BytesCleared, Remapped, HeapRequest, Sought, PlaceFor, Shaped;
    flaw := NoFlaw;
    match c
    case DoMmap(cur, ask, defFlags, readImpliesExec, neverOvercommit, l, shmem) =>
      var at, driverFailed;
      err, at, driverFailed := DoTaskMmap(mm, cur, ask, defFlags, readImpliesExec, neverOvercommit, l, lim, shmem,
                                          false);
      if driverFailed && WillCharge(ask, Want(ask, readImpliesExec), neverOvercommit) {
        flaw := DriverKept(PageAlign(ask.len) / PAGE);
      }
    case DoUnmap(start, len) =>
      err := mm.DoMunmap(start, len, false);
    case DoProtect(start, len, prot, growsDown, growsUp, rier) =>
      ghost var from, to, cut, i;
      err, from, to, cut, i := DoMprotect(mm, start, len, prot, growsDown, growsUp, rier, lim, false);
    case DoRemap(cur, l, addr, oldLen, newLen, fixed, mayMove, otherFlags, newAddr) =>
      err, flaw := ServeRemap(mm, cur, l, addr, oldLen, newLen, fixed, mayMove, otherFlags, newAddr, lim);
    case DoBreak(addr, request, exec, defFlags, l) =>
      ghost var left;
      err, left := DoBrk(mm, addr, request, exec, defFlags, l, lim, false);
    case DoFault(page, stackLimit) =>
      err, flaw := ServeFault(mm, page, lim, stackLimit);
  }

  method ServeRemap(mm: Mm, cur: Space, l: Layout, addr: Word, oldLen: Word, newLen: Word, fixed: bool, mayMove: bool,
                    otherFlags: bool, newAddr: Word, lim: Limits)
    returns (err: Errno, ghost flaw: Flaw)
    requires mm.Valid() && Shaped(cur) && Sane(l)
    modifies mm
    ensures mm.Valid() && mm.drift == After(old(mm.drift), flaw)
    ensures flaw != NoFlaw ==> flaw.Miscounted? && 0x8000_0000 <= flaw.pages ==
                               PageAlign(newLen) / PAGE - PageAlign(oldLen) / PAGE
    ensures err == OK ==>
              exists at, deed :: Remapped(old(mm.space.list), mm.space.list, addr / PAGE, PageAlign(oldLen) / PAGE,
                                          PageAlign(newLen) / PAGE, OK, at, deed)
  {
    hide Guarded, Weight, Overlaid, SameView, Cleared, SourceKept, PageAlign, Shaped, Regrown, PlacedAs, GrownAs;
    var at;
    ghost var deed, via;
    err, at, deed, via := MremapTask(mm, cur, l, addr, oldLen, newLen, fixed, mayMove, otherFlags, newAddr, lim, false);
    flaw := NoFlaw;
    ghost var n := PageAlign(newLen) / PAGE - PageAlign(oldLen) / PAGE;
    if deed.InPlace? {
      RegrownExact(old(mm.drift), deed.q.flags, n);
      if n >= 0x8000_0000 { flaw := Miscounted(deed.q.flags, n); }
    }
  }

  method ServeFault(mm: Mm, page: nat, lim: Limits, stackLimit: nat) returns (err: Errno, ghost flaw: Flaw)
    requires mm.Valid()
    modifies mm
    ensures mm.Valid() && mm.drift == After(old(mm.drift), flaw) && (flaw == NoFlaw || flaw.StackGrew?)
    ensures flaw.StackGrew? ==> GrowsUncounted(old(mm.space.list), page, flaw.pages)
    ensures err == OK ==> At(mm.space.list, page).Some?
    ensures err == OK ==> forall p: nat :: At(old(mm.space.list), p).Some? ==> At(mm.space.list, p) ==
                                                                               At(old(mm.space.list), p)
  {
    hide Guarded, Weight, Overlaid, At, Shaped;
    ghost var list := mm.space.list;
    SortedOf(mm);
    var vma, grown := FindExtendVma(mm, page, lim, stackLimit, false);
    err, flaw := if vma == None then EFAULT else OK, NoFlaw;
    var touched: bool := *;
    if vma.Some? && touched { var prepared := PrepareAnon(mm, vma.value, false); }
    SortedOf(mm);
    if vma.Some? { AtIndex(mm.space.list, vma.value, page); }
    if grown { GrownBelow(list, mm.space.list, vma.value, page); }
    if grown && VmAccount !in list[vma.value].flags { flaw := StackGrew(Unaccounted(list[vma.value], page)); }
  }

  /** Growth leaves every page that was mapped as it was. */
  lemma {:induction false} GrownBelow(s: seq<Vma>, r: seq<Vma>, i: nat, page: nat)
    requires Sorted(s) && CanGrow(s, i, page) && Overlaid(s, r, Growth(s[i], page))
    ensures forall p: nat :: At(s, p).Some? ==> At(r, p) == At(s, p)
  {
    hide At;
    HoleVacant(s, i, page, s[i].start);
    forall p: nat | At(s, p).Some? ensures At(r, p) == At(s, p) { assert Shows(s, r, Growth(s[i], page), p); }
  }

  /** By how much the counters are off after all of them. */
  ghost function AfterAll(d: Drift, flaws: seq<Flaw>): Drift {
    if flaws == [] then d else After(AfterAll(d, flaws[..|flaws| - 1]), flaws[|flaws| - 1])
  }

  /** Serve any sequence of requests. Whatever they are and however they fail, afterwards list, tree and gaps
      agree, each file is referenced once per area, and permissions are guarded; and each counter is the page
      sum of its areas and what the flaws have put it off by, no more. */
  method ServeAll(mm: Mm, calls: seq<Call>, lim: Limits) returns (errs: seq<Errno>, ghost flaws: seq<Flaw>)
    requires mm.Valid() && forall i :: 0 <= i < |calls| ==> Sound(calls[i], mm.writable)
    modifies mm
    ensures mm.Valid() && |errs| == |flaws| == |calls|
    ensures forall i :: 0 <= i < |calls| ==> Prone(calls[i], flaws[i]) && (flaws[i].DriverKept? ==> errs[i] != OK)
    ensures forall c: Class :: mm.Counter(c) == Weight(mm.space.list, c) + Of(AfterAll(old(mm.drift), flaws), c)
  {
    hide Guarded, Weight, Shaped, Sound, PageAlign, Regrown;
    errs, flaws := [], [];
    while |errs| < |calls|
      invariant mm.Valid() && |errs| == |flaws| <= |calls|
      invariant forall i :: 0 <= i < |flaws| ==> Prone(calls[i], flaws[i]) && (flaws[i].DriverKept? ==> errs[i] != OK)
      invariant mm.drift == AfterAll(old(mm.drift), flaws)
    {
      var err;
      ghost var flaw;
      err, flaw := Serve(mm, calls[|errs|], lim);
      assert (flaws + [flaw])[..|flaws|] == flaws;
      errs, flaws := errs + [err], flaws + [flaw];
    }
    forall c: Class ensures mm.Counter(c) == Weight(mm.space.list, c) + Of(AfterAll(old(mm.drift), flaws), c) {
      assert mm.Stat(c) == Weight(mm.space.list, c);
    }
  }

  /** Without flaws, counters that were the page sums still are. */
  lemma {:induction false} FlawlessExact(d: Drift, flaws: seq<Flaw>)
    requires forall i :: 0 <= i < |flaws| ==> flaws[i] == NoFlaw
    ensures AfterAll(d, flaws) == d
  {
    if flaws != [] { FlawlessExact(d, flaws[..|flaws| - 1]); }
  }
}
