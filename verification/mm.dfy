/** The memory descriptor of a process: its areas and its page counters. */
module MmStruct {
  import opened Errors
  import opened VmFlags
  import opened Areas
  import opened GapTree
  import opened VmaIndex
  import opened Munmap
  import opened Edits

  const PAGE: nat := 4096
  const WORD: nat := 0x1_0000_0000_0000_0000

  /** TASK_SIZE in bytes. */
  const TASK_BYTES: nat := 0x7fff_ffff_f000

  /** PAGE_ALIGN on an unsigned long. */
  function PageAlign(x: nat): nat {
    (x + PAGE - 1) % WORD / PAGE * PAGE
  }

  /** The pages of gone[n..] in class c, less those of its first area. */
  lemma {:induction false} WeightStep(gone: seq<Vma>, n: nat, c: Class)
    requires n < |gone|
    ensures Weight(gone[n..], c) == Weight(gone[n + 1..], c)
            + if InClass(gone[n].flags, c) then gone[n].end - gone[n].start else 0
  {
    assert gone[n..][1..] == gone[n + 1..];
  }

  lemma {:induction false} WeightNone(c: Class)
    ensures Weight([], c) == 0
  {
  }

  lemma {:induction false} FilesStep(kept: multiset<FileId>, gone: seq<Vma>, n: nat)
    requires n < |gone|
    ensures kept + Files(gone[n..]) - FileOf(gone[n]) == kept + Files(gone[n + 1..])
  {
    FilesRemove(gone[n..], 0);
    assert gone[n..][..0] + gone[n..][1..] == gone[n + 1..];
  }

  /** By how much each counter is off the page sum of its class. */
  datatype Drift = Drift(total: int, exec: int, stack: int, data: int, account: int)

  const NO_DRIFT := Drift(0, 0, 0, 0, 0)

  function Of(d: Drift, c: Class): int {
    match c
    case Total => d.total
    case Exec => d.exec
    case Stack => d.stack
    case Data => d.data
    case Account => d.account
  }

  /** Pages were charged that no area stands for. */
  function Overcharged(d: Drift, n: int): Drift {
    d.(account := d.account + n)
  }

  /** The counters for areas with these flags were put off by n. */
  function Slipped(d: Drift, flags: Flags, n: int): Drift {
    Drift(d.total + n, d.exec + if InClass(flags, Exec) then n else 0, d.stack + if InClass(flags, Stack) then n else 0,
          d.data + if InClass(flags, Data) then n else 0, d.account)
  }

  lemma {:induction false} SlippedOf(d: Drift, flags: Flags, n: int, c: Class)
    ensures Of(Slipped(d, flags, n), c) == Of(d, c) + if c != Account && InClass(flags, c) then n else 0
  {
  }

  class Mm {
    /** sysctl_max_map_count */
    const maxMapCount: nat

    /** The files that are open for writing. */
    ghost const writable: iset<FileId>

    var space: Space
    var totalVm: int
    var execVm: int
    var stackVm: int
    var dataVm: int
    /** Pages this address space has charged to vm_committed_as. */
    var charged: int
    /** By how much the counters are off; for `charged`, the pages that no VM_ACCOUNT area stands for. */
    ghost var drift: Drift

    constructor (maxMapCount: nat, ghost writable: iset<FileId>)
      ensures Valid() && space.list == [] && this.maxMapCount == maxMapCount && this.writable == writable
              && drift == NO_DRIFT
    {
      this.maxMapCount := maxMapCount;
      this.writable := writable;
      space := Space([], Leaf, 0, 0, 0, map[], multiset{});
      totalVm, execVm, stackVm, dataVm, charged, drift := 0, 0, 0, 0, 0, NO_DRIFT;
    }

    /** The counter for each class of pages. */
    function Counter(c: Class): int
      reads `totalVm, `execVm, `stackVm, `dataVm, `charged
    {
      match c
      case Total => totalVm
      case Exec => execVm
      case Stack => stackVm
      case Data => dataVm
      case Account => charged
    }

    /** The counter without what it is off by. */
    ghost function Stat(c: Class): int
      reads `totalVm, `execVm, `stackVm, `dataVm, `charged, `drift
    {
      Counter(c) - Of(drift, c)
    }

    /** Every counter is the page sum of the areas in its class, and its drift. */
    ghost predicate Booked()
      reads this
    {
      forall c: Class {:trigger Stat(c)} :: Stat(c) == Weight(space.list, c)
    }

    ghost predicate Valid()
      reads this
    {
      Shaped(space) && Booked() && Guarded(space.list, writable)
    }

    /** Valid, but for `extra` pages charged ahead. */
    ghost predicate Ahead(extra: int)
      reads this
    {
      && Shaped(space) && Guarded(space.list, writable)
      && forall c: Class {:trigger Stat(c)} :: Stat(c) == Weight(space.list, c) + if c == Account then extra else 0
    }

    /** vm_stat_account */
    method VmStatAccount(flags: Flags, npages: int)
      modifies this
      ensures space == old(space) && charged == old(charged) && drift == old(drift) && totalVm == old(totalVm) + npages
      ensures forall c: Class {:trigger Stat(c)} :: Stat(c) == old(Stat(c))
                                                    + if c != Account && InClass(flags, c) then npages else 0
    {
      totalVm := totalVm + npages;
      if InClass(flags, Exec) {
        execVm := execVm + npages;
      } else if InClass(flags, Stack) {
        stackVm := stackVm + npages;
      } else if InClass(flags, Data) {
        dataVm := dataVm + npages;
      }
    }

    /** remove_vma_list: the pages and the file references of the detached areas are given back. */
    method RemoveVmaList(gone: seq<Vma>)
      requires Detached(space, gone) && Guarded(space.list, writable)
      requires forall c: Class {:trigger Stat(c)} :: Stat(c) == Weight(space.list, c) + Weight(gone, c)
      modifies this
      ensures Valid() && drift == old(drift) && space == old(space).(held := space.held)
    {
      hide Detached, Files, FileOf, Weight, Guarded;
      var nrAccounted, n := 0, 0;
      assert gone[0..] == gone;
      assert space.held == Files(space.list) + Files(gone[n..]) by { HeldOf(space, gone); }
      while n < |gone|
        invariant 0 <= n <= |gone| && drift == old(drift) && space == old(space).(held := space.held)
        invariant forall c: Class {:trigger Stat(c)} :: Stat(c) - (if c == Account then nrAccounted else 0) ==
                                                        Weight(space.list, c) + Weight(gone[n..], c)
        invariant space.held == Files(space.list) + Files(gone[n..])
      {
        label before:
        var vma := gone[n];
        var nrPages := vma.end - vma.start;
        if VmAccount in vma.flags { nrAccounted := nrAccounted + nrPages; }
        VmStatAccount(vma.flags, -nrPages);
        space := space.(held := space.held - FileOf(vma));
        forall c: Class { WeightStep(gone, n, c); }
        FilesStep(Files(space.list), gone, n);
        forall c: Class
          ensures Stat(c) - (if c == Account then nrAccounted else 0) == Weight(space.list, c)
                  + Weight(gone[n + 1..], c) {
          assert Stat(c) == old@before(Stat(c)) + if c != Account && InClass(vma.flags, c) then -nrPages else 0;
        }
        n := n + 1;
      }
      assert gone[n..] == [];
      label paid:
      charged := charged - nrAccounted;
      forall c: Class ensures Stat(c) == Weight(space.list, c) {
        WeightNone(c);
        assert Stat(c) == old@paid(Stat(c)) - if c == Account then nrAccounted else 0;
      }
      Released(old(space), gone, space);
    }

    /** do_munmap on pages [start, end). On success areas i up to k of the old list met the range. */
    method Unmap(start: nat, end: nat, willing: bool) returns (err: Errno, ghost i: nat, ghost k: nat)
      requires Valid() && start < end
      modifies this
      ensures Valid() && drift == old(drift)
      ensures err != OK ==> SameView(old(space.list), space.list)
      ensures err == OK ==> Cleared(old(space.list), space.list, start, end)
      ensures err == OK ==> CarvedOut(old(space.list), space.list, start, end, old(space.nextId), i, k)
      ensures err == OK ==> space.mapCount <= old(space.mapCount) || space.mapCount <= maxMapCount
      ensures UnmapErr(old(space), maxMapCount, start, end, willing, err)
      ensures !Overlaps(old(space.list), start, end) ==> err == OK && space.list == old(space.list)
    {
      hide UnmapErr, Overlaps, Cleared, CarvedOut, SameView, Weight, Files, InOrder, ConsistentBut, Guarded;
      var gone;
      err, space, gone, i, k := UnmapAreas(space, maxMapCount, start, end, willing);
      forall c: Class ensures Stat(c) == Weight(space.list, c) + Weight(gone, c) {
        assert Stat(c) == old(Stat(c)) == old(Weight(space.list, c));
      }
      if err == OK {
        GuardedCleared(old(space.list), space.list, start, end, writable);
      } else {
        GuardedSame(old(space.list), space.list, writable);
      }
      RemoveVmaList(gone);
    }

    /** do_munmap for a page-aligned start and a length that is a number of pages. */
    method UnmapPages(start: nat, len: nat, willing: bool) returns (err: Errno)
      requires Valid()
      modifies this
      ensures Valid() && drift == old(drift)
      ensures start > TASK_SIZE || len > TASK_SIZE - start || len == 0 ==> err == EINVAL && space == old(space)
      ensures err != OK ==> SameView(old(space.list), space.list)
      ensures err == OK ==> 0 < len <= TASK_SIZE - start && Cleared(old(space.list), space.list, start, start + len)
      ensures err == OK ==> space.mapCount <= old(space.mapCount) || space.mapCount <= maxMapCount
      ensures 0 < len <= TASK_SIZE - start && !Overlaps(old(space.list), start, start + len) ==>
                err == OK && space.list == old(space.list)
      ensures 0 < len <= TASK_SIZE - start ==> UnmapErr(old(space), maxMapCount, start, start + len, willing, err)
    {
      hide Shaped, Cleared, CarvedOut, UnmapErr, Overlaps;
      err := EINVAL;
      if start > TASK_SIZE || len > TASK_SIZE - start || len == 0 { return; }
      ghost var i, k;
      err, i, k := Unmap(start, start + len, willing);
    }

    /** do_munmap */
    method DoMunmap(start: nat, len: nat, willing: bool) returns (err: Errno)
      requires Valid() && start < WORD && len < WORD
      modifies this
      ensures Valid() && drift == old(drift)
      ensures !(start % PAGE == 0 && 0 < len && start + len <= TASK_BYTES) ==> err == EINVAL && space == old(space)
      ensures err != OK ==> SameView(old(space.list), space.list)
      ensures err == OK ==> start % PAGE == 0 && BytesCleared(old(space.list), space.list, start, start + len)
      ensures err == OK ==> space.mapCount <= old(space.mapCount) || space.mapCount <= maxMapCount
      ensures start % PAGE == 0 && 0 < len && start + len <= TASK_BYTES ==>
                UnmapErr(old(space), maxMapCount, start / PAGE, (start + len + PAGE - 1) / PAGE, willing, err)
    {
      hide Shaped, Cleared, CarvedOut, PageAlign, BytesCleared, UnmapErr;
      err := EINVAL;
      Unchanged(space.list);
      AlignExactly(len);
      if start % PAGE != 0 || start > TASK_BYTES || len > TASK_BYTES - start { return; }
      var aligned := PageAlign(len);
      if aligned == 0 { return; }
      err := UnmapPages(start / PAGE, aligned / PAGE, willing);
      RoundedEnd(start, len);
      if err == OK { PagesOfBytes(old(space.list), space.list, start, len); }
    }
  }

  /** Exactly the pages that begin in the bytes [a, b) are gone from the view. */
  ghost predicate BytesCleared(s: seq<Vma>, r: seq<Vma>, a: nat, b: nat) {
    forall p: nat {:trigger At(r, p)} :: At(r, p) == if a <= p * PAGE < b then None else At(s, p)
  }

  /** PAGE_ALIGN rounds up to whole pages, and comes to 0 when that overflows. */
  lemma {:induction false} AlignExactly(x: nat)
    requires x < WORD
    ensures PageAlign(x) % PAGE == 0
    ensures if x <= WORD - PAGE then x <= PageAlign(x) < x + PAGE else PageAlign(x) == 0
  {
  }

  lemma {:induction false} RoundedEnd(start: nat, len: nat)
    requires start % PAGE == 0 && start + len <= TASK_BYTES
    ensures start / PAGE + PageAlign(len) / PAGE == (start + len + PAGE - 1) / PAGE
    ensures len > 0 ==> 0 < PageAlign(len) / PAGE <= TASK_SIZE - start / PAGE
  {
    AlignExactly(len);
  }

  lemma {:induction false} PagesOfBytes(s: seq<Vma>, r: seq<Vma>, start: nat, len: nat)
    requires start % PAGE == 0 && start + len <= TASK_BYTES
             && Cleared(s, r, start / PAGE, start / PAGE + PageAlign(len) / PAGE)
    ensures BytesCleared(s, r, start, start + len)
  {
    hide At, PageAlign;
    RoundedEnd(start, len);
    forall p: nat ensures At(r, p) == if start <= p * PAGE < start + len then None else At(s, p) {
      PageInBytes(start, len, p);
    }
  }

  lemma {:induction false} PageInBytes(start: nat, len: nat, p: nat)
    requires start % PAGE == 0
    ensures start / PAGE <= p < (start + len + PAGE - 1) / PAGE <==> start <= p * PAGE < start + len
  {
  }

  lemma {:induction false} HeldOf(sp: Space, gone: seq<Vma>)
    requires Detached(sp, gone)
    ensures sp.held == Files(sp.list) + Files(gone)
  {
  }

  lemma {:induction false} Released(sp: Space, gone: seq<Vma>, r: Space)
    requires Detached(sp, gone) && r == sp.(held := r.held) && r.held == Files(sp.list) + Files([])
    ensures Shaped(r)
  {
    assert Files([]) == multiset{};
  }
}
