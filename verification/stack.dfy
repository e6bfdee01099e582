/** Downward stack growth: find_extend_vma, expand_stack and expand_downwards. */
module StackGrowth {
  import opened Errors
  import opened VmFlags
  import opened Areas
  import opened GapTree
  import opened VmaIndex
  import opened Adjust
  import opened Merge
  import opened Edits
  import opened MmStruct
  import opened Mmap

  /** What growing area v down to addr maps: its own file and flags, offsets continued downward. */
  function Growth(v: Vma, addr: nat): Request
    requires addr < v.start && v.start - addr <= v.pgoff
  {
    Request(addr, v.start, v.flags, v.file, v.pgoff - (v.start - addr), v.tag)
  }

  /** The area after the growth. */
  function Grown(v: Vma, addr: nat): Vma
    requires addr < v.start && v.start - addr <= v.pgoff
  {
    v.(start := addr, pgoff := v.pgoff - (v.start - addr))
  }

  /** Area i can grow down to addr: nothing lies in between. */
  ghost predicate CanGrow(s: seq<Vma>, i: nat, addr: nat) {
    i < |s| && addr < s[i].start && s[i].start - addr <= s[i].pgoff && (i > 0 ==> s[i - 1].end <= addr)
  }

  lemma {:induction false} GrowthShows(s: seq<Vma>, i: nat, addr: nat)
    requires Sorted(s) && CanGrow(s, i, addr) && Sorted(s[i := Grown(s[i], addr)])
    ensures Overlaid(s, s[i := Grown(s[i], addr)], Growth(s[i], addr))
  {
    hide At;
    var w, q := Grown(s[i], addr), Growth(s[i], addr);
    var r := s[i := w];
    assert s[i..i + 1] == [s[i]] && r == s[..i] + [w] + s[i + 1..];
    forall p: nat ensures Shows(s, r, q, p) {
      OneForOne(s[i], w, q, p);
      Lift(s, i, i + 1, [w], q, p);
    }
  }

  lemma {:induction false} GrowthShape(sp: Space, i: nat, addr: nat)
    requires Shaped(sp) && CanGrow(sp.list, i, addr)
    ensures var r := sp.list[i := Grown(sp.list[i], addr)];
            Shaped(sp.(list := r, tree := Update(sp.tree, sp.list[i].id, r)))
  {
    hide InOrder, ConsistentBut, Files, Update;
    EndsBelow(sp.list, i);
    ResizeShape(sp, i, Grown(sp.list[i], addr));
  }

  lemma {:induction false} GrowthSums(s: seq<Vma>, r: seq<Vma>, i: nat, addr: nat)
    requires Sorted(s) && Sorted(r) && LastEnd(s) <= TASK_SIZE && LastEnd(r) <= TASK_SIZE && CanGrow(s, i, addr)
    requires Overlaid(s, r, Growth(s[i], addr))
    ensures forall c: Class {:trigger Weight(r, c)} :: Weight(r, c) == Weight(s, c)
                                                       + if InClass(s[i].flags, c) then s[i].start - addr else 0
  {
    hide At, Overlaid, Weight, Vacant;
    EndsBelow(s, i);
    HoleVacant(s, i, addr, s[i].start);
    forall c: Class ensures Weight(r, c) == Weight(s, c) + if InClass(s[i].flags, c) then s[i].start - addr else 0 {
      WeightOverlaid(s, r, Growth(s[i], addr), c);
    }
  }

  /** The limits allow an area to grow to `size` pages: those on memory, and RLIMIT_STACK, for which one page of a
      growing area does not count. */
  ghost predicate StackAllowed(totalVm: int, dataVm: int, flags: Flags, size: nat, grow: nat, lim: Limits,
                               stackLimit: nat) {
    && MayExpandVm(totalVm, dataVm, flags, grow, lim)
    && (size == 0 || (size - if VmGrowsDown in flags || VmGrowsUp in flags then 1 else 0) * PAGE <= stackLimit)
  }

  /** Area i can grow down to addr as far as offsets and limits go. */
  ghost predicate StackFits(s: seq<Vma>, totalVm: int, dataVm: int, i: nat, addr: nat, lim: Limits, stackLimit: nat) {
    && i < |s| && addr < s[i].start <= s[i].end && s[i].start - addr <= s[i].pgoff
    && StackAllowed(totalVm, dataVm, s[i].flags, s[i].end - addr, s[i].start - addr, lim, stackLimit)
  }

  /** acct_stack_growth: the limits, and last the charge. */
  method AcctStackGrowth(mm: Mm, flags: Flags, size: nat, grow: nat, lim: Limits, stackLimit: nat, willing: bool)
    returns (ok: bool)
    modifies mm`charged
    ensures ok ==> StackAllowed(mm.totalVm, mm.dataVm, flags, size, grow, lim, stackLimit)
    ensures willing && StackAllowed(mm.totalVm, mm.dataVm, flags, size, grow, lim, stackLimit) ==> ok
    ensures mm.charged == old(mm.charged) + if ok then grow else 0
    ensures ok ==> (mm.totalVm + grow) % WORD <= lim.space / PAGE
  {
    ok := false;
    if !MayExpandVm(mm.totalVm, mm.dataVm, flags, grow, lim) { return; }
    var actual: int := size * PAGE;
    if size != 0 && (VmGrowsDown in flags || VmGrowsUp in flags) { actual := actual - PAGE; }
    if actual > stackLimit { return; }
    var lockable: bool := *;
    if VmLocked in flags && !lockable && !willing { return; }
    ok := EnoughMemory(mm, grow, willing);
  }

  /** The pages that growth down to addr charges although the area is not accounted. */
  function Unaccounted(v: Vma, addr: nat): nat
    requires addr <= v.start
  {
    if VmAccount in v.flags then 0 else v.start - addr
  }

  /** anon_vma_prepare: an area without an anon_vma gets one, new or a neighbour's, if it is to be had. */
  method PrepareAnon(mm: Mm, i: nat, willing: bool) returns (ok: bool)
    requires mm.Valid() && i < |mm.space.list|
    modifies mm`space
    ensures willing ==> ok
    ensures mm.Valid() && mm.space == old(mm.space).(anon := mm.space.anon) && (ok ==> AnonOf(mm.space, i) != 0)
    ensures forall j :: 0 <= j < |mm.space.list| && j != i ==> AnonOf(mm.space, j) == old(AnonOf(mm.space, j))
    ensures old(AnonOf(mm.space, i)) != 0 ==> mm.space == old(mm.space)
  {
    hide InOrder, ConsistentBut, Files, Ids, Weight, Guarded;
    ok := true;
    if AnonOf(mm.space, i) == 0 {
      var anonVma: nat := *;
      if anonVma == 0 && willing { anonVma := 1; }
      ok := anonVma != 0;
      if ok { mm.space := mm.space.(anon := mm.space.anon[mm.space.list[i].id := anonVma]); }
    }
  }

  /** The part of expand_downwards that writes, once the growth has been charged. */
  method GrowStack(mm: Mm, i: nat, addr: nat)
    requires CanGrow(mm.space.list, i, addr) && mm.Ahead(mm.space.list[i].start - addr)
    modifies mm
    ensures mm.Valid() && mm.space.anon == old(mm.space.anon)
    ensures mm.space.list == old(mm.space.list[i := Grown(mm.space.list[i], addr)])
    ensures Overlaid(old(mm.space.list), mm.space.list, Growth(old(mm.space.list[i]), addr))
    ensures mm.totalVm == old(mm.totalVm) + old(mm.space.list)[i].start - addr
    ensures mm.drift == Overcharged(old(mm.drift), Unaccounted(old(mm.space.list)[i], addr))
  {
    hide InOrder, ConsistentBut, Files, Update, Overlaid, Weight, Guarded, Ids, Proper, DistinctIds, LastEnd;
    var v, grow := mm.space.list[i], mm.space.list[i].start - addr;
    mm.VmStatAccount(v.flags, grow);
    var list := mm.space.list[i := Grown(v, addr)];
    GrowthShape(mm.space, i, addr);
    mm.space := mm.space.(list := list, tree := Update(mm.space.tree, v.id, list));
    mm.drift := Overcharged(mm.drift, if VmAccount in v.flags then 0 else grow);
    GrowthShows(old(mm.space.list), i, addr);
    GrowthSums(old(mm.space.list), list, i, addr);
    GuardedAreas(old(mm.space.list), mm.writable, i);
    GuardedOverlaid(old(mm.space.list), list, Growth(v, addr), mm.writable);
    forall c: Class ensures mm.Stat(c) == Weight(mm.space.list, c) {
      assert mm.Stat(c) == old(mm.Stat(c)) + if c == Account then (if InClass(v.flags, c) then 0 else -grow)
                                             else if InClass(v.flags, c) then grow else 0;
    }
  }

  /** expand_downwards for the first area above addr. */
  method ExpandDownwards(mm: Mm, i: nat, addr: nat, lim: Limits, stackLimit: nat, willing: bool) returns (err: Errno)
    requires mm.Valid() && i < |mm.space.list| && addr < mm.space.list[i].start
    requires i > 0 ==> mm.space.list[i - 1].end <= addr
    modifies mm
    ensures mm.Valid()
    ensures err != OK ==> mm.space == old(mm.space).(anon := mm.space.anon) && mm.drift == old(mm.drift)
    ensures err == OK ==> StackFits(old(mm.space.list), old(mm.totalVm), old(mm.dataVm), i, addr, lim, stackLimit)
    ensures willing && StackFits(old(mm.space.list), old(mm.totalVm), old(mm.dataVm), i, addr, lim, stackLimit) ==>
              err == OK
    ensures err == OK || err == ENOMEM || (err == EPERM && !willing)
    ensures err == OK ==>
              && CanGrow(old(mm.space.list), i, addr)
              && mm.space.list == old(mm.space.list[i := Grown(mm.space.list[i], addr)]) && AnonOf(mm.space, i) != 0
              && Overlaid(old(mm.space.list), mm.space.list, Growth(old(mm.space.list[i]), addr))
              && mm.totalVm % WORD <= lim.space / PAGE
              && mm.drift == Overcharged(old(mm.drift), Unaccounted(old(mm.space.list)[i], addr))
  {
    hide InOrder, ConsistentBut, Files, Update, Overlaid, Weight, Guarded, Ids, Proper, DistinctIds, LastEnd,
      StackAllowed;
    var v := mm.space.list[i];
    var allowed: bool := *;
    if !allowed && !willing { return EPERM; }
    err := ENOMEM;
    var prepared := PrepareAnon(mm, i, willing);
    if !prepared { return; }
    var grow := v.start - addr;
    if grow <= v.pgoff {
      var ok := AcctStackGrowth(mm, v.flags, v.end - addr, grow, lim, stackLimit, willing);
      if ok {
        err := OK;
        forall c: Class ensures mm.Stat(c) == Weight(mm.space.list, c) + if c == Account then grow else 0 {
          assert mm.Stat(c) == old(mm.Stat(c)) + if c == Account then grow else 0;
        }
        GrowStack(mm, i, addr);
      }
    }
  }

  /** The first area above addr is a stack that can grow down to it, and does not run into another area that is not. */
  ghost predicate Extensible(s: seq<Vma>, totalVm: int, dataVm: int, i: nat, addr: nat, lim: Limits, stackLimit: nat) {
    && i < |s| && VmGrowsDown in s[i].flags && (i > 0 && s[i - 1].end == addr ==> VmGrowsDown in s[i - 1].flags)
    && StackFits(s, totalVm, dataVm, i, addr, lim, stackLimit)
  }

  /** find_extend_vma: the area at addr, grown down to it if it is a stack. `grown` tells whether it was. */
  method FindExtendVma(mm: Mm, addr: nat, lim: Limits, stackLimit: nat, willing: bool)
    returns (vma: Option<nat>, grown: bool)
    requires mm.Valid()
    modifies mm
    ensures mm.Valid()
    ensures vma.Some? ==> vma.value < |mm.space.list|
                          && mm.space.list[vma.value].start <= addr < mm.space.list[vma.value].end
    ensures !grown ==> mm.space == old(mm.space).(anon := mm.space.anon) && mm.drift == old(mm.drift)
    ensures At(old(mm.space.list), addr).Some? ==> vma.Some? && !grown
    ensures At(old(mm.space.list), addr) == None ==> vma.Some? == grown
    ensures forall i: nat :: At(old(mm.space.list), addr) == None && FirstAbove(old(mm.space.list), addr, i) ==>
              var can := Extensible(old(mm.space.list), old(mm.totalVm), old(mm.dataVm), i, addr, lim, stackLimit);
              (grown ==> can) && (willing && can ==> grown)
    ensures grown ==> vma.Some? && At(old(mm.space.list), addr) == None
                      && CanGrow(old(mm.space.list), vma.value, addr)
                         && VmGrowsDown in old(mm.space.list)[vma.value].flags
                      && Overlaid(old(mm.space.list), mm.space.list, Growth(old(mm.space.list)[vma.value], addr))
                      && mm.drift == Overcharged(old(mm.drift), Unaccounted(old(mm.space.list)[vma.value], addr))
  {
    hide InOrder, ConsistentBut, Files, Update, Overlaid, Weight, Guarded, Ids, Proper, StackFits, At;
    vma, grown := None, false;
    var i := FindVma(mm.space.tree, mm.space.list, addr);
    var list := mm.space.list;
    FirstOnly(list, addr, i);
    if i < |list| && list[i].start <= addr {
      AtIndex(list, i, addr);
      return Some(i), false;
    }
    Unmapped(list, i, addr);
    if i == |list| || VmGrowsDown !in list[i].flags { return; }
    if i > 0 && list[i - 1].end == addr && VmGrowsDown !in list[i - 1].flags { return; }
    var err := ExpandDownwards(mm, i, addr, lim, stackLimit, willing);
    if err == OK { vma, grown := Some(i), true; }
  }

  lemma {:induction false} Unmapped(s: seq<Vma>, i: nat, addr: nat)
    requires Sorted(s) && FirstAbove(s, addr, i) && (i < |s| ==> addr < s[i].start)
    ensures At(s, addr) == None
  {
    forall j | 0 <= j < |s| ensures !(s[j].start <= addr < s[j].end) {
      if j > i { assert s[i].end <= s[j].start; }
    }
    AtNone(s, addr);
  }

  /** A stack without VM_ACCOUNT, as mmap makes one with MAP_GROWSDOWN and MAP_NORESERVE, can grow by a page that
      is charged and not accounted. */
  lemma {:induction false} StackDrift(writable: iset<FileId>)
    ensures var v := Vma(0, 100, 101, 100, {VmRead, VmWrite, VmMayRead, VmMayWrite, VmMayExec, VmGrowsDown,
                                            VmNoReserve}, None, Tag(0, 0, false));
            Sorted([v]) && Guarded([v], writable) && CanGrow([v], 0, 99) && Unaccounted(v, 99) == 1
  {
    var v := Vma(0, 100, 101, 100, {VmRead, VmWrite, VmMayRead, VmMayWrite, VmMayExec, VmGrowsDown, VmNoReserve}, None,
                 Tag(0, 0, false));
    forall p: nat | At([v], p).Some? ensures Proper(At([v], p).value.file, At([v], p).value.flags, writable) {
      var i := AtWitness([v], p);
    }
  }
}
