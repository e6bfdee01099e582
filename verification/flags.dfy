/** The vm_flags word of a memory area, as the set of its bits. */
module VmFlags {

  /** The bits that the code tests by name, and the others. */
  datatype Flag =
    | VmRead | VmWrite | VmExec | VmShared
    | VmMayRead | VmMayWrite | VmMayExec | VmMayShare
    | VmGrowsDown | VmGrowsUp | VmLocked
    | VmIo | VmDontExpand | VmPfnMap | VmMixedMap
    | VmAccount | VmNoReserve | VmHugeTlb | VmSoftDirty
    | VmOther(bit: nat)

  type Flags = set<Flag>

  /** The permission bits that mmap and mprotect take from their caller. */
  const PROT_BITS: Flags := {VmRead, VmWrite, VmExec}

  /** VM_SPECIAL: areas that are never merged. */
  predicate Special(f: Flags) {
    VmIo in f || VmDontExpand in f || VmPfnMap in f || VmMixedMap in f
  }

  /** The flags as is_mergeable_vma compares them: VM_SOFTDIRTY does not count. */
  function Clean(f: Flags): Flags {
    f - {VmSoftDirty}
  }

  /** So flags compare equal when they agree on every other bit. */
  lemma {:induction false} CleanExactly(f: Flags, g: Flags)
    ensures Clean(f) == Clean(g) <==> forall x: Flag :: x != VmSoftDirty ==> (x in f <==> x in g)
  {
    if forall x: Flag :: x != VmSoftDirty ==> (x in f <==> x in g) {
      assert Clean(f) == Clean(g);
    } else {
      var x: Flag :| x != VmSoftDirty && (x in f <==> x !in g);
      assert x in Clean(f) <==> x !in Clean(g);
    }
  }

  /** The classes of pages that an address space counts. */
  datatype Class = Total | Exec | Stack | Data | Account

  predicate InClass(f: Flags, c: Class) {
    match c
    case Total => true
    case Exec => VmExec in f && VmWrite !in f && VmGrowsDown !in f
    case Stack => VmGrowsDown in f
    case Data => VmWrite in f && VmShared !in f && VmGrowsDown !in f
    case Account => VmAccount in f
  }

  /** The masks of vm_stat_account: an area counts as executable if of execute, write and stack it has execute alone,
      as data if of write, shared and stack it has write alone, and as stack if it grows down. So no area is in two
      of the three. */
  lemma {:induction false} ClassExactly(f: Flags)
    ensures InClass(f, Total) && (InClass(f, Account) <==> VmAccount in f)
    ensures InClass(f, Exec) <==> f * {VmExec, VmWrite, VmGrowsDown} == {VmExec}
    ensures InClass(f, Data) <==> f * {VmWrite, VmShared, VmGrowsDown} == {VmWrite}
    ensures InClass(f, Stack) <==> f * {VmGrowsDown} == {VmGrowsDown}
    ensures !(InClass(f, Exec) && InClass(f, Data)) && !(InClass(f, Exec) && InClass(f, Stack))
            && !(InClass(f, Data) && InClass(f, Stack))
  {
    var e, d, k := f * {VmExec, VmWrite, VmGrowsDown}, f * {VmWrite, VmShared, VmGrowsDown}, f * {VmGrowsDown};
    assert (VmExec in e <==> VmExec in f) && (VmWrite in e <==> VmWrite in f)
           && (VmGrowsDown in e <==> VmGrowsDown in f);
    assert (VmWrite in d <==> VmWrite in f) && (VmShared in d <==> VmShared in f)
           && (VmGrowsDown in d <==> VmGrowsDown in f);
    assert VmGrowsDown in k <==> VmGrowsDown in f;
    if InClass(f, Exec) { assert e == {VmExec}; }
    if InClass(f, Data) { assert d == {VmWrite}; }
    if InClass(f, Stack) { assert k == {VmGrowsDown}; }
  }

  /** Read, write and execute each stay within their MAY bit. */
  predicate WithinMay(f: Flags) {
    && (VmRead in f ==> VmMayRead in f)
    && (VmWrite in f ==> VmMayWrite in f)
    && (VmExec in f ==> VmMayExec in f)
  }
}
