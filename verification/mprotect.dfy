/** mprotect_fixup and do_mprotect_pkey_task without protection keys. */
module Mprotect {
  import opened Errors
  import opened VmFlags
  import opened Areas
  import opened GapTree
  import opened VmaIndex
  import opened Merge
  import opened Munmap
  import opened PageCount
  import opened Edits
  import opened MmStruct
  import opened Mmap

  /** The flags with exactly the given permissions. */
  function WithProt(f: Flags, prot: Flags): Flags {
    (f - PROT_BITS) + (prot * PROT_BITS)
  }

  // ---------- isolating a piece of an area ----------

  /** split_vma */
  method SplitVmaLimited(sp: Space, maxMapCount: nat, v: nat, addr: nat, newBelow: bool, willing: bool)
    returns (err: Errno, r: Space)
    requires Shaped(sp) && v < |sp.list| && sp.list[v].start < addr < sp.list[v].end
    ensures Shaped(r)
    ensures err == OK ==> r.list == Cut(sp.list, v, addr, newBelow, sp.nextId)
    ensures err != OK ==> r == sp
    ensures err == OK ==> |sp.list| < maxMapCount && !JaggedAt(sp.list, v, addr)
    ensures willing && |sp.list| < maxMapCount && !JaggedAt(sp.list, v, addr) ==> err == OK
  {
    if sp.mapCount >= maxMapCount {
      return ENOMEM, sp;
    }
    err, r := SplitVma(sp, v, addr, newBelow, willing);
  }

  lemma {:induction false} CutSame(s: seq<Vma>, v: nat, addr: nat, newBelow: bool, newId: nat)
    requires v < |s| && s[v].start < addr < s[v].end
    requires Sorted(s) && Sorted(Cut(s, v, addr, newBelow, newId))
    ensures SameView(s, Cut(s, v, addr, newBelow, newId))
  {
    hide At, Cut;
    forall p: nat ensures At(Cut(s, v, addr, newBelow, newId), p) == At(s, p) {
      CutView(s, v, addr, newBelow, newId, p);
    }
  }

  lemma {:induction false} SameTwice(s: seq<Vma>, m: seq<Vma>, r: seq<Vma>)
    requires SameView(s, m) && SameView(m, r)
    ensures SameView(s, r)
  {
    forall p: nat ensures At(r, p) == At(s, p) { assert At(m, p) == At(s, p); }
  }

  /** The piece [start, end) of area v, as an area of its own. */
  function Piece(v: Vma, start: nat, end: nat): Vma
    requires v.start <= start
  {
    v.(start := start, end := end, pgoff := v.pgoff + (start - v.start))
  }

  /** How many cuts it takes to isolate a piece of an area. */
  function Cuts(v: Vma, start: nat, end: nat): nat {
    (if v.start < start then 1 else 0) + (if end < v.end then 1 else 0)
  }

  /** The piece can be isolated: there may be so many areas more, and no huge page is cut. */
  ghost predicate Isolable(s: seq<Vma>, maxMapCount: nat, v: nat, start: nat, end: nat)
    requires v < |s|
  {
    && (Cuts(s[v], start, end) > 0 ==> |s| + Cuts(s[v], start, end) <= maxMapCount)
    && !JaggedAt(s, v, start) && !JaggedAt(s, v, end)
  }

  /** The two splits of mprotect_fixup: [start, end) becomes an area of its own, at index `at`. */
  method Isolate(sp: Space, maxMapCount: nat, v: nat, start: nat, end: nat, willing: bool)
    returns (err: Errno, r: Space, at: nat)
    requires Shaped(sp) && v < |sp.list| && sp.list[v].start <= start < end <= sp.list[v].end
    ensures Shaped(r) && SameView(sp.list, r.list)
    ensures err == OK ==> at < |r.list| && r.list[at] == Piece(sp.list[v], start, end)
    ensures err == OK ==> Isolable(sp.list, maxMapCount, v, start, end)
                          && |r.list| == |sp.list| + Cuts(sp.list[v], start, end)
    ensures willing && Isolable(sp.list, maxMapCount, v, start, end) ==> err == OK
  {
    hide InOrder, ConsistentBut, Files, Ids, SameView, Sorted, DistinctIds, LastEnd;
    err, r, at := OK, sp, v;
    Unchanged(sp.list);
    if start != sp.list[v].start {
      err, r := SplitVmaLimited(sp, maxMapCount, v, start, true, willing);
      if err != OK { return; }
      CutSame(sp.list, v, start, true, sp.nextId);
      at := v + 1;
    }
    if end != r.list[at].end {
      ghost var mid, id := r.list, r.nextId;
      err, r := SplitVmaLimited(r, maxMapCount, at, end, false, willing);
      if err == OK {
        CutSame(mid, at, end, false, id);
        SameTwice(sp.list, mid, r.list);
      }
    }
  }

  /** New flags on an isolated piece lay a request over the page view. */
  lemma {:induction false} PieceOverlaid(s: seq<Vma>, m: seq<Vma>, at: nat, q: Request)
    requires Sorted(m) && SameView(s, m) && at < |m| && m[at].start == q.addr && m[at].end == q.end
    requires m[at].file == q.file && m[at].pgoff == q.pgoff
    ensures Overlaid(s, m[at := m[at].(flags := q.flags)], q)
  {
    hide At;
    var r := m[at := m[at].(flags := q.flags)];
    forall p: nat ensures Shows(s, r, q, p) {
      SetFlagsView(m, at, q.flags, p);
      assert At(m, p) == At(s, p);
    }
  }

  /** New flags on a merged area that differ from its old ones in VM_SOFTDIRTY only. */
  lemma {:induction false} MergedOverlaid(s: seq<Vma>, m: seq<Vma>, at: nat, q: Request)
    requires Sorted(m) && Overlaid(s, m, q) && at < |m| && Clean(m[at].flags) == Clean(q.flags)
    ensures Overlaid(s, m[at := m[at].(flags := q.flags)], q)
  {
    hide At, Clean;
    var r := m[at := m[at].(flags := q.flags)];
    forall p: nat ensures Shows(s, r, q, p) {
      SoftDirtyAt(m, at, q.flags, p);
      assert Shows(s, m, q, p);
    }
  }

  // ---------- mprotect_fixup ----------

  /** The piece [start, end) of area v with new flags. */
  function Change(v: Vma, start: nat, end: nat, flags: Flags): Request
    requires v.start <= start
  {
    Request(start, end, flags, v.file, v.pgoff + (start - v.start), v.tag)
  }

  /** The area before the piece: v itself when the piece does not begin it. */
  function Before(s: seq<Vma>, v: nat, start: nat): int
    requires v < |s|
  {
    if start > s[v].start then v else v - 1
  }

  lemma {:induction false} ChangeCallable(s: seq<Vma>, v: nat, start: nat, end: nat, flags: Flags)
    requires Sorted(s) && LastEnd(s) <= TASK_SIZE && v < |s| && s[v].start <= start < end <= s[v].end
    ensures Callable(s, Before(s, v, start), Change(s[v], start, end, flags),
                     if start > s[v].start then InPrev else InNext)
  {
    if v < |s| - 1 { assert s[v].end <= s[|s| - 1].start; }
    if v > 0 { assert s[v - 1].end <= s[v].start; }
  }

  /** The piece can be merged into a neighbour or isolated. */
  ghost predicate Changeable(sp: Space, maxMapCount: nat, v: nat, q: Request)
    requires v < |sp.list|
  {
    || Mergeable(sp, Before(sp.list, v, q.addr), q, AnonOf(sp, v))
    || Isolable(sp.list, maxMapCount, v, q.addr, q.end)
  }

  /** Merging does not add areas. */
  lemma {:induction false} NoMore(sp: Space, prev: int, q: Request, anonVma: nat, r: seq<Vma>, at: nat)
    requires Reaches(sp, prev, q, anonVma, r, at)
    ensures |r| <= |sp.list|
  {
    hide JoinsPrev, TakesNext, Covered;
  }

  /** Where the piece goes: merged into a neighbour, or isolated and changed. Area `at` then holds it. */
  method ChangeArea(sp: Space, maxMapCount: nat, v: nat, q: Request, willing: bool)
    returns (err: Errno, r: Space, at: nat)
    requires Shaped(sp) && v < |sp.list| && sp.list[v].start <= q.addr < q.end <= sp.list[v].end
    requires q == Change(sp.list[v], q.addr, q.end, q.flags)
    ensures Shaped(r)
    ensures err != OK ==> SameView(sp.list, r.list)
    ensures err == OK ==> Overlaid(sp.list, r.list, q)
    ensures err == OK ==> at < |r.list| && r.list[at].start <= q.addr && q.end <= r.list[at].end
                          && r.list[at].flags == q.flags
    ensures err == OK ==> Changeable(sp, maxMapCount, v, q)
    ensures willing && Changeable(sp, maxMapCount, v, q) ==> err == OK
    ensures willing && err == OK ==> |r.list| <= |sp.list| + Cuts(sp.list[v], q.addr, q.end)
  {
    hide InOrder, ConsistentBut, Files, Ids, SameView, Overlaid, Callable, Clean, Mergeable, SameAnon, Isolable,
      Reaches, Sorted, LastEnd, DistinctIds, Cuts, Grew;
    ChangeCallable(sp.list, v, q.addr, q.end, q.flags);
    var found, i;
    found, i, r := VmaMerge(sp, Before(sp.list, v, q.addr), q, AnonOf(sp, v), willing,
                            if q.addr > sp.list[v].start then InPrev else InNext);
    if found {
      err, at := OK, i;
      MergedOverlaid(sp.list, r.list, at, q);
      if willing { NoMore(sp, Before(sp.list, v, q.addr), q, AnonOf(sp, v), r.list, at); }
    } else {
      err, r, at := Isolate(r, maxMapCount, v, q.addr, q.end, willing);
      if err == OK { PieceOverlaid(sp.list, r.list, at, q); }
    }
    if err == OK {
      SetFlagsShape(r, at, q.flags);
      r := SetFlags(r, at, q.flags);
    }
  }

  /** The page sums after a piece of area v got new flags. */
  lemma {:induction false} SumsChanged(s: seq<Vma>, r: seq<Vma>, v: nat, q: Request)
    requires Sorted(s) && Sorted(r) && LastEnd(s) <= TASK_SIZE && LastEnd(r) <= TASK_SIZE
    requires v < |s| && s[v].start <= q.addr < q.end <= s[v].end && Overlaid(s, r, q)
    ensures forall c: Class {:trigger Weight(r, c)} ::
              Weight(r, c) == Weight(s, c) + (if InClass(q.flags, c) then q.end - q.addr else 0)
                                           - (if InClass(s[v].flags, c) then q.end - q.addr else 0)
  {
    hide At, Weight, Overlaid, Sorted, LastEnd;
    forall c: Class ensures Weight(r, c) == Weight(s, c) + (if InClass(q.flags, c) then q.end - q.addr else 0)
                                                         - (if InClass(s[v].flags, c) then q.end - q.addr else 0) {
      SumChanged(s, r, v, q, c);
    }
  }

  lemma {:induction false} SumChanged(s: seq<Vma>, r: seq<Vma>, v: nat, q: Request, c: Class)
    requires Sorted(s) && Sorted(r) && LastEnd(s) <= TASK_SIZE && LastEnd(r) <= TASK_SIZE
    requires v < |s| && s[v].start <= q.addr < q.end <= s[v].end && Overlaid(s, r, q)
    ensures Weight(r, c) == Weight(s, c) + (if InClass(q.flags, c) then q.end - q.addr else 0)
                                         - (if InClass(s[v].flags, c) then q.end - q.addr else 0)
  {
    hide At, Weight;
    forall p: nat ensures !(q.addr <= p < q.end) ==> At(r, p) == At(s, p) { assert Shows(s, r, q, p); }
    forall p: nat ensures q.addr <= p < q.end ==> Counts(At(r, p), c) == InClass(q.flags, c) {
      assert Shows(s, r, q, p);
    }
    forall p: nat ensures q.addr <= p < q.end ==> Counts(At(s, p), c) == InClass(s[v].flags, c) {
      if q.addr <= p < q.end { AtIndex(s, v, p); }
    }
    if v < |s| - 1 { assert s[v].end <= s[|s| - 1].start; }
    CountUniform(s, c, q.addr, q.end, InClass(s[v].flags, c));
    CountUniform(r, c, q.addr, q.end, InClass(q.flags, c));
    WeightMoves(s, r, c, q.addr, q.end);
  }

  /** A private mapping that becomes writable is charged, unless it was before. */
  predicate Charges(old': Flags, new': Flags) {
    VmWrite in new' && VmAccount !in old' && VmWrite !in old' && VmHugeTlb !in old' && VmShared !in old'
      && VmNoReserve !in old'
  }

  /** The flags that mprotect_fixup sets when asked for new'. */
  function Fixed(old': Flags, new': Flags): Flags {
    if Charges(old', new') then new' + {VmAccount} else new'
  }

  /** The second half of mprotect_fixup: change the piece and recount it, or refund the charge. */
  method ApplyChange(mm: Mm, v: nat, q: Request, oldflags: Flags, charge: nat, willing: bool)
    returns (err: Errno, at: nat)
    requires v < |mm.space.list| && mm.space.list[v].start <= q.addr < q.end <= mm.space.list[v].end
    requires q == Change(mm.space.list[v], q.addr, q.end, q.flags) && oldflags == mm.space.list[v].flags
    requires mm.Ahead(charge) && charge == (if VmAccount in q.flags && VmAccount !in oldflags then q.end - q.addr
                                            else 0)
    requires (VmAccount in oldflags ==> VmAccount in q.flags) && Proper(q.file, q.flags, mm.writable)
    modifies mm
    ensures mm.Valid() && mm.drift == old(mm.drift)
    ensures err != OK ==> SameView(old(mm.space.list), mm.space.list)
    ensures err == OK ==> Overlaid(old(mm.space.list), mm.space.list, q)
    ensures err == OK ==> at < |mm.space.list| && mm.space.list[at].start <= q.addr && q.end <= mm.space.list[at].end
                          && mm.space.list[at].flags == q.flags
    ensures err == OK ==> Changeable(old(mm.space), mm.maxMapCount, v, q)
    ensures willing && Changeable(old(mm.space), mm.maxMapCount, v, q) ==> err == OK
    ensures willing && err == OK ==> |mm.space.list| <= |old(mm.space.list)|
                                     + Cuts(old(mm.space.list)[v], q.addr, q.end)
  {
    hide Changeable, InOrder, ConsistentBut, Files, Ids, SameView, Overlaid, Guarded, Weight, Proper, Sorted, LastEnd,
      DistinctIds, Change;
    ghost var s := mm.space.list;
    var sp;
    err, sp, at := ChangeArea(mm.space, mm.maxMapCount, v, q, willing);
    mm.space := sp;
    if err == OK {
      mm.VmStatAccount(oldflags, -(q.end - q.addr));
      mm.VmStatAccount(q.flags, q.end - q.addr);
      SumsChanged(s, mm.space.list, v, q);
      GuardedOverlaid(s, mm.space.list, q, mm.writable);
      forall c: Class ensures mm.Stat(c) == Weight(mm.space.list, c) {
        assert mm.Stat(c) == old(mm.Stat(c)) + if c == Account then 0 else Shift(oldflags, q.flags, q.end - q.addr, c);
      }
    } else {
      mm.charged := mm.charged - charge;
      GuardedSame(s, mm.space.list, mm.writable);
      forall c: Class ensures mm.Stat(c) == Weight(mm.space.list, c) {
        WeightSame(s, mm.space.list, c);
        assert mm.Stat(c) == old(mm.Stat(c)) - if c == Account then charge else 0;
      }
    }
  }

  /** mprotect_fixup can give the piece the new flags: it has them already; or RLIMIT_DATA does not forbid it, and the
      piece can be merged or isolated. */
  ghost predicate Fixable(sp: Space, maxMapCount: nat, totalVm: int, dataVm: int, v: nat, start: nat, end: nat,
                          newflags: Flags, lim: Limits)
    requires v < |sp.list| && sp.list[v].start <= start
  {
    var old' := sp.list[v].flags;
    || newflags == old'
    || (&& (VmWrite in newflags && MayExpandVm(totalVm, dataVm, old', end - start, lim) ==>
              MayExpandVm(totalVm, dataVm, newflags, end - start, lim))
        && Changeable(sp, maxMapCount, v, Change(sp.list[v], start, end, Fixed(old', newflags))))
  }

  /** mprotect_fixup for the piece [start, end) of area v. Area `at` then holds it. */
  method MprotectFixup(mm: Mm, v: nat, start: nat, end: nat, newflags: Flags, lim: Limits, willing: bool)
    returns (err: Errno, at: nat)
    requires mm.Valid() && v < |mm.space.list| && mm.space.list[v].start <= start < end <= mm.space.list[v].end
    requires newflags == WithProt(mm.space.list[v].flags, newflags) && WithinMay(newflags)
    modifies mm
    ensures mm.Valid() && mm.drift == old(mm.drift)
    ensures err != OK ==> SameView(old(mm.space.list), mm.space.list)
    ensures err == OK ==>
              var v' := old(mm.space.list)[v];
              Overlaid(old(mm.space.list), mm.space.list, Change(v', start, end, Fixed(v'.flags, newflags)))
    ensures err == OK ==> at < |mm.space.list| && mm.space.list[at].start <= start && end <= mm.space.list[at].end
    ensures err == OK ==> mm.space.list[at].flags == Fixed(old(mm.space.list)[v].flags, newflags)
    ensures err == OK ==> Fixable(old(mm.space), mm.maxMapCount, old(mm.totalVm), old(mm.dataVm), v, start, end,
                                  newflags, lim)
    ensures willing && Fixable(old(mm.space), mm.maxMapCount, old(mm.totalVm), old(mm.dataVm), v, start, end, newflags,
                               lim) ==>
              err == OK && |mm.space.list| <= |old(mm.space.list)| + Cuts(old(mm.space.list)[v], start, end)
  {
    hide Changeable, Shaped, SameView, Overlaid, Guarded, Weight, Proper, MayExpandVm, Sorted;
    var oldflags := mm.space.list[v].flags;
    err, at := OK, v;
    FixupReady(mm, v, start, end, newflags);
    if newflags == oldflags { return; }
    var nrPages := end - start;
    if VmWrite in newflags && !MayExpandVm(mm.totalVm, mm.dataVm, newflags, nrPages, lim)
       && MayExpandVm(mm.totalVm, mm.dataVm, oldflags, nrPages, lim) {
      return ENOMEM, v;
    }
    var charge := 0;
    if Charges(oldflags, newflags) {
      charge := nrPages;
      var ok := EnoughMemory(mm, charge, willing);
      if !ok { return ENOMEM, v; }
    }
    assert forall c: Class {:trigger mm.Stat(c)} :: mm.Stat(c) == old(mm.Stat(c)) + if c == Account then charge else 0;
    err, at := ApplyChange(mm, v, Change(mm.space.list[v], start, end, Fixed(oldflags, newflags)), oldflags, charge,
                           willing);
  }

  lemma {:induction false} FixupReady(mm: Mm, v: nat, start: nat, end: nat, newflags: Flags)
    requires mm.Valid() && v < |mm.space.list| && mm.space.list[v].start <= start < end <= mm.space.list[v].end
    requires newflags == WithProt(mm.space.list[v].flags, newflags) && WithinMay(newflags)
    ensures SameView(mm.space.list, mm.space.list)
    ensures Proper(mm.space.list[v].file, Fixed(mm.space.list[v].flags, newflags), mm.writable)
    ensures newflags == mm.space.list[v].flags ==>
              Overlaid(mm.space.list, mm.space.list, Change(mm.space.list[v], start, end, Fixed(newflags, newflags)))
  {
    hide Overlaid, Guarded, Weight;
    Unchanged(mm.space.list);
    ChangeProper(mm.space.list, mm.writable, v, newflags);
    SelfOverlaid(mm.space.list, v, start, end);
  }

  lemma {:induction false} ChangeProper(s: seq<Vma>, writable: iset<FileId>, v: nat, newflags: Flags)
    requires Sorted(s) && Guarded(s, writable) && v < |s|
    requires newflags == WithProt(s[v].flags, newflags) && WithinMay(newflags)
    ensures Proper(s[v].file, Fixed(s[v].flags, newflags), writable)
  {
    GuardedAreas(s, writable, v);
  }

  /** By how much a counter moves when n pages change their flags. */
  ghost function Shift(old': Flags, new': Flags, n: int, c: Class): int {
    (if InClass(new', c) then n else 0) - (if InClass(old', c) then n else 0)
  }

  /** Asking for what is there already changes nothing. */
  lemma {:induction false} SelfOverlaid(s: seq<Vma>, v: nat, start: nat, end: nat)
    requires Sorted(s) && v < |s| && s[v].start <= start < end <= s[v].end
    ensures Overlaid(s, s, Change(s[v], start, end, Fixed(s[v].flags, s[v].flags)))
  {
    hide At;
    forall p: nat ensures Shows(s, s, Change(s[v], start, end, s[v].flags), p) {
      if start <= p < end { AtIndex(s, v, p); }
    }
  }

  // ---------- do_mprotect_pkey_task ----------

  /** The permissions asked for on an area: PROT_READ may imply PROT_EXEC where the area allows it. */
  function Asked(prot: Flags, rier: bool, f: Flags): Flags {
    if rier && VmMayExec in f then prot + {VmExec} else prot
  }

  /** Bit by bit: read and write are set if and only if they are asked for, execute also where PROT_READ implies it
      and the page may be executed; VM_ACCOUNT is added to a private page that becomes writable and is not exempt; and
      every other bit is as before. */
  ghost predicate BitsAsked(f: Flags, g: Flags, prot: Flags, rier: bool) {
    forall x: Flag ::
      x in g <==>
      match x
      case VmRead => VmRead in prot
      case VmWrite => VmWrite in prot
      case VmExec => VmExec in prot || (rier && VmMayExec in f)
      case VmAccount =>
        || VmAccount in f
        || (VmWrite in prot && VmWrite !in f && VmShared !in f && VmNoReserve !in f && VmHugeTlb !in f)
      case _ => x in f
  }

  /** Cell d is cell c with the permissions asked for. */
  ghost predicate Reprotected(c: Cell, d: Cell, prot: Flags, rier: bool) {
    d == c.(flags := d.flags) && BitsAsked(c.flags, d.flags, prot, rier)
  }

  ghost predicate ProtectsAt(s: seq<Vma>, r: seq<Vma>, prot: Flags, rier: bool, a: nat, b: nat, p: nat) {
    if a <= p < b then At(s, p).Some? && At(r, p).Some? && Reprotected(At(s, p).value, At(r, p).value, prot, rier)
    else At(r, p) == At(s, p)
  }

  /** Every page of [a, b) is mapped and has the permissions asked for, no other page changed. */
  ghost predicate Protects(s: seq<Vma>, r: seq<Vma>, prot: Flags, rier: bool, a: nat, b: nat) {
    forall p: nat {:trigger At(r, p)} :: ProtectsAt(s, r, prot, rier, a, b, p)
  }

  /** The flags g that mprotect_fixup sets for f are what was asked for, as they show in the page view;
      asking again changes nothing. */
  lemma {:induction false} FixedProt(f: Flags, g: Flags, prot: Flags, rier: bool)
    requires g == Fixed(f, WithProt(f, Asked(prot, rier, f)))
    ensures BitsAsked(Clean(f), Clean(g), prot, rier) && BitsAsked(Clean(g), Clean(g), prot, rier)
  {
  }

  /** One round of the loop. Area v of m held the piece [n, t), area `at` of r holds it now and reaches
      up to m2 or further: all pages up to m2 have what was asked for. */
  lemma {:induction false} ProtectStep(s: seq<Vma>, m: seq<Vma>, r: seq<Vma>, prot: Flags, rier: bool, a: nat, n: nat,
                                       t: nat, m2: nat, v: nat, at: nat, p: nat)
    requires Sorted(m) && Sorted(r) && v < |m| && m[v].start <= n < t <= m[v].end && a <= n
    requires ProtectsAt(s, m, prot, rier, a, n, p)
    requires Shows(m, r, Change(m[v], n, t, Fixed(m[v].flags, WithProt(m[v].flags, Asked(prot, rier, m[v].flags)))), p)
    requires at < |r| && r[at].start <= n && t <= m2 <= r[at].end
    requires r[at].flags == Fixed(m[v].flags, WithProt(m[v].flags, Asked(prot, rier, m[v].flags)))
    ensures ProtectsAt(s, r, prot, rier, a, m2, p)
  {
    hide At, WithProt, Asked, Clean, Fixed, BitsAsked;
    FixedProt(m[v].flags, r[at].flags, prot, rier);
    if n <= p < t {
      AtIndex(m, v, p);
    } else if t <= p < m2 {
      AtIndex(r, at, p);
    }
  }

  lemma {:induction false} ProtectRound(s: seq<Vma>, m: seq<Vma>, r: seq<Vma>, prot: Flags, rier: bool, a: nat, n: nat,
                                        t: nat, m2: nat, v: nat, at: nat)
    requires Sorted(m) && Sorted(r) && v < |m| && m[v].start <= n < t <= m[v].end && a <= n
    requires Protects(s, m, prot, rier, a, n)
    requires Overlaid(m, r, Change(m[v], n, t, Fixed(m[v].flags, WithProt(m[v].flags, Asked(prot, rier, m[v].flags)))))
    requires at < |r| && r[at].start <= n && t <= m2 <= r[at].end
    requires r[at].flags == Fixed(m[v].flags, WithProt(m[v].flags, Asked(prot, rier, m[v].flags)))
    ensures Protects(s, r, prot, rier, a, m2)
  {
    hide At, WithProt, Asked, Fixed, Change, Sorted, ProtectsAt, Shows;
    forall p: nat ensures ProtectsAt(s, r, prot, rier, a, m2, p) {
      assert At(m, p) == At(m, p);
      assert Shows(m, r, Change(m[v], n, t, Fixed(m[v].flags, WithProt(m[v].flags, Asked(prot, rier, m[v].flags)))), p);
      ProtectStep(s, m, r, prot, rier, a, n, t, m2, v, at, p);
    }
  }

  lemma {:induction false} ProtectSame(s: seq<Vma>, m: seq<Vma>, r: seq<Vma>, prot: Flags, rier: bool, a: nat, n: nat)
    requires Protects(s, m, prot, rier, a, n) && SameView(m, r)
    ensures Protects(s, r, prot, rier, a, n)
  {
    forall p: nat ensures ProtectsAt(s, r, prot, rier, a, n, p) { assert At(m, p) == At(r, p); }
  }

  lemma {:induction false} ProtectNone(s: seq<Vma>, prot: Flags, rier: bool, a: nat)
    ensures Protects(s, s, prot, rier, a, a)
  {
    forall p: nat ensures ProtectsAt(s, s, prot, rier, a, a, p) { }
  }

  // ---------- when mprotect succeeds ----------

  /** The page is mapped, and its MAY bits allow what is asked for. */
  ghost predicate Protectable(s: seq<Vma>, p: nat, prot: Flags) {
    && At(s, p).Some?
    && (VmRead in prot ==> VmMayRead in At(s, p).value.flags)
    && (VmWrite in prot ==> VmMayWrite in At(s, p).value.flags)
    && (VmExec in prot ==> VmMayExec in At(s, p).value.flags)
  }

  /** Nothing but the pages themselves can stand against it: RLIMIT_DATA is not enforced, two more areas are allowed
      and none of the pages is huge. */
  ghost predicate Unlimited(s: seq<Vma>, maxMapCount: nat, lim: Limits, a: nat, b: nat) {
    && lim.ignoreData && |s| + 2 <= maxMapCount
    && forall p: nat {:trigger At(s, p)} :: a <= p < b && At(s, p).Some? ==> VmHugeTlb !in At(s, p).value.flags
  }

  /** Pages that have the permissions asked for could be given them. */
  lemma {:induction false} ProtectedBefore(s: seq<Vma>, r: seq<Vma>, writable: iset<FileId>, prot: Flags, rier: bool,
                                           a: nat, b: nat, p: nat)
    requires Protects(s, r, prot, rier, a, b) && Guarded(r, writable) && a <= p < b
    ensures Protectable(s, p, prot)
  {
    hide At;
    assert ProtectsAt(s, r, prot, rier, a, b, p) by { assert At(r, p) == At(r, p); }
  }

  /** The permissions asked for on an area are within its MAY bits exactly when its pages are protectable. */
  lemma {:induction false} WithinMayMeans(m: seq<Vma>, v: nat, p: nat, prot: Flags, rier: bool)
    requires Sorted(m) && v < |m| && m[v].start <= p < m[v].end
    ensures WithinMay(WithProt(m[v].flags, Asked(prot, rier, m[v].flags))) <==> Protectable(m, p, prot)
  {
    hide At;
    AtIndex(m, v, p);
  }

  /** Where nothing has changed yet, what can be protected now could be before. */
  lemma {:induction false} ProtectableStill(s: seq<Vma>, m: seq<Vma>, prot: Flags, rier: bool, a: nat, n: nat, p: nat)
    requires Protects(s, m, prot, rier, a, n) && n <= p
    ensures At(m, p) == At(s, p) && (Protectable(m, p, prot) <==> Protectable(s, p, prot))
  {
    hide At;
    assert ProtectsAt(s, m, prot, rier, a, n, p) by { assert At(m, p) == At(m, p); }
  }

  /** Without limits the piece can be given its flags. */
  lemma {:induction false} AlwaysFixable(s: seq<Vma>, sp: Space, maxMapCount: nat, totalVm: int, dataVm: int, v: nat,
                                         start: nat, end: nat, a: nat, b: nat, prot: Flags, rier: bool, newflags: Flags,
                                         lim: Limits)
    requires Sorted(sp.list) && v < |sp.list| && sp.list[v].start <= start < end <= sp.list[v].end && end <= b
    requires Unlimited(s, maxMapCount, lim, a, b) && Protects(s, sp.list, prot, rier, a, start) && a <= start
    requires |sp.list| + Cuts(sp.list[v], start, end) <= |s| + 2
    ensures Fixable(sp, maxMapCount, totalVm, dataVm, v, start, end, newflags, lim)
  {
    hide At, Mergeable;
    ProtectableStill(s, sp.list, prot, rier, a, start, start);
    AtIndex(sp.list, v, start);
    assert VmHugeTlb !in At(s, start).value.flags;
  }

  /** The loop of do_mprotect_pkey_task from page `start` in area v on, with `cut` where it stopped. */
  method ProtectRange(mm: Mm, v: nat, start: nat, end: nat, prot: Flags, rier: bool, lim: Limits, willing: bool)
    returns (err: Errno, ghost cut: nat)
    requires mm.Valid() && v < |mm.space.list| && mm.space.list[v].start <= start < mm.space.list[v].end && start < end
    modifies mm
    ensures mm.Valid() && mm.drift == old(mm.drift)
    ensures start <= cut <= end && (err == OK ==> cut == end)
    ensures Protects(old(mm.space.list), mm.space.list, prot, rier, start, cut)
    ensures forall p: nat :: start <= p < cut ==> Protectable(old(mm.space.list), p, prot)
    ensures willing && Unlimited(old(mm.space.list), mm.maxMapCount, lim, start, end) && err != OK ==>
              && cut < end && !Protectable(old(mm.space.list), cut, prot)
              && err == if At(old(mm.space.list), cut) == None then ENOMEM else EACCES
  {
    hide Shaped, SameView, Overlaid, Guarded, Weight, Sorted, Protects, Fixed, Unlimited, Fixable, At, Protectable,
      WithinMay, WithProt, Asked;
    var vma, nstart := v, start;
    cut := start;
    ghost var s, calm := mm.space.list, willing && Unlimited(mm.space.list, mm.maxMapCount, lim, start, end);
    ProtectNone(s, prot, rier, start);
    while true
      invariant mm.Valid() && mm.drift == old(mm.drift)
      invariant 0 <= vma < |mm.space.list| && mm.space.list[vma].start <= nstart < mm.space.list[vma].end
      invariant start <= nstart == cut < end && Protects(s, mm.space.list, prot, rier, start, nstart)
      invariant nstart == start || mm.space.list[vma].start == nstart
      invariant calm ==> |mm.space.list| <= |s| + if nstart == start then 0 else 1
      decreases end - nstart
    {
      ghost var m := mm.space.list;
      var flags := mm.space.list[vma].flags;
      var newflags := WithProt(flags, Asked(prot, rier, flags));
      SortedOf(mm);
      ProtTwice(flags, Asked(prot, rier, flags));
      WithinMayMeans(m, vma, nstart, prot, rier);
      ProtectableStill(s, m, prot, rier, start, nstart, nstart);
      if !WithinMay(newflags) {
        InsideMapped(m, vma, nstart);
        AllProtectable(s, mm, prot, rier, start, cut);
        return EACCES, cut;
      }
      var denied: bool := *;
      if denied && !willing {
        AllProtectable(s, mm, prot, rier, start, cut);
        return EACCES, cut;
      }
      var tmp := if mm.space.list[vma].end > end then end else mm.space.list[vma].end;
      if calm {
        AlwaysFixable(s, mm.space, mm.maxMapCount, mm.totalVm, mm.dataVm, vma, nstart, tmp, start, end, prot, rier,
                      newflags, lim);
      }
      var at;
      err, at := MprotectFixup(mm, vma, nstart, tmp, newflags, lim, willing);
      if err != OK {
        ProtectSame(s, m, mm.space.list, prot, rier, start, nstart);
        AllProtectable(s, mm, prot, rier, start, cut);
        return;
      }
      SortedOf(mm);
      var reach := if tmp < mm.space.list[at].end then mm.space.list[at].end else tmp;
      cut := if reach < end then reach else end;
      ProtectRound(s, m, mm.space.list, prot, rier, start, nstart, tmp, cut, vma, at);
      nstart := reach;
      if nstart >= end {
        AllProtectable(s, mm, prot, rier, start, cut);
        return;
      }
      vma := at + 1;
      if vma == |mm.space.list| || mm.space.list[vma].start != nstart {
        GapBehind(mm.space.list, at);
        ProtectableStill(s, mm.space.list, prot, rier, start, nstart, nstart);
        NotMapped(s, cut, prot);
        AllProtectable(s, mm, prot, rier, start, cut);
        return ENOMEM, cut;
      }
      NonEmpty(mm, vma);
    }
  }

  /** Behind area i there is nothing, unless the next one begins there. */
  lemma {:induction false} GapBehind(m: seq<Vma>, i: nat)
    requires Sorted(m) && i < |m| && (i + 1 == |m| || m[i + 1].start != m[i].end)
    ensures At(m, m[i].end) == None
  {
    assert forall j :: 0 <= j <= i ==> m[j].end <= m[i].end;
    assert forall j :: i + 1 < j < |m| ==> m[i + 1].end <= m[j].start;
    AtNone(m, m[i].end);
  }

  lemma {:induction false} NotMapped(s: seq<Vma>, p: nat, prot: Flags)
    requires At(s, p) == None
    ensures !Protectable(s, p, prot)
  {
  }

  lemma {:induction false} ProtTwice(f: Flags, prot: Flags)
    ensures WithProt(f, WithProt(f, prot)) == WithProt(f, prot)
  {
  }

  lemma {:induction false} InsideMapped(m: seq<Vma>, v: nat, p: nat)
    requires Sorted(m) && v < |m| && m[v].start <= p < m[v].end
    ensures At(m, p).Some?
  {
    AtIndex(m, v, p);
  }

  lemma {:induction false} AllProtectable(s: seq<Vma>, mm: Mm, prot: Flags, rier: bool, a: nat, b: nat)
    requires mm.Valid() && Protects(s, mm.space.list, prot, rier, a, b)
    ensures forall p: nat :: a <= p < b ==> Protectable(s, p, prot)
  {
    forall p: nat | a <= p < b ensures Protectable(s, p, prot) {
      ProtectedBefore(s, mm.space.list, mm.writable, prot, rier, a, b, p);
    }
  }

  lemma {:induction false} SortedOf(mm: Mm)
    requires mm.Valid()
    ensures Sorted(mm.space.list)
  {
  }

  lemma {:induction false} NonEmpty(mm: Mm, i: nat)
    requires mm.Valid() && i < |mm.space.list|
    ensures mm.space.list[i].start < mm.space.list[i].end
  {
  }

  /** Why the arguments are refused: both kinds of growth, a start inside a page, a range that overflows, nothing
      mapped where it begins, or no area of the kind that grows. Area i is the first that ends above the start. */
  ghost function ArgErr(s: seq<Vma>, i: nat, start: nat, len: nat, growsDown: bool, growsUp: bool): Errno {
    if (growsDown && growsUp) || start % PAGE != 0 then EINVAL
    else if start + len > WORD - PAGE then ENOMEM
    else if i >= |s| then ENOMEM
    else if growsDown then
      if s[i].start * PAGE >= start + len then ENOMEM else if VmGrowsDown in s[i].flags then OK else EINVAL
    else if s[i].start * PAGE > start then ENOMEM
    else if growsUp && VmGrowsUp !in s[i].flags then EINVAL
    else OK
  }

  /** do_mprotect_pkey_task. The effective range is [from, to), and `cut` is where the change stopped. Area i is the
      first that ends above the start. */
  method DoMprotect(mm: Mm, start: nat, len: nat, prot: Flags, growsDown: bool, growsUp: bool, rier: bool, lim: Limits,
                    willing: bool)
    returns (err: Errno, ghost from: nat, ghost to: nat, ghost cut: nat, ghost i: nat)
    requires mm.Valid() && start < WORD && len < WORD
    modifies mm
    ensures mm.Valid() && mm.drift == old(mm.drift) && FirstAbove(old(mm.space.list), start / PAGE, i)
    ensures from <= cut <= to && Protects(old(mm.space.list), mm.space.list, prot, rier, from, cut)
    ensures len == 0 ==> from == to && err == if (growsDown && growsUp) || start % PAGE != 0 then EINVAL else OK
    ensures len > 0 && ArgErr(old(mm.space.list), i, start, len, growsDown, growsUp) != OK ==>
              err == ArgErr(old(mm.space.list), i, start, len, growsDown, growsUp) && from == to
    ensures len > 0 && ArgErr(old(mm.space.list), i, start, len, growsDown, growsUp) == OK ==>
              && i < |old(mm.space.list)| && from < to
              && from == (if growsDown then old(mm.space.list)[i].start else start / PAGE)
              && to == (if growsUp then old(mm.space.list)[i].end else (start + len + PAGE - 1) / PAGE)
              && (err == OK ==> cut == to)
    ensures forall p: nat :: from <= p < cut ==> Protectable(old(mm.space.list), p, prot)
    ensures willing && Unlimited(old(mm.space.list), mm.maxMapCount, lim, from, to) && from < to && err != OK ==>
              && cut < to && !Protectable(old(mm.space.list), cut, prot)
              && err == if At(old(mm.space.list), cut) == None then ENOMEM else EACCES
  {
    hide InOrder, ConsistentBut, Files, Ids, Guarded, Weight, Protects, LastEnd, PageAlign, Unlimited, Protectable, At;
    from, to, cut := start / PAGE, start / PAGE, start / PAGE;
    ProtectNone(mm.space.list, prot, rier, from);
    var vma := FindVma(mm.space.tree, mm.space.list, start / PAGE);
    i := vma;
    if growsDown && growsUp { return EINVAL, from, to, cut, i; }
    if start % PAGE != 0 { return EINVAL, from, to, cut, i; }
    if len == 0 { return OK, from, to, cut, i; }
    EndOfBytes(start, len);
    var end := (start + PageAlign(len)) % WORD;
    if end <= start { return ENOMEM, from, to, cut, i; }
    var first, last := start / PAGE, end / PAGE;
    if vma == |mm.space.list| { return ENOMEM, from, to, cut, i; }
    var v := mm.space.list[vma];
    PageAgainst(v.start, start, len);
    if growsDown {
      if v.start >= last { return ENOMEM, from, to, cut, i; }
      if VmGrowsDown !in v.flags { return EINVAL, from, to, cut, i; }
      first := v.start;
    } else {
      if v.start > first { return ENOMEM, from, to, cut, i; }
      if growsUp {
        last := v.end;
        if VmGrowsUp !in v.flags { return EINVAL, from, to, cut, i; }
      }
    }
    from, to := first, last;
    err, cut := ProtectRange(mm, vma, first, last, prot, rier, lim, willing);
  }

  lemma {:induction false} EndOfBytes(start: nat, len: nat)
    requires start % PAGE == 0 && start < WORD && 0 < len < WORD
    ensures var end := (start + PageAlign(len)) % WORD;
            if start + len > WORD - PAGE then end <= start
            else start < end && end / PAGE == (start + len + PAGE - 1) / PAGE
  {
    AlignExactly(len);
  }

  lemma {:induction false} PageAgainst(p: nat, start: nat, len: nat)
    requires start % PAGE == 0
    ensures p * PAGE >= start + len <==> p >= (start + len + PAGE - 1) / PAGE
    ensures p * PAGE > start <==> p > start / PAGE
  {
  }
}
