/** move_vma, vma_to_resize_task, mremap_to_task and mremap_task. */
module Mremap {
  import opened Errors
  import opened VmFlags
  import opened Areas
  import opened GapTree
  import opened VmaIndex
  import opened Adjust
  import opened Merge
  import opened Munmap
  import opened PageCount
  import opened Edits
  import opened MmStruct
  import opened Mmap
  import opened Mprotect
  import opened CopyVma
  import GapSearch
  import TaskMmap

  // ---------- concealing and restoring VM_ACCOUNT ----------

  /** Area x without VM_ACCOUNT. */
  function Conceal(s: seq<Vma>, x: nat): seq<Vma>
    requires x < |s|
  {
    s[x := s[x].(flags := s[x].flags - {VmAccount})]
  }

  /** Area x with VM_ACCOUNT again, and the next one too when the area was cut in two. */
  function Restore(s: seq<Vma>, x: nat, split: bool): seq<Vma>
    requires x < |s| && (split ==> x + 1 < |s|)
  {
    var m := s[x := s[x].(flags := s[x].flags + {VmAccount})];
    if split then m[x + 1 := m[x + 1].(flags := m[x + 1].flags + {VmAccount})] else m
  }

  /** A range inside area x: x is the only area that meets it. */
  lemma {:induction false} CarvedInside(s: seq<Vma>, r: seq<Vma>, x: nat, a: nat, b: nat, newId: nat, i: nat, k: nat)
    requires Sorted(s) && x < |s| && s[x].start <= a < b <= s[x].end && CarvedOut(s, r, a, b, newId, i, k)
    ensures r == Carved(s, x, x + 1, a, b, newId)
  {
    hide Carved;
    var n := if i < x then i else x;
    assert s[n].start < s[n].end;
    assert i == x;
    assert k <= |s| && (x + 1 < |s| ==> s[x].end <= s[x + 1].start);
    assert k == x + 1;
  }

  /** do_munmap leaves the partly unmapped struct in use, the tail behind it; so concealing, unmapping
      and restoring comes to unmapping alone. */
  lemma {:induction false} RestoreCarved(s: seq<Vma>, x: nat, a: nat, b: nat, newId: nat)
    requires x < |s| && s[x].start <= a < b <= s[x].end && VmAccount in s[x].flags && b - a < s[x].end - s[x].start
    ensures var split := s[x].start < a && b < s[x].end;
            var r := Carved(Conceal(s, x), x, x + 1, a, b, newId);
            && x < |r| && (split ==> x + 1 < |r|) && r[x].id == s[x].id
            && Restore(r, x, split) == Carved(s, x, x + 1, a, b, newId)
  {
    assert s[x].flags - {VmAccount} + {VmAccount} == s[x].flags;
  }

  /** Taking [a, b) out of area x takes it out of the page view. */
  lemma {:induction false} CarvedView(s: seq<Vma>, x: nat, a: nat, b: nat, newId: nat, p: nat)
    requires Sorted(s) && x < |s| && s[x].start <= a < b <= s[x].end && Sorted(Carved(s, x, x + 1, a, b, newId))
    ensures At(Carved(s, x, x + 1, a, b, newId), p) == if a <= p < b then None else At(s, p)
  {
    hide At;
    var below, above := s[x].start < a, b < s[x].end;
    var lo, hi := Below(s[x], a), Above(s[x], b).(id := if s[x].start < a then newId else s[x].id);
    var mid := (if below then [lo] else []) + (if above then [hi] else []);
    assert Carved(s, x, x + 1, a, b, newId) == s[..x] + mid + s[x + 1..];
    assert s[x..x + 1] == [s[x]];
    LocalView(s, x, x + 1, mid, p);
    AtPair(s[x], hi, p);
    AtPair(lo, hi, p);
    AtPair(hi, lo, p);
    assert mid == (if below then (if above then [lo, hi] else [lo]) else if above then [hi] else []);
    AtNone([], p);
    if s[x].start <= p < s[x].end { AtIndex(s, x, p); }
  }

  lemma {:induction false} ConcealSums(s: seq<Vma>, x: nat)
    requires Sorted(s) && x < |s| && LastEnd(s) <= TASK_SIZE && VmAccount in s[x].flags && Sorted(Conceal(s, x))
    ensures forall c: Class {:trigger Weight(Conceal(s, x), c)} ::
              Weight(Conceal(s, x), c) == Weight(s, c) - if c == Account then s[x].end - s[x].start else 0
  {
    hide At, Weight, Overlaid, SameView;
    var q := Change(s[x], s[x].start, s[x].end, s[x].flags - {VmAccount});
    Unchanged(s);
    PieceOverlaid(s, s, x, q);
    SumsChanged(s, Conceal(s, x), x, q);
  }

  /** The page sums after pages [a, b) of area x are gone. */
  lemma {:induction false} GoneSum(s: seq<Vma>, r: seq<Vma>, x: nat, a: nat, b: nat, c: Class)
    requires Sorted(s) && Sorted(r) && LastEnd(s) <= TASK_SIZE && LastEnd(r) <= TASK_SIZE
    requires x < |s| && s[x].start <= a <= b <= s[x].end && Cleared(s, r, a, b)
    ensures Weight(r, c) == Weight(s, c) - if InClass(s[x].flags, c) then b - a else 0
  {
    hide At, Weight;
    if x < |s| - 1 { assert s[x].end <= s[|s| - 1].start; }
    WeightCleared(s, r, a, b, c);
    forall p: nat ensures a <= p < b ==> Counts(At(s, p), c) == InClass(s[x].flags, c) {
      if a <= p < b { AtIndex(s, x, p); }
    }
    CountUniform(s, c, a, b, InClass(s[x].flags, c));
  }

  /** The page view when VM_ACCOUNT stays concealed on area x. */
  ghost predicate LeftConcealed(s: seq<Vma>, r: seq<Vma>, x: nat) {
    x < |s| && forall p: nat {:trigger At(r, p)} ::
      At(r, p) == if s[x].start <= p < s[x].end
                  then Some(CellOf(s[x], p).(flags := Clean(s[x].flags - {VmAccount}))) else At(s, p)
  }

  lemma {:induction false} ConcealView(s: seq<Vma>, r: seq<Vma>, x: nat)
    requires Sorted(s) && x < |s| && SameView(Conceal(s, x), r)
    ensures LeftConcealed(s, r, x)
  {
    hide At;
    forall p: nat
      ensures At(r, p) == if s[x].start <= p < s[x].end
                          then Some(CellOf(s[x], p).(flags := Clean(s[x].flags - {VmAccount}))) else At(s, p) {
      SetFlagsView(s, x, s[x].flags - {VmAccount}, p);
      assert At(r, p) == At(Conceal(s, x), p);
    }
  }

  /** A piece of area x can be unmapped: there is one, an area more is allowed, and its pages are not huge. */
  ghost predicate Retirable(s: seq<Vma>, maxMapCount: nat, x: nat, a: nat, b: nat) {
    x < |s| && a < b && |s| < maxMapCount && VmHugeTlb !in s[x].flags
  }

  lemma {:induction false} InsideUnhindered(sp: Space, maxMapCount: nat, x: nat, a: nat, b: nat)
    requires Shaped(sp) && x < |sp.list| && sp.list[x].start <= a <= b <= sp.list[x].end
    ensures Retirable(sp.list, maxMapCount, x, a, b) ==> !Hindered(sp.list, maxMapCount, a, b)
  {
    hide InOrder, ConsistentBut, Files, Ids;
    var s := sp.list;
    assert forall j :: 0 <= j < x ==> s[j].end <= s[x].start;
    assert forall j :: x < j < |s| ==> s[x].end <= s[j].start;
    if Retirable(s, maxMapCount, x, a, b) {
      forall i: nat, y: nat | a <= y <= b ensures !JaggedAt(s, i, y) { }
    }
  }

  lemma {:induction false} HugeSame(f: Flags, g: Flags)
    requires Clean(f) == Clean(g)
    ensures VmHugeTlb in f <==> VmHugeTlb in g
  {
    assert VmHugeTlb in Clean(f) <==> VmHugeTlb in Clean(g);
  }

  /** do_munmap with pages charged ahead. An empty range is refused. */
  method UnmapAhead(mm: Mm, a: nat, b: nat, willing: bool, ghost extra: int)
    returns (gone: bool, ghost i: nat, ghost k: nat)
    requires mm.Ahead(extra) && a <= b
    modifies mm
    ensures mm.Ahead(extra) && mm.drift == old(mm.drift)
            && mm.charged - old(mm.charged) == Weight(mm.space.list, Account) - Weight(old(mm.space.list), Account)
    ensures gone ==> a < b && Cleared(old(mm.space.list), mm.space.list, a, b)
    ensures gone ==> CarvedOut(old(mm.space.list), mm.space.list, a, b, old(mm.space.nextId), i, k)
    ensures !gone ==> SameView(old(mm.space.list), mm.space.list)
    ensures willing && a < b && !Hindered(old(mm.space.list), mm.maxMapCount, a, b) ==> gone
  {
    hide Shaped, Guarded, Weight, Cleared, CarvedOut, SameView, Hindered;
    gone, i, k := false, 0, 0;
    Unchanged(mm.space.list);
    assert mm.Stat(Account) == mm.charged - mm.drift.account;
    if a < b {
      mm.drift := Overcharged(mm.drift, extra);
      assert forall c: Class {:trigger mm.Stat(c)} :: mm.Stat(c) == old(mm.Stat(c)) - if c == Account then extra else 0;
      var err;
      err, i, k := mm.Unmap(a, b, willing);
      gone := err == OK;
      label done:
      mm.drift := Overcharged(mm.drift, -extra);
      assert forall c: Class {:trigger mm.Stat(c)} :: mm.Stat(c) == old@done(mm.Stat(c)) + if c == Account then extra
               else 0;
      assert mm.Stat(Account) == mm.charged - mm.drift.account;
    }
  }

  /** How far the counters lag: n pages of the classes of f are not counted yet, and e0 pages are charged ahead. */
  ghost function Lag(f: Flags, c: Class, n: int, e0: int): int {
    if c == Account then e0 else if InClass(f, c) then -n else 0
  }

  /** The tail of move_vma for an area that is not accounted: count the n new pages, unmap [a, b) of area x. */
  method RetirePlain(mm: Mm, x: nat, a: nat, b: nat, n: nat, willing: bool, ghost e0: int) returns (gone: bool)
    requires Shaped(mm.space) && Guarded(mm.space.list, mm.writable)
    requires x < |mm.space.list| && mm.space.list[x].start <= a <= b <= mm.space.list[x].end
             && VmAccount !in mm.space.list[x].flags
    requires forall c: Class {:trigger mm.Stat(c)} :: mm.Stat(c) == Weight(mm.space.list, c)
                                                      + Lag(mm.space.list[x].flags, c, n, e0)
    modifies mm
    ensures mm.Ahead(e0) && mm.drift == old(mm.drift)
    ensures gone ==> a < b && Cleared(old(mm.space.list), mm.space.list, a, b)
    ensures !gone ==> SameView(old(mm.space.list), mm.space.list)
    ensures willing && Retirable(old(mm.space.list), mm.maxMapCount, x, a, b) ==> gone
  {
    hide Shaped, Guarded, Weight, Cleared, CarvedOut, SameView, Hindered;
    InsideUnhindered(mm.space, mm.maxMapCount, x, a, b);
    mm.VmStatAccount(mm.space.list[x].flags, n);
    ghost var i, k;
    gone, i, k := UnmapAhead(mm, a, b, willing, e0);
  }

  lemma {:induction false} ConcealStep(sp: Space, x: nat, writable: iset<FileId>)
    requires Shaped(sp) && Guarded(sp.list, writable) && x < |sp.list| && VmAccount in sp.list[x].flags
    ensures Shaped(sp.(list := Conceal(sp.list, x))) && Guarded(Conceal(sp.list, x), writable)
    ensures forall c: Class {:trigger Weight(Conceal(sp.list, x), c)} ::
              Weight(Conceal(sp.list, x), c) ==
                Weight(sp.list, c) - if c == Account then sp.list[x].end - sp.list[x].start else 0
  {
    hide At, Weight, Overlaid, Guarded, SameView, Files, InOrder, ConsistentBut, Ids;
    var s := sp.list;
    SetFlagsShape(sp, x, s[x].flags - {VmAccount});
    ConcealSums(s, x);
    Unchanged(s);
    var q := Change(s[x], s[x].start, s[x].end, s[x].flags - {VmAccount});
    PieceOverlaid(s, s, x, q);
    GuardedAreas(s, writable, x);
    GuardedOverlaid(s, Conceal(s, x), q, writable);
  }

  function RestoreSpace(sp: Space, x: nat, split: bool): Space
    requires x < |sp.list| && (split ==> x + 1 < |sp.list|)
  {
    sp.(list := Restore(sp.list, x, split))
  }

  lemma {:induction false} RestoreShape(sp: Space, x: nat, split: bool)
    requires Shaped(sp) && x < |sp.list| && (split ==> x + 1 < |sp.list|)
    ensures Shaped(RestoreSpace(sp, x, split))
  {
    hide Shaped;
    var f := sp.list[x].flags + {VmAccount};
    SetFlagsShape(sp, x, f);
    var m := SetFlags(sp, x, f);
    if split { SetFlagsShape(m, x + 1, m.list[x + 1].flags + {VmAccount}); }
  }

  /** What concealing, unmapping and restoring leaves is what unmapping alone would leave. */
  lemma {:induction false} RetiredList(s: seq<Vma>, r: seq<Vma>, x: nat, a: nat, b: nat, newId: nat, i: nat, k: nat)
    requires x < |s| && Sorted(s) && Sorted(Conceal(s, x)) && s[x].start <= a < b <= s[x].end && VmAccount in s[x].flags
    requires CarvedOut(Conceal(s, x), r, a, b, newId, i, k)
    ensures b - a == s[x].end - s[x].start ==> r == Carved(s, x, x + 1, a, b, newId)
    ensures b - a < s[x].end - s[x].start ==>
              var split := s[x].start < a && b < s[x].end;
              x < |r| && (split ==> x + 1 < |r|) && Restore(r, x, split) == Carved(s, x, x + 1, a, b, newId)
  {
    CarvedInside(Conceal(s, x), r, x, a, b, newId, i, k);
    if b - a < s[x].end - s[x].start {
      RestoreCarved(s, x, a, b, newId);
    }
  }

  lemma {:induction false} CarvedCleared(s: seq<Vma>, r: seq<Vma>, x: nat, a: nat, b: nat, newId: nat)
    requires Sorted(s) && Sorted(r) && x < |s| && s[x].start <= a < b <= s[x].end
             && r == Carved(s, x, x + 1, a, b, newId)
    ensures Cleared(s, r, a, b)
  {
    hide At, Carved, Sorted;
    forall p: nat ensures At(r, p) == if a <= p < b then None else At(s, p) { CarvedView(s, x, a, b, newId, p); }
  }

  /** The page sums before and after VM_ACCOUNT is restored. */
  lemma {:induction false} RetiredSums(s: seq<Vma>, m: seq<Vma>, r: seq<Vma>, x: nat, a: nat, b: nat)
    requires x < |s| && Sorted(s) && Sorted(Conceal(s, x)) && Sorted(m) && Sorted(r) && s[x].start <= a < b <= s[x].end
    requires LastEnd(s) <= TASK_SIZE && LastEnd(m) <= TASK_SIZE && LastEnd(r) <= TASK_SIZE && VmAccount in s[x].flags
    requires Cleared(Conceal(s, x), m, a, b) && Cleared(s, r, a, b)
    ensures forall c: Class {:trigger Weight(r, c)} ::
              Weight(m, c) == Weight(r, c) - if c == Account then s[x].end - s[x].start - (b - a) else 0
  {
    hide Weight, Cleared, Sorted;
    ConcealSums(s, x);
    forall c: Class ensures Weight(m, c) == Weight(r, c) - if c == Account then s[x].end - s[x].start - (b - a) else 0 {
      GoneSum(Conceal(s, x), m, x, a, b, c);
      GoneSum(s, r, x, a, b, c);
    }
  }

  /** The state after VM_ACCOUNT is restored. */
  lemma {:induction false} Retired(was: Space, sp: Space, r: Space, x: nat, a: nat, b: nat, newId: nat, i: nat, k: nat,
                                   writable: iset<FileId>)
    requires Shaped(was) && Guarded(was.list, writable) && x < |was.list| && Shaped(was.(list := Conceal(was.list, x)))
             && Shaped(sp)
    requires was.list[x].start <= a < b <= was.list[x].end && VmAccount in was.list[x].flags
    requires Cleared(Conceal(was.list, x), sp.list, a, b) && CarvedOut(Conceal(was.list, x), sp.list, a, b, newId, i, k)
    requires var split := was.list[x].start < a && b < was.list[x].end;
             if b - a == was.list[x].end - was.list[x].start then r == sp
             else x < |sp.list| && (split ==> x + 1 < |sp.list|) && r == RestoreSpace(sp, x, split)
    ensures Shaped(r) && Guarded(r.list, writable) && Cleared(was.list, r.list, a, b)
    ensures forall c: Class {:trigger Weight(r.list, c)} ::
              Weight(sp.list, c) ==
                Weight(r.list, c) - if c == Account then was.list[x].end - was.list[x].start - (b - a) else 0
  {
    hide Weight, Cleared, Guarded, Carved, CarvedOut, Conceal, Restore, Files, InOrder, ConsistentBut, Ids;
    RetiredList(was.list, sp.list, x, a, b, newId, i, k);
    if b - a < was.list[x].end - was.list[x].start {
      RestoreShape(sp, x, was.list[x].start < a && b < was.list[x].end);
    }
    CarvedCleared(was.list, r.list, x, a, b, newId);
    GuardedCleared(was.list, r.list, a, b, writable);
    RetiredSums(was.list, sp.list, r.list, x, a, b);
  }

  /** The tail of move_vma for an accounted area: conceal VM_ACCOUNT, count, unmap, and restore it on what is left. */
  method RetireAccounted(mm: Mm, x: nat, a: nat, b: nat, n: nat, willing: bool, ghost e0: int) returns (gone: bool)
    requires Shaped(mm.space) && Guarded(mm.space.list, mm.writable)
    requires x < |mm.space.list| && mm.space.list[x].start <= a <= b <= mm.space.list[x].end
             && VmAccount in mm.space.list[x].flags
    requires forall c: Class {:trigger mm.Stat(c)} :: mm.Stat(c) == Weight(mm.space.list, c)
                                                      + Lag(mm.space.list[x].flags, c, n, e0)
    modifies mm
    ensures mm.Ahead(e0 + (b - a)) && mm.drift == old(mm.drift)
    ensures gone ==> a < b && Cleared(old(mm.space.list), mm.space.list, a, b)
    ensures !gone ==> LeftConcealed(old(mm.space.list), mm.space.list, x)
    ensures willing && Retirable(old(mm.space.list), mm.maxMapCount, x, a, b) ==> gone
  {
    hide Shaped, Guarded, Weight, Cleared, CarvedOut, SameView, LeftConcealed, Restore, Hindered;
    var vma := mm.space.list[x];
    var excess := vma.end - vma.start - (b - a);
    var split := a > vma.start && b < vma.end;
    ConcealStep(mm.space, x, mm.writable);
    mm.space := SetFlags(mm.space, x, vma.flags - {VmAccount});
    mm.VmStatAccount(mm.space.list[x].flags, n);
    ghost var i, k, id := 0, 0, mm.space.nextId;
    assert forall c: Class {:trigger mm.Stat(c)} :: mm.Stat(c) == old(mm.Stat(c))
                                                    + if c != Account && InClass(vma.flags, c) then n else 0;
    InsideUnhindered(mm.space, mm.maxMapCount, x, a, b);
    gone, i, k := UnmapAhead(mm, a, b, willing, e0 + (vma.end - vma.start));
    label unmapped:
    if !gone {
      mm.charged := mm.charged - excess;
      assert forall c: Class {:trigger mm.Stat(c)} :: mm.Stat(c) ==
                                                      old@unmapped(mm.Stat(c)) - if c == Account then excess else 0;
      ConcealedLeft(old(mm.space), mm.space, x);
    } else {
      if excess > 0 {
        RestoreFits(old(mm.space), mm.space, x, a, b, id, i, k);
        mm.space := RestoreSpace(mm.space, x, split);
      }
      Retired(old(mm.space), old@unmapped(mm.space), mm.space, x, a, b, id, i, k, mm.writable);
      assert forall c: Class {:trigger mm.Stat(c)} :: mm.Stat(c) == old@unmapped(mm.Stat(c));
    }
  }

  lemma {:induction false} RestoreFits(was: Space, sp: Space, x: nat, a: nat, b: nat, newId: nat, i: nat, k: nat)
    requires Shaped(was) && x < |was.list| && Shaped(was.(list := Conceal(was.list, x)))
    requires was.list[x].start <= a < b <= was.list[x].end && VmAccount in was.list[x].flags
             && b - a < was.list[x].end - was.list[x].start
    requires CarvedOut(Conceal(was.list, x), sp.list, a, b, newId, i, k)
    ensures x < |sp.list| && (was.list[x].start < a && b < was.list[x].end ==> x + 1 < |sp.list|)
  {
    hide Files, InOrder, ConsistentBut, Ids, CarvedOut, Conceal, Restore, Carved;
    RetiredList(was.list, sp.list, x, a, b, newId, i, k);
  }

  lemma {:induction false} ConcealedLeft(was: Space, sp: Space, x: nat)
    requires Shaped(was) && x < |was.list| && SameView(Conceal(was.list, x), sp.list)
    ensures LeftConcealed(was.list, sp.list, x)
  {
    hide Files, InOrder, ConsistentBut, Ids, Conceal, SameView;
    ConcealView(was.list, sp.list, x);
  }

  // ---------- move_vma ----------

  /** Equal but for VM_ACCOUNT. */
  ghost predicate Alike(c: Option<Cell>, d: Option<Cell>) {
    || c == d
    || (c.Some? && d.Some? && c.value.file == d.value.file && c.value.off == d.value.off
        && c.value.flags - {VmAccount} == d.value.flags - {VmAccount})
  }

  /** Pages [a, b) are gone, the request shows in its place, and nothing else changed. */
  ghost predicate Moved(s: seq<Vma>, r: seq<Vma>, a: nat, b: nat, q: Request) {
    forall p: nat {:trigger At(r, p)} ::
      At(r, p) == if q.addr <= p < q.end then Some(Wanted(q, p)) else if a <= p < b then None else At(s, p)
  }

  /** The request shows in its place and, but for VM_ACCOUNT, nothing else changed. */
  ghost predicate CopiedTo(s: seq<Vma>, r: seq<Vma>, q: Request) {
    forall p: nat {:trigger At(r, p)} :: Alike(At(r, p), if q.addr <= p < q.end then Some(Wanted(q, p)) else At(s, p))
  }

  lemma {:induction false} MovedOf(s: seq<Vma>, m: seq<Vma>, r: seq<Vma>, a: nat, b: nat, q: Request)
    requires Overlaid(s, m, q) && Cleared(m, r, a, b) && (b <= q.addr || q.end <= a)
    ensures Moved(s, r, a, b, q)
  {
    hide At;
    forall p: nat
      ensures At(r, p) == if q.addr <= p < q.end then Some(Wanted(q, p)) else if a <= p < b then None else At(s, p) {
      assert Shows(s, m, q, p);
    }
  }

  lemma {:induction false} UndoneOf(s: seq<Vma>, m: seq<Vma>, r: seq<Vma>, q: Request)
    requires Overlaid(s, m, q) && Cleared(m, r, q.addr, q.end) && Vacant(s, q.addr, q.end)
    ensures SameView(s, r)
  {
    hide At;
    forall p: nat ensures At(r, p) == At(s, p) { assert Shows(s, m, q, p); }
  }

  lemma {:induction false} CopiedSame(s: seq<Vma>, m: seq<Vma>, r: seq<Vma>, q: Request)
    requires Overlaid(s, m, q) && SameView(m, r)
    ensures CopiedTo(s, r, q)
  {
    hide At;
    forall p: nat ensures Alike(At(r, p), if q.addr <= p < q.end then Some(Wanted(q, p)) else At(s, p)) {
      assert Shows(s, m, q, p) && At(r, p) == At(m, p);
    }
  }

  lemma {:induction false} CopiedConcealed(s: seq<Vma>, m: seq<Vma>, r: seq<Vma>, x: nat, q: Request)
    requires Sorted(m) && Overlaid(s, m, q) && LeftConcealed(m, r, x)
    ensures CopiedTo(s, r, q)
  {
    hide At;
    forall p: nat ensures Alike(At(r, p), if q.addr <= p < q.end then Some(Wanted(q, p)) else At(s, p)) {
      assert Shows(s, m, q, p);
      if m[x].start <= p < m[x].end { AtIndex(m, x, p); }
      assert Alike(At(r, p), At(m, p));
    }
  }

  lemma {:induction false} SameClass(f: Flags, g: Flags, c: Class)
    requires Clean(f) == Clean(g)
    ensures InClass(f, c) == InClass(g, c) && (VmAccount in f <==> VmAccount in g)
  {
    assert forall x: Flag :: x != VmSoftDirty ==> (x in f <==> x in Clean(f)) && (x in g <==> x in Clean(g));
  }

  /** The counters after the copy, before anything is counted. */
  lemma {:induction false} CopyLag(s: seq<Vma>, r: seq<Vma>, v: nat, x: nat, q: Request, charge: int)
    requires Sorted(s) && Sorted(r) && LastEnd(s) <= TASK_SIZE && LastEnd(r) <= TASK_SIZE && q.addr < q.end <= TASK_SIZE
    requires v < |s| && x < |r| && q.flags == s[v].flags && Clean(r[x].flags) == Clean(s[v].flags)
    requires Vacant(s, q.addr, q.end) && Overlaid(s, r, q)
    ensures var e0 := charge - if VmAccount in s[v].flags then q.end - q.addr else 0;
            forall c: Class {:trigger Weight(r, c)} ::
              Weight(s, c) + (if c == Account then charge else 0) == Weight(r, c)
                + Lag(r[x].flags, c, q.end - q.addr, e0)
  {
    hide At, Weight, Vacant, Overlaid, Sorted, LastEnd, Clean;
    var e0 := charge - if VmAccount in s[v].flags then q.end - q.addr else 0;
    forall c: Class
      ensures Weight(s, c) + (if c == Account then charge else 0) == Weight(r, c)
              + Lag(r[x].flags, c, q.end - q.addr, e0) {
      WeightOverlaid(s, r, q, c);
      SameClass(r[x].flags, s[v].flags, c);
    }
  }

  /** The tail of move_vma: count the n new pages, then unmap [a, b) of area x without losing its reservation. */
  method Retire(mm: Mm, x: nat, a: nat, b: nat, n: nat, willing: bool, ghost e0: int) returns (gone: bool)
    requires Shaped(mm.space) && Guarded(mm.space.list, mm.writable)
    requires x < |mm.space.list| && mm.space.list[x].start <= a <= b <= mm.space.list[x].end
    requires forall c: Class {:trigger mm.Stat(c)} :: mm.Stat(c) == Weight(mm.space.list, c)
                                                      + Lag(mm.space.list[x].flags, c, n, e0)
    modifies mm
    ensures mm.Ahead(e0 + if VmAccount in old(mm.space.list)[x].flags then b - a else 0) && mm.drift == old(mm.drift)
    ensures gone ==> a < b && Cleared(old(mm.space.list), mm.space.list, a, b)
    ensures !gone ==> SameView(old(mm.space.list), mm.space.list) || LeftConcealed(old(mm.space.list), mm.space.list, x)
    ensures willing && Retirable(old(mm.space.list), mm.maxMapCount, x, a, b) ==> gone
  {
    hide Retirable, Shaped, Guarded, Weight, Cleared, SameView, LeftConcealed;
    if VmAccount in mm.space.list[x].flags {
      gone := RetireAccounted(mm, x, a, b, n, willing, e0);
    } else {
      gone := RetirePlain(mm, x, a, b, n, willing, e0);
    }
  }

  /** Area v holds pages [from, from + o), to be moved and grown to n pages; the extra pages are charged. */
  ghost predicate Movable(mm: Mm, v: nat, from: nat, o: nat, addr: nat, n: nat)
    reads mm
  {
    && v < |mm.space.list| && mm.space.list[v].start <= from < mm.space.list[v].end && from + o <= mm.space.list[v].end
    && o <= n && 0 < n && addr + n <= TASK_SIZE
    && mm.Ahead(if VmAccount in mm.space.list[v].flags then n - o else 0)
  }

  /** What move_vma works on once the copy is made: the area and range to retire. */
  ghost predicate Copied(s: seq<Vma>, r: seq<Vma>, v: nat, x: nat, a: nat, b: nat, q: Request) {
    && v < |s| && x < |r| && r[x].start <= a <= b <= r[x].end && q.flags == s[v].flags
       && Clean(r[x].flags) == Clean(s[v].flags)
    && Vacant(s, q.addr, q.end) && Overlaid(s, r, q) && q.addr < q.end <= TASK_SIZE && q.file == s[v].file
  }

  /** move_vma after copy_vma. */
  method FinishMove(mm: Mm, ghost s: seq<Vma>, ghost v: nat, x: nat, a: nat, b: nat, n: nat, ghost q: Request,
                    willing: bool, ghost charge: int)
    returns (gone: bool)
    requires Shaped(mm.space) && Sorted(s) && LastEnd(s) <= TASK_SIZE && Guarded(s, mm.writable)
    requires Copied(s, mm.space.list, v, x, a, b, q) && n == q.end - q.addr
    requires forall c: Class {:trigger mm.Stat(c)} :: mm.Stat(c) == Weight(s, c) + if c == Account then charge else 0
    modifies mm
    ensures mm.Ahead(charge + if VmAccount in s[v].flags then b - a - n else 0) && mm.drift == old(mm.drift)
    ensures gone ==> a < b && Cleared(old(mm.space.list), mm.space.list, a, b)
    ensures !gone ==> CopiedTo(s, mm.space.list, q)
    ensures willing && a < b && |old(mm.space.list)| < mm.maxMapCount && VmHugeTlb !in s[v].flags ==> gone
  {
    hide Guarded, Weight, Cleared, SameView, LeftConcealed, CopiedTo, Overlaid, Vacant, InOrder, ConsistentBut, Files,
      Ids, Clean, Lag;
    ghost var m := mm.space.list;
    CopyLag(s, m, v, x, q, charge);
    SameClass(m[x].flags, s[v].flags, Account);
    GuardedAreas(s, mm.writable, v);
    GuardedOverlaid(s, m, q, mm.writable);
    HugeSame(m[x].flags, s[v].flags);
    gone := Retire(mm, x, a, b, n, willing, charge - if VmAccount in s[v].flags then n else 0);
    if !gone {
      if SameView(m, mm.space.list) {
        CopiedSame(s, m, mm.space.list, q);
      } else {
        CopiedConcealed(s, m, mm.space.list, x, q);
      }
    }
  }

  /** Whether the source or the copy is retired, the area is the one that holds it. */
  lemma {:induction false} CopiedAt(s: seq<Vma>, r: seq<Vma>, v: nat, sv: nat, nv: nat, from: nat, o: nat, q: Request)
    requires Sorted(s) && Sorted(r) && Located(s, r, v, sv, nv) && s[v].start <= from && from + o <= s[v].end
             && q.addr < q.end <= TASK_SIZE
    requires q.flags == s[v].flags && q.file == s[v].file && Vacant(s, q.addr, q.end) && Overlaid(s, r, q)
    requires r[nv].start <= q.addr && q.end <= r[nv].end && Clean(r[nv].flags) == Clean(s[v].flags)
    ensures Copied(s, r, v, sv, from, from + o, q) && Copied(s, r, v, nv, q.addr, q.end, q)
    ensures !Overlaps(s, q.addr, q.end) && (from + o <= q.addr || q.end <= from)
  {
    hide At, Overlaid, Clean;
    VacantApart(s, q.addr, q.end);
    assert !(s[v].start < q.end && q.addr < s[v].end);
  }

  /** The offset that a moved area begins with: continued, but for anonymous memory that was never faulted in. */
  function MovedPgoff(sp: Space, v: nat, from: nat, addr: nat): int
    requires v < |sp.list|
  {
    if sp.list[v].file == None && AnonOf(sp, v) == 0 then addr else sp.list[v].pgoff + (from - sp.list[v].start)
  }

  /** move_vma. The pages go to [addr, addr + n), or the copy is undone. `gone` tells whether the
      last unmapping, of the old range or of the undone copy, succeeded. */
  method MoveVma(mm: Mm, v: nat, from: nat, o: nat, addr: nat, n: nat, willing: bool)
    returns (err: Errno, gone: bool, ghost q: Request)
    requires Movable(mm, v, from, o, addr, n)
    modifies mm
    ensures mm.drift == old(mm.drift)
    ensures mm.Ahead(if err != OK && VmAccount in old(mm.space.list)[v].flags then n - o else 0)
    ensures q.addr == addr && q.end == addr + n && q.file == old(mm.space.list)[v].file
            && q.flags == old(mm.space.list)[v].flags
    ensures err == OK ==> q.pgoff == MovedPgoff(old(mm.space), v, from, addr)
    ensures q.file.Some? ==> q.pgoff == old(mm.space.list)[v].pgoff + (from - old(mm.space.list)[v].start)
    ensures err == OK ==> |old(mm.space.list)| + 3 < mm.maxMapCount
    ensures willing && |old(mm.space.list)| + 3 < mm.maxMapCount && !Overlaps(old(mm.space.list), addr, addr + n) ==>
              err == OK && (o > 0 && VmHugeTlb !in old(mm.space.list)[v].flags ==> gone)
    ensures willing && err != OK ==> err == ENOMEM
    ensures err == OK && gone ==> Moved(old(mm.space.list), mm.space.list, from, from + o, q)
    ensures err == OK && !gone ==> CopiedTo(old(mm.space.list), mm.space.list, q)
    ensures err == OK && o == 0 ==> !gone
    ensures Overlaps(old(mm.space.list), addr, addr + n) ==> err == ENOMEM
                                                             && SameView(old(mm.space.list), mm.space.list)
    ensures err != OK ==> SameView(old(mm.space.list), mm.space.list)
                          || (!gone && CopiedTo(old(mm.space.list), mm.space.list, q)
                              && (from + o <= addr || addr + n <= from))
  {
    hide Guarded, Weight, Cleared, SameView, CopiedTo, Moved, Overlaid, Vacant, InOrder, ConsistentBut, Files, Ids,
      Located, Copied, Sorted, DistinctIds, LastEnd, Clean, Overlaps;
    ghost var s := mm.space.list;
    Unchanged(s);
    err, gone, q := ENOMEM, true, CopyRequest(s[v], false, addr, addr + n, s[v].pgoff + (from - s[v].start));
    if mm.space.mapCount >= mm.maxMapCount - 3 { return; }
    var ksmOk: bool := *;
    if !ksmOk && !willing { return; }
    var ok, sp, nv, sv, unfaulted := Copy(mm.space, v, from, addr, addr + n, willing);
    mm.space := sp;
    if !ok { return; }
    q := CopyRequest(s[v], unfaulted, addr, addr + n, s[v].pgoff + (from - s[v].start));
    ghost var m := mm.space.list;
    CopiedAt(s, m, v, sv, nv, from, o, q);
    var moved: bool, hook: Errno := *, *;
    if willing { moved, hook := true, OK; }
    err := if moved then hook else ENOMEM;
    ghost var charge := if VmAccount in s[v].flags then n - o else 0;
    if err == OK {
      gone := FinishMove(mm, s, v, sv, from, from + o, n, q, willing, charge);
      if gone { MovedOf(s, m, mm.space.list, from, from + o, q); }
    } else {
      gone := FinishMove(mm, s, v, nv, addr, addr + n, n, q, willing, charge);
      if gone { UndoneOf(s, m, mm.space.list, q); }
    }
  }

  // ---------- vma_to_resize_task ----------

  /** Why o pages from addr on cannot become n pages: they are not all in one area, it is of huge pages, its offsets
      would overflow, its driver does not let it expand, or the limits forbid it. Area v is the first that ends above
      addr. */
  ghost function ResizeErr(s: seq<Vma>, totalVm: int, dataVm: int, v: nat, addr: nat, o: nat, n: nat,
                           lim: Limits): Errno {
    if v >= |s| || addr < s[v].start then EFAULT
    else if VmHugeTlb in s[v].flags then EINVAL
    else if addr + o > s[v].end then EFAULT
    else if n == o then OK
    else if s[v].pgoff + (addr - s[v].start) + n >= WORD then EINVAL
    else if VmDontExpand in s[v].flags || VmPfnMap in s[v].flags then EFAULT
    else if !MayExpandVm(totalVm, dataVm, s[v].flags, n - o, lim) then ENOMEM
    else OK
  }

  /** vma_to_resize_task: the area whose pages [addr, addr + o) are to become n pages, the extra pages charged. */
  method VmaToResize(mm: Mm, addr: nat, o: nat, n: nat, lim: Limits, willing: bool)
    returns (err: Errno, v: nat, charge: nat)
    requires mm.Valid() && o <= n < WORD
    modifies mm`charged
    ensures err != OK ==> mm.charged == old(mm.charged)
    ensures err == OK ==>
              && v < |mm.space.list| && mm.space.list[v].start <= addr < mm.space.list[v].end
                 && addr + o <= mm.space.list[v].end
              && charge == (if VmAccount in mm.space.list[v].flags then n - o else 0)
                 && mm.charged == old(mm.charged) + charge
              && (n == o || (mm.totalVm + (n - o)) % WORD <= lim.space / PAGE)
    ensures FirstAbove(mm.space.list, addr, v)
    ensures err == OK || willing ==> err == ResizeErr(mm.space.list, mm.totalVm, mm.dataVm, v, addr, o, n, lim)
  {
    hide InOrder, ConsistentBut, Files, Ids, Guarded, Weight, LastEnd;
    err, charge := EFAULT, 0;
    v := FindVma(mm.space.tree, mm.space.list, addr);
    if v == |mm.space.list| || mm.space.list[v].start > addr { return; }
    var vma := mm.space.list[v];
    if VmHugeTlb in vma.flags { return EINVAL, v, 0; }
    if o > vma.end - addr { return; }
    if n == o { return OK, v, 0; }
    var pgoff := vma.pgoff + (addr - vma.start);
    if (pgoff + n) % WORD < pgoff { return EINVAL, v, 0; }
    if VmDontExpand in vma.flags || VmPfnMap in vma.flags { return; }
    var lockable: bool := *;
    if VmLocked in vma.flags && !lockable && !willing { return EAGAIN, v, 0; }
    if !MayExpandVm(mm.totalVm, mm.dataVm, vma.flags, n - o, lim) { return ENOMEM, v, 0; }
    if VmAccount in vma.flags {
      var ok := EnoughMemory(mm, n - o, willing);
      if !ok { return ENOMEM, v, 0; }
      charge := n - o;
    }
    err := OK;
  }

  /** The charge is given back after a failure. */
  method Refund(mm: Mm, charge: nat)
    requires mm.Ahead(charge)
    modifies mm`charged
    ensures mm.Valid()
  {
    hide Shaped, Guarded, Weight;
    mm.charged := mm.charged - charge;
    assert forall c: Class {:trigger mm.Stat(c)} :: mm.Stat(c) == old(mm.Stat(c)) - if c == Account then charge else 0;
  }

  // ---------- mremap_to_task ----------

  /** Addresses wrap around, here in pages. */
  function Wrap(x: nat): nat {
    x % SPACE
  }

  /** How many pages a shrinking mremap drops behind the first n. */
  function Excess(o: nat, n: nat): nat {
    if o > n then o - n else 0
  }

  /** The view without the new range and without the tail that a shrinking mremap drops. */
  ghost predicate Trimmed(s: seq<Vma>, r: seq<Vma>, dest: nat, addr: nat, o: nat, n: nat) {
    forall p: nat {:trigger At(r, p)} ::
      At(r, p) == if dest <= p < dest + n || Wrap(addr + n) <= p < Wrap(addr + n) + Excess(o, n) then None else At(s, p)
  }

  /** Nothing changed, but for VM_ACCOUNT, outside the new range and the tail. */
  ghost predicate Spared(s: seq<Vma>, r: seq<Vma>, dest: nat, addr: nat, o: nat, n: nat) {
    forall p: nat {:trigger At(r, p)} ::
      !(dest <= p < dest + n) && !(Wrap(addr + n) <= p < Wrap(addr + n) + Excess(o, n)) ==> Alike(At(r, p), At(s, p))
  }

  /** The request is for what page addr maps, offsets of a file running on from there. */
  ghost predicate Continues(s: seq<Vma>, addr: nat, q: Request) {
    && At(s, addr).Some? && q.file == At(s, addr).value.file && Clean(q.flags) == At(s, addr).value.flags
    && (q.file.Some? ==> q.pgoff == At(s, addr).value.off)
  }

  /** The copy shows at its place, but for VM_ACCOUNT the source stays, the tail is gone. */
  ghost predicate Duplicated(s: seq<Vma>, r: seq<Vma>, addr: nat, o: nat, n: nat, q: Request) {
    forall p: nat {:trigger At(r, p)} ::
      Alike(At(r, p), if q.addr <= p < q.end then Some(Wanted(q, p))
                      else if Wrap(addr + n) <= p < Wrap(addr + n) + Excess(o, n) then None else At(s, p))
  }

  lemma {:induction false} SparedTrimmed(s: seq<Vma>, m: seq<Vma>, r: seq<Vma>, dest: nat, addr: nat, o: nat, n: nat)
    requires Trimmed(s, m, dest, addr, o, n) && SameView(m, r)
    ensures Spared(s, r, dest, addr, o, n)
  {
    hide At, Wrap, Excess;
    forall p: nat ensures At(r, p) == At(m, p) { }
  }

  lemma {:induction false} SparedCopied(s: seq<Vma>, m: seq<Vma>, r: seq<Vma>, dest: nat, addr: nat, o: nat, n: nat,
                                        q: Request)
    requires Trimmed(s, m, dest, addr, o, n) && CopiedTo(m, r, q) && q.addr == dest && q.end == dest + n
    ensures Spared(s, r, dest, addr, o, n) && Duplicated(s, r, addr, o, n, q)
  {
    hide At, Wrap, Excess;
    forall p: nat ensures Alike(At(r, p), if q.addr <= p < q.end then Some(Wanted(q, p)) else At(m, p)) { }
    forall p: nat ensures Alike(At(r, p), if q.addr <= p < q.end then Some(Wanted(q, p))
                      else if Wrap(addr + n) <= p < Wrap(addr + n) + Excess(o, n) then None else At(s, p)) {
      assert At(m, p) == At(m, p);
    }
  }

  lemma {:induction false} RelocatedOf(s: seq<Vma>, m: seq<Vma>, r: seq<Vma>, addr: nat, o: nat, n: nat, q: Request)
    requires Trimmed(s, m, q.addr, addr, o, n) && Moved(m, r, addr, addr + (if o < n then o else n), q)
             && q.end == q.addr + n
    requires addr + n < SPACE
    ensures Moved(s, r, addr, addr + o, q)
  {
    hide At;
    assert Wrap(addr + n) == addr + n;
    forall p: nat
      ensures At(r, p) == if q.addr <= p < q.end then Some(Wanted(q, p))
                          else if addr <= p < addr + o then None else At(s, p) {
      assert At(m, p) == At(m, p);
    }
  }

  lemma {:induction false} ContinuesFrom(s: seq<Vma>, m: seq<Vma>, v: nat, dest: nat, addr: nat, o: nat, n: nat,
                                         q: Request)
    requires Sorted(m) && Trimmed(s, m, dest, addr, o, n) && v < |m| && m[v].start <= addr < m[v].end
    requires q.file == m[v].file && q.flags == m[v].flags
             && (q.file.Some? ==> q.pgoff == m[v].pgoff + (addr - m[v].start))
    ensures Continues(s, addr, q)
  {
    hide At, Clean;
    AtIndex(m, v, addr);
    assert At(m, addr) == At(s, addr);
  }

  lemma {:induction false} TrimmedTwice(s: seq<Vma>, m: seq<Vma>, r: seq<Vma>, dest: nat, addr: nat, o: nat, n: nat)
    requires Cleared(s, m, dest, dest + n)
    requires if o > n then Cleared(m, r, Wrap(addr + n), Wrap(addr + n) + (o - n)) else SameView(m, r)
    ensures Trimmed(s, r, dest, addr, o, n)
  {
    hide At, Wrap;
    forall p: nat
      ensures At(r, p) == if dest <= p < dest + n || Wrap(addr + n) <= p < Wrap(addr + n) + Excess(o, n) then None
                          else At(s, p) {
      assert At(m, p) == At(m, p);
    }
  }

  lemma {:induction false} SparedCleared(s: seq<Vma>, m: seq<Vma>, r: seq<Vma>, dest: nat, addr: nat, o: nat, n: nat)
    requires (Cleared(s, m, dest, dest + n) || m == s) && SameView(m, r)
    ensures Spared(s, r, dest, addr, o, n)
  {
    hide At, Wrap, Excess;
    forall p: nat ensures At(r, p) == At(m, p) { }
  }

  /** When they succeed: the destination can be unmapped, and after that, when the list is `mid`, the tail. */
  ghost predicate TrimmedAs(s: seq<Vma>, mid: seq<Vma>, maxMapCount: nat, addr: nat, o: nat, dest: nat, n: nat,
                            willing: bool, err: Errno) {
    var tail := n < o && Hindered(mid, maxMapCount, addr + n, addr + o);
    && (err == OK ==> !Hindered(s, maxMapCount, dest, dest + n))
    && (willing && !Hindered(s, maxMapCount, dest, dest + n) ==> Cleared(s, mid, dest, dest + n))
    && (addr + o <= TASK_SIZE && err == OK ==> !tail)
    && (addr + o <= TASK_SIZE && willing && !Hindered(s, maxMapCount, dest, dest + n) && !tail ==> err == OK)
  }

  /** The two unmappings with which mremap_to_task begins; `mid` is the list between them. */
  method TrimForMove(mm: Mm, addr: nat, o: nat, dest: nat, n: nat, willing: bool)
    returns (err: Errno, ghost mid: seq<Vma>)
    requires mm.Valid() && n > 0 && dest + n <= TASK_SIZE
    modifies mm
    ensures mm.Valid() && mm.drift == old(mm.drift)
    ensures err == OK ==> Trimmed(old(mm.space.list), mm.space.list, dest, addr, o, n)
    ensures err != OK ==> Spared(old(mm.space.list), mm.space.list, dest, addr, o, n)
    ensures !Overlaps(old(mm.space.list), dest, dest + n) && o <= n ==> err == OK && mm.space.list == old(mm.space.list)
    ensures TrimmedAs(old(mm.space.list), mid, mm.maxMapCount, addr, o, dest, n, willing, err)
  {
    hide Shaped, Guarded, Weight, Cleared, SameView, Wrap, Trimmed, Spared, Overlaps, Hindered;
    ghost var s := mm.space.list;
    NoWrap(addr + n);
    mid := s;
    err := mm.UnmapPages(dest, n, willing);
    if err != OK {
      SparedCleared(s, s, mm.space.list, dest, addr, o, n);
      return;
    }
    ghost var m := mm.space.list;
    mid := m;
    Unchanged(m);
    if o >= n {
      err := mm.UnmapPages(Wrap(addr + n), o - n, willing);
      if err != OK && o != n {
        SparedCleared(s, m, mm.space.list, dest, addr, o, n);
        return;
      }
      err := OK;
    }
    TrimmedTwice(s, m, mm.space.list, dest, addr, o, n);
  }

  /** From the charge on, mremap_to_task and the moving part of mremap_task: move area v, or refund. */
  method MoveOrRefund(mm: Mm, v: nat, addr: nat, o: nat, dest: nat, n: nat, charge: nat, willing: bool)
    returns (err: Errno, gone: bool, ghost q: Request)
    requires Movable(mm, v, addr, o, dest, n) && charge == if VmAccount in mm.space.list[v].flags then n - o else 0
    modifies mm
    ensures mm.Valid() && mm.drift == old(mm.drift)
    ensures q.addr == dest && q.end == dest + n && q.file == old(mm.space.list)[v].file
            && q.flags == old(mm.space.list)[v].flags
    ensures q.file.Some? ==> q.pgoff == old(mm.space.list)[v].pgoff + (addr - old(mm.space.list)[v].start)
    ensures err == OK ==> q.pgoff == MovedPgoff(old(mm.space), v, addr, dest)
    ensures err == OK ==> |old(mm.space.list)| + 3 < mm.maxMapCount
    ensures willing && |old(mm.space.list)| + 3 < mm.maxMapCount && !Overlaps(old(mm.space.list), dest, dest + n) ==>
              err == OK && (o > 0 && VmHugeTlb !in old(mm.space.list)[v].flags ==> gone)
    ensures willing && err != OK ==> err == ENOMEM
    ensures err == OK && gone ==> Moved(old(mm.space.list), mm.space.list, addr, addr + o, q)
    ensures err == OK && !gone ==> CopiedTo(old(mm.space.list), mm.space.list, q)
    ensures err == OK && o == 0 ==> !gone
    ensures Overlaps(old(mm.space.list), dest, dest + n) ==> err == ENOMEM
                                                             && SameView(old(mm.space.list), mm.space.list)
    ensures err != OK ==> SameView(old(mm.space.list), mm.space.list)
                          || (!gone && CopiedTo(old(mm.space.list), mm.space.list, q)
                              && (addr + o <= dest || dest + n <= addr))
  {
    hide Shaped, Guarded, Weight, SameView, CopiedTo, Moved, Overlaps, MovedPgoff;
    err, gone, q := MoveVma(mm, v, addr, o, dest, n, willing);
    if err != OK { Refund(mm, charge); }
  }

  const NO_REQUEST := Request(0, 0, {}, None, 0, Tag(0, 0, false))

  /** Why the pages cannot be resized and moved to a place of the caller's choice: they cannot become n pages, the place
      is below mmap_min_addr's reach, there are too many areas, or something is in the way. */
  ghost function MoveErr(s: seq<Vma>, maxMapCount: nat, totalVm: int, dataVm: int, v: nat, addr: nat, o: nat, dest: nat,
                         n: nat, l: TaskMmap.Layout, lim: Limits): Errno {
    if ResizeErr(s, totalVm, dataVm, v, addr, o, n, lim) != OK then ResizeErr(s, totalVm, dataVm, v, addr, o, n, lim)
    else if n + l.minAddr > TASK_SIZE || |s| + 3 >= maxMapCount || Overlaps(s, dest, dest + n) then ENOMEM
    else OK
  }

  /** vma_to_resize_task and the move to a place of the caller's choice. */
  method ResizeAndMove(mm: Mm, cur: Space, l: TaskMmap.Layout, addr: nat, o: nat, dest: nat, n: nat, lim: Limits,
                       willing: bool)
    returns (err: Errno, gone: bool, ghost v: nat, ghost q: Request)
    requires mm.Valid() && o <= n && 0 < n && dest + n <= TASK_SIZE && Shaped(cur) && TaskMmap.Sane(l)
    modifies mm
    ensures mm.Valid() && mm.drift == old(mm.drift)
    ensures FirstAbove(old(mm.space.list), addr, v)
    ensures err == OK || willing ==> err == MoveErr(old(mm.space.list), mm.maxMapCount, old(mm.totalVm), old(mm.dataVm),
                                                    v, addr, o, dest, n, l, lim)
    ensures willing && err == OK && o > 0 ==> gone
    ensures err == OK ==> v < |old(mm.space.list)| && old(mm.space.list)[v].start <= addr < old(mm.space.list)[v].end
    ensures err == OK ==> q.pgoff == MovedPgoff(old(mm.space), v, addr, dest)
    ensures err == OK ==> q.addr == dest && q.end == dest + n && q.file == old(mm.space.list)[v].file
                          && q.flags == old(mm.space.list)[v].flags
    ensures err == OK && q.file.Some? ==> q.pgoff == old(mm.space.list)[v].pgoff + (addr - old(mm.space.list)[v].start)
    ensures err == OK && gone ==> Moved(old(mm.space.list), mm.space.list, addr, addr + o, q)
    ensures err == OK && !gone ==> CopiedTo(old(mm.space.list), mm.space.list, q)
    ensures err == OK && o == 0 ==> !gone
    ensures err != OK ==> SameView(old(mm.space.list), mm.space.list)
                          || (!gone && CopiedTo(old(mm.space.list), mm.space.list, q) && q.addr == dest
                              && q.end == dest + n)
  {
    hide Shaped, Guarded, Weight, SameView, CopiedTo, Moved, MayExpandVm, Overlaps, MovedPgoff, FirstAbove;
    gone, v, q := true, 0, NO_REQUEST;
    Unchanged(mm.space.list);
    var i, charge;
    err, i, charge := VmaToResize(mm, addr, o, n, lim, willing);
    v := i;
    if err != OK { return; }
    assert forall c: Class {:trigger mm.Stat(c)} :: mm.Stat(c) == old(mm.Stat(c)) + if c == Account then charge else 0;
    var at;
    err, at := TaskMmap.GetUnmappedArea(cur, dest * PAGE, n, true, l, willing);
    if err != OK {
      Refund(mm, charge);
      return;
    }
    err, gone, q := MoveOrRefund(mm, i, addr, o, dest, n, charge, willing);
  }

  /** The arguments that mremap_to_task takes: a destination of whole pages in user space, clear of the source. */
  predicate DestOk(addr: nat, o: nat, newAddr: nat, n: nat) {
    && newAddr % PAGE == 0 && newAddr / PAGE + n <= TASK_SIZE
    && (addr + o <= newAddr / PAGE || newAddr / PAGE + n <= addr)
  }

  /** On the way of an mremap to a place of the caller's choice: the list when the destination is clear, and the list
      and the counters when the tail is gone too. */
  datatype Halfway = Halfway(mid: seq<Vma>, left: seq<Vma>, totalVm: int, dataVm: int)

  /** The counters are those of the list, but for what they were off by. */
  ghost predicate OnBooks(via: Halfway, drift: Drift) {
    via.totalVm == Weight(via.left, Total) + drift.total && via.dataVm == Weight(via.left, Data) + drift.data
  }

  /** When an mremap to a place of the caller's choice succeeds: the destination is one that it takes and can be
      unmapped, then a tail, and then the source can be resized and moved. */
  ghost predicate PlacedAs(s: seq<Vma>, maxMapCount: nat, via: Halfway, l: TaskMmap.Layout, lim: Limits, a: nat, o: nat,
                           newAddr: nat, n: nat, willing: bool, err: Errno, gone: bool) {
    var dest := newAddr / PAGE;
    a + o <= TASK_SIZE ==>
      if !DestOk(a, o, newAddr, n) then err == EINVAL
      else if Hindered(s, maxMapCount, dest, dest + n) then err != OK
      else
        willing ==>
          && Cleared(s, via.mid, dest, dest + n)
          && if n < o && Hindered(via.mid, maxMapCount, a + n, a + o) then err != OK
             else
               && Trimmed(s, via.left, dest, a, o, n) && (err == OK ==> (gone <==> o > 0))
               && forall v: nat :: FirstAbove(via.left, a, v) ==>
                    err == MoveErr(via.left, maxMapCount, via.totalVm, via.dataVm, v, a, if o >= n then n else o, dest,
                                   n, l, lim)
  }

  /** mremap_to_task. On success the request q shows what page addr mapped, at the new place. */
  method MremapTo(mm: Mm, cur: Space, l: TaskMmap.Layout, addr: nat, o: nat, newAddr: nat, n: nat, lim: Limits,
                  willing: bool)
    returns (err: Errno, gone: bool, ghost q: Request, ghost via: Halfway)
    requires mm.Valid() && n > 0 && Shaped(cur) && TaskMmap.Sane(l) && n < WORD
    modifies mm
    ensures mm.Valid() && mm.drift == old(mm.drift)
    ensures err == OK ==> newAddr % PAGE == 0 && q.addr == newAddr / PAGE && q.end == q.addr + n
                          && Continues(old(mm.space.list), addr, q)
    ensures err == OK && gone ==> Moved(old(mm.space.list), mm.space.list, addr, addr + o, q)
    ensures err == OK && !gone ==> Duplicated(old(mm.space.list), mm.space.list, addr, o, n, q)
    ensures err == OK && o == 0 ==> !gone
    ensures err != OK ==> Spared(old(mm.space.list), mm.space.list, newAddr / PAGE, addr, o, n)
    ensures err != OK && addr + o <= TASK_SIZE ==>
              SourceKept(old(mm.space.list), mm.space.list, addr, if o < n then o else n)
    ensures PlacedAs(old(mm.space.list), mm.maxMapCount, via, l, lim, addr, o, newAddr, n, willing, err, gone)
    ensures !Overlaps(old(mm.space.list), newAddr / PAGE, newAddr / PAGE + n) && o <= n ==>
              via.left == old(mm.space.list)
    ensures OnBooks(via, mm.drift)
  {
    hide SourceKept, Guarded, Weight, SameView, CopiedTo, Moved, Trimmed, Spared, Continues, Duplicated, InOrder, Ids,
      ConsistentBut, Files, FirstAbove, MoveErr, Overlaps, Hindered, TrimmedAs, Cleared, PlacedAs, OnBooks;
    err, gone, q := EINVAL, true, NO_REQUEST;
    ghost var s := mm.space.list;
    via := Halfway(s, s, mm.totalVm, mm.dataVm);
    BooksOf(mm, via);
    NoWrap(addr + o);
    var dest := newAddr / PAGE;
    Unchanged(s);
    SparedCleared(s, s, s, dest, addr, o, n);
    SourceSame(s, addr, if o < n then o else n);
    if addr + o <= TASK_SIZE ==> !DestOk(addr, o, newAddr, n) {
      BadDest(s, mm.maxMapCount, via, l, lim, addr, o, newAddr, n, willing);
    }
    if newAddr % PAGE != 0 { return; }
    if n > TASK_SIZE || dest > TASK_SIZE - n { return; }
    if Wrap(addr + o) > dest && dest + n > addr { return; }
    ghost var mid;
    err, mid := TrimForMove(mm, addr, o, dest, n, willing);
    via := Halfway(mid, mm.space.list, mm.totalVm, mm.dataVm);
    BooksOf(mm, via);
    if err != OK {
      NotPlaced(s, mm.maxMapCount, via, l, lim, addr, o, newAddr, n, willing, err);
      if addr + o <= TASK_SIZE { SparedSource(s, mm.space.list, dest, addr, o, n); }
      return;
    }
    err, gone, q := MoveTrimmed(mm, s, cur, l, addr, o, dest, n, lim, willing);
    NowPlaced(s, mm.maxMapCount, via, l, lim, addr, o, newAddr, n, willing, err, gone);
  }

  lemma {:induction false} BooksOf(mm: Mm, via: Halfway)
    requires mm.Valid() && via.left == mm.space.list && via.totalVm == mm.totalVm && via.dataVm == mm.dataVm
    ensures OnBooks(via, mm.drift)
  {
    assert mm.Stat(Total) == Weight(mm.space.list, Total) && mm.Stat(Data) == Weight(mm.space.list, Data);
  }

  lemma {:induction false} BadDest(s: seq<Vma>, maxMapCount: nat, via: Halfway, l: TaskMmap.Layout, lim: Limits, a: nat,
                                   o: nat, newAddr: nat, n: nat, willing: bool)
    requires a + o <= TASK_SIZE ==> !DestOk(a, o, newAddr, n)
    ensures PlacedAs(s, maxMapCount, via, l, lim, a, o, newAddr, n, willing, EINVAL, true)
  {
  }

  lemma {:induction false} NotPlaced(s: seq<Vma>, maxMapCount: nat, via: Halfway, l: TaskMmap.Layout, lim: Limits,
                                     a: nat, o: nat, newAddr: nat, n: nat, willing: bool, err: Errno)
    requires DestOk(a, o, newAddr, n) || a + o > TASK_SIZE
    requires TrimmedAs(s, via.mid, maxMapCount, a, o, newAddr / PAGE, n, willing, err) && err != OK
    ensures PlacedAs(s, maxMapCount, via, l, lim, a, o, newAddr, n, willing, err, true)
  {
    hide Hindered, Cleared, MoveErr, FirstAbove, Trimmed;
  }

  lemma {:induction false} NowPlaced(s: seq<Vma>, maxMapCount: nat, via: Halfway, l: TaskMmap.Layout, lim: Limits,
                                     a: nat, o: nat, newAddr: nat, n: nat, willing: bool, err: Errno, gone: bool)
    requires DestOk(a, o, newAddr, n) || a + o > TASK_SIZE
    requires TrimmedAs(s, via.mid, maxMapCount, a, o, newAddr / PAGE, n, willing, OK)
             && Trimmed(s, via.left, newAddr / PAGE, a, o, n)
    requires err == OK || willing ==>
               forall v: nat :: FirstAbove(via.left, a, v) ==>
                 err == MoveErr(via.left, maxMapCount, via.totalVm, via.dataVm, v, a, if o >= n then n else o,
                                newAddr / PAGE, n, l, lim)
    requires willing && err == OK ==> (gone <==> o > 0)
    ensures PlacedAs(s, maxMapCount, via, l, lim, a, o, newAddr, n, willing, err, gone)
  {
    hide Hindered, Cleared, MoveErr, FirstAbove, Trimmed;
  }

  /** mremap_to_task once the destination is clear and a tail is gone. Before that the list was s. */
  method MoveTrimmed(mm: Mm, ghost s: seq<Vma>, cur: Space, l: TaskMmap.Layout, addr: nat, o: nat, dest: nat, n: nat,
                     lim: Limits, willing: bool)
    returns (err: Errno, gone: bool, ghost q: Request)
    requires mm.Valid() && 0 < n < WORD && dest + n <= TASK_SIZE && Shaped(cur) && TaskMmap.Sane(l)
    requires Trimmed(s, mm.space.list, dest, addr, o, n) && Sorted(s) && LastEnd(s) <= TASK_SIZE
    requires addr + o <= TASK_SIZE ==> addr + o <= dest || dest + n <= addr
    modifies mm
    ensures mm.Valid() && mm.drift == old(mm.drift)
    ensures err == OK ==> q.addr == dest && q.end == dest + n && Continues(s, addr, q)
    ensures err == OK && gone ==> Moved(s, mm.space.list, addr, addr + o, q)
    ensures err == OK && !gone ==> Duplicated(s, mm.space.list, addr, o, n, q)
    ensures err == OK && o == 0 ==> !gone
    ensures err != OK ==> Spared(s, mm.space.list, dest, addr, o, n)
    ensures err != OK && addr + o <= TASK_SIZE ==> SourceKept(s, mm.space.list, addr, if o < n then o else n)
    ensures err == OK || willing ==>
              forall v: nat :: FirstAbove(old(mm.space.list), addr, v) ==>
                err == MoveErr(old(mm.space.list), mm.maxMapCount, old(mm.totalVm), old(mm.dataVm), v, addr,
                               if o >= n then n else o, dest, n, l, lim)
    ensures willing && err == OK ==> (gone <==> o > 0)
  {
    hide SourceKept, Guarded, Weight, SameView, CopiedTo, Moved, Trimmed, Spared, Continues, Duplicated, InOrder, Ids,
      ConsistentBut, Files, FirstAbove, MovedPgoff, MoveErr;
    ghost var m := mm.space.list;
    var o2 := if o >= n then n else o;
    ghost var v;
    err, gone, v, q := ResizeAndMove(mm, cur, l, addr, o2, dest, n, lim, willing);
    FirstOnly(m, addr, v);
    if err == OK {
      ContinuesFrom(s, m, v, dest, addr, o, n, q);
      if gone {
        EndsBelow(m, v);
        RelocatedOf(s, m, mm.space.list, addr, o, n, q);
      } else {
        SparedCopied(s, m, mm.space.list, dest, addr, o, n, q);
      }
    } else {
      if SameView(m, mm.space.list) {
        SparedTrimmed(s, m, mm.space.list, dest, addr, o, n);
      } else {
        SparedCopied(s, m, mm.space.list, dest, addr, o, n, q);
      }
      if addr + o <= TASK_SIZE { SparedSource(s, mm.space.list, dest, addr, o, n); }
    }
  }

  /** But for VM_ACCOUNT, the k pages from addr on are mapped as before. */
  ghost predicate SourceKept(s: seq<Vma>, r: seq<Vma>, addr: nat, k: nat) {
    forall p: nat {:trigger At(r, p)} :: addr <= p < addr + k ==> Alike(At(r, p), At(s, p))
  }

  lemma {:induction false} SparedSource(s: seq<Vma>, r: seq<Vma>, dest: nat, addr: nat, o: nat, n: nat)
    requires Spared(s, r, dest, addr, o, n) && addr + o <= TASK_SIZE && n <= TASK_SIZE
             && (addr + o <= dest || dest + n <= addr)
    ensures SourceKept(s, r, addr, if o < n then o else n)
  {
    hide At;
    assert Wrap(addr + n) == addr + n;
  }

  lemma {:induction false} SourceSame(s: seq<Vma>, addr: nat, k: nat)
    ensures SourceKept(s, s, addr, k)
  {
  }

  // ---------- growing in place ----------

  /** A long cut to the 32 bits of an int. */
  function Int32(x: int): int {
    (x + 0x8000_0000) % 0x1_0000_0000 - 0x8000_0000
  }

  lemma {:induction false} Int32Exact(x: nat)
    ensures Int32(x) == x <==> x < 0x8000_0000
  {
  }

  /** How growth in place by n pages puts the counters off. */
  function Regrown(d: Drift, flags: Flags, n: nat): Drift {
    Slipped(d, flags, Int32(n) - n)
  }

  /** They stay exact if and only if there are fewer than 2^31 pages. */
  lemma {:induction false} RegrownExact(d: Drift, flags: Flags, n: nat)
    ensures Regrown(d, flags, n) == d <==> n < 0x8000_0000
  {
    Int32Exact(n);
  }

  /** The pages that area v gains when it grows up to `end`. */
  function GrowthUp(v: Vma, end: nat): Request
    requires v.start <= v.end
  {
    Request(v.end, end, v.flags, v.file, v.pgoff + (v.end - v.start), v.tag)
  }

  /** Area v can grow up to `end`: nothing lies in between. */
  ghost predicate CanGrowUp(s: seq<Vma>, v: nat, end: nat) {
    v < |s| && s[v].start < s[v].end < end <= TASK_SIZE && (v + 1 < |s| ==> end <= s[v + 1].start)
  }

  /** There is room for an area to grow by 2^31 pages, which the int takes for less than nothing. */
  lemma {:induction false} GrowthMiscounts(v: Vma)
    requires v.start == 1 && v.end == 2
    ensures Sorted([v]) && CanGrowUp([v], 0, v.end + 0x8000_0000) && Int32(0x8000_0000) == -0x8000_0000
  {
  }

  lemma {:induction false} GrowUpShows(s: seq<Vma>, v: nat, end: nat)
    requires Sorted(s) && CanGrowUp(s, v, end) && Sorted(s[v := s[v].(end := end)])
    ensures Overlaid(s, s[v := s[v].(end := end)], GrowthUp(s[v], end))
  {
    hide At;
    var w, q := s[v].(end := end), GrowthUp(s[v], end);
    var r := s[v := w];
    assert s[v..v + 1] == [s[v]] && r == s[..v] + [w] + s[v + 1..];
    forall p: nat ensures Shows(s, r, q, p) {
      OneForOne(s[v], w, q, p);
      Lift(s, v, v + 1, [w], q, p);
    }
  }

  lemma {:induction false} GrowUpSums(s: seq<Vma>, r: seq<Vma>, v: nat, end: nat)
    requires Sorted(s) && Sorted(r) && LastEnd(s) <= TASK_SIZE && LastEnd(r) <= TASK_SIZE && CanGrowUp(s, v, end)
    requires Overlaid(s, r, GrowthUp(s[v], end))
    ensures forall c: Class {:trigger Weight(r, c)} :: Weight(r, c) == Weight(s, c)
                                                       + if InClass(s[v].flags, c) then end - s[v].end else 0
  {
    hide At, Overlaid, Weight, Vacant, InClass;
    HoleVacant(s, v + 1, s[v].end, end);
    forall c: Class ensures Weight(r, c) == Weight(s, c) + if InClass(s[v].flags, c) then end - s[v].end else 0 {
      WeightOverlaid(s, r, GrowthUp(s[v], end), c);
    }
  }

  /** vma_expandable and the growth in place. The page count goes through an int. */
  method GrowInPlace(mm: Mm, cur: Space, l: TaskMmap.Layout, v: nat, end: nat, charge: nat, willing: bool)
    returns (tried: bool, ok: bool)
    requires v < |mm.space.list| && mm.space.list[v].end < end && Shaped(cur) && TaskMmap.Sane(l)
    requires mm.Ahead(charge) && charge == if VmAccount in mm.space.list[v].flags then end - mm.space.list[v].end else 0
    modifies mm
    ensures !tried ==> !ok && mm.space == old(mm.space)
    ensures !ok ==> mm.space.list == old(mm.space.list) && mm.Ahead(charge) && mm.drift == old(mm.drift)
    ensures ok ==> CanGrowUp(old(mm.space.list), v, end)
                   && Overlaid(old(mm.space.list), mm.space.list, GrowthUp(old(mm.space.list)[v], end))
    ensures ok ==> end - old(mm.space.list)[v].start + l.minAddr <= TASK_SIZE
    ensures willing && CanGrowUp(old(mm.space.list), v, end) ==>
              ok || end - old(mm.space.list)[v].start + l.minAddr > TASK_SIZE
    ensures willing && !ok ==> !tried
    ensures ok ==> mm.Valid() && mm.drift == Regrown(old(mm.drift), old(mm.space.list)[v].flags,
                                                     end - old(mm.space.list)[v].end)
  {
    hide InOrder, ConsistentBut, Files, Ids, Overlaid, Weight, Guarded, LastEnd, Proper, DistinctIds, Int32;
    tried, ok := false, false;
    var vma := mm.space.list[v];
    ghost var s := mm.space.list;
    if v + 1 < |mm.space.list| && mm.space.list[v + 1].start < end { return; }
    var refused, at := TaskMmap.GetUnmappedArea(cur, vma.start * PAGE, end - vma.start, true, l, willing);
    if refused != OK { return; }
    tried := true;
    var sp;
    ok, sp := VmaAdjust(mm.space, v, vma.start, end, vma.pgoff, -1, willing, Resize);
    mm.space := sp;
    if ok {
      GrowUpShows(s, v, end);
      GrowUpSums(s, mm.space.list, v, end);
      GuardedAreas(s, mm.writable, v);
      GuardedOverlaid(s, mm.space.list, GrowthUp(vma, end), mm.writable);
      assert forall c: Class {:trigger mm.Stat(c)} :: mm.Stat(c) == old(mm.Stat(c));
      CountGrowth(mm, vma.flags, end - vma.end);
    }
  }

  /** vm_stat_account for growth in place by n pages, which are charged already. */
  method CountGrowth(mm: Mm, flags: Flags, n: nat)
    requires Shaped(mm.space) && Guarded(mm.space.list, mm.writable)
    requires forall c: Class {:trigger mm.Stat(c)} ::
               mm.Stat(c) == Weight(mm.space.list, c) - if c != Account && InClass(flags, c) then n else 0
    modifies mm
    ensures mm.Valid() && mm.space == old(mm.space) && mm.drift == Regrown(old(mm.drift), flags, n)
  {
    hide Shaped, Guarded, Weight, Int32, InClass;
    mm.VmStatAccount(flags, Int32(n));
    label counted:
    mm.drift := Regrown(mm.drift, flags, n);
    forall c: Class ensures mm.Stat(c) == Weight(mm.space.list, c) {
      SlippedOf(old(mm.drift), flags, Int32(n) - n, c);
      assert old@counted(mm.Stat(c)) == old(mm.Stat(c)) + if c != Account && InClass(flags, c) then Int32(n) else 0;
      assert mm.Counter(c) == old@counted(mm.Counter(c));
    }
  }

  // ---------- mremap_task ----------

  /** What mremap did: nothing, dropped a tail, grew in place by q, or moved to q; `gone` tells whether
      the old range is unmapped. */
  datatype Deed = Nothing | Shrunk | InPlace(q: Request) | MovedTo(q: Request, gone: bool)

  /** The pages gained in place map what follows the first o pages from addr. */
  ghost predicate RunsOn(s: seq<Vma>, addr: nat, o: nat, q: Request) {
    && At(s, addr).Some? && q.file == At(s, addr).value.file && Clean(q.flags) == At(s, addr).value.flags
    && q.addr == addr + o && q.pgoff == At(s, addr).value.off + o
  }

  lemma {:induction false} RunsOnFrom(s: seq<Vma>, v: nat, addr: nat, o: nat, end: nat)
    requires Sorted(s) && v < |s| && s[v].start <= addr < s[v].end && addr + o == s[v].end
    ensures RunsOn(s, addr, o, GrowthUp(s[v], end))
  {
    hide At, Clean;
    AtIndex(s, v, addr);
  }

  lemma {:induction false} ContinuesHere(s: seq<Vma>, v: nat, addr: nat, q: Request)
    requires Sorted(s) && v < |s| && s[v].start <= addr < s[v].end
    requires q.file == s[v].file && q.flags == s[v].flags
             && (q.file.Some? ==> q.pgoff == s[v].pgoff + (addr - s[v].start))
    ensures Continues(s, addr, q)
  {
    hide At, Clean;
    AtIndex(s, v, addr);
  }

  lemma {:induction false} SourceOf(s: seq<Vma>, r: seq<Vma>, addr: nat, k: nat)
    requires SameView(s, r)
    ensures SourceKept(s, r, addr, k)
  {
  }

  lemma {:induction false} SourceCopied(s: seq<Vma>, r: seq<Vma>, addr: nat, o: nat, n: nat, q: Request)
    requires CopiedTo(s, r, q) && o <= n
    ensures Duplicated(s, r, addr, o, n, q)
    ensures addr + o <= q.addr || q.end <= addr ==> SourceKept(s, r, addr, o)
  {
    hide At, Wrap;
    forall p: nat ensures Alike(At(r, p), if q.addr <= p < q.end then Some(Wanted(q, p)) else At(s, p)) { }
  }

  /** What a growing mremap did. */
  ghost predicate Grown(s: seq<Vma>, r: seq<Vma>, addr: nat, o: nat, n: nat, err: Errno, deed: Deed) {
    match deed
    case Nothing => err != OK && SourceKept(s, r, addr, o)
    case Shrunk => false
    case InPlace(q) => err == OK && RunsOn(s, addr, o, q) && q.end == addr + n && Overlaid(s, r, q)
    case MovedTo(q, gone) =>
      && err == OK && Continues(s, addr, q) && q.end == q.addr + n
      && (if gone then o > 0 && Moved(s, r, addr, addr + o, q) else Duplicated(s, r, addr, o, n, q))
  }

  /** What growth by n pages has put the counters off by, if it was in place. */
  function DriftAfter(d: Drift, deed: Deed, n: int): Drift {
    if deed.InPlace? && n >= 0 then Regrown(d, deed.q.flags, n) else d
  }

  /** The source ends with its area, there is room behind it, and the area as a whole would fit anywhere. */
  ghost predicate GrowsHere(s: seq<Vma>, v: nat, a: nat, o: nat, n: nat, l: TaskMmap.Layout) {
    v < |s| && a + o == s[v].end && CanGrowUp(s, v, a + n) && a + n - s[v].start + l.minAddr <= TASK_SIZE
  }

  /** Why n pages cannot be had from a on or elsewhere. */
  ghost function GrowErr(s: seq<Vma>, maxMapCount: nat, cur: seq<Vma>, l: TaskMmap.Layout, v: nat, a: nat, o: nat,
                         n: nat, mayMove: bool): Errno {
    if GrowsHere(s, v, a, o, n, l) then OK
    else if mayMove && |s| + 3 < maxMapCount && exists at: nat :: Obtainable(s, cur, n, l, at) then OK
    else ENOMEM
  }

  /** The growing part of mremap_task after vma_to_resize_task: in place or by moving. */
  method GrowOrMove(mm: Mm, cur: Space, l: TaskMmap.Layout, v: nat, addr: nat, o: nat, n: nat, charge: nat,
                    mayMove: bool, willing: bool)
    returns (err: Errno, at: nat, ghost deed: Deed)
    requires o < n && v < |mm.space.list| && mm.space.list[v].start <= addr < mm.space.list[v].end
             && addr + o <= mm.space.list[v].end && VmHugeTlb !in mm.space.list[v].flags
    requires mm.Ahead(charge) && charge == if VmAccount in mm.space.list[v].flags then n - o else 0
    requires Shaped(cur) && TaskMmap.Sane(l)
    modifies mm
    ensures mm.Valid() && mm.drift == DriftAfter(old(mm.drift), deed, n - o)
    ensures Grown(old(mm.space.list), mm.space.list, addr, o, n, err, deed)
    ensures deed.InPlace? ==> at == addr
    ensures deed.MovedTo? ==> mayMove && deed.q.addr == at && Obtainable(old(mm.space.list), cur.list, n, l, at)
                              && deed.q.pgoff == MovedPgoff(old(mm.space), v, addr, at)
    ensures err == OK || willing ==> err == GrowErr(old(mm.space.list), mm.maxMapCount, cur.list, l, v, addr, o, n,
                                                    mayMove)
    ensures willing ==> (deed.InPlace? <==> GrowsHere(old(mm.space.list), v, addr, o, n, l))
    ensures willing && deed.MovedTo? ==> (deed.gone <==> o > 0)
  {
    hide Obtainable, TaskMmap.Chosen, Overlaps, InOrder, ConsistentBut, Files, Ids, Guarded, Weight, SameView, CopiedTo,
      Moved, Continues, Duplicated, SourceKept, Overlaid, RunsOn, LastEnd, Regrown, MovedPgoff;
    err, at, deed := ENOMEM, addr, Nothing;
    ghost var s := mm.space.list;
    SourceSame(s, addr, o);
    if o == mm.space.list[v].end - addr {
      var tried, ok := GrowInPlace(mm, cur, l, v, addr + n, charge, willing);
      if ok {
        RunsOnFrom(s, v, addr, o, addr + n);
        err, deed := OK, InPlace(GrowthUp(s[v], addr + n));
        return;
      }
      if tried {
        Refund(mm, charge);
        return;
      }
    }
    if !mayMove {
      Refund(mm, charge);
      return;
    }
    err, at := TaskMmap.GetUnmappedArea(cur, 0, n, false, l, willing);
    PlaceFound(s, cur.list, n, l, err, at);
    if err != OK {
      Refund(mm, charge);
      return;
    }
    var gone;
    ghost var q;
    err, gone, q := MoveOrRefund(mm, v, addr, o, at, n, charge, willing);
    MoveOutcome(s, mm.space.list, v, addr, o, n, q, err, gone);
    if err == OK { deed := MovedTo(q, gone); }
  }

  /** What the search for a place says about where the task can be moved. */
  lemma {:induction false} PlaceFound(s: seq<Vma>, cur: seq<Vma>, n: nat, l: TaskMmap.Layout, err: Errno, at: nat)
    ensures err == OK && TaskMmap.Chosen(cur, 0, n, l) == Some(at) ==>
              && (Obtainable(s, cur, n, l, at) <==> !Overlaps(s, at, at + n))
              && forall b: nat :: Obtainable(s, cur, n, l, b) ==> b == at
    ensures TaskMmap.PlaceErr(cur, 0, n, false, l) != OK ==>
              TaskMmap.PlaceErr(cur, 0, n, false, l) == ENOMEM && forall b: nat :: !Obtainable(s, cur, n, l, b)
  {
  }

  /** The place that a search of the caller's list finds for n pages is free in the task's. */
  ghost predicate Obtainable(s: seq<Vma>, cur: seq<Vma>, n: nat, l: TaskMmap.Layout, at: nat) {
    TaskMmap.Chosen(cur, 0, n, l) == Some(at) && !Overlaps(s, at, at + n)
  }

  /** In its own address space a task is always given a place that is free. */
  lemma {:induction false} OwnObtainable(s: seq<Vma>, n: nat, l: TaskMmap.Layout)
    requires Sorted(s) && TaskMmap.Sane(l) && 0 < n && TaskMmap.Chosen(s, 0, n, l).Some?
    ensures var at := TaskMmap.Chosen(s, 0, n, l).value; at >= 0 && Obtainable(s, s, n, l, at)
  {
    TaskMmap.ChosenFree(s, 0, n, l);
  }

  /** In another it need not be: a caller with nothing mapped is given page 98 for two pages, and the task has an
      area there, so that it cannot be moved although there is room. */
  lemma {:induction false} MoveRefused(v: Vma, l: TaskMmap.Layout)
    requires v.start == 98 && v.end == 99 && l == TaskMmap.Layout(100, 50, 1, true)
    ensures TaskMmap.Sane(l) && TaskMmap.Chosen([], 0, 2, l) == Some(98) && TaskMmap.Chosen([v], 0, 2, l) == Some(96)
    ensures Sorted([v]) && forall at: nat :: !Obtainable([v], [], 2, l, at)
  {
    var info := TaskMmap.BelowBase(2, l);
    assert GapSearch.Fit([], 0, info) && GapSearch.Highest([], 0, info) == 98;
    assert !GapSearch.Fit([v], 1, info) && GapSearch.Fit([v], 0, info) && GapSearch.Highest([v], 0, info) == 96;
    assert GapSearch.ScanDown([v], 1, info) == Some(96) && GapSearch.ScanDown([v], 2, info) == Some(96);
    assert [v][0] == v && Overlaps([v], 98, 100);
  }

  lemma {:induction false} MoveOutcome(s: seq<Vma>, r: seq<Vma>, v: nat, addr: nat, o: nat, n: nat, q: Request,
                                       err: Errno, gone: bool)
    requires Sorted(s) && v < |s| && s[v].start <= addr < s[v].end && addr + o <= s[v].end && o < n
             && q.end == q.addr + n
    requires q.file == s[v].file && q.flags == s[v].flags
             && (q.file.Some? ==> q.pgoff == s[v].pgoff + (addr - s[v].start))
    requires err == OK && gone ==> Moved(s, r, addr, addr + o, q)
    requires err == OK && !gone ==> CopiedTo(s, r, q)
    requires err == OK && o == 0 ==> !gone
    requires err != OK ==> SameView(s, r) || (!gone && CopiedTo(s, r, q) && (addr + o <= q.addr || q.end <= addr))
    ensures err == OK ==> Grown(s, r, addr, o, n, err, MovedTo(q, gone))
    ensures err != OK ==> SourceKept(s, r, addr, o)
  {
    hide At;
    ContinuesHere(s, v, addr, q);
    if err == OK {
      if !gone { SourceCopied(s, r, addr, o, n, q); }
    } else if SameView(s, r) {
      SourceOf(s, r, addr, o);
    } else {
      SourceCopied(s, r, addr, o, n, q);
    }
  }

  /** What mremap makes of the o pages from a on: on success n pages, where they are or moved to page `at`; on
      failure the first of them are kept. */
  ghost predicate Remapped(s: seq<Vma>, r: seq<Vma>, a: nat, o: nat, n: nat, err: Errno, at: nat, deed: Deed) {
    && (err == OK <==> !deed.Nothing?) && (err == OK ==> at == if deed.MovedTo? then deed.q.addr else a)
    && match deed
       case Nothing => a + o <= TASK_SIZE ==> SourceKept(s, r, a, if o < n then o else n)
       case Shrunk => o >= n && if o == n then SameView(s, r) else Cleared(s, r, Wrap(a + n), Wrap(a + n) + (o - n))
       case InPlace(q) => o < n && RunsOn(s, a, o, q) && q.end == a + n && Overlaid(s, r, q)
       case MovedTo(q, gone) =>
         && Continues(s, a, q) && q.end == q.addr + n
         && if gone then o > 0 && Moved(s, r, a, a + o, q) else Duplicated(s, r, a, o, n, q)
  }

  /** When a shrinking mremap succeeds: always if the lengths are the same, else if the tail can be unmapped. */
  ghost predicate ShrunkAs(s: seq<Vma>, maxMapCount: nat, a: nat, o: nat, n: nat, willing: bool, err: Errno) {
    && (o == n ==> err == OK)
    && (n < o && a + o <= TASK_SIZE && err == OK ==> !Hindered(s, maxMapCount, a + n, a + o))
    && (n < o && a + o <= TASK_SIZE && willing && !Hindered(s, maxMapCount, a + n, a + o) ==> err == OK)
  }

  /** When a growing mremap succeeds, and that it grows in place wherever it can. */
  ghost predicate GrownAs(sp: Space, maxMapCount: nat, totalVm: int, dataVm: int, cur: seq<Vma>, l: TaskMmap.Layout,
                          lim: Limits, a: nat, o: nat, n: nat, mayMove: bool, willing: bool, err: Errno, at: nat,
                          deed: Deed) {
    forall v: nat :: FirstAbove(sp.list, a, v) ==>
      var e := ResizeErr(sp.list, totalVm, dataVm, v, a, o, n, lim);
      && (err == OK || willing ==> err == if e != OK then e
                                          else GrowErr(sp.list, maxMapCount, cur, l, v, a, o, n, mayMove))
      && (willing && e == OK ==> (deed.InPlace? <==> GrowsHere(sp.list, v, a, o, n, l)))
      && (deed.MovedTo? && v < |sp.list| ==> deed.q.pgoff == MovedPgoff(sp, v, a, at))
      && (willing && deed.MovedTo? ==> (deed.gone <==> o > 0))
  }

  /** mremap_task. Lengths are rounded up to o and n pages, addr is page a. */
  method MremapTask(mm: Mm, cur: Space, l: TaskMmap.Layout, addr: nat, oldLen: nat, newLen: nat, fixed: bool,
                    mayMove: bool, otherFlags: bool, newAddr: nat, lim: Limits, willing: bool)
    returns (err: Errno, at: nat, ghost deed: Deed, ghost via: Halfway)
    requires mm.Valid() && addr < WORD && oldLen < WORD && newLen < WORD && newAddr < WORD
    requires Shaped(cur) && TaskMmap.Sane(l)
    modifies mm
    ensures mm.Valid() && mm.drift == DriftAfter(old(mm.drift), deed,
                                                 PageAlign(newLen) / PAGE - PageAlign(oldLen) / PAGE)
    ensures Remapped(old(mm.space.list), mm.space.list, addr / PAGE, PageAlign(oldLen) / PAGE, PageAlign(newLen) / PAGE,
                     err, at, deed)
    ensures err == OK ==> addr % PAGE == 0
    ensures deed.MovedTo? ==> mayMove
    ensures deed.MovedTo? && fixed ==> at == newAddr / PAGE
    ensures deed.MovedTo? && !fixed ==> Obtainable(old(mm.space.list), cur.list, PageAlign(newLen) / PAGE, l, at)
    ensures otherFlags || (fixed && !mayMove) || addr % PAGE != 0 || newLen == 0 || newLen > WORD - PAGE ==>
              err == EINVAL && mm.space == old(mm.space)
    ensures var a, o, n := addr / PAGE, PageAlign(oldLen) / PAGE, PageAlign(newLen) / PAGE;
            !otherFlags && (fixed ==> mayMove) && addr % PAGE == 0 && 0 < newLen <= WORD - PAGE ==>
              if fixed then
                && PlacedAs(old(mm.space.list), mm.maxMapCount, via, l, lim, a, o, newAddr, n, willing, err,
                            deed.MovedTo? && deed.gone)
                && OnBooks(via, old(mm.drift))
                && (!Overlaps(old(mm.space.list), newAddr / PAGE, newAddr / PAGE + n) && o <= n ==>
                      via.left == old(mm.space.list))
              else if o >= n then ShrunkAs(old(mm.space.list), mm.maxMapCount, a, o, n, willing, err)
              else GrownAs(old(mm.space), mm.maxMapCount, old(mm.totalVm), old(mm.dataVm), cur.list, l, lim, a, o, n,
                           mayMove, willing, err, at, deed)
  {
    hide Shaped, Guarded, Weight, SameView, Cleared, CopiedTo, Moved, Continues, Duplicated, SourceKept, Overlaid,
      RunsOn, Spared, PageAlign, Wrap, Regrown, Obtainable, Hindered, Overlaps, FirstAbove, MovedPgoff, DestOk, OnBooks;
    err, at, deed, via := EINVAL, addr / PAGE, Nothing, Halfway(mm.space.list, mm.space.list, mm.totalVm, mm.dataVm);
    var a, o, n := addr / PAGE, PageAlign(oldLen) / PAGE, PageAlign(newLen) / PAGE;
    ghost var s := mm.space.list;
    Unchanged(s);
    SourceSame(s, a, if o < n then o else n);
    PagesOfLength(newLen);
    NoWrap(a + n);
    if otherFlags || (fixed && !mayMove) || addr % PAGE != 0 || n == 0 { return; }
    if fixed {
      var gone;
      ghost var q;
      err, gone, q, via := MremapTo(mm, cur, l, a, o, newAddr, n, lim, willing);
      at := newAddr / PAGE;
      if err == OK { deed := MovedTo(q, gone); }
    } else if o >= n {
      err := mm.UnmapPages(Wrap(a + n), o - n, willing);
      if err != OK && o != n {
        SourceOf(s, mm.space.list, a, n);
        return;
      }
      err, deed := OK, Shrunk;
    } else {
      var v, charge;
      err, v, charge := VmaToResize(mm, a, o, n, lim, willing);
      FirstOnly(s, a, v);
      if err != OK { return; }
      assert forall c: Class {:trigger mm.Stat(c)} ::
          mm.Stat(c) == old(mm.Stat(c)) + if c == Account then charge else 0;
      err, at, deed := GrowOrMove(mm, cur, l, v, a, o, n, charge, mayMove, willing);
    }
  }

  lemma {:induction false} NoWrap(x: nat)
    ensures x <= TASK_SIZE ==> Wrap(x) == x
  {
  }

  lemma {:induction false} PagesOfLength(len: nat)
    requires len < WORD
    ensures PageAlign(len) / PAGE < SPACE && (PageAlign(len) / PAGE == 0 <==> len == 0 || len > WORD - PAGE)
  {
    AlignExactly(len);
  }
}
