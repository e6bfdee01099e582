/** Single edits of the areas and what they do to the page view: a new area in a hole, new flags
    on one area, a request laid over free pages. */
module Edits {
  import opened VmFlags
  import opened Areas
  import opened GapTree
  import opened VmaIndex
  import opened Adjust
  import opened Merge
  import opened Munmap
  import opened PageCount

  // ---------- a new area ----------

  /** get_file for an area under construction, and fput when it comes to nothing. */
  function GetFile(sp: Space, file: Option<FileId>): Space {
    sp.(held := sp.held + RefOf(file))
  }

  function PutFile(sp: Space, file: Option<FileId>): Space {
    sp.(held := sp.held - RefOf(file))
  }

  /** In shape but for a reference to the file that no area stands for yet. */
  ghost predicate Taken(sp: Space, file: Option<FileId>) {
    Shaped(PutFile(sp, file)) && RefOf(file) <= sp.held
  }

  lemma {:induction false} GetTaken(sp: Space, file: Option<FileId>)
    requires Shaped(sp)
    ensures Taken(GetFile(sp, file), file) && PutFile(GetFile(sp, file), file) == sp
  {
    assert sp.held + RefOf(file) - RefOf(file) == sp.held;
  }

  /** Link a new struct for the area, whose file reference was taken. */
  method LinkNew(sp: Space, q: Request, anon: nat, prev: int, link: nat, parent: int) returns (r: Space)
    requires Taken(sp, q.file) && q.addr < q.end <= TASK_SIZE
    requires link == prev + 1 && Fits(sp.list, link, q.addr, q.end)
    requires prev == -1 ==> parent == if sp.list == [] then -1 else 0
    ensures Shaped(r) && r.nextId == sp.nextId + 1
    ensures r.list == sp.list[..link] + [AreaOf(q, sp.nextId)] + sp.list[link..]
  {
    hide Files, InOrder, Ids;
    var v := AreaOf(q, sp.nextId);
    var got := sp.(nextId := sp.nextId + 1, anon := sp.anon[v.id := anon]);
    assert sp.held == Files(sp.list) + RefOf(q.file);
    Loosen(PutFile(sp, q.file), link);
    r := VmaLink(got, v, prev, link, parent);
  }

  function AreaOf(q: Request, id: nat): Vma {
    Vma(id, q.addr, q.end, q.pgoff, q.flags, q.file, q.tag)
  }

  lemma {:induction false} InsertView(s: seq<Vma>, k: nat, v: Vma, p: nat)
    requires k <= |s| && Sorted(s) && Sorted(s[..k] + [v] + s[k..])
    ensures At(s[..k] + [v] + s[k..], p) == if v.start <= p < v.end then Some(CellOf(v, p)) else At(s, p)
  {
    LocalView(s, k, k, [v], p);
    AtPair(v, v, p);
    assert s[k..k] == [];
  }

  /** Linking a new area lays its request over the page view. */
  lemma {:induction false} InsertOverlaid(s: seq<Vma>, k: nat, q: Request, id: nat)
    requires k <= |s| && Sorted(s) && Sorted(s[..k] + [AreaOf(q, id)] + s[k..])
    ensures Overlaid(s, s[..k] + [AreaOf(q, id)] + s[k..], q)
  {
    forall p: nat ensures Shows(s, s[..k] + [AreaOf(q, id)] + s[k..], q, p) { InsertView(s, k, AreaOf(q, id), p); }
  }

  // ---------- new flags on one area ----------

  function SetFlags(sp: Space, i: nat, f: Flags): Space
    requires i < |sp.list|
  {
    sp.(list := sp.list[i := sp.list[i].(flags := f)])
  }

  lemma {:induction false} SetFlagsShape(sp: Space, i: nat, f: Flags)
    requires Shaped(sp) && i < |sp.list|
    ensures Shaped(SetFlags(sp, i, f))
  {
    hide Files, InOrder, Ids;
    var s, w := sp.list, sp.list[i].(flags := f);
    var r := s[i := w];
    FilesUpdate(s, i, w);
    FlagsOrdered(s, sp.tree, sp.nextId, i, f);
  }

  lemma {:induction false} FlagsOrdered(s: seq<Vma>, t: Tree, nextId: nat, i: nat, f: Flags)
    requires Ordered(s, t, nextId) && Consistent(t, s) && i < |s|
    ensures Ordered(s[i := s[i].(flags := f)], t, nextId) && Consistent(t, s[i := s[i].(flags := f)])
  {
    hide InOrder, ConsistentBut;
    var r := s[i := s[i].(flags := f)];
    assert forall j :: 0 <= j < |s| ==> r[j].id == s[j].id && r[j].start == s[j].start && r[j].end == s[j].end;
    forall j {:trigger GapAt(r, j)} | 0 <= j < |s| ensures GapAt(r, j) == GapAt(s, j) {
      WriteGap(s, i, s[i].(flags := f), j);
    }
    GapsKept(t, s, r, None);
    assert Ids(r) == Ids(s);
  }

  /** The pages of area i get the flags, no other page changes. */
  lemma {:induction false} SetFlagsView(s: seq<Vma>, i: nat, f: Flags, p: nat)
    requires Sorted(s) && i < |s|
    ensures At(s[i := s[i].(flags := f)], p) ==
            if s[i].start <= p < s[i].end then Some(CellOf(s[i], p).(flags := Clean(f))) else At(s, p)
  {
    hide At;
    var w := s[i].(flags := f);
    var r := s[i := w];
    assert r == s[..i] + [w] + s[i + 1..] && s[i..i + 1] == [s[i]];
    assert forall j :: 0 <= j < |s| ==> r[j].start == s[j].start && r[j].end == s[j].end;
    LocalView(s, i, i + 1, [w], p);
    AtPair(w, w, p);
    AtPair(s[i], w, p);
    if s[i].start <= p < s[i].end { AtIndex(s, i, p); }
  }

  lemma {:induction false} CleanDirty(f: Flags)
    ensures Clean(f + {VmSoftDirty}) == Clean(f)
  {
  }

  lemma {:induction false} SoftDirtyAt(s: seq<Vma>, i: nat, f: Flags, p: nat)
    requires Sorted(s) && i < |s| && Clean(f) == Clean(s[i].flags)
    ensures At(s[i := s[i].(flags := f)], p) == At(s, p)
  {
    hide At, Clean;
    SetFlagsView(s, i, f, p);
    if s[i].start <= p < s[i].end { AtIndex(s, i, p); }
  }

  /** Marking an area soft-dirty shows nowhere. */
  lemma {:induction false} SoftDirtyView(s: seq<Vma>, i: nat, f: Flags)
    requires Sorted(s) && i < |s| && f == s[i].flags + {VmSoftDirty}
    ensures SameView(s, s[i := s[i].(flags := f)])
  {
    CleanDirty(s[i].flags);
    hide At, Clean, Sorted;
    forall p: nat ensures At(s[i := s[i].(flags := f)], p) == At(s, p) { SoftDirtyAt(s, i, f, p); }
  }

  // ---------- page sums ----------

  /** No page of [a, b) is mapped. */
  ghost predicate Vacant(s: seq<Vma>, a: nat, b: nat) {
    forall p: nat {:trigger At(s, p)} :: a <= p < b ==> At(s, p) == None
  }

  /** Laying a request over vacant pages adds its pages to the classes of its flags. */
  lemma {:induction false} WeightOverlaid(s: seq<Vma>, r: seq<Vma>, q: Request, c: Class)
    requires Sorted(s) && Sorted(r) && LastEnd(s) <= TASK_SIZE && LastEnd(r) <= TASK_SIZE
    requires q.addr <= q.end <= TASK_SIZE && Vacant(s, q.addr, q.end) && Overlaid(s, r, q)
    ensures Weight(r, c) == Weight(s, c) + if InClass(q.flags, c) then q.end - q.addr else 0
  {
    forall p: nat ensures !(q.addr <= p < q.end) ==> At(r, p) == At(s, p) { assert Shows(s, r, q, p); }
    forall p: nat ensures q.addr <= p < q.end ==> Counts(At(r, p), c) == InClass(q.flags, c) {
      assert Shows(s, r, q, p);
    }
    CountUniform(s, c, q.addr, q.end, false);
    CountUniform(r, c, q.addr, q.end, InClass(q.flags, c));
    WeightMoves(s, r, c, q.addr, q.end);
  }

  /** Page sums depend on the view alone. */
  lemma {:induction false} WeightSame(s: seq<Vma>, r: seq<Vma>, c: Class)
    requires Sorted(s) && Sorted(r) && LastEnd(s) <= TASK_SIZE && LastEnd(r) <= TASK_SIZE && SameView(s, r)
    ensures Weight(r, c) == Weight(s, c)
  {
    WeightMoves(r, s, c, 0, 0);
  }

  // ---------- permissions ----------

  /** A cell as mmap may create it: permissions within the MAY bits, no write permission to come on
      a shared mapping of a file that is not in `writable`, shared memory always with a file, and
      no lock on areas that cannot be locked. */
  ghost predicate Proper(file: Option<FileId>, f: Flags, writable: iset<FileId>) {
    && WithinMay(f)
    && (VmMayShare in f && file.Some? && file.value !in writable ==> VmMayWrite !in f)
    && (VmShared in f ==> file.Some?)
    && (VmLocked in f ==> !Special(f) && VmHugeTlb !in f)
  }

  ghost predicate Guarded(s: seq<Vma>, writable: iset<FileId>) {
    forall p: nat {:trigger At(s, p)} :: At(s, p).Some? ==> Proper(At(s, p).value.file, At(s, p).value.flags, writable)
  }

  /** Every area of a guarded list has proper flags. */
  lemma {:induction false} GuardedAreas(s: seq<Vma>, writable: iset<FileId>, i: nat)
    requires Sorted(s) && Guarded(s, writable) && i < |s|
    ensures Proper(s[i].file, s[i].flags, writable)
  {
    AtIndex(s, i, s[i].start);
  }

  lemma {:induction false} GuardedCleared(s: seq<Vma>, r: seq<Vma>, start: nat, end: nat, writable: iset<FileId>)
    requires Guarded(s, writable) && Cleared(s, r, start, end)
    ensures Guarded(r, writable)
  {
    forall p: nat ensures At(r, p) == None || At(r, p) == At(s, p) { }
  }

  lemma {:induction false} GuardedSame(s: seq<Vma>, r: seq<Vma>, writable: iset<FileId>)
    requires Guarded(s, writable) && SameView(s, r)
    ensures Guarded(r, writable)
  {
    forall p: nat ensures At(r, p) == At(s, p) { }
  }

  lemma {:induction false} GuardedOverlaid(s: seq<Vma>, r: seq<Vma>, q: Request, writable: iset<FileId>)
    requires Guarded(s, writable) && Overlaid(s, r, q) && Proper(q.file, q.flags, writable)
    ensures Guarded(r, writable)
  {
    forall p: nat | At(r, p).Some? ensures Proper(At(r, p).value.file, At(r, p).value.flags, writable) {
      assert Shows(s, r, q, p);
    }
  }
}
