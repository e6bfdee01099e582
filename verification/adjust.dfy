/** __vma_adjust: moving the bounds of an area, absorbing or shifting its neighbours. */
module Adjust {
  import opened Areas
  import opened GapTree
  import opened VmaIndex

  /** An area with new bounds and offset. */
  function Bounds(v: Vma, start: nat, end: nat, pgoff: nat): Vma {
    v.(start := start, end := end, pgoff := pgoff)
  }

  /** The ways in which callers use __vma_adjust on an area:
      - Insert: split_vma cuts the piece `n` off below or above
      - Resize: one end grows into free space (cases 2 and 3, mremap in place)
      - Shift: the boundary with the adjacent successor moves (cases 4 and 5)
      - Absorb: the area takes over the next `n` areas (cases 1 and 7 for one, case 6 for two)
      - Swap: the successor takes over the area (case 8) */
  datatype Way = Insert(piece: Vma) | Resize | Shift | Absorb(n: nat) | Swap

  ghost predicate Allowed(s: seq<Vma>, v: nat, start: nat, end: nat, pgoff: nat, way: Way) {
    && v < |s| && start < end <= TASK_SIZE
    && match way
       case Insert(n) =>
         && n.start < n.end
         && (|| (n.start == s[v].start && n.end == start && end == s[v].end)
             || (start == s[v].start && end == n.start && n.end == s[v].end))
       case Resize =>
         && s[v].end <= end
         && (start == s[v].start) != (end == s[v].end)
         && (v > 0 ==> s[v - 1].end <= start)
         && (v + 1 < |s| ==> end <= s[v + 1].start)
       case Shift =>
         && v + 1 < |s| && start == s[v].start && pgoff == s[v].pgoff && s[v].end == s[v + 1].start
         && end < s[v + 1].end && end != s[v].end && s[v].end - end <= s[v + 1].pgoff
       case Absorb(n) =>
         && 1 <= n <= 2 && v + n < |s| && start == s[v].start && end == s[v + n].end
         && forall i :: v < i <= v + n ==> s[i].file == s[v].file
       case Swap =>
         v + 1 < |s| && start == s[v].start && end == s[v + 1].end && s[v + 1].file == s[v].file
  }

  /** The list that __vma_adjust leaves. */
  ghost function Adjusted(s: seq<Vma>, v: nat, start: nat, end: nat, pgoff: nat, way: Way): seq<Vma>
    requires Allowed(s, v, start, end, pgoff, way)
  {
    var w := Bounds(s[v], start, end, pgoff);
    match way
    case Insert(n) => s[..v] + (if n.start < start then [n, w] else [w, n]) + s[v + 1..]
    case Resize => s[v := w]
    case Shift => s[v := w][v + 1 := Bounds(s[v + 1], end, s[v + 1].end, s[v + 1].pgoff + end - s[v].end)]
    case Absorb(n) => s[..v] + [w] + s[v + n + 1..]
    case Swap => s[..v] + [Bounds(s[v + 1], start, end, pgoff)] + s[v + 2..]
  }

  /** Moving the boundary between the adjacent areas v and v + 1. */
  ghost predicate Shifts(s: seq<Vma>, v: nat, w: Vma, n: Vma) {
    && v + 1 < |s| && s[v].end == s[v + 1].start && w.end == n.start && w.start < w.end && n.start < n.end
    && w.id == s[v].id && n.id == s[v + 1].id && w.start == s[v].start && n.end == s[v + 1].end
  }

  lemma {:induction false} ShiftSorted(s: seq<Vma>, v: nat, w: Vma, n: Vma)
    requires Sorted(s) && Shifts(s, v, w, n)
    ensures Sorted(s[v := w][v + 1 := n]) && LastEnd(s[v := w][v + 1 := n]) == LastEnd(s)
    ensures forall i :: 0 <= i < |s| ==> s[v := w][v + 1 := n][i].id == s[i].id
  {
    var r := s[v := w][v + 1 := n];
    forall i, j | 0 <= i < j < |r| ensures r[i].end <= r[j].start {
      assert r[i].end <= s[i].end || i == v;
      assert s[i].end <= s[j].start;
      if i == v && j > v + 1 { assert s[v + 1].end <= s[j].start; }
    }
  }

  /** Shifting a boundary between adjacent areas moves no gap. */
  lemma {:induction false} ShiftGap(s: seq<Vma>, v: nat, w: Vma, n: Vma, i: nat)
    requires Shifts(s, v, w, n) && i < |s|
    ensures GapAt(s[v := w][v + 1 := n], i) == GapAt(s, i)
  {
  }

  lemma {:induction false} ShiftShape(sp: Space, v: nat, w: Vma, n: Vma)
    requires Shaped(sp) && Shifts(sp.list, v, w, n) && w.file == sp.list[v].file && n.file == sp.list[v + 1].file
    ensures Shaped(sp.(list := sp.list[v := w][v + 1 := n]))
  {
    var s := sp.list;
    var r := s[v := w][v + 1 := n];
    ShiftSorted(s, v, w, n);
    forall i {:trigger GapAt(r, i)} | 0 <= i < |s| ensures GapAt(r, i) == GapAt(s, i) {
      ShiftGap(s, v, w, n, i);
    }
    GapsKept(sp.tree, s, r, None);
    FilesUpdate2(s, v, w, n);
  }

  /** Moving one end of area v moves its own gap or the next one. */
  lemma {:induction false} WriteGap(s: seq<Vma>, v: nat, w: Vma, i: nat)
    requires v < |s| && i < |s|
    requires w.start == s[v].start || i != v
    requires w.end == s[v].end || i != v + 1
    ensures GapAt(s[v := w], i) == GapAt(s, i)
  {
  }

  lemma {:induction false} WriteOrdered(s: seq<Vma>, t: Tree, nextId: nat, v: nat, w: Vma, x: Option<nat>)
    requires Ordered(s, t, nextId) && Consistent(t, s) && v < |s| && w.id == s[v].id
    requires w.start < w.end <= TASK_SIZE
    requires (v > 0 ==> s[v - 1].end <= w.start) && (v + 1 < |s| ==> w.end <= s[v + 1].start)
    requires (w.start == s[v].start && x == IdAt(s, v + 1)) || (w.end == s[v].end && x == Some(s[v].id))
    ensures Ordered(s[v := w], t, nextId) && ConsistentBut(t, s[v := w], x)
  {
    hide Sorted, ConsistentBut, InOrder, GapAt;
    var r := s[v := w];
    assert forall i :: 0 <= i < |s| ==> r[i].id == s[i].id;
    forall i {:trigger GapAt(r, i)} | 0 <= i < |s| && Some(s[i].id) != x ensures GapAt(r, i) == GapAt(s, i) {
      WriteGap(s, v, w, i);
    }
    GapsKept(t, s, r, x);
    SortedWritten(s, v, w);
    assert LastEnd(r) <= TASK_SIZE;
  }

  lemma {:induction false} SortedWritten(s: seq<Vma>, v: nat, w: Vma)
    requires Sorted(s) && v < |s| && w.start < w.end
    requires (v > 0 ==> s[v - 1].end <= w.start) && (v + 1 < |s| ==> w.end <= s[v + 1].start)
    ensures Sorted(s[v := w])
  {
    var r := s[v := w];
    forall i, j | 0 <= i < j < |r| ensures r[i].end <= r[j].start {
      if j == v && i < v - 1 { assert s[i].end <= s[v - 1].start; }
      if i == v && v + 1 < j { assert s[v + 1].end <= s[j].start; }
    }
  }

  /** The list after area v has taken over the bounds of the next one. */
  lemma {:induction false} SortedAbsorbed(s: seq<Vma>, v: nat, w: Vma)
    requires Sorted(s) && DistinctIds(s) && v + 1 < |s|
    requires w.start == s[v].start && w.end == s[v + 1].end && (w.id == s[v].id || w.id == s[v + 1].id)
    ensures Sorted(s[..v] + [w] + s[v + 2..]) && DistinctIds(s[..v] + [w] + s[v + 2..])
  {
    var r := s[..v] + [w] + s[v + 2..];
    forall i, j | 0 <= i < j < |r| ensures r[i].end <= r[j].start && r[i].id != r[j].id {
      assert i != v ==> r[i] == s[if i < v then i else i + 1];
      assert j != v ==> r[j] == s[if j < v then j else j + 1];
      assert i == v ==> r[j] == s[j + 1];
    }
    assert s[v].end <= s[v + 1].start;
  }

  lemma {:induction false} AbsorbOrdered(s: seq<Vma>, t: Tree, nextId: nat, u: Tree, v: nat, w: Vma)
    requires Ordered(s, t, nextId) && v + 1 < |s|
    requires w.start == s[v].start && w.end == s[v + 1].end && (w.id == s[v].id || w.id == s[v + 1].id)
    requires InOrder(u) == Ids(s[..v] + [w] + s[v + 2..])
    ensures Ordered(s[..v] + [w] + s[v + 2..], u, nextId)
    ensures LastEnd(s[..v] + [w] + s[v + 2..]) == LastEnd(s)
  {
    var r := s[..v] + [w] + s[v + 2..];
    SortedAbsorbed(s, v, w);
    forall i | 0 <= i < |r| ensures r[i].id < nextId {
      assert i != v ==> r[i] == s[if i < v then i else i + 1];
    }
    assert r[|r| - 1] == if v + 2 < |s| then s[|s| - 1] else w;
  }

  /** Only the gap in front of area v + 1 depends on the end of area v. */
  lemma {:induction false} WriteEnd(s: seq<Vma>, t: Tree, v: nat, w: Vma)
    requires InOrder(t) == Ids(s) && DistinctIds(s) && ConsistentBut(t, s, IdAt(s, v + 1))
    requires v < |s| && w.id == s[v].id && w.start == s[v].start
    ensures InOrder(t) == Ids(s[v := w]) && DistinctIds(s[v := w])
    ensures ConsistentBut(t, s[v := w], IdAt(s, v + 1))
  {
    var r := s[v := w];
    assert forall i :: 0 <= i < |s| ==> r[i].id == s[i].id;
    assert Ids(r) == Ids(s);
    forall id: nat | Has(t, id) && Some(id) != IdAt(s, v + 1) ensures Own(r, id) == Own(s, id) {
      HasIndex(t, s, id);
      var i :| 0 <= i < |s| && s[i].id == id;
      OwnAt(r, i);
      OwnAt(s, i);
      WriteGap(s, v, w, i);
    }
    Transfer(t, s, IdAt(s, v + 1), r, IdAt(s, v + 1));
  }

  /** Writing area v and dropping the next one is one splice, and drops one file reference. */
  lemma {:induction false} DropNext(s: seq<Vma>, v: nat, w: Vma)
    requires v + 1 < |s| && w.file == s[v].file
    ensures Drop(s[v := w], v + 1) == s[..v] + [w] + s[v + 2..]
    ensures Files(s) == Files(s[..v] + [w] + s[v + 2..]) + FileOf(s[v + 1])
  {
    var r := s[v := w];
    assert r[..v + 1] + r[v + 2..] == s[..v] + [w] + s[v + 2..];
    FilesUpdate(s, v, w);
    FilesRemove(r, v + 1);
  }

  /** One removing pass: area v takes over the next one, which leaves the list and the tree, and a
      reference to the file of v is dropped. The gap after v is left for the caller to update. */
  function AbsorbNext(sp: Space, v: nat, w: Vma, turns: seq<Turn>): Space
    requires v + 1 < |sp.list|
  {
    var s := sp.list[v := w];
    sp.(list := Drop(s, v + 1), tree := Unlinked(sp.tree, s, v + 1, turns), mapCount := sp.mapCount - 1,
        held := sp.held - FileOf(w))
  }

  lemma {:induction false} AbsorbNextShape(sp: Space, v: nat, w: Vma, turns: seq<Turn>)
    requires v + 1 < |sp.list| && ShapedBut(sp, IdAt(sp.list, v + 1))
    requires w.start == sp.list[v].start && w.end == sp.list[v + 1].end && w.id == sp.list[v].id
    requires w.file == sp.list[v].file == sp.list[v + 1].file
    ensures var r := AbsorbNext(sp, v, w, turns);
            r.list == sp.list[..v] + [w] + sp.list[v + 2..] && ShapedBut(r, IdAt(r.list, v + 1))
  {
    hide InOrder, Ids, FilesOf;
    var s, t := sp.list, sp.tree;
    WriteEnd(s, t, v, w);
    UnlinkResult(t, s[v := w], v + 1, turns, Some(s[v + 1].id));
    DropNext(s, v, w);
    AbsorbOrdered(s, t, sp.nextId, Unlinked(t, s[v := w], v + 1, turns), v, w);
  }

  /** Only its own gap depends on the start of area v. */
  lemma {:induction false} WriteStart(s: seq<Vma>, t: Tree, v: nat, w: Vma)
    requires InOrder(t) == Ids(s) && DistinctIds(s) && Consistent(t, s)
    requires v < |s| && w.id == s[v].id && w.end == s[v].end
    ensures InOrder(t) == Ids(s[v := w]) && DistinctIds(s[v := w])
    ensures ConsistentBut(t, s[v := w], Some(s[v].id))
  {
    var r := s[v := w];
    assert forall i :: 0 <= i < |s| ==> r[i].id == s[i].id;
    forall i {:trigger GapAt(r, i)} | 0 <= i < |s| && Some(s[i].id) != Some(s[v].id)
      ensures GapAt(r, i) == GapAt(s, i) {
      WriteGap(s, v, w, i);
    }
    GapsKept(t, s, r, Some(s[v].id));
  }

  lemma {:induction false} DropThis(s: seq<Vma>, v: nat, w: Vma)
    requires v + 1 < |s| && w.file == s[v + 1].file
    ensures Drop(s[v + 1 := w], v) == s[..v] + [w] + s[v + 2..]
    ensures Files(s) == Files(s[..v] + [w] + s[v + 2..]) + FileOf(s[v])
  {
    var r := s[v + 1 := w];
    assert r[..v] + r[v + 1..] == s[..v] + [w] + s[v + 2..];
    FilesUpdate(s, v + 1, w);
    FilesRemove(r, v);
  }

  /** The removing pass of case 8: area v + 1 takes over area v, which leaves, and its gap is updated. */
  function AbsorbPrev(sp: Space, v: nat, w: Vma, turns: seq<Turn>): Space
    requires v + 1 < |sp.list|
  {
    var s := sp.list[v + 1 := w];
    var r := Drop(s, v);
    sp.(list := r, tree := Update(Unlinked(sp.tree, s, v, turns), w.id, r), mapCount := sp.mapCount - 1,
        held := sp.held - FileOf(sp.list[v]))
  }

  lemma {:induction false} AbsorbPrevShape(sp: Space, v: nat, w: Vma, turns: seq<Turn>)
    requires v + 1 < |sp.list| && Shaped(sp)
    requires w.start == sp.list[v].start && w.end == sp.list[v + 1].end && w.id == sp.list[v + 1].id
    requires w.file == sp.list[v + 1].file
    ensures var r := AbsorbPrev(sp, v, w, turns);
            r.list == sp.list[..v] + [w] + sp.list[v + 2..] && Shaped(r)
  {
    var s, t := sp.list, sp.tree;
    var u := Unlinked(t, s[v + 1 := w], v, turns);
    WriteStart(s, t, v + 1, w);
    UnlinkResult(t, s[v + 1 := w], v, turns, Some(w.id));
    DropThis(s, v, w);
    AbsorbOrdered(s, t, sp.nextId, u, v, w);
    var r := Drop(s[v + 1 := w], v);
    assert r[v] == w;
    UpdateShape(sp.(list := r, tree := u, mapCount := sp.mapCount - 1, held := sp.held - FileOf(s[v])), v);
  }

  /** Growing one end of area v into free space, with the gap behind the moved end updated. */
  function ResizeArea(sp: Space, v: nat, w: Vma): Space
    requires v < |sp.list|
  {
    var s := sp.list[v := w];
    if w.start != sp.list[v].start then sp.(list := s, tree := Update(sp.tree, w.id, s))
    else if v + 1 < |s| then sp.(list := s, tree := Update(sp.tree, s[v + 1].id, s))
    else sp.(list := s, highest := w.end)
  }

  lemma {:induction false} ResizeShape(sp: Space, v: nat, w: Vma)
    requires Shaped(sp) && Allowed(sp.list, v, w.start, w.end, w.pgoff, Resize)
    requires w.id == sp.list[v].id && w.file == sp.list[v].file
    ensures Shaped(ResizeArea(sp, v, w))
  {
    var r := sp.list[v := w];
    FilesUpdate(sp.list, v, w);
    if w.start != sp.list[v].start {
      WriteOrdered(sp.list, sp.tree, sp.nextId, v, w, Some(sp.list[v].id));
      UpdateShape(sp.(list := r), v);
    } else {
      WriteOrdered(sp.list, sp.tree, sp.nextId, v, w, IdAt(sp.list, v + 1));
      if v + 1 < |r| { UpdateShape(sp.(list := r), v + 1); }
    }
  }

  /** The list of split_vma before the piece is linked: ordered, stale only where the piece goes. */
  lemma {:induction false} CutOrdered(s: seq<Vma>, t: Tree, nextId: nat, v: nat, w: Vma, piece: Vma)
    requires Ordered(s, t, nextId) && Consistent(t, s)
    requires Allowed(s, v, w.start, w.end, w.pgoff, Insert(piece)) && w.id == s[v].id
    ensures var k := if piece.start < w.start then v else v + 1;
            && Ordered(s[v := w], t, nextId) && ConsistentBut(t, s[v := w], IdAt(s[v := w], k))
            && Fits(s[v := w], k, piece.start, piece.end) && !Overlaps(s[v := w], piece.start, piece.end)
            && (k < |s| ==> LastEnd(s[v := w]) == LastEnd(s))
  {
    var r := s[v := w];
    if piece.start < w.start {
      WriteOrdered(s, t, nextId, v, w, Some(s[v].id));
      FitsAt(r, v, piece.start, piece.end);
    } else {
      WriteOrdered(s, t, nextId, v, w, IdAt(s, v + 1));
      FitsAt(r, v + 1, piece.start, piece.end);
    }
  }

  lemma {:induction false} FitsOnce(s: seq<Vma>, j: int, k: int, addr: nat, end: nat)
    requires Sorted(s) && addr < end && Fits(s, j, addr, end) && Fits(s, k, addr, end)
    ensures j == k
  {
    var n := if j < k then j else k;
    assert n < |s| ==> s[n].start < s[n].end;
  }

  lemma {:induction false} PieceIn(s: seq<Vma>, v: nat, w: Vma, piece: Vma, below: bool)
    requires v < |s|
    ensures var r, k := s[v := w], if below then v else v + 1;
            r[..k] + [piece] + r[k..] == s[..v] + (if below then [piece, w] else [w, piece]) + s[v + 1..]
  {
  }

  /** In shape, but for the file reference already taken for a piece that is about to be linked. */
  ghost predicate Ready(sp: Space, piece: Vma) {
    && Ordered(sp.list, sp.tree, sp.nextId) && Consistent(sp.tree, sp.list)
    && sp.mapCount == |sp.list| && sp.highest == LastEnd(sp.list) && sp.held == Files(sp.list) + FileOf(piece)
  }

  /** The inserting tail: area v shrinks to the given bounds and the cut-off piece is linked. */
  method InsertPiece(sp: Space, v: nat, w: Vma, piece: Vma) returns (r: Space)
    requires Ready(sp, piece) && Allowed(sp.list, v, w.start, w.end, w.pgoff, Insert(piece))
    requires w.id == sp.list[v].id && w.file == sp.list[v].file
    requires piece.id < sp.nextId && forall i :: 0 <= i < |sp.list| ==> sp.list[i].id != piece.id
    ensures Shaped(r) && r.nextId == sp.nextId
    ensures r.list == sp.list[..v] + (if piece.start < w.start then [piece, w] else [w, piece]) + sp.list[v + 1..]
  {
    var s := sp.list[v := w];
    CutOrdered(sp.list, sp.tree, sp.nextId, v, w, piece);
    FilesUpdate(sp.list, v, w);
    var ok, prev, link, parent := FindVmaLinks(sp.tree, s, piece.start, piece.end);
    // The BUG() in __insert_vm_struct.
    assert ok;
    FitsOnce(s, link, if piece.start < w.start then v else v + 1, piece.start, piece.end);
    r := VmaLink(sp.(list := s), piece, prev, link, parent);
    PieceIn(sp.list, v, w, piece, piece.start < w.start);
  }

  /** Two absorbing passes are one. */
  lemma {:induction false} AbsorbTwice(s: seq<Vma>, v: nat, w: Vma, last: Vma)
    requires v + 2 < |s|
    ensures var r := s[..v] + [w] + s[v + 2..];
            r[..v] + [last] + r[v + 2..] == s[..v] + [last] + s[v + 3..]
  {
  }

  lemma {:induction false} Loosen(sp: Space, k: nat)
    requires Shaped(sp)
    ensures ShapedBut(sp, IdAt(sp.list, k))
  {
    Transfer(sp.tree, sp.list, None, sp.list, IdAt(sp.list, k));
  }

  /** Area v takes over the next n areas, one removing pass each (`goto again`). */
  method AbsorbPass(sp: Space, v: nat, start: nat, end: nat, pgoff: nat) returns (r: Space)
    requires v + 1 < |sp.list| && ShapedBut(sp, IdAt(sp.list, v + 1))
    requires start == sp.list[v].start && end == sp.list[v + 1].end && sp.list[v + 1].file == sp.list[v].file
    ensures r.list == sp.list[..v] + [Bounds(sp.list[v], start, end, pgoff)] + sp.list[v + 2..]
    ensures ShapedBut(r, IdAt(r.list, v + 1)) && r.nextId == sp.nextId
    ensures r.anon == sp.anon
  {
    var w := Bounds(sp.list[v], start, end, pgoff);
    var turns: seq<Turn> := *;
    r := AbsorbNext(sp, v, w, turns);
    AbsorbNextShape(sp, v, w, turns);
  }

  /** The gap behind area v is updated after the last removing pass. */
  method GapAfter(sp: Space, v: nat) returns (r: Space)
    requires ShapedBut(sp, IdAt(sp.list, v + 1))
    ensures Shaped(r) && r.list == sp.list && r.nextId == sp.nextId && r.anon == sp.anon
  {
    r := sp;
    if v + 1 < |sp.list| {
      r := sp.(tree := Update(sp.tree, sp.list[v + 1].id, sp.list));
      UpdateShape(sp, v + 1);
    }
  }

  /** Area v takes over the next one. */
  method AbsorbOne(sp: Space, v: nat, start: nat, end: nat, pgoff: nat) returns (r: Space)
    requires Shaped(sp) && Allowed(sp.list, v, start, end, pgoff, Absorb(1))
    ensures Shaped(r) && r.nextId == sp.nextId
    ensures r.list == sp.list[..v] + [Bounds(sp.list[v], start, end, pgoff)] + sp.list[v + 2..]
    ensures r.anon == sp.anon
  {
    Loosen(sp, v + 1);
    r := AbsorbPass(sp, v, start, end, pgoff);
    r := GapAfter(r, v);
  }

  /** Area v takes over the next two in two passes (`goto again`), the first up to the end of the next. */
  method AbsorbBoth(sp: Space, v: nat, start: nat, end: nat, pgoff: nat) returns (r: Space)
    requires Shaped(sp) && Allowed(sp.list, v, start, end, pgoff, Absorb(2))
    ensures Shaped(r) && r.nextId == sp.nextId
    ensures r.list == sp.list[..v] + [Bounds(sp.list[v], start, end, pgoff)] + sp.list[v + 3..]
    ensures r.anon == sp.anon
  {
    Loosen(sp, v + 1);
    var m := AbsorbPass(sp, v, start, sp.list[v + 1].end, pgoff);
    assert m.list[v] == Bounds(sp.list[v], start, sp.list[v + 1].end, pgoff) && m.list[v + 1] == sp.list[v + 2];
    r := AbsorbPass(m, v, start, m.list[v + 1].end, pgoff);
    AbsorbTwice(sp.list, v, m.list[v], Bounds(sp.list[v], start, end, pgoff));
    r := GapAfter(r, v);
  }

  /** The removing pass of case 8. */
  method SwapPass(sp: Space, v: nat, start: nat, end: nat, pgoff: nat) returns (r: Space)
    requires Shaped(sp) && Allowed(sp.list, v, start, end, pgoff, Swap)
    ensures Shaped(r) && r.nextId == sp.nextId && r.list == Adjusted(sp.list, v, start, end, pgoff, Swap)
    ensures r.anon == sp.anon
  {
    var turns: seq<Turn> := *;
    var n := Bounds(sp.list[v + 1], start, end, pgoff);
    r := AbsorbPrev(sp, v, n, turns);
    AbsorbPrevShape(sp, v, n, turns);
  }

  /** The branches of __vma_adjust that remove areas. */
  method RemoveAreas(sp: Space, v: nat, start: nat, end: nat, pgoff: nat, removeNext: nat, ghost way: Way)
    returns (r: Space)
    requires Shaped(sp) && Allowed(sp.list, v, start, end, pgoff, way)
    requires 1 <= removeNext <= 3 && way == if removeNext == 3 then Swap else Absorb(removeNext)
    ensures Shaped(r) && r.nextId == sp.nextId && r.list == Adjusted(sp.list, v, start, end, pgoff, way)
    ensures r.anon == sp.anon
  {
    hide ConsistentBut, Ordered, Files;
    if removeNext == 3 {
      r := SwapPass(sp, v, start, end, pgoff);
    } else if removeNext == 2 {
      r := AbsorbBoth(sp, v, start, end, pgoff);
    } else {
      r := AbsorbOne(sp, v, start, end, pgoff);
    }
  }

  /** The branches of __vma_adjust that move bounds only. */
  method MoveBounds(sp: Space, v: nat, start: nat, end: nat, pgoff: nat, adjustNext: int, ghost way: Way)
    returns (r: Space)
    requires Shaped(sp) && Allowed(sp.list, v, start, end, pgoff, way) && (way.Resize? || way.Shift?)
    requires (adjustNext != 0 <==> way.Shift?) && (way.Shift? ==> adjustNext == end - sp.list[v].end)
    ensures Shaped(r) && r.nextId == sp.nextId && r.list == Adjusted(sp.list, v, start, end, pgoff, way)
    ensures r.anon == sp.anon
  {
    hide ConsistentBut, Ordered, Files;
    var w := Bounds(sp.list[v], start, end, pgoff);
    if adjustNext != 0 {
      var n := sp.list[v + 1];
      n := n.(start := n.start + adjustNext, pgoff := n.pgoff + adjustNext);
      r := sp.(list := sp.list[v := w][v + 1 := n]);
      ShiftShape(sp, v, w, n);
    } else {
      r := ResizeArea(sp, v, w);
      ResizeShape(sp, v, w);
    }
  }

  /** What kind of edit the bounds ask for: how many areas to remove (3 when the area itself goes),
      by how much the next area's start moves, and which anon_vma is handed to whom. */
  method Plan(sp: Space, v: nat, start: nat, end: nat, pgoff: nat, expand: int, ghost way: Way)
    returns (removeNext: nat, adjustNext: int, exporter: int, importer: int)
    requires Sorted(sp.list) && Allowed(sp.list, v, start, end, pgoff, way) && !way.Insert?
    requires (way.Absorb? ==> expand == v) && (way.Swap? ==> expand == v + 1)
    ensures (removeNext == 3 <==> way.Swap?) && (removeNext == 1 <==> way == Absorb(1))
            && (removeNext == 2 <==> way == Absorb(2))
    ensures removeNext <= 3 && (adjustNext != 0 <==> way.Shift?) && (way.Shift? ==> adjustNext == end - sp.list[v].end)
    ensures -1 <= exporter < |sp.list| && -1 <= importer < |sp.list| && (exporter == -1 <==> importer == -1)
    ensures exporter == -1 <==> way.Resize?
    ensures exporter >= 0 ==> AnonOf(sp, exporter) == Exported(sp, v, end, way)
    ensures importer >= 0 ==> importer == if way.Swap? || (way.Shift? && end < sp.list[v].end) then v + 1 else v
  {
    var s := sp.list;
    var next := v + 1;
    removeNext, adjustNext, exporter, importer := 0, 0, -1, -1;
    if next < |s| {
      if end >= s[next].end {
        if next == expand {
          removeNext, exporter, importer := 3, v, next;
        } else {
          removeNext := if end > s[next].end then 2 else 1;
          exporter, importer := next, v;
          if removeNext == 2 && AnonOf(sp, next) == 0 { exporter := next + 1; }
        }
      } else if end > s[next].start {
        adjustNext, exporter, importer := end - s[next].start, next, v;
      } else if end < s[v].end {
        adjustNext, exporter, importer := -(s[v].end - end), v, next;
      }
    }
  }

  /** The struct that takes over pages. */
  ghost function Importer(sp: Space, v: nat, end: nat, way: Way): nat
    requires v + 1 < |sp.list|
  {
    if way.Swap? || (way.Shift? && end < sp.list[v].end) then sp.list[v + 1].id else sp.list[v].id
  }

  /** The anon_vma of the pages that it takes over, 0 for NULL. */
  ghost function Exported(sp: Space, v: nat, end: nat, way: Way): nat
    requires v + 1 < |sp.list| && (way == Absorb(2) ==> v + 2 < |sp.list|)
  {
    if way.Swap? || (way.Shift? && end < sp.list[v].end) then AnonOf(sp, v)
    else if way == Absorb(2) && AnonOf(sp, v + 1) == 0 then AnonOf(sp, v + 2)
    else AnonOf(sp, v + 1)
  }

  /** An area without an anon_vma takes over pages that have one. */
  ghost predicate Imports(sp: Space, v: nat, end: nat, way: Way) {
    && !way.Resize? && v + 1 < |sp.list| && (way == Absorb(2) ==> v + 2 < |sp.list|)
    && Exported(sp, v, end, way) != 0
    && AnonOf(sp, if way.Swap? || (way.Shift? && end < sp.list[v].end) then v + 1 else v) == 0
  }

  /** __vma_adjust without an area to insert. When the anon_vma cannot be cloned, nothing but that
      field of the importer has changed. */
  method VmaAdjust(sp: Space, v: nat, start: nat, end: nat, pgoff: nat, expand: int, willing: bool, ghost way: Way)
    returns (ok: bool, r: Space)
    requires Shaped(sp) && Allowed(sp.list, v, start, end, pgoff, way) && !way.Insert?
    requires (way.Absorb? ==> expand == v) && (way.Swap? ==> expand == v + 1)
    ensures Shaped(r) && r.nextId == sp.nextId
    ensures r.list == if ok then Adjusted(sp.list, v, start, end, pgoff, way) else sp.list
    ensures willing || !Imports(sp, v, end, way) ==> ok
    ensures r.anon == if Imports(sp, v, end, way) then sp.anon[Importer(sp, v, end, way) := Exported(sp, v, end, way)]
                      else sp.anon
  {
    ok, r := true, sp;
    var removeNext, adjustNext, exporter, importer := Plan(sp, v, start, end, pgoff, expand, way);
    if exporter >= 0 && AnonOf(sp, exporter) != 0 && AnonOf(sp, importer) == 0 {
      r := sp.(anon := sp.anon[sp.list[importer].id := AnonOf(sp, exporter)]);
      ok := *;
      ok := ok || willing;
    }
    if ok {
      if removeNext != 0 {
        r := RemoveAreas(r, v, start, end, pgoff, removeNext, way);
      } else {
        r := MoveBounds(r, v, start, end, pgoff, adjustNext, way);
      }
    }
  }
}
