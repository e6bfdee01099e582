/** __split_vma, detach_vmas_to_be_unmapped and do_munmap on the areas. */
module Munmap {
  import opened Errors
  import opened VmFlags
  import opened Areas
  import opened GapTree
  import opened VmaIndex
  import opened Adjust

  /** Pages in a huge page. */
  const HPAGE: nat := 512

  /** The two pieces of area v cut at addr. */
  function Below(v: Vma, addr: nat): Vma { v.(end := addr) }

  function Above(v: Vma, addr: nat): Vma
    requires v.start <= addr
  {
    v.(start := addr, pgoff := v.pgoff + (addr - v.start))
  }

  /** The list after area v is cut at addr, the new struct being the lower or the upper piece. */
  function Cut(s: seq<Vma>, v: nat, addr: nat, newBelow: bool, newId: nat): seq<Vma>
    requires v < |s| && s[v].start <= addr
  {
    s[..v] + [Below(s[v], addr).(id := if newBelow then newId else s[v].id),
              Above(s[v], addr).(id := if newBelow then s[v].id else newId)] + s[v + 1..]
  }

  /** A cut shows nowhere in the page view. */
  lemma {:induction false} CutView(s: seq<Vma>, v: nat, addr: nat, newBelow: bool, newId: nat, p: nat)
    requires v < |s| && s[v].start < addr < s[v].end
    requires Sorted(s) && Sorted(Cut(s, v, addr, newBelow, newId))
    ensures At(Cut(s, v, addr, newBelow, newId), p) == At(s, p)
  {
    var a, b := Cut(s, v, addr, newBelow, newId)[v], Cut(s, v, addr, newBelow, newId)[v + 1];
    assert s[v..v + 1] == [s[v]];
    LocalView(s, v, v + 1, [a, b], p);
    AtPair(a, b, p);
    AtPair(s[v], b, p);
  }

  /** The part of __split_vma after its allocations: copy the struct, trim both, take a file reference. */
  method SplitArea(sp: Space, v: nat, addr: nat, newBelow: bool) returns (r: Space)
    requires Shaped(sp) && v < |sp.list| && sp.list[v].start < addr < sp.list[v].end
    ensures Shaped(r) && r.nextId == sp.nextId + 1
    ensures r.list == Cut(sp.list, v, addr, newBelow, sp.nextId)
  {
    hide InOrder, ConsistentBut, Ids, FilesOf, Ready;
    var vma := sp.list[v];
    var piece := vma.(id := sp.nextId);
    var w := vma;
    if newBelow {
      piece := Below(piece, addr);
      w := Bounds(vma, addr, vma.end, vma.pgoff + (addr - piece.start));
    } else {
      piece := Above(piece, addr);
      w := Bounds(vma, vma.start, addr, vma.pgoff);
    }
    var copied := sp.(nextId := sp.nextId + 1, anon := sp.anon[piece.id := AnonOf(sp, v)], held := sp.held
                      + FileOf(piece));
    Issued(sp, copied, piece);
    r := InsertPiece(copied, v, w, piece);
  }

  lemma {:induction false} Issued(sp: Space, copied: Space, piece: Vma)
    requires Shaped(sp) && piece.id == sp.nextId
    requires copied == sp.(nextId := sp.nextId + 1, anon := copied.anon, held := sp.held + FileOf(piece))
    ensures Ready(copied, piece)
  {
  }

  /** Area i would be cut at x, and is of huge pages that x is not at the boundary of. */
  ghost predicate JaggedAt(s: seq<Vma>, i: nat, x: nat) {
    i < |s| && s[i].start < x < s[i].end && VmHugeTlb in s[i].flags && x % HPAGE != 0
  }

  ghost predicate Jagged(s: seq<Vma>, x: nat) {
    exists i: nat :: JaggedAt(s, i, x)
  }

  lemma {:induction false} JaggedOnly(s: seq<Vma>, i: nat, x: nat)
    requires Sorted(s) && FirstAbove(s, x, i)
    ensures Jagged(s, x) <==> JaggedAt(s, i, x)
  {
    forall j: nat | JaggedAt(s, j, x) ensures j == i {
      assert forall k :: j < k < |s| ==> x < s[k].start;
    }
  }

  /** __split_vma. `willing` says that memory is granted. */
  method SplitVma(sp: Space, v: nat, addr: nat, newBelow: bool, willing: bool) returns (err: Errno, r: Space)
    requires Shaped(sp) && v < |sp.list| && sp.list[v].start < addr < sp.list[v].end
    ensures Shaped(r)
    ensures err == OK ==> r.list == Cut(sp.list, v, addr, newBelow, sp.nextId) && r.nextId == sp.nextId + 1
    ensures err != OK ==> r == sp
    ensures err == EINVAL <==> JaggedAt(sp.list, v, addr)
    ensures err == OK || err == EINVAL || (err == ENOMEM && !willing)
  {
    r := sp;
    var gotMemory: bool := *;
    gotMemory := gotMemory || willing;
    if VmHugeTlb in sp.list[v].flags && addr % HPAGE != 0 {
      err := EINVAL;
    } else if !gotMemory {
      err := ENOMEM;
    } else {
      err := OK;
      r := SplitArea(sp, v, addr, newBelow);
    }
  }

  // ---------- detaching a stretch of areas ----------

  /** The list without areas a up to b. */
  function Rest(s: seq<Vma>, a: nat, b: nat): seq<Vma>
    requires a <= b <= |s|
  {
    s[..a] + s[b..]
  }

  /** Every area that stays is its old self. */
  lemma {:induction false} RestAt(s: seq<Vma>, a: nat, b: nat, i: nat)
    requires a <= b <= |s| && i < |Rest(s, a, b)|
    ensures Rest(s, a, b)[i] == s[if i < a then i else i - a + b]
  {
  }

  lemma {:induction false} RestSorted(s: seq<Vma>, a: nat, b: nat)
    requires a <= b <= |s| && Sorted(s) && DistinctIds(s)
    ensures Sorted(Rest(s, a, b)) && DistinctIds(Rest(s, a, b))
  {
    var r := Rest(s, a, b);
    forall i, j | 0 <= i < j < |r| ensures r[i].end <= r[j].start && r[i].id != r[j].id {
      RestAt(s, a, b, i);
      RestAt(s, a, b, j);
    }
  }

  lemma {:induction false} EraseStep(t: Tree, s: seq<Vma>, a: nat, k: nat, turns: seq<Turn>)
    requires a <= k < |s| && DistinctIds(s) && Sorted(s)
    requires InOrder(t) == Ids(Rest(s, a, k)) && Consistent(t, s)
    ensures var u := Rebalance(Erase(t, s[k].id, s), turns, s);
            InOrder(u) == Ids(Rest(s, a, k + 1)) && Consistent(u, s)
  {
    var r := Rest(s, a, k);
    RestSorted(s, a, k);
    assert r[a] == s[k];
    UnlinkOrder(t, r, a, s);
    EraseKeeps(t, s[k].id, s, None);
    RebalanceKeeps(Erase(t, s[k].id, s), turns, s, None);
    assert r[..a] + r[a + 1..] == Rest(s, a, k + 1);
  }

  /** Cutting a stretch out moves only the gap in front of the first area behind it. */
  lemma {:induction false} RestOwn(t: Tree, s: seq<Vma>, a: nat, b: nat)
    requires a <= b <= |s| && DistinctIds(s) && Sorted(s) && InOrder(t) == Ids(Rest(s, a, b)) && Consistent(t, s)
    ensures ConsistentBut(t, Rest(s, a, b), IdAt(Rest(s, a, b), a))
  {
    var r := Rest(s, a, b);
    RestSorted(s, a, b);
    forall id: nat | Has(t, id) && Some(id) != IdAt(r, a) ensures Own(r, id) == Own(s, id) {
      HasIndex(t, r, id);
      var i :| 0 <= i < |r| && r[i].id == id;
      RestGap(s, a, b, i);
    }
    Transfer(t, s, None, r, IdAt(r, a));
  }

  lemma {:induction false} RestGap(s: seq<Vma>, a: nat, b: nat, i: nat)
    requires a <= b <= |s| && i < |Rest(s, a, b)| && i != a && DistinctIds(s) && DistinctIds(Rest(s, a, b))
    ensures Own(Rest(s, a, b), Rest(s, a, b)[i].id) == Own(s, Rest(s, a, b)[i].id)
  {
    var r := Rest(s, a, b);
    var j := if i < a then i else i - a + b;
    assert r[i] == s[j] && (i > 0 ==> r[i - 1] == s[j - 1]);
    OwnAt(r, i);
    OwnAt(s, j);
  }

  /** The loop of detach_vmas_to_be_unmapped: the areas from `first` on that start below `end` leave
      the tree one by one, while the list still holds them. */
  method EraseVmas(t: Tree, s: seq<Vma>, first: nat, end: nat) returns (u: Tree, last: nat)
    requires Sorted(s) && DistinctIds(s) && InOrder(t) == Ids(s) && Consistent(t, s)
    requires first < |s| && s[first].start < end
    ensures first < last <= |s| && InOrder(u) == Ids(Rest(s, first, last)) && Consistent(u, s)
    ensures forall i :: first <= i < last ==> s[i].start < end
    ensures last < |s| ==> end <= s[last].start
  {
    hide InOrder, ConsistentBut, Rebalance, Erase, Ids;
    u, last := t, first;
    assert Rest(s, first, first) == s;
    while last < |s| && s[last].start < end
      invariant first <= last <= |s|
      invariant forall i :: first <= i < last ==> s[i].start < end
      invariant InOrder(u) == Ids(Rest(s, first, last)) && Consistent(u, s)
    {
      var turns: seq<Turn> := *;
      EraseStep(u, s, first, last, turns);
      u := Rebalance(Erase(u, s[last].id, s), turns, s);
      last := last + 1;
    }
  }

  /** In shape, but for the references of detached areas that are not released yet. */
  ghost predicate Detached(sp: Space, gone: seq<Vma>) {
    && Ordered(sp.list, sp.tree, sp.nextId) && Consistent(sp.tree, sp.list)
    && sp.mapCount == |sp.list| && sp.highest == LastEnd(sp.list) && sp.held == Files(sp.list) + Files(gone)
  }

  /** detach_vmas_to_be_unmapped: the detached areas leave the list at once; then the gap behind them,
      or highest_vm_end, is updated. */
  method DetachVmas(sp: Space, first: nat, end: nat) returns (r: Space, last: nat)
    requires Shaped(sp) && first < |sp.list| && sp.list[first].start < end
    ensures r.nextId == sp.nextId
    ensures first < last <= |sp.list| && r.list == Rest(sp.list, first, last) && Detached(r, sp.list[first..last])
    ensures forall i :: first <= i < last ==> sp.list[i].start < end
    ensures last < |sp.list| ==> end <= sp.list[last].start
  {
    var tree;
    tree, last := EraseVmas(sp.tree, sp.list, first, end);
    var list := Rest(sp.list, first, last);
    r := sp.(list := list, tree := tree, mapCount := sp.mapCount - (last - first));
    if first < |list| {
      r := r.(tree := Update(tree, list[first].id, list));
    } else {
      r := r.(highest := if first > 0 then sp.list[first - 1].end else 0);
    }
    DetachShape(sp, tree, first, last);
  }

  lemma {:induction false} DetachShape(sp: Space, t: Tree, a: nat, b: nat)
    requires Shaped(sp) && a < b <= |sp.list| && InOrder(t) == Ids(Rest(sp.list, a, b)) && Consistent(t, sp.list)
    ensures var list := Rest(sp.list, a, b);
            var r := sp.(list := list, tree := t, mapCount := sp.mapCount - (b - a));
            if a < |list| then Detached(r.(tree := Update(t, list[a].id, list)), sp.list[a..b])
            else Detached(r.(highest := if a > 0 then sp.list[a - 1].end else 0), sp.list[a..b])
  {
    var list := Rest(sp.list, a, b);
    RestOwn(t, sp.list, a, b);
    RestShape(sp, t, a, b);
    RestFiles(sp.list, a, b);
    if a < |list| {
      UpdateRepairs(t, list[a].id, list);
      UpdateInOrder(t, list[a].id, list);
    }
  }

  lemma {:induction false} RestShape(sp: Space, t: Tree, a: nat, b: nat)
    requires Shaped(sp) && a < b <= |sp.list| && InOrder(t) == Ids(Rest(sp.list, a, b))
    ensures Ordered(Rest(sp.list, a, b), t, sp.nextId)
    ensures LastEnd(Rest(sp.list, a, b)) ==
            if b < |sp.list| then sp.highest else if a > 0 then sp.list[a - 1].end else 0
  {
    var r := Rest(sp.list, a, b);
    RestSorted(sp.list, a, b);
    forall i | 0 <= i < |r| ensures r[i].id < sp.nextId {
      RestAt(sp.list, a, b, i);
    }
    if a > 0 && a < |sp.list| - 1 { assert sp.list[a - 1].end <= sp.list[|sp.list| - 1].start; }
  }

  // ---------- what an unmap leaves ----------

  /** The first area that starts at or above `end`, |s| if there is none. */
  ghost predicate FirstFrom(s: seq<Vma>, end: nat, k: nat) {
    && k <= |s|
    && (forall j :: 0 <= j < k ==> s[j].start < end)
    && (k < |s| ==> end <= s[k].start)
  }

  /** The list without pages [start, end), where areas i up to k are those that meet the range. An area
      that loses its upper or its lower part keeps its struct; one that loses its middle keeps it for
      the lower piece and gets the struct newId for the upper. */
  function Carved(s: seq<Vma>, i: nat, k: nat, start: nat, end: nat, newId: nat): seq<Vma>
    requires i < k <= |s| && s[k - 1].start <= end
  {
    s[..i]
    + (if s[i].start < start then [Below(s[i], start)] else [])
    + (if end < s[k - 1].end then [Above(s[k - 1], end).(id := if s[k - 1].start < start then newId else s[k - 1].id)]
       else [])
    + s[k..]
  }

  /** Cutting the first area at `start` first leaves the same. */
  lemma {:induction false} CarveFirst(s: seq<Vma>, i: nat, c: seq<Vma>, b: nat, start: nat, end: nat, newId: nat,
                                      other: nat)
    requires i + 1 < b <= |s| + 1 && Sorted(s) && s[b - 2].start < end && s[i].start < start < s[i].end && start < end
    requires c == Cut(s, i, start, false, newId)
    ensures c[b - 1].start <= end && Carved(c, i + 1, b, start, end, other) == Carved(s, i, b - 1, start, end, newId)
  {
    assert c[..i + 1] == s[..i] + [Below(s[i], start)];
    assert c[b..] == s[b - 1..];
    assert c[i + 1] == Above(s[i], start).(id := newId);
    if b - 2 > i {
      assert c[b - 1] == s[b - 2];
      assert s[i].end <= s[b - 2].start;
    }
  }

  /** Cutting the last area at `end` first leaves the same. */
  lemma {:induction false} CarveLast(s: seq<Vma>, i: nat, k: nat, start: nat, end: nat, newId: nat, other: nat)
    requires i < k <= |s| && Sorted(s) && start <= s[i].start && s[k - 1].start < end < s[k - 1].end
    ensures var c := Cut(s, k - 1, end, true, other);
            Rest(c, i, k) == Carved(s, i, k, start, end, newId)
  {
    var c := Cut(s, k - 1, end, true, other);
    assert i < k - 1 ==> s[i].end <= s[k - 1].start;
    assert c[..i] == s[..i];
    assert c[k] == Above(s[k - 1], end);
    assert c[k..] == [c[k]] + s[k..];
  }

  /** Nothing to cut: whole areas go. */
  lemma {:induction false} CarveWhole(s: seq<Vma>, i: nat, k: nat, start: nat, end: nat, newId: nat)
    requires i < k <= |s| && start <= s[i].start && s[k - 1].start < end && s[k - 1].end <= end
    ensures Carved(s, i, k, start, end, newId) == Rest(s, i, k)
  {
  }

  /** Whole areas inside [start, end) are taken out, and no other area meets it. */
  lemma {:induction false} RestView(s: seq<Vma>, a: nat, b: nat, start: nat, end: nat, p: nat)
    requires a <= b <= |s| && Sorted(s) && DistinctIds(s)
    requires forall i :: a <= i < b ==> start <= s[i].start && s[i].end <= end
    requires forall i :: 0 <= i < a ==> s[i].end <= start
    requires forall i :: b <= i < |s| ==> end <= s[i].start
    ensures At(Rest(s, a, b), p) == if start <= p < end then None else At(s, p)
  {
    RestSorted(s, a, b);
    assert Rest(s, a, b) == s[..a] + [] + s[b..];
    LocalView(s, a, b, [], p);
    if start <= p < end {
      var r := Rest(s, a, b);
      forall i | 0 <= i < |r| ensures !(r[i].start <= p < r[i].end) { RestAt(s, a, b, i); }
      AtNone(r, p);
    } else {
      forall i | 0 <= i < b - a ensures !(s[a..b][i].start <= p < s[a..b][i].end) { assert s[a..b][i] == s[a + i]; }
      AtNone(s[a..b], p);
    }
  }

  lemma {:induction false} RestWeight(s: seq<Vma>, a: nat, b: nat, c: Class)
    requires a <= b <= |s|
    ensures Weight(s, c) == Weight(Rest(s, a, b), c) + Weight(s[a..b], c)
  {
    WeightConcat(s[..a], s[b..], c);
    WeightConcat(s[..a], s[a..], c);
    WeightConcat(s[a..b], s[b..], c);
    assert s == s[..a] + s[a..] && s[a..] == s[a..b] + s[b..];
  }

  lemma {:induction false} RestFiles(s: seq<Vma>, a: nat, b: nat)
    requires a <= b <= |s|
    ensures Files(s) == Files(Rest(s, a, b)) + Files(s[a..b])
  {
    hide FilesOf;
    FilesSplit(s, a);
    FilesSplit(s[a..], b - a);
    FilesConcat(s[..a], s[b..]);
    assert s[a..][..b - a] == s[a..b] && s[a..][b - a..] == s[b..];
  }

  lemma {:induction false} CutWeight(s: seq<Vma>, v: nat, addr: nat, newBelow: bool, newId: nat, c: Class)
    requires v < |s| && s[v].start < addr < s[v].end
    ensures Weight(Cut(s, v, addr, newBelow, newId), c) == Weight(s, c)
  {
    var r := Cut(s, v, addr, newBelow, newId);
    RestWeight(r, v, v + 2, c);
    RestWeight(s, v, v + 1, c);
    assert Rest(r, v, v + 2) == Rest(s, v, v + 1);
    assert r[v..v + 2] == [r[v], r[v + 1]] && s[v..v + 1] == [s[v]];
    assert [r[v], r[v + 1]][1..] == [r[v + 1]] && [r[v + 1]][1..] == [] && [s[v]][1..] == [];
  }

  // ---------- do_munmap ----------

  /** The page view loses [start, end) and nothing else. */
  ghost predicate Cleared(s: seq<Vma>, r: seq<Vma>, start: nat, end: nat) {
    forall p: nat {:trigger At(r, p)} :: At(r, p) == if start <= p < end then None else At(s, p)
  }

  ghost predicate SameView(s: seq<Vma>, r: seq<Vma>) {
    forall p: nat {:trigger At(r, p)} :: At(r, p) == At(s, p)
  }

  /** The pages of every class in s are those in r and those in `gone`. */
  ghost predicate Shared(s: seq<Vma>, r: seq<Vma>, gone: seq<Vma>) {
    forall c: Class {:trigger Weight(r, c)} :: Weight(s, c) == Weight(r, c) + Weight(gone, c)
  }

  lemma {:induction false} Unchanged(s: seq<Vma>)
    ensures SameView(s, s) && Shared(s, s, [])
  {
    assert forall c: Class :: Weight([], c) == 0;
  }

  /** The list after the cut at `start`, if area i needs one. */
  ghost function CutStart(s: seq<Vma>, i: nat, start: nat, newId: nat): seq<Vma>
    requires i < |s|
  {
    if s[i].start < start then Cut(s, i, start, false, newId) else s
  }

  /** The list after the cut at `end`, if area l needs one. */
  ghost function CutEnd(s: seq<Vma>, l: nat, end: nat, newId: nat): seq<Vma> {
    if l < |s| && s[l].start < end then Cut(s, l, end, true, newId) else s
  }

  lemma {:induction false} CutStartSame(s: seq<Vma>, i: nat, start: nat, newId: nat)
    requires i < |s| && start < s[i].end && Sorted(s) && Sorted(CutStart(s, i, start, newId))
    ensures SameView(s, CutStart(s, i, start, newId)) && Shared(s, CutStart(s, i, start, newId), [])
  {
    if s[i].start < start {
      forall p: nat ensures At(CutStart(s, i, start, newId), p) == At(s, p) { CutView(s, i, start, false, newId, p); }
      forall c: Class ensures Weight(s, c) == Weight(CutStart(s, i, start, newId), c) {
        CutWeight(s, i, start, false, newId, c);
      }
    }
  }

  lemma {:induction false} CutEndSame(s: seq<Vma>, l: nat, end: nat, newId: nat)
    requires FirstAbove(s, end, l) && Sorted(s) && Sorted(CutEnd(s, l, end, newId))
    ensures SameView(s, CutEnd(s, l, end, newId)) && Shared(s, CutEnd(s, l, end, newId), [])
  {
    if l < |s| && s[l].start < end {
      forall p: nat ensures At(CutEnd(s, l, end, newId), p) == At(s, p) { CutView(s, l, end, true, newId, p); }
      forall c: Class ensures Weight(s, c) == Weight(CutEnd(s, l, end, newId), c) {
        CutWeight(s, l, end, true, newId, c);
      }
    }
  }

  /** After both cuts, areas a up to b are those inside [start, end) and no other area meets it. */
  ghost predicate Edged(s: seq<Vma>, a: nat, b: nat, start: nat, end: nat) {
    && a < b <= |s|
    && (forall i :: a <= i < b ==> start <= s[i].start && s[i].end <= end)
    && (forall i :: 0 <= i < a ==> s[i].end <= start)
    && (forall i :: b <= i < |s| ==> end <= s[i].start)
  }

  lemma {:induction false} RestCleared(s: seq<Vma>, a: nat, b: nat, start: nat, end: nat)
    requires Sorted(s) && DistinctIds(s) && Edged(s, a, b, start, end)
    ensures Cleared(s, Rest(s, a, b), start, end) && Shared(s, Rest(s, a, b), s[a..b])
  {
    forall p: nat ensures At(Rest(s, a, b), p) == if start <= p < end then None else At(s, p) {
      RestView(s, a, b, start, end, p);
    }
    forall c: Class ensures Weight(s, c) == Weight(Rest(s, a, b), c) + Weight(s[a..b], c) { RestWeight(s, a, b, c); }
  }

  /** The cut at `start` moves the first area to look at behind the piece that stays. */
  lemma {:induction false} CutStartEdge(s: seq<Vma>, i: nat, start: nat, newId: nat)
    requires Sorted(s) && FirstAbove(s, start, i) && i < |s|
    ensures var c, a := CutStart(s, i, start, newId), if s[i].start < start then i + 1 else i;
            a < |c| && (forall j :: 0 <= j < a ==> c[j].end <= start) && start <= c[a].start && start < c[a].end
  {
    var c, a := CutStart(s, i, start, newId), if s[i].start < start then i + 1 else i;
    forall j | 0 <= j < a ensures c[j].end <= start {
      if j < i { assert c[j] == s[j]; }
    }
  }

  /** After a cut of area l at `end`, where b is the first area that starts at or above it. */
  lemma {:induction false} CutInside(s: seq<Vma>, a: nat, l: nat, end: nat, newId: nat, b: nat)
    requires Sorted(s) && a <= l < |s| && s[l].start < end < s[l].end
    requires a < b <= |s| + 1 && forall j :: a <= j < b ==> Cut(s, l, end, true, newId)[j].start < end
    requires b < |s| + 1 ==> end <= Cut(s, l, end, true, newId)[b].start
    ensures b == l + 1 && FirstFrom(s, end, b)
    ensures forall j :: 0 <= j < b ==> Cut(s, l, end, true, newId)[j].end <= end
    ensures forall j :: b <= j < |s| + 1 ==> end <= Cut(s, l, end, true, newId)[j].start
  {
    var c := Cut(s, l, end, true, newId);
    assert c[l].end == end && c[l].start < end && c[l + 1].start == end;
    assert b == l + 1;
    forall j | 0 <= j < b ensures c[j].end <= end && s[j].start < end {
      if j < l { assert c[j] == s[j] && s[j].end <= s[l].start; }
    }
    forall j | b < j < |c| ensures end <= c[j].start {
      assert c[j] == s[j - 1] && s[l].end <= s[j - 1].start;
    }
    assert b < |s| ==> c[b + 1] == s[b];
  }

  /** The same when no area is cut. */
  lemma {:induction false} CutNowhere(s: seq<Vma>, a: nat, l: nat, end: nat, b: nat)
    requires Sorted(s) && a <= l && FirstAbove(s, end, l) && (l < |s| ==> end <= s[l].start)
    requires a < b <= |s| && (forall j :: a <= j < b ==> s[j].start < end) && (b < |s| ==> end <= s[b].start)
    ensures b == l && FirstFrom(s, end, b)
    ensures forall j :: b <= j < |s| ==> end <= s[j].start
  {
    var n := if b < l then b else l;
    assert n < |s| ==> s[n].start < s[n].end;
    forall j | b < j < |s| ensures end <= s[j].start { assert s[b].end <= s[j].start; }
  }

  /** After the cut at `end`, where b is the first area that starts at or above it. */
  lemma {:induction false} CutEndEdge(s: seq<Vma>, a: nat, l: nat, start: nat, end: nat, newId: nat, b: nat)
    requires Sorted(s) && Sorted(CutEnd(s, l, end, newId)) && start < end
    requires a < |s| && (forall j :: 0 <= j < a ==> s[j].end <= start) && start <= s[a].start < end
    requires FirstAbove(s, end, l)
    requires a < b <= |CutEnd(s, l, end, newId)| && forall j :: a <= j < b ==> CutEnd(s, l, end, newId)[j].start < end
    requires b < |CutEnd(s, l, end, newId)| ==> end <= CutEnd(s, l, end, newId)[b].start
    ensures Edged(CutEnd(s, l, end, newId), a, b, start, end)
    ensures FirstFrom(s, end, b) && (end < s[b - 1].end ==> l == b - 1 && s[l].start < end)
    ensures (l < |s| && s[l].start < end) ==> l == b - 1
  {
    var c := CutEnd(s, l, end, newId);
    assert a <= l;
    if l < |s| && s[l].start < end {
      CutInside(s, a, l, end, newId, b);
    } else {
      CutNowhere(s, a, l, end, b);
    }
    assert forall j :: 0 <= j < a ==> c[j] == s[j];
    assert c[a].start == s[a].start;
    forall j | a <= j < b ensures start <= c[j].start {
      if a < j { assert c[a].end <= c[j].start; }
    }
  }

  /** What the cut at `end` and the detaching leave. */
  lemma {:induction false} EndList(s: seq<Vma>, a: nat, l: nat, start: nat, end: nat, newId: nat, b: nat)
    requires Sorted(s) && Sorted(CutEnd(s, l, end, newId)) && start < end
    requires a < |s| && (forall j :: 0 <= j < a ==> s[j].end <= start) && start <= s[a].start < end
    requires FirstAbove(s, end, l)
    requires a < b <= |CutEnd(s, l, end, newId)| && forall j :: a <= j < b ==> CutEnd(s, l, end, newId)[j].start < end
    requires b < |CutEnd(s, l, end, newId)| ==> end <= CutEnd(s, l, end, newId)[b].start
    ensures Edged(CutEnd(s, l, end, newId), a, b, start, end) && FirstFrom(s, end, b)
    ensures Rest(CutEnd(s, l, end, newId), a, b) == Carved(s, a, b, start, end, newId)
  {
    CutEndEdge(s, a, l, start, end, newId, b);
    if end < s[b - 1].end {
      CarveLast(s, a, b, start, end, newId, newId);
    } else {
      CarveWhole(s, a, b, start, end, newId);
    }
  }

  /** The first area at or above `end`, without the cut at `start`. */
  lemma {:induction false} StartList(s: seq<Vma>, i: nat, start: nat, end: nat, newId: nat, b: nat)
    requires Sorted(s) && i < |s| && s[i].start < start < s[i].end && start < end
    requires FirstFrom(Cut(s, i, start, false, newId), end, b)
    ensures i < b - 1 && FirstFrom(s, end, b - 1)
  {
    var c := Cut(s, i, start, false, newId);
    assert c[i].start < end && c[i + 1].start < end;
    assert forall j :: 0 <= j < i ==> c[j] == s[j];
    assert forall j :: i < j < |s| ==> s[j] == c[j + 1];
    forall j | 0 <= j < b - 1 ensures s[j].start < end {
      assert j > i ==> c[j + 1].start < end;
    }
  }

  /** The stages of do_munmap: the cut at `start` gives c, the cut at `end` (in area l, with new struct
      `other`) gives d, and areas a up to b of d are detached. */
  datatype Stage = Stage(c: seq<Vma>, a: nat, l: nat, d: seq<Vma>, b: nat, other: nat)

  ghost predicate Stages(s: seq<Vma>, i: nat, st: Stage, start: nat, end: nat, newId: nat) {
    && Sorted(s) && FirstAbove(s, start, i) && i < |s| && s[i].start < end && start < end
    && st.c == CutStart(s, i, start, newId) && Sorted(st.c) && FirstAbove(st.c, end, st.l)
    && st.a == (if s[i].start < start then i + 1 else i)
    && st.d == CutEnd(st.c, st.l, end, st.other) && Sorted(st.d) && DistinctIds(st.d)
    && st.a < st.b <= |st.d| && (forall j :: st.a <= j < st.b ==> st.d[j].start < end)
    && (st.b < |st.d| ==> end <= st.d[st.b].start)
  }

  lemma {:induction false} StagesEdged(s: seq<Vma>, i: nat, st: Stage, start: nat, end: nat, newId: nat)
    requires Stages(s, i, st, start, end, newId)
    ensures Edged(st.d, st.a, st.b, start, end) && FirstFrom(st.c, end, st.b) && st.a < st.b <= |st.c|
            && st.c[st.b - 1].start < end
    ensures Rest(st.d, st.a, st.b) == Carved(st.c, st.a, st.b, start, end, st.other)
  {
    CutStartEdge(s, i, start, newId);
    EndList(st.c, st.a, st.l, start, end, st.other, st.b);
  }

  /** The list that the two cuts and the detaching leave, in terms of the list before them. */
  lemma {:induction false} UnmapList(s: seq<Vma>, i: nat, c: seq<Vma>, a: nat, b: nat, start: nat, end: nat, newId: nat,
                                     other: nat)
    requires Sorted(s) && i < |s| && start < s[i].end && start < end && c == CutStart(s, i, start, newId)
    requires a == (if s[i].start < start then i + 1 else i)
    requires FirstFrom(c, end, b) && a < b && c[b - 1].start < end
    ensures var k := b - (a - i);
            i < k && FirstFrom(s, end, k) && Carved(c, a, b, start, end, other) == Carved(s, i, k, start, end, newId)
  {
    hide Carved;
    if s[i].start < start {
      StartList(s, i, start, end, newId, b);
      CarveFirst(s, i, c, b, start, end, newId, other);
    } else {
      CarveSame(s, i, b, start, end, newId, other);
    }
  }

  /** Without a cut at `start` no struct is new. */
  lemma {:induction false} CarveSame(s: seq<Vma>, i: nat, k: nat, start: nat, end: nat, newId: nat, other: nat)
    requires i < k <= |s| && Sorted(s) && s[k - 1].start <= end && start <= s[i].start
    ensures Carved(s, i, k, start, end, newId) == Carved(s, i, k, start, end, other)
  {
    assert i < k - 1 ==> s[i].end <= s[k - 1].start;
  }

  /** Areas i up to k are those that meet [start, end), and r is the list without that range. */
  ghost predicate CarvedOut(s: seq<Vma>, r: seq<Vma>, start: nat, end: nat, newId: nat, i: nat, k: nat) {
    && FirstAbove(s, start, i) && FirstFrom(s, end, k)
    && if i < k then s[k - 1].start <= end && r == Carved(s, i, k, start, end, newId) else r == s
  }

  lemma {:induction false} StagesCarved(s: seq<Vma>, i: nat, st: Stage, start: nat, end: nat, newId: nat)
    requires Stages(s, i, st, start, end, newId)
    ensures i < st.b - (st.a - i) && CarvedOut(s, Rest(st.d, st.a, st.b), start, end, newId, i, st.b - (st.a - i))
  {
    hide Carved, CutStart, CutEnd, Rest;
    StagesEdged(s, i, st, start, end, newId);
    UnmapList(s, i, st.c, st.a, st.b, start, end, newId, st.other);
  }

  lemma {:induction false} StagesView(s: seq<Vma>, i: nat, st: Stage, start: nat, end: nat, newId: nat)
    requires Stages(s, i, st, start, end, newId)
    ensures Cleared(s, Rest(st.d, st.a, st.b), start, end) && Shared(s, Rest(st.d, st.a, st.b), st.d[st.a..st.b])
  {
    StagesEdged(s, i, st, start, end, newId);
    CutStartSame(s, i, start, newId);
    CutEndSame(st.c, st.l, end, st.other);
    RestCleared(st.d, st.a, st.b, start, end);
    ClearedChain(s, st.c, st.d, Rest(st.d, st.a, st.b), st.d[st.a..st.b], start, end);
  }

  lemma {:induction false} ClearedChain(s: seq<Vma>, c: seq<Vma>, d: seq<Vma>, r: seq<Vma>, gone: seq<Vma>, start: nat,
                                        end: nat)
    requires SameView(s, c) && SameView(c, d) && Cleared(d, r, start, end)
    requires Shared(s, c, []) && Shared(c, d, []) && Shared(d, r, gone)
    ensures Cleared(s, r, start, end) && Shared(s, r, gone)
  {
    forall p: nat ensures At(r, p) == if start <= p < end then None else At(s, p) {
      assert At(d, p) == At(c, p) == At(s, p);
    }
    forall c': Class ensures Weight(s, c') == Weight(r, c') + Weight(gone, c') {
      assert Weight(d, c') == Weight(c, c') == Weight(s, c');
    }
  }

  /** do_munmap's first cut. It may take map_count one above its limit only when the second end of the
      range lies in another area. */
  method CutAtStart(sp: Space, maxMapCount: nat, vma: nat, start: nat, end: nat, willing: bool)
    returns (err: Errno, r: Space, first: nat)
    requires Shaped(sp) && vma < |sp.list| && start < sp.list[vma].end
    ensures Shaped(r)
    ensures err == OK ==> r.list == CutStart(sp.list, vma, start, sp.nextId)
    ensures err == OK ==> first == (if sp.list[vma].start < start then vma + 1 else vma)
    ensures err == OK && sp.list[vma].start < start && end < sp.list[vma].end ==> |sp.list| < maxMapCount
    ensures err != OK ==> r == sp
    ensures err == OK || (err == EINVAL && JaggedAt(sp.list, vma, start))
            || (err == ENOMEM && (!willing || (sp.list[vma].start < start && end < sp.list[vma].end
                                               && |sp.list| >= maxMapCount)))
    ensures err == OK ==> !JaggedAt(sp.list, vma, start)
  {
    err, r, first := OK, sp, vma;
    if start > sp.list[vma].start {
      if end < sp.list[vma].end && sp.mapCount >= maxMapCount {
        err := ENOMEM;
      } else {
        err, r := SplitVma(sp, vma, start, false, willing);
        first := vma + 1;
      }
    }
  }

  /** do_munmap's second cut, at the end of the range. */
  method CutAtEnd(sp: Space, end: nat, willing: bool) returns (err: Errno, r: Space, last: nat)
    requires Shaped(sp)
    ensures Shaped(r) && FirstAbove(sp.list, end, last)
    ensures err == EINVAL <==> JaggedAt(sp.list, last, end)
    ensures err == OK || err == EINVAL || (err == ENOMEM && !willing)
    ensures r.list == if err == OK then CutEnd(sp.list, last, end, sp.nextId) else sp.list
  {
    err, r := OK, sp;
    last := FindVma(sp.tree, sp.list, end);
    if last < |sp.list| && end > sp.list[last].start {
      err, r := SplitVma(sp, last, end, true, willing);
    }
  }

  /** Both cuts of do_munmap, with the lists they go through. */
  method CutEdges(sp: Space, maxMapCount: nat, vma: nat, start: nat, end: nat, willing: bool)
    returns (err: Errno, r: Space, first: nat, ghost c: seq<Vma>, ghost l: nat, ghost other: nat)
    requires Shaped(sp) && vma < |sp.list| && FirstAbove(sp.list, start, vma) && start < end
    ensures Shaped(r)
    ensures err == OK ==> c == CutStart(sp.list, vma, start, sp.nextId) && Sorted(c) && FirstAbove(c, end, l)
    ensures err == OK ==> r.list == CutEnd(c, l, end, other)
    ensures err == OK ==> first == (if sp.list[vma].start < start then vma + 1 else vma)
    ensures err == OK && sp.list[vma].start < start && end < sp.list[vma].end ==> |sp.list| < maxMapCount
    ensures err != OK ==> SameView(sp.list, r.list) && Shared(sp.list, r.list, [])
    ensures UnmapErr(sp, maxMapCount, start, end, willing, err)
  {
    hide Jagged, JaggedAt, InOrder, ConsistentBut, Ids, Files, Punched, CutStart, CutEnd, SameView, Shared, Sorted,
      LastEnd, DistinctIds;
    c, l, other := [], 0, 0;
    Unchanged(sp.list);
    JaggedOnly(sp.list, vma, start);
    PunchedOnly(sp.list, vma, start, end);
    err, r, first := CutAtStart(sp, maxMapCount, vma, start, end, willing);
    if err == OK {
      c, other := r.list, r.nextId;
      var last;
      err, r, last := CutAtEnd(r, end, willing);
      l := last;
      CutStartSame(sp.list, vma, start, sp.nextId);
      JaggedOnly(c, last, end);
      JaggedBeyond(sp.list, vma, start, end, sp.nextId);
    }
  }

  /** An area loses its middle. */
  ghost predicate Punched(s: seq<Vma>, start: nat, end: nat) {
    exists i :: 0 <= i < |s| && s[i].start < start && end < s[i].end
  }

  lemma {:induction false} PunchedOnly(s: seq<Vma>, i: nat, start: nat, end: nat)
    requires Sorted(s) && FirstAbove(s, start, i) && i < |s| && start < end
    ensures Punched(s, start, end) <==> s[i].start < start && end < s[i].end
  {
    forall j | 0 <= j < |s| && s[j].start < start && end < s[j].end ensures j == i {
      assert forall k :: j < k < |s| ==> end < s[k].start;
    }
  }

  /** The cut at the start leaves what is cut at the end as it was. */
  lemma {:induction false} JaggedBeyond(s: seq<Vma>, v: nat, start: nat, end: nat, newId: nat)
    requires v < |s| && start < s[v].end && start < end
    ensures Jagged(CutStart(s, v, start, newId), end) <==> Jagged(s, end)
  {
    var c := CutStart(s, v, start, newId);
    if s[v].start < start {
      assert c[..v] == s[..v] && c[v + 2..] == s[v + 1..];
      forall i: nat | JaggedAt(s, i, end) ensures Jagged(c, end) {
        assert JaggedAt(c, if i < v then i else i + 1, end);
      }
      forall i: nat | JaggedAt(c, i, end) ensures Jagged(s, end) {
        assert i < v ==> c[i] == s[i];
        assert i > v + 1 ==> c[i] == s[i - 1];
        assert JaggedAt(s, if i <= v then i else i - 1, end);
      }
    }
  }

  /** Unmapping is not possible: an area would lose its middle and map_count is at its limit, or huge pages would
      be cut. */
  ghost predicate Hindered(s: seq<Vma>, maxMapCount: nat, start: nat, end: nat) {
    (Punched(s, start, end) && |s| >= maxMapCount) || Jagged(s, start) || Jagged(s, end)
  }

  /** Which errors do_munmap gives and when. With memory granted it fails only where it is hindered. */
  ghost predicate UnmapErr(sp: Space, maxMapCount: nat, start: nat, end: nat, willing: bool, err: Errno) {
    && (err == OK || err == ENOMEM || err == EINVAL) && (err == OK ==> !Hindered(sp.list, maxMapCount, start, end))
    && (willing && !Hindered(sp.list, maxMapCount, start, end) ==> err == OK)
    && (err == EINVAL ==> Jagged(sp.list, start) || Jagged(sp.list, end))
    && (err == ENOMEM ==> (Punched(sp.list, start, end) && |sp.list| >= maxMapCount) || !willing)
  }

  /** Neither cut moves the start of the first area to go. */
  lemma {:induction false} FirstStays(s: seq<Vma>, i: nat, c: seq<Vma>, a: nat, l: nat, start: nat, end: nat,
                                      newId: nat, other: nat)
    requires Sorted(s) && FirstAbove(s, start, i) && i < |s| && s[i].start < end && start < end
    requires c == CutStart(s, i, start, newId) && Sorted(c) && FirstAbove(c, end, l)
    requires a == (if s[i].start < start then i + 1 else i)
    ensures a < |CutEnd(c, l, end, other)| && CutEnd(c, l, end, other)[a].start < end
  {
    CutStartEdge(s, i, start, newId);
    assert a <= l;
  }

  /** How many areas are left: more than before only when one area loses its middle. */
  lemma {:induction false} CountLeft(s: seq<Vma>, i: nat, k: nat, start: nat, end: nat, newId: nat, maxMapCount: nat)
    requires i < k <= |s| && s[k - 1].start <= end && (s[i].start < start && end < s[i].end ==> |s| < maxMapCount)
    ensures |Carved(s, i, k, start, end, newId)| <= |s| || |Carved(s, i, k, start, end, newId)| <= maxMapCount
  {
  }

  /** What do_munmap has done when it comes to releasing the areas in `gone`. */
  ghost predicate UnmapDone(sp: Space, maxMapCount: nat, start: nat, end: nat, err: Errno, r: Space, gone: seq<Vma>,
                            i: nat, k: nat) {
    && Detached(r, gone) && Shared(sp.list, r.list, gone)
    && if err == OK then
         && Cleared(sp.list, r.list, start, end)
         && CarvedOut(sp.list, r.list, start, end, sp.nextId, i, k)
         && (|r.list| <= |sp.list| || |r.list| <= maxMapCount)
       else gone == [] && SameView(sp.list, r.list)
  }

  /** do_munmap on the areas, up to the point where the detached areas are released. */
  method UnmapAreas(sp: Space, maxMapCount: nat, start: nat, end: nat, willing: bool)
    returns (err: Errno, r: Space, gone: seq<Vma>, ghost i: nat, ghost k: nat)
    requires Shaped(sp) && start < end
    ensures UnmapDone(sp, maxMapCount, start, end, err, r, gone, i, k)
    ensures UnmapErr(sp, maxMapCount, start, end, willing, err)
    ensures !Overlaps(sp.list, start, end) ==> err == OK && r == sp
  {
    hide UnmapErr;
    err, r, gone := OK, sp, [];
    var vma := FindVma(sp.tree, sp.list, start);
    i, k := vma, vma;
    if vma == |sp.list| || sp.list[vma].start >= end {
      NothingToUnmap(sp, maxMapCount, vma, start, end);
      NothingHinders(sp, maxMapCount, vma, start, end, willing);
    } else {
      ghost var st;
      err, r, gone, st := UnmapFrom(sp, maxMapCount, vma, start, end, willing);
      if err == OK {
        k := st.b - (st.a - vma);
        UnmapFinish(sp, maxMapCount, vma, st, start, end, r, gone, k);
      }
    }
  }

  /** do_munmap once the first area that meets the range is known. */
  method UnmapFrom(sp: Space, maxMapCount: nat, vma: nat, start: nat, end: nat, willing: bool)
    returns (err: Errno, r: Space, gone: seq<Vma>, ghost st: Stage)
    requires Shaped(sp) && FirstAbove(sp.list, start, vma) && vma < |sp.list| && sp.list[vma].start < end && start < end
    ensures Detached(r, gone)
    ensures err == OK ==> Stages(sp.list, vma, st, start, end, sp.nextId)
    ensures err == OK ==> gone == st.d[st.a..st.b] && r.list == Rest(st.d, st.a, st.b)
    ensures err == OK && sp.list[vma].start < start && end < sp.list[vma].end ==> |sp.list| < maxMapCount
    ensures err != OK ==> gone == [] && SameView(sp.list, r.list) && Shared(sp.list, r.list, [])
    ensures UnmapErr(sp, maxMapCount, start, end, willing, err)
  {
    hide InOrder, ConsistentBut, Files, Ids, Rest, CutStart, CutEnd, UnmapErr;
    ghost var c, l, other;
    var first;
    gone, st := [], Stage([], 0, 0, [], 0, 0);
    err, r, first, c, l, other := CutEdges(sp, maxMapCount, vma, start, end, willing);
    if err == OK {
      FirstStays(sp.list, vma, c, first, l, start, end, sp.nextId, other);
      var d, last := r.list, 0;
      r, last := DetachVmas(r, first, end);
      gone := d[first..last];
      st := Stage(c, first, l, d, last, other);
    } else {
      NoneGone(r);
    }
  }

  lemma {:induction false} NoneGone(sp: Space)
    requires Shaped(sp)
    ensures Detached(sp, [])
  {
  }

  lemma {:induction false} UnmapFinish(sp: Space, maxMapCount: nat, i: nat, st: Stage, start: nat, end: nat, r: Space,
                                       gone: seq<Vma>, k: nat)
    requires Stages(sp.list, i, st, start, end, sp.nextId)
    requires sp.list[i].start < start && end < sp.list[i].end ==> |sp.list| < maxMapCount
    requires r.list == Rest(st.d, st.a, st.b) && gone == st.d[st.a..st.b] && k == st.b - (st.a - i) && Detached(r, gone)
    ensures UnmapDone(sp, maxMapCount, start, end, OK, r, gone, i, k)
  {
    hide Carved, Stages, Rest, Detached;
    StagesView(sp.list, i, st, start, end, sp.nextId);
    StagesCarved(sp.list, i, st, start, end, sp.nextId);
    CountLeft(sp.list, i, k, start, end, sp.nextId, maxMapCount);
  }

  /** Where no area meets the range nothing is cut. */
  lemma {:induction false} NothingHinders(sp: Space, maxMapCount: nat, i: nat, start: nat, end: nat, willing: bool)
    requires Shaped(sp) && FirstAbove(sp.list, start, i) && start < end && (i < |sp.list| ==> end <= sp.list[i].start)
    ensures UnmapErr(sp, maxMapCount, start, end, willing, OK)
  {
    hide InOrder, ConsistentBut, Files, Ids;
    var s := sp.list;
    assert forall j :: 0 <= j < i ==> s[j].end <= start;
    assert forall j :: i <= j < |s| ==> end <= s[j].start;
  }

  lemma {:induction false} NothingToUnmap(sp: Space, maxMapCount: nat, i: nat, start: nat, end: nat)
    requires Shaped(sp) && FirstAbove(sp.list, start, i) && start < end && (i < |sp.list| ==> end <= sp.list[i].start)
    ensures UnmapDone(sp, maxMapCount, start, end, OK, sp, [], i, i)
  {
    var s := sp.list;
    forall p: nat | start <= p < end ensures At(s, p) == None {
      forall j | 0 <= j < |s| ensures !(s[j].start <= p < s[j].end) {
        if j > i { assert s[i].end <= s[j].start; }
      }
      AtNone(s, p);
    }
    forall j | 0 <= j < i ensures s[j].start < end { assert s[j].end <= start; }
    assert forall c: Class :: Weight([], c) == 0;
    NoneGone(sp);
  }
}
