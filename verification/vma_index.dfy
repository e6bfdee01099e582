/** Finding, linking and unlinking areas: the list and the tree move together. */
module VmaIndex {
  import opened Areas
  import opened GapTree

  ghost predicate DistinctIds(s: seq<Vma>) {
    forall i, j {:trigger s[i].id, s[j].id} :: 0 <= i < j < |s| ==> s[i].id != s[j].id
  }

  /** Area i ends above addr and no earlier one does; i is |s| when none does. */
  ghost predicate FirstAbove(s: seq<Vma>, addr: nat, i: nat) {
    && i <= |s|
    && (forall j :: 0 <= j < i ==> s[j].end <= addr)
    && (i < |s| ==> addr < s[i].end)
  }

  /** Areas before k end at or below addr and areas from k on start at or above end. */
  ghost predicate Fits(s: seq<Vma>, k: int, addr: nat, end: nat) {
    && 0 <= k <= |s|
    && (forall j :: 0 <= j < k ==> s[j].end <= addr)
    && (forall j :: k <= j < |s| ==> end <= s[j].start)
  }

  /** Some area meets [addr, end). */
  ghost predicate Overlaps(s: seq<Vma>, addr: nat, end: nat) {
    exists j :: 0 <= j < |s| && s[j].start < end && addr < s[j].end
  }

  lemma {:induction false} FitsAt(s: seq<Vma>, k: nat, addr: nat, end: nat)
    requires Sorted(s) && k <= |s| && addr < end
    requires k > 0 ==> s[k - 1].end <= addr
    requires k < |s| ==> end <= s[k].start
    ensures Fits(s, k, addr, end) && !Overlaps(s, addr, end)
  {
    forall j | 0 <= j < k ensures s[j].end <= addr {
      if j < k - 1 { assert s[j].end <= s[k - 1].start; }
    }
    forall j | k <= j < |s| ensures end <= s[j].start {
      if j > k { assert s[k].end <= s[j].start; }
    }
  }

  lemma {:induction false} FirstOnly(s: seq<Vma>, addr: nat, i: nat)
    requires FirstAbove(s, addr, i)
    ensures forall j: nat :: FirstAbove(s, addr, j) ==> j == i
  {
  }

  lemma {:induction false} FirstAboveAt(s: seq<Vma>, addr: nat, i: nat)
    requires Sorted(s) && i <= |s| && (i < |s| ==> addr < s[i].end)
    requires (i > 0 ==> s[i - 1].end <= addr) || (i < |s| && s[i].start <= addr)
    ensures FirstAbove(s, addr, i)
  {
    forall j | 0 <= j < i ensures s[j].end <= addr {
      if j < i - 1 { assert s[j].end <= s[i - 1].start; }
      if i < |s| { assert s[j].end <= s[i].start; }
    }
  }

  lemma {:induction false} IndexOfAt(s: seq<Vma>, i: nat)
    requires i < |s| && DistinctIds(s)
    ensures IndexOf(s, s[i].id) == i
  {
    IndexFromAt(s, i, 0);
  }

  lemma {:induction false} IndexFromAt(s: seq<Vma>, i: nat, from: nat)
    requires from <= i < |s| && DistinctIds(s)
    ensures IndexFrom(s, s[i].id, from) == i
    decreases i - from
  {
    if from < i { IndexFromAt(s, i, from + 1); }
  }

  lemma {:induction false} OwnAt(s: seq<Vma>, i: nat)
    requires i < |s| && DistinctIds(s)
    ensures Own(s, s[i].id) == GapAt(s, i)
  {
    IndexOfAt(s, i);
  }

  lemma {:induction false} HasIndex(t: Tree, s: seq<Vma>, id: nat)
    requires InOrder(t) == Ids(s)
    ensures Has(t, id) <==> exists i :: 0 <= i < |s| && s[i].id == id
  {
    HasInOrder(t, id);
    if Has(t, id) {
      var i :| 0 <= i < |Ids(s)| && Ids(s)[i] == id;
      assert s[i].id == id;
    }
    if i :| 0 <= i < |s| && s[i].id == id {
      assert Ids(s)[i] == id;
    }
  }

  // ---------- walking down the tree ----------

  /** The subtree holds exactly the areas lo up to hi of the list, as a search tree. */
  ghost predicate Covers(t: Tree, s: seq<Vma>, lo: nat, hi: nat) {
    match t
    case Leaf => lo == hi
    case Node(left, id, _, right) =>
      var k := IndexOf(s, id);
      lo <= k < hi <= |s| && Covers(left, s, lo, k) && Covers(right, s, k + 1, hi)
  }

  lemma {:induction false} OrderCovers(t: Tree, s: seq<Vma>, lo: nat)
    requires DistinctIds(s) && lo + Size(t) <= |s|
    requires forall i :: 0 <= i < Size(t) ==> InOrder(t)[i] == s[lo + i].id
    ensures Covers(t, s, lo, lo + Size(t))
  {
    hide IndexOf;
    if t.Node? {
      var q, l, r, n := InOrder(t), InOrder(t.left), InOrder(t.right), Size(t.left);
      assert q[n] == t.id;
      IndexOfAt(s, lo + n);
      forall i | 0 <= i < n ensures l[i] == s[lo + i].id {
        assert l[i] == q[i];
      }
      OrderCovers(t.left, s, lo);
      forall i | 0 <= i < |r| ensures r[i] == s[lo + n + 1 + i].id {
        assert r[i] == q[n + 1 + i];
      }
      OrderCovers(t.right, s, lo + n + 1);
    }
  }

  lemma {:induction false} RootCovers(t: Tree, s: seq<Vma>)
    requires DistinctIds(s) && InOrder(t) == Ids(s)
    ensures Covers(t, s, 0, |s|)
  {
    assert Size(t) == |s|;
    OrderCovers(t, s, 0);
  }

  /** find_vma: the first area with addr < vm_end. */
  method FindVma(t: Tree, s: seq<Vma>, addr: nat) returns (vma: nat)
    requires Sorted(s) && DistinctIds(s) && InOrder(t) == Ids(s)
    ensures FirstAbove(s, addr, vma)
  {
    hide InOrder, Ids, Sorted, DistinctIds, IndexOf;
    RootCovers(t, s);
    var node := t;
    ghost var lo: nat := 0;
    vma := |s|;
    while node.Node?
      invariant Covers(node, s, lo, vma) && vma <= |s|
      invariant lo > 0 ==> s[lo - 1].end <= addr
      invariant vma < |s| ==> addr < s[vma].end
      decreases node
    {
      var tmp := IndexOf(s, node.id);
      if s[tmp].end > addr {
        vma := tmp;
        if s[tmp].start <= addr { break; }
        node := node.left;
      } else {
        lo := tmp + 1;
        node := node.right;
      }
    }
    FirstAboveAt(s, addr, vma);
  }

  /** find_vma_links: the empty link where an area [addr, end) goes, as the number of areas in
      front of it, and the node above that link; or failure when the area would overlap one. */
  method FindVmaLinks(t: Tree, s: seq<Vma>, addr: nat, end: nat)
    returns (ok: bool, prev: int, link: nat, parent: int)
    requires Sorted(s) && DistinctIds(s) && InOrder(t) == Ids(s) && addr < end
    ensures !ok <==> Overlaps(s, addr, end)
    ensures ok ==> link == prev + 1 && Fits(s, link, addr, end)
    ensures ok && prev == -1 ==> parent == if s == [] then -1 else 0
  {
    hide InOrder, Ids, DistinctIds, IndexOf;
    RootCovers(t, s);
    var node := t;
    ghost var hi: nat := |s|;
    prev, parent, link := -1, -1, 0;
    while node.Node?
      invariant Covers(node, s, link, hi) && hi <= |s| && prev == link - 1
      invariant link > 0 ==> s[link - 1].end <= addr
      invariant hi < |s| ==> end <= s[hi].start
      invariant parent == hi < |s| || parent == prev
      invariant parent == -1 ==> hi == |s|
      decreases node
    {
      var tmp := IndexOf(s, node.id);
      parent := tmp;
      if s[tmp].end > addr {
        if s[tmp].start < end {
          ok := false;
          return;
        }
        hi := tmp;
        node := node.left;
      } else {
        prev, link := tmp, tmp + 1;
        node := node.right;
      }
    }
    FitsAt(s, link, addr, end);
    ok := true;
  }

  // ---------- how edits of the list move the gaps ----------

  /** The id of area i, if there is one. */
  function IdAt(s: seq<Vma>, i: nat): Option<nat> {
    if i < |s| then Some(s[i].id) else None
  }

  /** A fresh area in place k changes only the gap in front of the area that follows it. */
  lemma {:induction false} OwnInserted(s: seq<Vma>, k: nat, v: Vma, i: nat)
    requires k <= |s| && i < |s| && i != k
    requires DistinctIds(s) && DistinctIds(s[..k] + [v] + s[k..])
    ensures Own(s[..k] + [v] + s[k..], s[i].id) == Own(s, s[i].id)
  {
    var r := s[..k] + [v] + s[k..];
    var j := if i < k then i else i + 1;
    assert r[j] == s[i];
    assert i > 0 && i != k ==> r[j - 1] == s[i - 1];
    OwnAt(r, j);
    OwnAt(s, i);
  }

  /** Dropping area k changes only the gap in front of the area that followed it. */
  lemma {:induction false} OwnRemoved(s: seq<Vma>, k: nat, i: nat)
    requires k < |s| && i < |s| && i != k && i != k + 1 && DistinctIds(s)
    ensures Own(s[..k] + s[k + 1..], s[i].id) == Own(s, s[i].id)
  {
    var r := s[..k] + s[k + 1..];
    var j := if i < k then i else i - 1;
    assert r[j] == s[i];
    assert i > 0 ==> r[j - 1] == s[i - 1];
    DistinctRemoved(s, k);
    OwnAt(r, j);
    OwnAt(s, i);
  }

  lemma {:induction false} DistinctRemoved(s: seq<Vma>, k: nat)
    requires k < |s| && DistinctIds(s)
    ensures DistinctIds(s[..k] + s[k + 1..])
  {
    var r := s[..k] + s[k + 1..];
    forall i, j | 0 <= i < j < |r| ensures r[i].id != r[j].id {
      assert r[i] == s[if i < k then i else i + 1];
      assert r[j] == s[if j < k then j else j + 1];
    }
  }

  /** Fields were written in place, and only the gap in front of area x can have moved. */
  lemma {:induction false} GapsKept(t: Tree, s: seq<Vma>, r: seq<Vma>, x: Option<nat>)
    requires InOrder(t) == Ids(s) && DistinctIds(s) && Consistent(t, s)
    requires |r| == |s| && forall i :: 0 <= i < |s| ==> r[i].id == s[i].id
    requires forall i {:trigger GapAt(r, i)} :: 0 <= i < |s| && Some(s[i].id) != x ==> GapAt(r, i) == GapAt(s, i)
    ensures DistinctIds(r) && InOrder(t) == Ids(r) && ConsistentBut(t, r, x)
  {
    assert Ids(r) == Ids(s);
    forall id: nat | Has(t, id) && Some(id) != x ensures Own(r, id) == Own(s, id) {
      HasIndex(t, s, id);
      var i :| 0 <= i < |s| && s[i].id == id;
      OwnAt(r, i);
      OwnAt(s, i);
    }
    Transfer(t, s, None, r, x);
  }

  /** The tree after an area is linked in place k: gap of its successor updated, node inserted. */
  function Linked(t: Tree, s: seq<Vma>, k: nat, v: Vma): Tree
    requires k <= |s|
  {
    var r := s[..k] + [v] + s[k..];
    Insert(if k < |s| then Update(t, s[k].id, r) else t, k, v.id, r)
  }

  lemma {:induction false} LinkOrder(t: Tree, s: seq<Vma>, k: nat, v: Vma)
    requires k <= |s| && InOrder(t) == Ids(s)
    ensures InOrder(Linked(t, s, k, v)) == Ids(s[..k] + [v] + s[k..])
  {
    hide InOrder, Update;
    var r := s[..k] + [v] + s[k..];
    var u := if k < |s| then Update(t, s[k].id, r) else t;
    if k < |s| { UpdateInOrder(t, s[k].id, r); }
    InsertInOrder(u, k, v.id, r);
    assert Ids(r) == Ids(s)[..k] + [v.id] + Ids(s)[k..];
  }

  lemma {:induction false} LinkOwn(t: Tree, s: seq<Vma>, k: nat, v: Vma)
    requires k <= |s| && InOrder(t) == Ids(s) && DistinctIds(s) && DistinctIds(s[..k] + [v] + s[k..])
    requires ConsistentBut(t, s, IdAt(s, k))
    ensures ConsistentBut(t, s[..k] + [v] + s[k..], IdAt(s, k))
  {
    var r := s[..k] + [v] + s[k..];
    forall id: nat | Has(t, id) && Some(id) != IdAt(s, k) ensures Own(r, id) == Own(s, id) {
      HasIndex(t, s, id);
      var i :| 0 <= i < |s| && s[i].id == id;
      OwnInserted(s, k, v, i);
    }
    Transfer(t, s, IdAt(s, k), r, IdAt(s, k));
  }

  lemma {:induction false} LinkTree(t: Tree, s: seq<Vma>, k: nat, v: Vma)
    requires k <= |s| && InOrder(t) == Ids(s) && DistinctIds(s) && DistinctIds(s[..k] + [v] + s[k..])
    requires ConsistentBut(t, s, IdAt(s, k))
    ensures Consistent(Linked(t, s, k, v), s[..k] + [v] + s[k..])
  {
    LinkOwn(t, s, k, v);
    var r := s[..k] + [v] + s[k..];
    if k < |s| { UpdateRepairs(t, s[k].id, r); }
    InsertConsistent(if k < |s| then Update(t, s[k].id, r) else t, k, v.id, r);
  }

  /** The tree after a link, however it is rebalanced. */
  lemma {:induction false} LinkResult(t: Tree, s: seq<Vma>, k: nat, v: Vma, turns: seq<Turn>)
    requires k <= |s| && InOrder(t) == Ids(s) && DistinctIds(s) && DistinctIds(s[..k] + [v] + s[k..])
    requires ConsistentBut(t, s, IdAt(s, k))
    ensures var r := s[..k] + [v] + s[k..];
            var u := Rebalance(Linked(t, s, k, v), turns, r);
            InOrder(u) == Ids(r) && Consistent(u, r)
  {
    LinkOrder(t, s, k, v);
    LinkTree(t, s, k, v);
    RebalanceKeeps(Linked(t, s, k, v), turns, s[..k] + [v] + s[k..], None);
  }

  lemma {:induction false} IdsDropped(s: seq<Vma>, k: nat)
    requires k < |s| && DistinctIds(s)
    ensures Without(Ids(s), s[k].id) == Ids(s[..k] + s[k + 1..])
  {
    assert Ids(s)[k] == s[k].id;
    WithoutAt(Ids(s), k);
    assert Ids(s[..k] + s[k + 1..]) == Ids(s)[..k] + Ids(s)[k + 1..];
  }

  /** Erasing the node of area k, with gaps looked up in the list g. */
  lemma {:induction false} UnlinkOrder(t: Tree, s: seq<Vma>, k: nat, g: seq<Vma>)
    requires k < |s| && InOrder(t) == Ids(s) && DistinctIds(s)
    ensures Has(t, s[k].id) && InOrder(Erase(t, s[k].id, g)) == Ids(s[..k] + s[k + 1..])
  {
    HasIndex(t, s, s[k].id);
    EraseInOrder(t, s[k].id, g);
    IdsDropped(s, k);
  }

  lemma {:induction false} UnlinkOwn(u: Tree, s: seq<Vma>, k: nat)
    requires k < |s| && InOrder(u) == Ids(s[..k] + s[k + 1..]) && DistinctIds(s)
    requires ConsistentBut(u, s, IdAt(s, k + 1))
    ensures ConsistentBut(u, s[..k] + s[k + 1..], IdAt(s, k + 1))
  {
    var r := s[..k] + s[k + 1..];
    forall w: nat | Has(u, w) && Some(w) != IdAt(s, k + 1) ensures Own(r, w) == Own(s, w) {
      HasIndex(u, r, w);
      var i :| 0 <= i < |r| && r[i].id == w;
      assert r[i] == s[if i < k then i else i + 1];
      OwnRemoved(s, k, if i < k then i else i + 1);
    }
    Transfer(u, s, IdAt(s, k + 1), r, IdAt(s, k + 1));
  }

  /** The tree after area k is erased, when area k itself or the one after it may be stale. */
  lemma {:induction false} UnlinkTree(t: Tree, s: seq<Vma>, k: nat, x: Option<nat>)
    requires k < |s| && InOrder(t) == Ids(s) && DistinctIds(s)
    requires x == Some(s[k].id) || x == IdAt(s, k + 1)
    requires ConsistentBut(t, s, x)
    ensures InOrder(Erase(t, s[k].id, s)) == Ids(s[..k] + s[k + 1..])
    ensures ConsistentBut(Erase(t, s[k].id, s), s, IdAt(s, k + 1))
  {
    UnlinkOrder(t, s, k, s);
    var u := Erase(t, s[k].id, s);
    if x == Some(s[k].id) {
      DistinctOnce(t, s[k].id);
      EraseRepairs(t, s[k].id, s);
      Transfer(u, s, None, s, IdAt(s, k + 1));
    } else {
      EraseKeeps(t, s[k].id, s, x);
    }
  }

  lemma {:induction false} SortedInserted(s: seq<Vma>, k: nat, v: Vma)
    requires Sorted(s) && DistinctIds(s) && Fits(s, k, v.start, v.end) && v.start < v.end
    requires forall i :: 0 <= i < |s| ==> s[i].id != v.id
    ensures Sorted(s[..k] + [v] + s[k..]) && DistinctIds(s[..k] + [v] + s[k..])
  {
    var r := s[..k] + [v] + s[k..];
    forall i, j | 0 <= i < j < |r| ensures r[i].end <= r[j].start && r[i].id != r[j].id {
      assert i != k ==> r[i] == s[if i < k then i else i - 1];
      assert j != k ==> r[j] == s[if j < k then j else j - 1];
    }
  }

  /** __vma_unlink_common on the list. */
  function Drop(s: seq<Vma>, k: nat): seq<Vma>
    requires k < |s|
  {
    s[..k] + s[k + 1..]
  }

  /** __vma_unlink_common on the tree: erase the node of area k and rebalance, while the list
      still holds the area. */
  function Unlinked(t: Tree, s: seq<Vma>, k: nat, turns: seq<Turn>): Tree
    requires k < |s|
  {
    Rebalance(Erase(t, s[k].id, s), turns, s)
  }

  lemma {:induction false} UnlinkResult(t: Tree, s: seq<Vma>, k: nat, turns: seq<Turn>, x: Option<nat>)
    requires k < |s| && InOrder(t) == Ids(s) && DistinctIds(s)
    requires x == Some(s[k].id) || x == IdAt(s, k + 1)
    requires ConsistentBut(t, s, x)
    ensures InOrder(Unlinked(t, s, k, turns)) == Ids(Drop(s, k))
    ensures ConsistentBut(Unlinked(t, s, k, turns), Drop(s, k), IdAt(s, k + 1))
  {
    UnlinkTree(t, s, k, x);
    RebalanceKeeps(Erase(t, s[k].id, s), turns, s, IdAt(s, k + 1));
    UnlinkOwn(Unlinked(t, s, k, turns), s, k);
  }

  // ---------- what every operation keeps ----------

  /** The areas of an address space in its three representations: list, tree and counters.
      `nextId` is the identity of the next struct to be allocated, `anon` the anon_vma of each struct
      (absent or 0 for NULL), `held` the file references taken for this address space and not dropped. */
  datatype Space = Space(list: seq<Vma>, tree: Tree, mapCount: int, highest: nat, nextId: nat,
                         anon: map<nat, nat>, held: multiset<FileId>)

  /** The anon_vma of area i, 0 for NULL. */
  function AnonOf(sp: Space, i: nat): nat
    requires i < |sp.list|
  {
    if sp.list[i].id in sp.anon then sp.anon[sp.list[i].id] else 0
  }

  /** The list is in order, its structs are distinct, and the tree holds them in the same order. */
  ghost predicate Ordered(s: seq<Vma>, t: Tree, nextId: nat) {
    && Sorted(s) && DistinctIds(s) && (forall i :: 0 <= i < |s| ==> s[i].id < nextId)
    && InOrder(t) == Ids(s)
    && LastEnd(s) <= TASK_SIZE
  }

  /** Ordered, map_count and highest_vm_end exact, one file reference per area that maps the file,
      every cached gap true except above area x. */
  ghost predicate ShapedBut(sp: Space, x: Option<nat>) {
    && Ordered(sp.list, sp.tree, sp.nextId)
    && ConsistentBut(sp.tree, sp.list, x)
    && sp.mapCount == |sp.list|
    && sp.highest == LastEnd(sp.list)
    && sp.held == Files(sp.list)
  }

  ghost predicate Shaped(sp: Space) {
    ShapedBut(sp, None)
  }

  lemma {:induction false} UpdateShape(sp: Space, k: nat)
    requires k < |sp.list| && ShapedBut(sp, Some(sp.list[k].id))
    ensures Shaped(sp.(tree := Update(sp.tree, sp.list[k].id, sp.list)))
  {
    UpdateRepairs(sp.tree, sp.list[k].id, sp.list);
    UpdateInOrder(sp.tree, sp.list[k].id, sp.list);
  }

  lemma {:induction false} LinkShape(sp: Space, highest: nat, k: nat, v: Vma, turns: seq<Turn>)
    requires Ordered(sp.list, sp.tree, sp.nextId) && ConsistentBut(sp.tree, sp.list, IdAt(sp.list, k))
    requires sp.mapCount == |sp.list| && sp.held == Files(sp.list) + FileOf(v)
    requires Fits(sp.list, k, v.start, v.end) && v.start < v.end <= TASK_SIZE
    requires v.id < sp.nextId && forall i :: 0 <= i < |sp.list| ==> sp.list[i].id != v.id
    requires highest == if k < |sp.list| then LastEnd(sp.list) else v.end
    ensures var r := sp.list[..k] + [v] + sp.list[k..];
            Shaped(sp.(list := r, tree := Rebalance(Linked(sp.tree, sp.list, k, v), turns, r),
                       mapCount := sp.mapCount + 1, highest := highest))
  {
    hide InOrder, ConsistentBut, Rebalance, Linked, FilesOf, Ids;
    var s := sp.list;
    SortedInserted(s, k, v);
    LinkResult(sp.tree, s, k, v, turns);
    FilesInsert(s, k, v);
    var r := s[..k] + [v] + s[k..];
    forall i | 0 <= i < |r| ensures r[i].id < sp.nextId {
      assert i != k ==> r[i] == s[if i < k then i else i - 1];
    }
    assert LastEnd(r) == if k < |s| then LastEnd(s) else v.end;
  }

  /** vma_link: splice the area into the list, taking its successor from the tree parent when it
      has no predecessor; then update the gap after it, insert its node and rebalance.
      On entry the gap after it may be stale, and highest_vm_end too when it goes last; the caller
      has taken the file reference of the area. */
  method VmaLink(sp: Space, v: Vma, prev: int, link: nat, parent: int) returns (r: Space)
    requires Ordered(sp.list, sp.tree, sp.nextId) && ConsistentBut(sp.tree, sp.list, IdAt(sp.list, link))
    requires sp.mapCount == |sp.list| && sp.held == Files(sp.list) + FileOf(v)
    requires link < |sp.list| ==> sp.highest == LastEnd(sp.list)
    requires link == prev + 1 && Fits(sp.list, link, v.start, v.end) && v.start < v.end <= TASK_SIZE
    requires prev == -1 ==> parent == if sp.list == [] then -1 else 0
    requires v.id < sp.nextId && forall i :: 0 <= i < |sp.list| ==> sp.list[i].id != v.id
    ensures Shaped(r) && r.nextId == sp.nextId
    ensures r.list == sp.list[..link] + [v] + sp.list[link..]
  {
    var list, tree, highest := sp.list, sp.tree, sp.highest;
    if prev >= 0 {
      list := list[..prev + 1] + [v] + list[prev + 1..];
    } else {
      list := [v] + (if parent >= 0 then list[parent..] else []);
    }
    assert list == sp.list[..link] + [v] + sp.list[link..];
    if link + 1 < |list| {
      assert list[link + 1] == sp.list[link];
      tree := Update(tree, list[link + 1].id, list);
    } else {
      highest := v.end;
    }
    tree := Hang(tree, link, v.id);
    tree := Update(tree, v.id, list);
    assert tree == Linked(sp.tree, sp.list, link, v);
    var turns: seq<Turn> := *;
    tree := Rebalance(tree, turns, list);
    r := sp.(list := list, tree := tree, mapCount := sp.mapCount + 1, highest := highest);
    LinkShape(sp, highest, link, v, turns);
  }
}
