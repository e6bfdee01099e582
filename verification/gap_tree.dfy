/** The search tree over the areas, each node caching the largest gap in its subtree.

    A node names an area struct by its id; the fields of the struct are looked up in the
    list. Balancing is left open: any sequence of rotations may follow an insertion or a
    removal. */
module GapTree {
  import opened Areas

  datatype Tree = Leaf | Node(left: Tree, id: nat, gap: nat, right: Tree)

  function Size(t: Tree): nat {
    if t.Leaf? then 0 else Size(t.left) + 1 + Size(t.right)
  }

  function InOrder(t: Tree): (ids: seq<nat>)
    ensures |ids| == Size(t)
  {
    if t.Leaf? then [] else InOrder(t.left) + [t.id] + InOrder(t.right)
  }

  predicate Has(t: Tree, x: nat) {
    t.Node? && (t.id == x || Has(t.left, x) || Has(t.right, x))
  }

  lemma {:induction false} HasInOrder(t: Tree, x: nat)
    ensures Has(t, x) <==> x in InOrder(t)
  {
    if t.Node? {
      HasInOrder(t.left, x);
      HasInOrder(t.right, x);
    }
  }

  // ---------- gaps ----------

  /** One more than the highest address, in pages: 64-bit addresses and 4096-byte pages. */
  const SPACE: nat := 0x10_0000_0000_0000

  /** vm_start minus the end of the previous area, as unsigned subtraction. */
  function GapAt(s: seq<Vma>, i: nat): nat
    requires i < |s|
  {
    Minus(s[i].start, if i == 0 then 0 else s[i - 1].end)
  }

  /** Unsigned subtraction of addresses. */
  function Minus(a: nat, b: nat): nat {
    if b <= a then a - b else (a - b) % SPACE
  }

  function IndexFrom(s: seq<Vma>, id: nat, from: nat): (i: nat)
    requires from <= |s|
    ensures from <= i <= |s|
    ensures i < |s| ==> s[i].id == id
    decreases |s| - from
  {
    if from == |s| || s[from].id == id then from else IndexFrom(s, id, from + 1)
  }

  /** The place of the area with this id, |s| if there is none. */
  function IndexOf(s: seq<Vma>, id: nat): (i: nat)
    ensures i <= |s|
    ensures i < |s| ==> s[i].id == id
  {
    IndexFrom(s, id, 0)
  }

  /** The gap in front of the area with this id. */
  function Own(s: seq<Vma>, id: nat): nat {
    var i := IndexOf(s, id);
    if i < |s| then GapAt(s, i) else 0
  }

  function Gap(t: Tree): nat {
    if t.Leaf? then 0 else t.gap
  }

  function Max(a: nat, b: nat): nat {
    if a < b then b else a
  }

  /** vma_compute_subtree_gap: the area's own gap against the caches of its children. */
  function Compute(left: Tree, own: nat, right: Tree): nat {
    Max(Max(own, Gap(left)), Gap(right))
  }

  /** Every cached gap is what Compute gives, except possibly at area x and above it. */
  ghost predicate ConsistentBut(t: Tree, s: seq<Vma>, x: Option<nat>) {
    t.Node? ==>
      && ((x.Some? && Has(t, x.value)) || t.gap == Compute(t.left, Own(s, t.id), t.right))
      && ConsistentBut(t.left, s, x)
      && ConsistentBut(t.right, s, x)
  }

  ghost predicate Consistent(t: Tree, s: seq<Vma>) {
    ConsistentBut(t, s, None)
  }

  /** The cached gap of a consistent tree is the largest gap in front of one of its areas. */
  lemma {:induction false} GapIsLargest(t: Tree, s: seq<Vma>)
    requires Consistent(t, s)
    ensures forall id: nat :: Has(t, id) ==> Own(s, id) <= Gap(t)
    ensures t.Node? ==> exists id: nat :: Has(t, id) && Own(s, id) == t.gap
  {
    if t.Node? {
      GapIsLargest(t.left, s);
      GapIsLargest(t.right, s);
      assert Has(t, t.id);
    }
  }

  /** Consistency depends only on the gaps in front of the areas in the tree. */
  lemma {:induction false} Transfer(t: Tree, s: seq<Vma>, x: Option<nat>, s2: seq<Vma>, x2: Option<nat>)
    requires ConsistentBut(t, s, x)
    requires x.Some? && Has(t, x.value) ==> x2 == x
    requires forall id: nat :: Has(t, id) && Some(id) != x2 ==> Own(s2, id) == Own(s, id)
    ensures ConsistentBut(t, s2, x2)
  {
    if t.Node? {
      assert Has(t, t.id);
      Transfer(t.left, s, x, s2, x2);
      Transfer(t.right, s, x, s2, x2);
    }
  }

  // ---------- vma_gap_update ----------

  /** Recompute the cache of area k and of every node above it. */
  function Update(t: Tree, k: nat, s: seq<Vma>): Tree {
    if t.Leaf? || !Has(t, k) then t
    else
      var l, r := Update(t.left, k, s), Update(t.right, k, s);
      Node(l, t.id, Compute(l, Own(s, t.id), r), r)
  }

  lemma {:induction false} UpdateInOrder(t: Tree, k: nat, s: seq<Vma>)
    ensures InOrder(Update(t, k, s)) == InOrder(t)
  {
    if t.Node? {
      UpdateInOrder(t.left, k, s);
      UpdateInOrder(t.right, k, s);
    }
  }

  lemma {:induction false} UpdateRepairs(t: Tree, k: nat, s: seq<Vma>)
    requires ConsistentBut(t, s, Some(k))
    ensures Consistent(Update(t, k, s), s)
  {
    if !Has(t, k) {
      Transfer(t, s, Some(k), s, None);
    } else {
      UpdateRepairs(t.left, k, s);
      UpdateRepairs(t.right, k, s);
    }
  }

  // ---------- cutting a concatenation ----------

  lemma {:induction false} PutRight<T>(l: seq<T>, r: seq<T>, j: nat, x: T)
    requires j <= |r|
    ensures (l + r)[..|l| + j] + [x] + (l + r)[|l| + j..] == l + (r[..j] + [x] + r[j..])
  {
    assert (l + r)[..|l| + j] == l + r[..j];
    assert (l + r)[|l| + j..] == r[j..];
  }

  lemma {:induction false} PutLeft<T>(l: seq<T>, r: seq<T>, j: nat, x: T)
    requires j <= |l|
    ensures (l + r)[..j] + [x] + (l + r)[j..] == (l[..j] + [x] + l[j..]) + r
  {
    assert (l + r)[..j] == l[..j];
    assert (l + r)[j..] == l[j..] + r;
  }

  // ---------- linking a new node ----------

  /** rb_link_node: a node at the empty link with k areas in front of it. Its cache is 0 and no other changes. */
  function Hang(t: Tree, k: nat, id: nat): Tree {
    if t.Leaf? then Node(Leaf, id, 0, Leaf)
    else if k <= Size(t.left) then Node(Hang(t.left, k, id), t.id, t.gap, t.right)
    else Node(t.left, t.id, t.gap, Hang(t.right, k - Size(t.left) - 1, id))
  }

  /** The node is hung up, and then vma_gap_update goes up from it. */
  function Insert(t: Tree, k: nat, id: nat, s: seq<Vma>): Tree {
    Update(Hang(t, k, id), id, s)
  }

  lemma {:induction false} HangInOrder(t: Tree, k: nat, id: nat)
    requires k <= Size(t)
    ensures InOrder(Hang(t, k, id)) == InOrder(t)[..k] + [id] + InOrder(t)[k..]
  {
    if t.Node? {
      var l, m, r := InOrder(t.left), [t.id], InOrder(t.right);
      if k <= Size(t.left) {
        HangInOrder(t.left, k, id);
        PutLeft(l + m, r, k, id);
        PutLeft(l, m, k, id);
      } else {
        HangInOrder(t.right, k - Size(t.left) - 1, id);
        PutRight(l + m, r, k - Size(t.left) - 1, id);
      }
    }
  }

  lemma {:induction false} InsertInOrder(t: Tree, k: nat, id: nat, s: seq<Vma>)
    requires k <= Size(t)
    ensures InOrder(Insert(t, k, id, s)) == InOrder(t)[..k] + [id] + InOrder(t)[k..]
  {
    HangInOrder(t, k, id);
    UpdateInOrder(Hang(t, k, id), id, s);
  }

  /** A new node makes stale no caches but its own and those above it. */
  lemma {:induction false} HangStale(t: Tree, k: nat, id: nat, s: seq<Vma>)
    requires Consistent(t, s)
    ensures ConsistentBut(Hang(t, k, id), s, Some(id)) && Has(Hang(t, k, id), id)
  {
    if t.Node? {
      if k <= Size(t.left) {
        HangStale(t.left, k, id, s);
        Transfer(t.right, s, None, s, Some(id));
      } else {
        HangStale(t.right, k - Size(t.left) - 1, id, s);
        Transfer(t.left, s, None, s, Some(id));
      }
    }
  }

  lemma {:induction false} InsertConsistent(t: Tree, k: nat, id: nat, s: seq<Vma>)
    requires Consistent(t, s)
    ensures Consistent(Insert(t, k, id, s), s)
  {
    HangStale(t, k, id, s);
    UpdateRepairs(Hang(t, k, id), id, s);
  }

  // ---------- removing a node ----------

  /** Take the first node out of a non-empty tree, recomputing the caches above it. */
  function PopFirst(t: Tree, s: seq<Vma>): (nat, Tree)
    requires t.Node?
  {
    if t.left.Leaf? then (t.id, t.right)
    else
      var (first, l) := PopFirst(t.left, s);
      (first, Node(l, t.id, Compute(l, Own(s, t.id), t.right), t.right))
  }

  /** The subtrees of a removed node, joined under the successor when both exist. */
  function Join(left: Tree, right: Tree, s: seq<Vma>): Tree {
    if right.Leaf? then left
    else if left.Leaf? then right
    else
      var (next, r) := PopFirst(right, s);
      Node(left, next, Compute(left, Own(s, next), r), r)
  }

  /** Take area k out, recomputing the caches above it. */
  function Erase(t: Tree, k: nat, s: seq<Vma>): Tree {
    if !Has(t, k) then t
    else if Has(t.left, k) then
      var l := Erase(t.left, k, s);
      Node(l, t.id, Compute(l, Own(s, t.id), t.right), t.right)
    else if t.id == k then Join(t.left, t.right, s)
    else
      var r := Erase(t.right, k, s);
      Node(t.left, t.id, Compute(t.left, Own(s, t.id), r), r)
  }

  /** The sequence without the first occurrence of x. */
  function Without(q: seq<nat>, x: nat): seq<nat> {
    if q == [] then [] else if q[0] == x then q[1..] else [q[0]] + Without(q[1..], x)
  }

  lemma {:induction false} WithoutConcat(a: seq<nat>, c: seq<nat>, x: nat)
    ensures Without(a + c, x) == if x in a then Without(a, x) + c else a + Without(c, x)
  {
    if a == [] {
      assert a + c == c;
    } else {
      assert (a + c)[1..] == a[1..] + c;
      assert x in a <==> x == a[0] || x in a[1..];
      WithoutConcat(a[1..], c, x);
      assert (a + c)[0] == a[0];
      if a[0] != x {
        assert Without(a + c, x) == [a[0]] + Without(a[1..] + c, x);
        WithoutStep(a, c, x);
      } else {
        assert Without(a + c, x) == (a + c)[1..];
        assert Without(a, x) == a[1..];
      }
    }
  }

  lemma {:induction false} WithoutStep(a: seq<nat>, c: seq<nat>, x: nat)
    requires a != [] && a[0] != x
    ensures [a[0]] + (if x in a[1..] then Without(a[1..], x) + c else a[1..] + Without(c, x)) ==
            if x in a then Without(a, x) + c else a + Without(c, x)
  {
    hide Without;
    assert x in a <==> x in a[1..];
    assert Without(a, x) == [a[0]] + Without(a[1..], x) by { WithoutHead(a, x); }
    assert a == [a[0]] + a[1..];
    if x in a {
      assert [a[0]] + (Without(a[1..], x) + c) == [a[0]] + Without(a[1..], x) + c;
    } else {
      assert [a[0]] + (a[1..] + Without(c, x)) == [a[0]] + a[1..] + Without(c, x);
    }
  }

  lemma {:induction false} WithoutHead(a: seq<nat>, x: nat)
    requires a != [] && a[0] != x
    ensures Without(a, x) == [a[0]] + Without(a[1..], x)
  {
  }

  lemma {:induction false} WithoutMiddle(l: seq<nat>, m: nat, r: seq<nat>, x: nat)
    ensures Without(l + [m] + r, x) ==
            if x in l then Without(l, x) + [m] + r else if m == x then l + r else l + [m] + Without(r, x)
  {
    WithoutConcat(l + [m], r, x);
    WithoutConcat(l, [m], x);
  }

  lemma {:induction false} WithoutAt(q: seq<nat>, i: nat)
    requires i < |q| && forall j :: 0 <= j < i ==> q[j] != q[i]
    ensures Without(q, q[i]) == q[..i] + q[i + 1..]
  {
    if i > 0 {
      WithoutAt(q[1..], i - 1);
      assert q[1..][..i - 1] == q[1..i];
    }
  }

  lemma {:induction false} PopFirstInOrder(t: Tree, s: seq<Vma>)
    requires t.Node?
    ensures InOrder(t) == [PopFirst(t, s).0] + InOrder(PopFirst(t, s).1)
  {
    if t.left.Node? { PopFirstInOrder(t.left, s); }
  }

  lemma {:induction false} JoinInOrder(left: Tree, right: Tree, s: seq<Vma>)
    ensures InOrder(Join(left, right, s)) == InOrder(left) + InOrder(right)
  {
    if right.Node? && left.Node? { PopFirstInOrder(right, s); }
  }

  lemma {:induction false} EraseInOrder(t: Tree, k: nat, s: seq<Vma>)
    requires Has(t, k)
    ensures InOrder(Erase(t, k, s)) == Without(InOrder(t), k)
  {
    HasInOrder(t.left, k);
    WithoutMiddle(InOrder(t.left), t.id, InOrder(t.right), k);
    if Has(t.left, k) {
      EraseInOrder(t.left, k, s);
    } else if t.id == k {
      JoinInOrder(t.left, t.right, s);
    } else {
      EraseInOrder(t.right, k, s);
    }
  }

  /** Area k has at most one node. */
  predicate Once(t: Tree, k: nat) {
    t.Node? ==>
      && (Has(t.left, k) ==> t.id != k && !Has(t.right, k))
      && (t.id == k ==> !Has(t.right, k))
      && Once(t.left, k) && Once(t.right, k)
  }

  lemma {:induction false} DistinctOnce(t: Tree, k: nat)
    requires forall i, j :: 0 <= i < j < Size(t) ==> InOrder(t)[i] != InOrder(t)[j]
    ensures Once(t, k)
  {
    if t.Node? {
      var q, l, r := InOrder(t), InOrder(t.left), InOrder(t.right);
      var n := Size(t.left);
      assert forall i :: 0 <= i < n ==> q[i] == l[i];
      assert q[n] == t.id;
      assert forall i :: 0 <= i < |r| ==> r[i] == q[n + 1 + i];
      HasInOrder(t.left, k);
      HasInOrder(t.right, k);
      DistinctOnce(t.left, k);
      DistinctOnce(t.right, k);
    }
  }

  lemma {:induction false} PopFirstConsistent(t: Tree, s: seq<Vma>, x: Option<nat>)
    requires t.Node? && ConsistentBut(t, s, x)
    ensures ConsistentBut(PopFirst(t, s).1, s, x)
  {
    if t.left.Node? { PopFirstConsistent(t.left, s, x); }
  }

  /** Removing area k leaves the caches consistent but at x. */
  lemma {:induction false} EraseKeeps(t: Tree, k: nat, s: seq<Vma>, x: Option<nat>)
    requires ConsistentBut(t, s, x)
    ensures ConsistentBut(Erase(t, k, s), s, x)
  {
    if Has(t, k) {
      if Has(t.left, k) {
        EraseKeeps(t.left, k, s, x);
      } else if t.id == k {
        if t.right.Node? { PopFirstConsistent(t.right, s, x); }
      } else {
        EraseKeeps(t.right, k, s, x);
      }
    }
  }

  /** Removing the one area whose cache may be stale leaves every cache consistent. */
  lemma {:induction false} EraseRepairs(t: Tree, k: nat, s: seq<Vma>)
    requires ConsistentBut(t, s, Some(k)) && Has(t, k) && Once(t, k)
    ensures Consistent(Erase(t, k, s), s)
  {
    if Has(t.left, k) {
      EraseRepairs(t.left, k, s);
      Transfer(t.right, s, Some(k), s, None);
    } else {
      Transfer(t.left, s, Some(k), s, None);
      if t.id == k {
        Transfer(t.right, s, Some(k), s, None);
        if t.right.Node? { PopFirstConsistent(t.right, s, None); }
      } else {
        EraseRepairs(t.right, k, s);
      }
    }
  }

  // ---------- rebalancing ----------

  /** Rotate the node at `path`: with `up` true its left child rises, otherwise its right child. */
  datatype Turn = Turn(path: seq<bool>, up: bool)

  /** A rotation copies the cache of the old root to the new one and recomputes the old root's. */
  function Rotate(t: Tree, path: seq<bool>, up: bool, s: seq<Vma>): Tree {
    if t.Leaf? then t
    else if path != [] && path[0] then t.(right := Rotate(t.right, path[1..], up, s))
    else if path != [] then t.(left := Rotate(t.left, path[1..], up, s))
    else if up && t.left.Node? then
      var l := t.left;
      Node(l.left, l.id, t.gap, Node(l.right, t.id, Compute(l.right, Own(s, t.id), t.right), t.right))
    else if !up && t.right.Node? then
      var r := t.right;
      Node(Node(t.left, t.id, Compute(t.left, Own(s, t.id), r.left), r.left), r.id, t.gap, r.right)
    else t
  }

  lemma {:induction false} RotateInOrder(t: Tree, path: seq<bool>, up: bool, s: seq<Vma>)
    ensures InOrder(Rotate(t, path, up, s)) == InOrder(t)
  {
    if t.Node? && path != [] {
      RotateInOrder(if path[0] then t.right else t.left, path[1..], up, s);
    }
  }

  /** There is a node at the path with a child that can rise. */
  predicate Turns(t: Tree, path: seq<bool>, up: bool) {
    t.Node? && if path == [] then (if up then t.left else t.right).Node?
               else Turns(if path[0] then t.right else t.left, path[1..], up)
  }

  /** A rotation changes the tree, and the opposite one changes it back, caches included. */
  lemma {:induction false} RotateBack(t: Tree, path: seq<bool>, up: bool, s: seq<Vma>)
    requires Consistent(t, s) && Turns(t, path, up)
    ensures Rotate(t, path, up, s) != t && Turns(Rotate(t, path, up, s), path, !up)
    ensures Rotate(Rotate(t, path, up, s), path, !up, s) == t
  {
    if path != [] {
      RotateBack(if path[0] then t.right else t.left, path[1..], up, s);
    } else {
      var c := if up then t.left else t.right;
      assert ConsistentBut(c, s, None) && c.gap == Compute(c.left, Own(s, c.id), c.right);
      assert Size(c.left) < Size(c) && Size(c.right) < Size(c);
    }
  }

  lemma {:induction false} RotateKeeps(t: Tree, path: seq<bool>, up: bool, s: seq<Vma>, x: Option<nat>)
    requires ConsistentBut(t, s, x)
    ensures Gap(Rotate(t, path, up, s)) == Gap(t)
    ensures forall k: nat :: Has(Rotate(t, path, up, s), k) == Has(t, k)
    ensures ConsistentBut(Rotate(t, path, up, s), s, x)
  {
    if t.Node? && path != [] {
      RotateKeeps(if path[0] then t.right else t.left, path[1..], up, s, x);
    }
  }

  function Rebalance(t: Tree, turns: seq<Turn>, s: seq<Vma>): Tree
    decreases |turns|
  {
    if turns == [] then t
    else Rebalance(Rotate(t, turns[0].path, turns[0].up, s), turns[1..], s)
  }

  /** However the tree is rebalanced, its order and its caches stay right. */
  lemma {:induction false} RebalanceKeeps(t: Tree, turns: seq<Turn>, s: seq<Vma>, x: Option<nat>)
    requires ConsistentBut(t, s, x)
    ensures InOrder(Rebalance(t, turns, s)) == InOrder(t)
    ensures ConsistentBut(Rebalance(t, turns, s), s, x)
    decreases |turns|
  {
    if turns != [] {
      RotateInOrder(t, turns[0].path, turns[0].up, s);
      RotateKeeps(t, turns[0].path, turns[0].up, s, x);
      RebalanceKeeps(Rotate(t, turns[0].path, turns[0].up, s), turns[1..], s, x);
    }
  }
}
