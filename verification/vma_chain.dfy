/** The list of areas as it is linked: mm->mmap and the vm_next and vm_prev pointers of the structs.

    A chain spells a sequence of structs when its pointers run through them forward and backward. Linking,
    unlinking and detaching are the edits of that sequence that the other modules work with. */
module VmaChain {
  import opened Areas
  import opened GapTree
  import VmaIndex
  import Munmap

  /** Entry i of the sequence, None outside. */
  function Nth(ids: seq<nat>, i: int): Option<nat> {
    if 0 <= i < |ids| then Some(ids[i]) else None
  }

  predicate Distinct(ids: seq<nat>) {
    forall i, j :: 0 <= i < j < |ids| ==> ids[i] != ids[j]
  }

  /** vm_next runs through the structs, to None after the last. */
  ghost predicate Forward(next: map<nat, Option<nat>>, ids: seq<nat>) {
    forall i {:trigger next[ids[i]]} {:trigger ids[i] in next} :: 0 <= i < |ids| ==>
        ids[i] in next && next[ids[i]] == Nth(ids, i + 1)
  }

  /** vm_prev runs back, to None before the first. */
  ghost predicate Backward(prev: map<nat, Option<nat>>, ids: seq<nat>) {
    forall i {:trigger prev[ids[i]]} {:trigger ids[i] in prev} :: 0 <= i < |ids| ==>
        ids[i] in prev && prev[ids[i]] == Nth(ids, i - 1)
  }

  // ---------- the edits of the sequence, entry by entry ----------

  function Linked(ids: seq<nat>, vma: nat, k: nat): seq<nat>
    requires k <= |ids|
  {
    ids[..k] + [vma] + ids[k..]
  }

  function Dropped(ids: seq<nat>, a: nat, b: nat): seq<nat>
    requires a <= b <= |ids|
  {
    ids[..a] + ids[b..]
  }

  lemma {:induction false} LinkedAt(ids: seq<nat>, vma: nat, k: nat, i: int)
    requires k <= |ids|
    ensures |Linked(ids, vma, k)| == |ids| + 1
    ensures Nth(Linked(ids, vma, k), i) == if i < k then Nth(ids, i) else if i == k then Some(vma) else Nth(ids, i - 1)
  {
  }

  lemma {:induction false} DroppedAt(ids: seq<nat>, a: nat, b: nat, i: int)
    requires a <= b <= |ids|
    ensures |Dropped(ids, a, b)| == |ids| - (b - a)
    ensures Nth(Dropped(ids, a, b), i) == if i < a then Nth(ids, i) else Nth(ids, i - a + b)
  {
  }

  lemma {:induction false} LinkedDistinct(ids: seq<nat>, vma: nat, k: nat)
    requires k <= |ids| && Distinct(ids) && vma !in ids
    ensures Distinct(Linked(ids, vma, k))
  {
  }

  lemma {:induction false} DroppedDistinct(ids: seq<nat>, a: nat, b: nat)
    requires a <= b <= |ids| && Distinct(ids)
    ensures Distinct(Dropped(ids, a, b))
  {
  }

  lemma {:induction false} LinkForward(next: map<nat, Option<nat>>, ids: seq<nat>, vma: nat, k: nat)
    requires k <= |ids| && Distinct(ids) && vma !in ids && Forward(next, ids)
    ensures Forward((if k > 0 then next[ids[k - 1] := Some(vma)] else next)[vma := Nth(ids, k)], Linked(ids, vma, k))
  {
    hide Linked;
    var n2, r := (if k > 0 then next[ids[k - 1] := Some(vma)] else next)[vma := Nth(ids, k)], Linked(ids, vma, k);
    LinkedAt(ids, vma, k, 0);
    forall i | 0 <= i < |r| ensures r[i] in n2 && n2[r[i]] == Nth(r, i + 1) {
      LinkedAt(ids, vma, k, i);
      LinkedAt(ids, vma, k, i + 1);
      if i < k { assert r[i] == ids[i]; } else if i > k { assert r[i] == ids[i - 1]; }
    }
  }

  lemma {:induction false} LinkBackward(prev: map<nat, Option<nat>>, ids: seq<nat>, vma: nat, k: nat)
    requires k <= |ids| && Distinct(ids) && vma !in ids && Backward(prev, ids)
    ensures var p := prev[vma := Nth(ids, k - 1)];
            Backward(if k < |ids| then p[ids[k] := Some(vma)] else p, Linked(ids, vma, k))
  {
    hide Linked;
    var p := prev[vma := Nth(ids, k - 1)];
    var p2, r := if k < |ids| then p[ids[k] := Some(vma)] else p, Linked(ids, vma, k);
    LinkedAt(ids, vma, k, 0);
    forall i | 0 <= i < |r| ensures r[i] in p2 && p2[r[i]] == Nth(r, i - 1) {
      LinkedAt(ids, vma, k, i);
      LinkedAt(ids, vma, k, i - 1);
      if i < k { assert r[i] == ids[i]; } else if i > k { assert r[i] == ids[i - 1]; }
    }
  }

  lemma {:induction false} DropForward(next: map<nat, Option<nat>>, ids: seq<nat>, a: nat, b: nat)
    requires a <= b <= |ids| && Distinct(ids) && Forward(next, ids)
    ensures Forward(if a > 0 then next[ids[a - 1] := Nth(ids, b)] else next, Dropped(ids, a, b))
  {
    hide Dropped;
    var n2, r := if a > 0 then next[ids[a - 1] := Nth(ids, b)] else next, Dropped(ids, a, b);
    DroppedAt(ids, a, b, 0);
    forall i | 0 <= i < |r| ensures r[i] in n2 && n2[r[i]] == Nth(r, i + 1) {
      DroppedAt(ids, a, b, i);
      DroppedAt(ids, a, b, i + 1);
      if i < a { assert r[i] == ids[i]; } else { assert r[i] == ids[i - a + b]; }
    }
  }

  lemma {:induction false} DropBackward(prev: map<nat, Option<nat>>, ids: seq<nat>, a: nat, b: nat)
    requires a <= b <= |ids| && Distinct(ids) && Backward(prev, ids)
    ensures Backward(if b < |ids| then prev[ids[b] := Nth(ids, a - 1)] else prev, Dropped(ids, a, b))
  {
    hide Dropped;
    var p2, r := if b < |ids| then prev[ids[b] := Nth(ids, a - 1)] else prev, Dropped(ids, a, b);
    DroppedAt(ids, a, b, 0);
    forall i | 0 <= i < |r| ensures r[i] in p2 && p2[r[i]] == Nth(r, i - 1) {
      DroppedAt(ids, a, b, i);
      DroppedAt(ids, a, b, i - 1);
      if i < a { assert r[i] == ids[i]; } else { assert r[i] == ids[i - a + b]; }
    }
  }

  /** Pointers of other structs do not matter. */
  lemma {:induction false} ForwardElse(next: map<nat, Option<nat>>, ids: seq<nat>, x: nat, e: Option<nat>)
    requires Forward(next, ids) && x !in ids
    ensures Forward(next[x := e], ids)
  {
  }

  lemma {:induction false} BackwardElse(prev: map<nat, Option<nat>>, ids: seq<nat>, x: nat, e: Option<nat>)
    requires Backward(prev, ids) && x !in ids
    ensures Backward(prev[x := e], ids)
  {
  }

  // ---------- the pointers ----------

  class Chain {
    /** mm->mmap */
    var head: Option<nat>
    var next: map<nat, Option<nat>>
    var prev: map<nat, Option<nat>>

    constructor ()
      ensures Spells([])
    {
      head, next, prev := None, map[], map[];
    }

    ghost predicate Spells(ids: seq<nat>)
      reads this
    {
      Distinct(ids) && head == Nth(ids, 0) && Forward(next, ids) && Backward(prev, ids)
    }

    /** __vma_link_list: behind `before`, or first; the next area is then the one the tree parent stands for. */
    method LinkList(vma: nat, before: Option<nat>, parent: Option<nat>, ghost ids: seq<nat>, ghost k: nat)
      requires Spells(ids) && vma !in ids && k <= |ids| && before == Nth(ids, k - 1)
               && (k == 0 ==> parent == Nth(ids, 0))
      modifies this
      ensures Spells(Linked(ids, vma, k))
    {
      LinkForward(next, ids, vma, k);
      LinkBackward(prev, ids, vma, k);
      LinkedDistinct(ids, vma, k);
      LinkedAt(ids, vma, k, 0);
      assert k > 0 ==> ids[k - 1] in next && next[ids[k - 1]] == Nth(ids, k - 1 + 1);
      hide Forward, Backward, Linked, Distinct;
      prev := prev[vma := before];
      var after;
      if before.Some? {
        after := next[before.value];
        next := next[before.value := Some(vma)];
      } else {
        head := Some(vma);
        after := parent;
      }
      next := next[vma := after];
      if after.Some? { prev := prev[after.value := Some(vma)]; }
    }

    /** The pointers of __vma_unlink_common. With `hasPrev` the caller says which struct is in front. */
    method Unlink(vma: nat, hasPrev: bool, before: Option<nat>, ghost ids: seq<nat>, ghost k: nat)
      requires Spells(ids) && k < |ids| && ids[k] == vma && (hasPrev ==> before.Some? && before == Nth(ids, k - 1))
      modifies this
      ensures Spells(Dropped(ids, k, k + 1))
    {
      DropForward(next, ids, k, k + 1);
      DropBackward(prev, ids, k, k + 1);
      DroppedDistinct(ids, k, k + 1);
      DroppedAt(ids, k, k + 1, 0);
      assert ids[k] in next && next[ids[k]] == Nth(ids, k + 1) && ids[k] in prev && prev[ids[k]] == Nth(ids, k - 1);
      hide Forward, Backward, Dropped, Distinct;
      var after := next[vma];
      var front := if hasPrev then before else prev[vma];
      if front.Some? {
        next := next[front.value := after];
      } else {
        head := after;
      }
      if after.Some? { prev := prev[after.value := front]; }
    }

    /** The pointers of detach_vmas_to_be_unmapped: the structs from `first` on that are to go are cut out in one
        piece, which is a chain of its own afterwards. */
    method Detach(first: nat, before: Option<nat>, going: set<nat>, ghost ids: seq<nat>, ghost a: nat, ghost b: nat)
      requires Spells(ids) && a < b <= |ids| && ids[a] == first && before == Nth(ids, a - 1)
      requires forall i :: a <= i < |ids| ==> (ids[i] in going <==> i < b)
      modifies this
      ensures Spells(Dropped(ids, a, b))
      ensures Forward(next, ids[a..b]) && Backward(prev, ids[a..b])
    {
      var vma, tail := Some(first), first;
      ghost var k := a;
      while vma.Some? && vma.value in going
        invariant a <= k <= b && vma == Nth(ids, k) && (k > a ==> tail == ids[k - 1])
        decreases b - k
        modifies {}
      {
        tail := vma.value;
        assert next[ids[k]] == Nth(ids, k + 1);
        vma := next[tail];
        k := k + 1;
      }
      DetachForward(next, ids, a, b);
      DetachBackward(prev, ids, a, b);
      DroppedDistinct(ids, a, b);
      DroppedAt(ids, a, b, 0);
      hide Forward, Backward, Dropped, Distinct;
      prev := prev[first := None];
      if before.Some? { next := next[before.value := vma]; } else { head := vma; }
      if vma.Some? { prev := prev[vma.value := before]; }
      next := next[tail := None];
    }
  }

  lemma {:induction false} DetachForward(next: map<nat, Option<nat>>, ids: seq<nat>, a: nat, b: nat)
    requires a < b <= |ids| && Distinct(ids) && Forward(next, ids)
    ensures var n2 := (if a > 0 then next[ids[a - 1] := Nth(ids, b)] else next)[ids[b - 1] := None];
            Forward(n2, Dropped(ids, a, b)) && Forward(n2, ids[a..b])
  {
    hide Dropped;
    DropForward(next, ids, a, b);
    NotDropped(ids, a, b, b - 1);
    ForwardElse(if a > 0 then next[ids[a - 1] := Nth(ids, b)] else next, Dropped(ids, a, b), ids[b - 1], None);
  }

  lemma {:induction false} DetachBackward(prev: map<nat, Option<nat>>, ids: seq<nat>, a: nat, b: nat)
    requires a < b <= |ids| && Distinct(ids) && Backward(prev, ids)
    ensures var p := prev[ids[a] := None];
            var p2 := if b < |ids| then p[ids[b] := Nth(ids, a - 1)] else p;
            Backward(p2, Dropped(ids, a, b)) && Backward(p2, ids[a..b])
  {
    hide Dropped;
    DropBackward(prev, ids, a, b);
    NotDropped(ids, a, b, a);
    var p := if b < |ids| then prev[ids[b] := Nth(ids, a - 1)] else prev;
    BackwardElse(p, Dropped(ids, a, b), ids[a], None);
    assert p[ids[a] := None] == if b < |ids| then prev[ids[a] := None][ids[b] := Nth(ids, a - 1)]
                                else prev[ids[a] := None];
  }

  lemma {:induction false} NotDropped(ids: seq<nat>, a: nat, b: nat, i: nat)
    requires a <= i < b <= |ids| && Distinct(ids)
    ensures ids[i] !in Dropped(ids, a, b)
  {
  }

  // ---------- the list of areas ----------

  /** Linking an area into the list links its struct. */
  lemma {:induction false} LinkedIds(s: seq<Vma>, v: Vma, k: nat)
    requires k <= |s|
    ensures Ids(s[..k] + [v] + s[k..]) == Linked(Ids(s), v.id, k)
  {
  }

  /** Taking a stretch of areas out of the list drops their structs. */
  lemma {:induction false} DroppedIds(s: seq<Vma>, a: nat, b: nat)
    requires a <= b <= |s|
    ensures Ids(s[..a] + s[b..]) == Dropped(Ids(s), a, b)
  {
  }

  /** Linking an area links its struct in the chain: list, tree and pointers go on saying the same. */
  method LinkBoth(chain: Chain, sp: VmaIndex.Space, v: Vma, prev: int, link: nat, parent: int)
    returns (r: VmaIndex.Space)
    requires chain.Spells(Ids(sp.list))
    requires VmaIndex.Ordered(sp.list, sp.tree, sp.nextId)
             && ConsistentBut(sp.tree, sp.list, VmaIndex.IdAt(sp.list, link))
    requires sp.mapCount == |sp.list| && sp.held == Files(sp.list) + FileOf(v)
    requires link < |sp.list| ==> sp.highest == LastEnd(sp.list)
    requires link == prev + 1 && VmaIndex.Fits(sp.list, link, v.start, v.end) && v.start < v.end <= TASK_SIZE
    requires prev == -1 ==> parent == if sp.list == [] then -1 else 0
    requires v.id < sp.nextId && forall i :: 0 <= i < |sp.list| ==> sp.list[i].id != v.id
    modifies chain
    ensures VmaIndex.Shaped(r) && r.list == sp.list[..link] + [v] + sp.list[link..] && chain.Spells(Ids(r.list))
  {
    hide Files, FileOf, InOrder, ConsistentBut;
    var before := if prev >= 0 then Some(sp.list[prev].id) else None;
    var first := if parent >= 0 && prev < 0 then Some(sp.list[parent].id) else None;
    LinkedIds(sp.list, v, link);
    chain.LinkList(v.id, before, first, Ids(sp.list), link);
    r := VmaIndex.VmaLink(sp, v, prev, link, parent);
  }

  /** Detaching areas detaches their structs, which are a chain of their own afterwards. */
  method DetachBoth(chain: Chain, sp: VmaIndex.Space, first: nat, end: nat) returns (r: VmaIndex.Space, last: nat)
    requires chain.Spells(Ids(sp.list)) && VmaIndex.Shaped(sp) && first < |sp.list| && sp.list[first].start < end
    modifies chain
    ensures first < last <= |sp.list| && r.list == Munmap.Rest(sp.list, first, last) && chain.Spells(Ids(r.list))
    ensures Munmap.Detached(r, sp.list[first..last])
    ensures Forward(chain.next, Ids(sp.list)[first..last]) && Backward(chain.prev, Ids(sp.list)[first..last])
  {
    hide Files, InOrder, ConsistentBut, Munmap.Detached;
    r, last := Munmap.DetachVmas(sp, first, end);
    DroppedIds(sp.list, first, last);
    var going := set i | first <= i < last :: sp.list[i].id;
    Going(sp.list, first, last, going);
    var before := if first > 0 then Some(sp.list[first - 1].id) else None;
    chain.Detach(sp.list[first].id, before, going, Ids(sp.list), first, last);
  }

  lemma {:induction false} Going(s: seq<Vma>, a: nat, b: nat, going: set<nat>)
    requires a <= b <= |s| && Distinct(Ids(s)) && going == set i | a <= i < b :: s[i].id
    ensures forall i :: a <= i < |s| ==> (Ids(s)[i] in going <==> i < b)
  {
    forall i | a <= i < |s| ensures Ids(s)[i] in going <==> i < b {
      assert Ids(s)[i] == s[i].id;
      if i >= b {
        forall j | a <= j < b ensures s[j].id != s[i].id { assert Ids(s)[j] == s[j].id; }
      }
    }
  }
}
