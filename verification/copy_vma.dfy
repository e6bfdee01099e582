/** copy_vma: a copy of an area at a new place in the same address space. */
module CopyVma {
  import opened VmFlags
  import opened Areas
  import opened GapTree
  import opened VmaIndex
  import opened Merge
  import opened Edits
  import opened Mmap

  /** What the copy maps. An anonymous area that was never faulted in gets offsets to match the new place. */
  function CopyRequest(v: Vma, unfaulted: bool, addr: nat, end: nat, pgoff: nat): Request {
    Request(addr, end, v.flags, v.file, if unfaulted then addr else pgoff, v.tag)
  }

  /** Area `sv` of r is the source area v of s as it was, or area `nv` that has taken it in. */
  ghost predicate Located(s: seq<Vma>, r: seq<Vma>, v: nat, sv: nat, nv: nat) {
    && v < |s| && sv < |r| && nv < |r|
    && (sv != nv ==> r[sv] == s[v])
    && (sv == nv ==> r[sv].start <= s[v].start && s[v].end <= r[sv].end)
  }

  /** The test by which copy_vma finds out that the source was merged into the new area. */
  predicate TookIn(r: seq<Vma>, nv: nat, vmaStart: nat)
    requires nv < |r|
  {
    r[nv].start <= vmaStart < r[nv].end
  }

  /** Where the source is after a merge that extended area `at`. */
  function AfterMerge(s: seq<Vma>, r: seq<Vma>, v: nat, at: nat): int {
    if v <= at then v else v - (|s| - |r|)
  }

  lemma {:induction false} GrewLocated(s: seq<Vma>, r: seq<Vma>, v: nat, at: nat)
    requires Sorted(s) && Sorted(r) && Grew(s, r, at) && v < |s|
    ensures TookIn(r, at, s[v].start) ==> Located(s, r, v, at, at)
    ensures !TookIn(r, at, s[v].start) ==> AfterMerge(s, r, v, at) >= 0 && Located(s, r, v, AfterMerge(s, r, v, at), at)
  {
    if r == s[at := r[at]] {
      if v < at { assert s[v] == r[v] && r[v].end <= r[at].start; }
      if v > at { assert s[v] == r[v] && r[at].end <= r[v].start; }
    } else {
      if v < at { assert s[v] == r[v] && r[v].end <= r[at].start; }
      if v == at + 1 { assert s[at].end <= s[v].start; }
      if v > at + 1 { assert s[v] == r[v - 1] && r[at].end <= r[v - 1].start; }
    }
  }

  lemma {:induction false} InsertLocated(s: seq<Vma>, r: seq<Vma>, v: nat, link: nat, w: Vma)
    requires v < |s| && link <= |s| && r == s[..link] + [w] + s[link..]
    ensures Located(s, r, v, if v < link then v else v + 1, link)
  {
  }

  /** VM_BUG_ON_VMA: only an area that was never faulted in can be merged with its own copy. Offsets run
      on linearly within one area, so the copy would have to lie where the source page already is. */
  lemma {:induction false} NoSelfMerge(s: seq<Vma>, r: seq<Vma>, v: nat, nv: nat, from: nat, q: Request)
    requires Sorted(s) && Sorted(r) && v < |s| && s[v].start <= from < s[v].end
    requires q.addr < q.end && Vacant(s, q.addr, q.end) && Overlaid(s, r, q)
    requires nv < |r| && r[nv].start <= q.addr < r[nv].end && q.pgoff == s[v].pgoff + (from - s[v].start)
    ensures !TookIn(r, nv, s[v].start)
  {
    hide At;
    AtIndex(s, v, from);
    AtIndex(s, v, s[v].start);
    AtIndex(r, nv, q.addr);
    assert Shows(s, r, q, q.addr) && Shows(s, r, q, s[v].start);
    if TookIn(r, nv, s[v].start) { AtIndex(r, nv, s[v].start); }
  }

  lemma {:induction false} Fewer(s: seq<Vma>, r: seq<Vma>, at: nat)
    requires Grew(s, r, at)
    ensures |r| <= |s|
  {
  }

  /** copy_vma for area v. The copy is in area nv and the source in area sv afterwards. */
  method Copy(sp: Space, v: nat, from: nat, addr: nat, end: nat, willing: bool)
    returns (ok: bool, r: Space, nv: nat, sv: nat, unfaulted: bool)
    requires Shaped(sp) && v < |sp.list| && sp.list[v].start <= from < sp.list[v].end && addr < end <= TASK_SIZE
    ensures Shaped(r) && (unfaulted <==> sp.list[v].file == None && AnonOf(sp, v) == 0)
    ensures !ok ==> r.list == sp.list
    ensures ok ==> !Overlaps(sp.list, addr, end)
    ensures willing && !Overlaps(sp.list, addr, end) ==> ok && |r.list| <= |sp.list| + 1
    ensures ok ==> Vacant(sp.list, addr, end) && Located(sp.list, r.list, v, sv, nv)
    ensures ok ==>
              var q := CopyRequest(sp.list[v], unfaulted, addr, end, sp.list[v].pgoff + (from - sp.list[v].start));
              && Overlaid(sp.list, r.list, q) && r.list[nv].start <= addr && end <= r.list[nv].end
              && r.list[nv].file == sp.list[v].file && Clean(r.list[nv].flags) == Clean(sp.list[v].flags)
  {
    hide InOrder, ConsistentBut, Files, Ids, Overlaid, Grew, Vacant, Located, LastEnd, Sorted, DistinctIds, Fits,
      TookIn, AfterMerge, Clean, Mergeable, Reaches, SameAnon, Overlaps;
    var vma, vmaStart := sp.list[v], sp.list[v].start;
    ok, r, nv, sv := false, sp, 0, 0;
    unfaulted := vma.file == None && AnonOf(sp, v) == 0;
    var free, prev, link, parent := FindVmaLinks(sp.tree, sp.list, addr, end);
    if !free { return; }
    FitsVacant(sp.list, link, addr, end);
    FitsBehind(sp.list, link, addr, end);
    var q := CopyRequest(vma, unfaulted, addr, end, vma.pgoff + (from - vma.start));
    var found, at;
    found, at, r := VmaMerge(sp, prev, q, AnonOf(sp, v), willing, Hole);
    if found {
      ok, nv := true, at;
      Fewer(sp.list, r.list, at);
      GrewLocated(sp.list, r.list, v, nv);
      if TookIn(r.list, nv, vmaStart) {
        // The VM_BUG_ON_VMA(faulted_in_anon_vma, new_vma).
        assert unfaulted by { if !unfaulted { NoSelfMerge(sp.list, r.list, v, nv, from, q); } }
        sv := nv;
      } else {
        sv := AfterMerge(sp.list, r.list, v, nv);
      }
    } else {
      var gotMemory: bool := *;
      if !gotMemory && !willing { return; }
      ok, nv, sv := true, link, if v < link then v else v + 1;
      r := CopyNew(r, q, AnonOf(sp, v), prev, link, parent, v);
    }
  }

  /** The new struct of copy_vma, with a reference to the file of its own. */
  method CopyNew(sp: Space, q: Request, anonVma: nat, prev: int, link: nat, parent: int, ghost v: nat)
    returns (r: Space)
    requires Shaped(sp) && v < |sp.list| && q.addr < q.end <= TASK_SIZE
    requires link == prev + 1 && Fits(sp.list, link, q.addr, q.end)
    requires prev == -1 ==> parent == if sp.list == [] then -1 else 0
    ensures Shaped(r) && r.list == sp.list[..link] + [AreaOf(q, sp.nextId)] + sp.list[link..]
    ensures Overlaid(sp.list, r.list, q) && Located(sp.list, r.list, v, if v < link then v else v + 1, link)
  {
    hide InOrder, ConsistentBut, Files, Ids, Overlaid, Located, LastEnd, DistinctIds;
    GetTaken(sp, q.file);
    r := LinkNew(GetFile(sp, q.file), q, anonVma, prev, link, parent);
    InsertLocated(sp.list, r.list, v, link, AreaOf(q, sp.nextId));
    InsertOverlaid(sp.list, link, q, sp.nextId);
  }
}
