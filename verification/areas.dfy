/** Memory areas as values: the address-ordered list and the page view it denotes.

    Addresses and lengths are counted in pages. */
module Areas {
  import opened VmFlags

  datatype Option<+T> = None | Some(value: T)

  type FileId = nat

  /** The end of the user address space: 2^47 bytes less one page. */
  const TASK_SIZE: nat := 0x7_ffff_ffff

  /** What vma_merge compares besides flags, file and offset: the memory policy,
      the userfaultfd context and whether the driver has a close operation. */
  datatype Tag = Tag(policy: nat, uffd: nat, closes: bool)

  /** One vm_area_struct. `id` is the identity of the struct. */
  datatype Vma = Vma(id: nat, start: nat, end: nat, pgoff: nat, flags: Flags, file: Option<FileId>, tag: Tag)

  /** What one page of the address space maps to: file, page offset, flags modulo VM_SOFTDIRTY. */
  datatype Cell = Cell(file: Option<FileId>, off: nat, flags: Flags)

  function CellOf(v: Vma, p: nat): Cell
    requires v.start <= p
  {
    Cell(v.file, v.pgoff + (p - v.start), Clean(v.flags))
  }

  /** The page view: what the first area of `s` that contains page p maps there. */
  function At(s: seq<Vma>, p: nat): Option<Cell> {
    if s == [] then None
    else if s[0].start <= p < s[0].end then Some(CellOf(s[0], p))
    else At(s[1..], p)
  }

  /** Every area is non-empty, and areas are in address order without overlap. */
  ghost predicate Sorted(s: seq<Vma>) {
    && (forall i :: 0 <= i < |s| ==> s[i].start < s[i].end)
    && (forall i, j {:trigger s[i].end, s[j].start} :: 0 <= i < j < |s| ==> s[i].end <= s[j].start)
  }

  function Ids(s: seq<Vma>): seq<nat> {
    seq(|s|, i requires 0 <= i < |s| => s[i].id)
  }

  /** The end of the last area, 0 when there is none. */
  function LastEnd(s: seq<Vma>): nat {
    if s == [] then 0 else s[|s| - 1].end
  }

  lemma {:induction false} EndsBelow(s: seq<Vma>, i: nat)
    requires Sorted(s) && i < |s|
    ensures s[i].end <= LastEnd(s)
  {
    if i < |s| - 1 { assert s[i].end <= s[|s| - 1].start; }
  }

  /** The number of pages in areas of class c. */
  function Weight(s: seq<Vma>, c: Class): int {
    if s == [] then 0
    else (if InClass(s[0].flags, c) then s[0].end - s[0].start else 0) + Weight(s[1..], c)
  }

  /** The one reference that a slot or an area holds. */
  function RefOf(file: Option<FileId>): multiset<FileId> {
    if file.Some? then multiset{file.value} else multiset{}
  }

  function FileOf(v: Vma): multiset<FileId> {
    RefOf(v.file)
  }

  /** The files mapped by the first n areas, once per area that maps them. */
  function FilesOf(s: seq<Vma>, n: nat): multiset<FileId>
    requires n <= |s|
  {
    if n == 0 then multiset{} else FilesOf(s, n - 1) + FileOf(s[n - 1])
  }

  function Files(s: seq<Vma>): multiset<FileId> {
    FilesOf(s, |s|)
  }

  // ---------- concatenation ----------

  lemma {:induction false} AtConcat(a: seq<Vma>, b: seq<Vma>, p: nat)
    ensures At(a + b, p) == if At(a, p).Some? then At(a, p) else At(b, p)
  {
    if a == [] {
      assert a + b == b;
    } else {
      assert (a + b)[1..] == a[1..] + b;
      AtConcat(a[1..], b, p);
    }
  }

  lemma {:induction false} WeightConcat(a: seq<Vma>, b: seq<Vma>, c: Class)
    ensures Weight(a + b, c) == Weight(a, c) + Weight(b, c)
  {
    if a == [] {
      assert a + b == b;
    } else {
      assert (a + b)[1..] == a[1..] + b;
      WeightConcat(a[1..], b, c);
    }
  }

  lemma {:induction false} FilesOfPrefix(a: seq<Vma>, b: seq<Vma>, n: nat)
    requires n <= |a|
    ensures FilesOf(a + b, n) == FilesOf(a, n)
  {
    if n > 0 { FilesOfPrefix(a, b, n - 1); }
  }

  lemma {:induction false} FilesOfNone(s: seq<Vma>)
    ensures FilesOf(s, 0) == multiset{}
  {
  }

  lemma {:induction false} FilesOfStep(s: seq<Vma>, n: nat)
    requires 0 < n <= |s|
    ensures FilesOf(s, n) == FilesOf(s, n - 1) + FileOf(s[n - 1])
  {
  }

  lemma {:induction false} FilesOfSuffix(a: seq<Vma>, b: seq<Vma>, n: nat)
    requires n <= |b|
    ensures FilesOf(a + b, |a| + n) == Files(a) + FilesOf(b, n)
  {
    hide FilesOf, FileOf;
    if n == 0 {
      FilesOfPrefix(a, b, |a|);
      FilesOfNone(b);
    } else {
      FilesOfSuffix(a, b, n - 1);
      assert (a + b)[|a| + n - 1] == b[n - 1];
      FilesOfStep(a + b, |a| + n);
      FilesOfStep(b, n);
    }
  }

  lemma {:induction false} FilesConcat(a: seq<Vma>, b: seq<Vma>)
    ensures Files(a + b) == Files(a) + Files(b)
  {
    FilesOfSuffix(a, b, |b|);
  }

  lemma {:induction false} FilesOne(v: Vma)
    ensures Files([v]) == FileOf(v)
  {
    assert FilesOf([v], 0) == multiset{};
  }

  lemma {:induction false} FilesSplit(s: seq<Vma>, k: nat)
    requires k <= |s|
    ensures Files(s) == Files(s[..k]) + Files(s[k..])
  {
    assert s == s[..k] + s[k..];
    FilesConcat(s[..k], s[k..]);
  }

  lemma {:induction false} FilesRemove(s: seq<Vma>, k: nat)
    requires k < |s|
    ensures Files(s) == Files(s[..k] + s[k + 1..]) + FileOf(s[k])
  {
    FilesSplit(s, k);
    FilesConcat(s[..k], s[k + 1..]);
    assert s[k..] == [s[k]] + s[k + 1..];
    FilesConcat([s[k]], s[k + 1..]);
    FilesOne(s[k]);
  }

  lemma {:induction false} FilesInsert(s: seq<Vma>, k: nat, v: Vma)
    requires k <= |s|
    ensures Files(s[..k] + [v] + s[k..]) == Files(s) + FileOf(v)
  {
    var r := s[..k] + [v] + s[k..];
    FilesRemove(r, k);
    assert r[..k] + r[k + 1..] == s;
  }

  lemma {:induction false} FilesUpdate(s: seq<Vma>, k: nat, v: Vma)
    requires k < |s| && v.file == s[k].file
    ensures Files(s[k := v]) == Files(s)
  {
    FilesRemove(s, k);
    FilesRemove(s[k := v], k);
    assert s[k := v][..k] + s[k := v][k + 1..] == s[..k] + s[k + 1..];
  }

  lemma {:induction false} FilesUpdate2(s: seq<Vma>, k: nat, v: Vma, w: Vma)
    requires k + 1 < |s| && v.file == s[k].file && w.file == s[k + 1].file
    ensures Files(s[k := v][k + 1 := w]) == Files(s)
  {
    FilesUpdate(s, k, v);
    FilesUpdate(s[k := v], k + 1, w);
  }

  // ---------- the page view of a sorted list ----------

  /** Page p belongs to area i. */
  lemma {:induction false} AtIndex(s: seq<Vma>, i: nat, p: nat)
    requires Sorted(s) && i < |s| && s[i].start <= p < s[i].end
    ensures At(s, p) == Some(CellOf(s[i], p))
  {
    if i > 0 {
      assert s[0].end <= s[i].start;
      AtIndex(s[1..], i - 1, p);
    }
  }

  /** Page p belongs to no area. */
  lemma {:induction false} AtNone(s: seq<Vma>, p: nat)
    requires forall i :: 0 <= i < |s| ==> !(s[i].start <= p < s[i].end)
    ensures At(s, p) == None
  {
    if s != [] { AtNone(s[1..], p); }
  }

  /** The view names the area that gave it. */
  lemma {:induction false} AtWitness(s: seq<Vma>, p: nat) returns (i: nat)
    requires At(s, p).Some?
    ensures i < |s| && s[i].start <= p < s[i].end && At(s, p) == Some(CellOf(s[i], p))
  {
    if s[0].start <= p < s[0].end {
      i := 0;
    } else {
      var k := AtWitness(s[1..], p);
      i := k + 1;
    }
  }

  /** No page belongs to both halves of a sorted list. */
  lemma {:induction false} Apart(a: seq<Vma>, b: seq<Vma>, p: nat)
    requires Sorted(a + b)
    ensures At(a, p).Some? ==> At(b, p) == None
  {
    if At(a, p).Some? {
      var i := AtWitness(a, p);
      assert (a + b)[i] == a[i];
      forall k | 0 <= k < |b| ensures !(b[k].start <= p < b[k].end) {
        assert (a + b)[|a| + k] == b[k];
      }
      AtNone(b, p);
    }
  }

  lemma {:induction false} SortedPrefix(a: seq<Vma>, b: seq<Vma>)
    requires Sorted(a + b)
    ensures Sorted(a) && Sorted(b)
  {
    assert a == (a + b)[..|a|];
    assert b == (a + b)[|a|..];
  }

  /** Editing a sorted list between i and j changes the view only where the old or new middle is. */
  lemma {:induction false} SpliceView(s: seq<Vma>, i: nat, j: nat, mid: seq<Vma>, p: nat)
    requires i <= j <= |s|
    requires Sorted(s) && Sorted(s[..i] + mid + s[j..])
    ensures At(s[..i] + mid + s[j..], p) ==
            if At(mid, p).Some? then At(mid, p)
            else if At(s[i..j], p).Some? then None
            else At(s, p)
  {
    var pre, post := s[..i], s[j..];
    AtConcat(pre + mid, post, p);
    AtConcat(pre, mid, p);
    SortedPrefix(pre + mid, post);
    Apart(pre, mid, p);
    var was := s[i..j];
    assert s == pre + was + post;
    AtConcat(pre + was, post, p);
    AtConcat(pre, was, p);
    Apart(pre + was, post, p);
    SortedPrefix(pre + was, post);
    Apart(pre, was, p);
  }

  /** An edit between i and j shows at page p exactly as it shows in the edited stretch. */
  lemma {:induction false} LocalView(s: seq<Vma>, i: nat, j: nat, mid: seq<Vma>, p: nat)
    requires i <= j <= |s|
    requires Sorted(s) && Sorted(s[..i] + mid + s[j..])
    ensures At(s[..i] + mid + s[j..], p) == if At(mid, p) == At(s[i..j], p) then At(s, p) else At(mid, p)
  {
    SpliceView(s, i, j, mid, p);
    assert s[..i] + s[i..j] + s[j..] == s;
    SpliceView(s, i, j, s[i..j], p);
  }

  lemma {:induction false} AtPair(a: Vma, b: Vma, p: nat)
    ensures At([a], p) == if a.start <= p < a.end then Some(CellOf(a, p)) else None
    ensures At([a, b], p) == if a.start <= p < a.end then Some(CellOf(a, p))
                             else if b.start <= p < b.end then Some(CellOf(b, p)) else None
  {
    assert [a][1..] == [] && [b][1..] == [] && [a, b][1..] == [b];
  }

  lemma {:induction false} AtTriple(a: Vma, b: Vma, c: Vma, p: nat)
    ensures At([a, b, c], p) == if a.start <= p < a.end then Some(CellOf(a, p))
                                else if b.start <= p < b.end then Some(CellOf(b, p))
                                else if c.start <= p < c.end then Some(CellOf(c, p)) else None
  {
    assert [a, b, c][1..] == [b, c];
    AtPair(b, c, p);
  }
}
