/** Counting pages in the page view: the counters of an address space depend on the view alone. */
module PageCount {
  import opened VmFlags
  import opened Areas

  /** The cell is mapped with flags of class c. */
  predicate Counts(cell: Option<Cell>, c: Class) {
    cell.Some? && InClass(cell.value.flags, c)
  }

  /** The pages of [a, b) that the view maps in class c. */
  ghost function Count(s: seq<Vma>, c: Class, a: nat, b: nat): nat
    decreases b - a
  {
    if a >= b then 0 else (if Counts(At(s, a), c) then 1 else 0) + Count(s, c, a + 1, b)
  }

  lemma {:induction false} CountBound(s: seq<Vma>, c: Class, a: nat, b: nat)
    requires a <= b
    ensures Count(s, c, a, b) <= b - a
    decreases b - a
  {
    if a < b { CountBound(s, c, a + 1, b); }
  }

  lemma {:induction false} CountSplit(s: seq<Vma>, c: Class, a: nat, m: nat, b: nat)
    requires a <= m <= b
    ensures Count(s, c, a, b) == Count(s, c, a, m) + Count(s, c, m, b)
    decreases m - a
  {
    if a < m { CountSplit(s, c, a + 1, m, b); }
  }

  /** Views that agree on the class of every page of a range agree on its count. */
  lemma {:induction false} CountSame(s: seq<Vma>, r: seq<Vma>, c: Class, a: nat, b: nat)
    requires forall p: nat {:trigger At(s, p)} :: a <= p < b ==> Counts(At(s, p), c) == Counts(At(r, p), c)
    ensures Count(s, c, a, b) == Count(r, c, a, b)
    decreases b - a
  {
    if a < b {
      assert Counts(At(s, a), c) == Counts(At(r, a), c);
      CountSame(s, r, c, a + 1, b);
    }
  }

  /** A range whose pages are all in the class, or all outside it. */
  lemma {:induction false} CountUniform(s: seq<Vma>, c: Class, a: nat, b: nat, all: bool)
    requires a <= b && forall p: nat {:trigger At(s, p)} :: a <= p < b ==> Counts(At(s, p), c) == all
    ensures Count(s, c, a, b) == if all then b - a else 0
    decreases b - a
  {
    if a < b {
      assert Counts(At(s, a), c) == all;
      CountUniform(s, c, a + 1, b, all);
    }
  }

  lemma {:induction false} WeightLast(s: seq<Vma>, c: Class)
    requires s != []
    ensures var v := s[|s| - 1];
            Weight(s, c) == Weight(s[..|s| - 1], c) + if InClass(v.flags, c) then v.end - v.start else 0
  {
    var v := s[|s| - 1];
    assert s == s[..|s| - 1] + [v];
    WeightConcat(s[..|s| - 1], [v], c);
    assert [v][1..] == [];
  }

  lemma {:induction false} SortedInit(s: seq<Vma>)
    requires Sorted(s) && s != []
    ensures Sorted(s[..|s| - 1]) && LastEnd(s[..|s| - 1]) <= s[|s| - 1].start
  {
  }

  /** The page sum of the areas in a class is the number of pages that the view maps in it. */
  lemma {:induction false} WeightIsCount(s: seq<Vma>, c: Class, n: nat)
    requires Sorted(s) && LastEnd(s) <= n
    ensures Weight(s, c) == Count(s, c, 0, n)
  {
    if s == [] {
      CountUniform(s, c, 0, n, false);
    } else {
      hide At, Count, Weight, Sorted;
      SortedInit(s);
      WeightIsCount(s[..|s| - 1], c, s[|s| - 1].start);
      WeightLast(s, c);
      LastArea(s, c, n);
    }
  }

  /** The last area adds its own pages to what lies in front of it. */
  lemma {:induction false} LastArea(s: seq<Vma>, c: Class, n: nat)
    requires Sorted(s) && s != [] && LastEnd(s) <= n
    ensures var v := s[|s| - 1];
            Count(s, c, 0, n) == Count(s[..|s| - 1], c, 0, v.start) + if InClass(v.flags, c) then v.end - v.start else 0
  {
    var k := |s| - 1;
    var v := s[k];
    forall p: nat ensures p < v.start ==> At(s, p) == At(s[..k], p) {
      assert s == s[..k] + [v];
      AtConcat(s[..k], [v], p);
      assert [v][1..] == [];
    }
    forall p: nat ensures v.start <= p < v.end ==> Counts(At(s, p), c) == InClass(v.flags, c) {
      if v.start <= p < v.end { AtIndex(s, k, p); }
    }
    forall p: nat ensures v.end <= p ==> At(s, p) == None {
      if v.end <= p {
        forall i | 0 <= i < |s| ensures !(s[i].start <= p < s[i].end) {
          if i < k { assert s[i].end <= v.start; }
        }
        AtNone(s, p);
      }
    }
    CountSplit(s, c, 0, v.start, n);
    CountSplit(s, c, v.start, v.end, n);
    CountSame(s, s[..k], c, 0, v.start);
    CountUniform(s, c, v.start, v.end, InClass(v.flags, c));
    CountUniform(s, c, v.end, n, false);
  }

  /** When the view changes only inside [a, b), the page sums change by what changes there. */
  lemma {:induction false} WeightMoves(s: seq<Vma>, r: seq<Vma>, c: Class, a: nat, b: nat)
    requires Sorted(s) && Sorted(r) && LastEnd(s) <= TASK_SIZE && LastEnd(r) <= TASK_SIZE && a <= b <= TASK_SIZE
    requires forall p: nat {:trigger At(s, p)} :: !(a <= p < b) ==> Counts(At(s, p), c) == Counts(At(r, p), c)
    ensures Weight(r, c) - Weight(s, c) == Count(r, c, a, b) - Count(s, c, a, b)
  {
    WeightIsCount(s, c, TASK_SIZE);
    WeightIsCount(r, c, TASK_SIZE);
    CountSplit(s, c, 0, a, TASK_SIZE);
    CountSplit(r, c, 0, a, TASK_SIZE);
    CountSplit(s, c, a, b, TASK_SIZE);
    CountSplit(r, c, a, b, TASK_SIZE);
    CountSame(s, r, c, 0, a);
    CountSame(s, r, c, b, TASK_SIZE);
  }
}
