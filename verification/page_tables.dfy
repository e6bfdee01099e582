/** move_page_tables and move_ptes: moving page table entries from one range to another.

    Addresses are page numbers. Entries are base pages; a page-table page holds PMD of them. */
module PageTables {

  /** Pages mapped by one page-table page, and the most that move_ptes handles at a time. */
  const PMD: nat := 512
  const LATENCY_LIMIT: nat := 64

  /** A page table entry: none, or what it holds and its soft-dirty bit. */
  datatype Pte = Empty | Entry(value: nat, soft: bool)

  /** move_soft_dirty_pte */
  function Soft(e: Pte): Pte {
    if e.Empty? then e else e.(soft := true)
  }

  /** Equal but for the soft-dirty bit. */
  predicate Same(a: Pte, b: Pte) {
    Soft(a) == Soft(b)
  }

  /** The ranges of k pages at a and b lie in the table and do not meet. */
  predicate Disjoint(n: nat, a: nat, b: nat, k: nat) {
    a + k <= n && b + k <= n && (a + k <= b || b + k <= a)
  }

  predicate AllEmpty(t: seq<Pte>, b: nat, k: nat)
    requires b + k <= |t|
  {
    forall p :: b <= p < b + k ==> t[p] == Empty
  }

  /** Entry p after the k entries at a have moved to b. */
  function MovedAt(t: seq<Pte>, a: nat, b: nat, k: nat, p: nat): Pte
    requires Disjoint(|t|, a, b, k) && p < |t|
  {
    if b <= p < b + k then Soft(t[p - b + a]) else if a <= p < a + k then Empty else t[p]
  }

  /** The table after the k entries at a have moved to b. */
  function Moved(t: seq<Pte>, a: nat, b: nat, k: nat): seq<Pte>
    requires Disjoint(|t|, a, b, k)
  {
    seq(|t|, p requires 0 <= p < |t| => MovedAt(t, a, b, k, p))
  }

  /** Entry by entry: what was mapped in the source is mapped at the same distance in the destination, soft-dirty, and
      no longer in the source. */
  lemma {:induction false} MovedEntry(t: seq<Pte>, a: nat, b: nat, k: nat, i: nat)
    requires Disjoint(|t|, a, b, k) && i < k
    ensures var r := Moved(t, a, b, k);
            r[a + i] == Empty && r[b + i] == if t[a + i].Empty? then Empty else Entry(t[a + i].value, true)
  {
  }

  /** Two moves in a row are one. */
  lemma {:induction false} MovedFurther(t: seq<Pte>, a: nat, b: nat, k: nat, e: nat)
    requires Disjoint(|t|, a, b, k + e)
    ensures Moved(Moved(t, a, b, k), a + k, b + k, e) == Moved(t, a, b, k + e)
  {
    var m, a2, b2, k2 := Moved(t, a, b, k), a + k, b + k, k + e;
    forall p: nat | p < |t| ensures MovedAt(m, a2, b2, e, p) == MovedAt(t, a, b, k2, p) {
      if b2 <= p < b2 + e { assert m[p - b2 + a2] == MovedAt(t, a, b, k, p - b + a); }
    }
  }

  /** Where source and destination are empty there is nothing to move. */
  lemma {:induction false} MovedNothing(t: seq<Pte>, a: nat, b: nat, k: nat)
    requires Disjoint(|t|, a, b, k) && AllEmpty(t, a, k) && AllEmpty(t, b, k)
    ensures Moved(t, a, b, k) == t
  {
    forall p: nat | p < |t| ensures MovedAt(t, a, b, k, p) == t[p] {
      if b <= p < b + k { assert t[p - b + a] == Empty; }
    }
  }

  lemma {:induction false} MovedOneMore(t: seq<Pte>, a: nat, b: nat, k: nat)
    requires Disjoint(|t|, a, b, k + 1) && t[b + k] == Empty
    ensures var m := Moved(t, a, b, k);
            m[a + k] == t[a + k]
            && Moved(t, a, b, k + 1) == if t[a + k] == Empty then m else m[a + k := Empty][b + k := Soft(t[a + k])]
  {
    var m := Moved(t, a, b, k);
    var r, k2 := if t[a + k] == Empty then m else m[a + k := Empty][b + k := Soft(t[a + k])], k + 1;
    forall p: nat | p < |t| ensures MovedAt(t, a, b, k2, p) == r[p] {
      assert m[p] == MovedAt(t, a, b, k, p);
    }
  }

  lemma {:induction false} MovedZero(t: seq<Pte>, a: nat, b: nat)
    requires Disjoint(|t|, a, b, 0)
    ensures Moved(t, a, b, 0) == t
  {
  }

  /** A move puts entries nowhere but at its destination. */
  lemma {:induction false} MovedOutside(t: seq<Pte>, a: nat, b: nat, k: nat, p: nat)
    requires Disjoint(|t|, a, b, k) && p < |t| && !(b <= p < b + k)
    ensures |Moved(t, a, b, k)| == |t| && (Moved(t, a, b, k)[p] == Empty || Moved(t, a, b, k)[p] == t[p])
  {
  }

  /** A stretch whose ends lie in one page-table page lies in it. */
  lemma {:induction false} InPage(lo: nat, hi: nat, p: nat)
    requires lo <= p < hi && lo / PMD == (hi - 1) / PMD
    ensures p / PMD == lo / PMD
  {
  }

  // ---------- page-table pages, and where a move comes to a halt ----------

  /** Both ranges lie in the pages. */
  predicate InTables(t: seq<bool>, a: nat, b: nat, k: nat) {
    a + k <= |t| * PMD && b + k <= |t| * PMD
  }

  /** The page-table pages after the first k entries at a have moved to b: where the source has one, the
      destination has got one. */
  function Extended(t: seq<bool>, a: nat, b: nat, k: nat): (r: seq<bool>)
    requires InTables(t, a, b, k)
    ensures |r| == |t|
  {
    if k == 0 then t
    else
      var u := Extended(t, a, b, k - 1);
      if u[(a + k - 1) / PMD] then u[(b + k - 1) / PMD := true] else u
  }

  /** Entry i can only move after a page-table page was allocated. */
  predicate Needs(u: seq<bool>, a: nat, b: nat, i: nat)
    requires InTables(u, a, b, i + 1)
  {
    u[(a + i) / PMD] && !u[(b + i) / PMD]
  }

  /** With an allocator that grants these pages, a move of len entries stops after `done`: the first that
      needs a page which is not granted, or all. */
  ghost predicate StopsAt(t: seq<bool>, a: nat, b: nat, len: nat, grant: seq<bool>, done: nat)
    requires InTables(t, a, b, len) && |grant| == |t|
  {
    && done <= len
    && (forall i :: 0 <= i < done ==> !Stuck(t, a, b, grant, i))
    && (done < len ==> Stuck(t, a, b, grant, done))
  }

  predicate Stuck(t: seq<bool>, a: nat, b: nat, grant: seq<bool>, i: nat)
    requires InTables(t, a, b, i + 1) && |grant| == |t|
  {
    Needs(Extended(t, a, b, i), a, b, i) && !grant[(b + i) / PMD]
  }

  /** Page-table pages stay. */
  lemma {:induction false} ExtendedKeeps(t: seq<bool>, a: nat, b: nat, i: nat, k: nat, d: nat)
    requires InTables(t, a, b, k) && i <= k && d < |t|
    ensures Extended(t, a, b, i)[d] ==> Extended(t, a, b, k)[d]
    decreases k
  {
    if i < k { ExtendedKeeps(t, a, b, i, k - 1, d); }
  }

  /** A stretch in which no page-table page of the source is there changes no page. */
  lemma {:induction false} ExtendedSkip(t: seq<bool>, a: nat, b: nat, k: nat, e: nat)
    requires InTables(t, a, b, k + e) && (e > 0 ==> (a + k) / PMD == (a + k + e - 1) / PMD
                                                    && !Extended(t, a, b, k)[(a + k) / PMD])
    ensures Extended(t, a, b, k + e) == Extended(t, a, b, k)
    decreases e
  {
    if e > 0 {
      InPage(a + k, a + k + e, if e > 1 then a + k + e - 2 else a + k);
      ExtendedSkip(t, a, b, k, e - 1);
    }
  }

  /** A stretch inside one page-table page on either side takes one allocation. */
  lemma {:induction false} ExtendedStretch(t: seq<bool>, a: nat, b: nat, k: nat, e: nat)
    requires InTables(t, a, b, k + e) && e > 0 && (a + k) / PMD == (a + k + e - 1) / PMD
             && (b + k) / PMD == (b + k + e - 1) / PMD
    requires Extended(t, a, b, k)[(a + k) / PMD]
    ensures Extended(t, a, b, k + e) == Extended(t, a, b, k)[(b + k) / PMD := true]
    decreases e
  {
    if e > 1 {
      InPage(a + k, a + k + e, a + k + e - 2);
      InPage(b + k, b + k + e, b + k + e - 2);
      ExtendedStretch(t, a, b, k, e - 1);
    }
  }

  // ---------- when a failed move can be undone ----------

  /** A forward move may end after j entries: it got them all, or a page that it needs can be refused. */
  predicate CanEnd(t: seq<bool>, a: nat, b: nat, len: nat, j: nat)
    requires InTables(t, a, b, len)
  {
    j == len || (j < len && Needs(Extended(t, a, b, j), a, b, j))
  }

  /** On the way back entry m needs a page-table page. */
  predicate Missing(u: seq<bool>, a: nat, b: nat, m: nat)
    requires InTables(u, a, b, m + 1)
  {
    Needs(u, b, a, m)
  }

  /** What a caller can check before the move: wherever it may end, nothing is mapped from the first place on
      that lacks a page-table page for the way back. */
  ghost predicate Undoable(t: seq<bool>, pt: seq<Pte>, a: nat, b: nat, len: nat)
    requires InTables(t, a, b, len) && a + len <= |pt|
  {
    forall j: nat, m: nat :: m < j <= len && CanEnd(t, a, b, len, j) && Missing(Extended(t, a, b, j), a, b, m) ==>
        AllEmpty(pt, a + m, j - m)
  }

  /** With these answers of the allocator there and back, every entry that moved is back or was empty. */
  ghost predicate Lossless(t: seq<bool>, pt: seq<Pte>, a: nat, b: nat, len: nat, there: seq<bool>, back: seq<bool>)
    requires InTables(t, a, b, len) && a + len <= |pt| && |there| == |back| == |t|
  {
    forall j: nat, m: nat :: StopsAt(t, a, b, len, there, j) && StopsAt(Extended(t, a, b, j), b, a, j, back, m) ==>
        AllEmpty(pt, a + m, j - m)
  }

  /** As long as nothing is missing on the way back, no page-table page changes. */
  lemma {:induction false} BackUntouched(u: seq<bool>, a: nat, b: nat, k: nat)
    requires InTables(u, a, b, k) && forall m :: 0 <= m < k ==> !Missing(u, a, b, m)
    ensures Extended(u, b, a, k) == u
  {
    if k > 0 {
      BackUntouched(u, a, b, k - 1);
      assert !Missing(u, a, b, k - 1);
    }
  }

  /** The first place that lacks a page-table page. */
  lemma {:induction false} FirstMissing(u: seq<bool>, a: nat, b: nat, k: nat) returns (m: nat)
    requires InTables(u, a, b, k + 1) && Missing(u, a, b, k)
    ensures m <= k && Missing(u, a, b, m) && forall i :: 0 <= i < m ==> !Missing(u, a, b, i)
  {
    m := 0;
    while !Missing(u, a, b, m)
      invariant m <= k && forall i :: 0 <= i < m ==> !Missing(u, a, b, i)
      decreases k - m
    {
      m := m + 1;
    }
  }

  /** If the move can be undone, no answer of the allocator loses an entry. */
  lemma {:induction false} UndoableSuffices(t: seq<bool>, pt: seq<Pte>, a: nat, b: nat, len: nat, there: seq<bool>,
                                            back: seq<bool>)
    requires InTables(t, a, b, len) && a + len <= |pt| && |there| == |back| == |t| && Undoable(t, pt, a, b, len)
    ensures Lossless(t, pt, a, b, len, there, back)
  {
    forall j: nat, m: nat | StopsAt(t, a, b, len, there, j) && StopsAt(Extended(t, a, b, j), b, a, j, back, m)
      ensures AllEmpty(pt, a + m, j - m) {
      var u := Extended(t, a, b, j);
      if m < j {
        if forall i :: 0 <= i < m ==> !Missing(u, a, b, i) {
          BackUntouched(u, a, b, m);
          assert Stuck(u, b, a, back, m);
          assert Missing(u, a, b, m) && CanEnd(t, a, b, len, j);
        } else {
          var i :| 0 <= i < m && Missing(u, a, b, i);
          assert CanEnd(t, a, b, len, j) && AllEmpty(pt, a + i, j - i);
        }
      }
    }
  }

  /** If it cannot, an allocator that refuses a page at the wrong moment loses an entry. */
  lemma {:induction false} UndoableNeeded(t: seq<bool>, pt: seq<Pte>, a: nat, b: nat, len: nat, j: nat, m: nat,
                                          there: seq<bool>, back: seq<bool>)
    requires InTables(t, a, b, len) && a + len <= |pt| && m < j <= len && CanEnd(t, a, b, len, j)
    requires Missing(Extended(t, a, b, j), a, b, m) && !AllEmpty(pt, a + m, j - m)
    requires |there| == |back| == |t| && forall d :: 0 <= d < |t| ==>
               (there[d] <==> j == len || d != (b + j) / PMD) && !back[d]
    ensures !Lossless(t, pt, a, b, len, there, back)
  {
    var u := Extended(t, a, b, j);
    forall i | 0 <= i < j ensures !Stuck(t, a, b, there, i) {
      if j < len && (b + i) / PMD == (b + j) / PMD { ExtendedKeeps(t, a, b, i + 1, j, (b + j) / PMD); }
    }
    assert StopsAt(t, a, b, len, there, j);
    var first := FirstMissing(u, a, b, m);
    forall i | 0 <= i < first ensures !Stuck(u, b, a, back, i) {
      BackUntouched(u, a, b, i);
      assert !Missing(u, a, b, i);
    }
    BackUntouched(u, a, b, first);
    assert StopsAt(u, b, a, j, back, first);
    var p :| a + m <= p < a + m + (j - m) && pt[p] != Empty;
    assert !AllEmpty(pt, a + first, j - first);
  }

  /** Whatever the allocator answers, a failed move loses nothing if and only if it is undoable. */
  lemma {:induction false} UndoExact(t: seq<bool>, pt: seq<Pte>, a: nat, b: nat, len: nat)
    requires InTables(t, a, b, len) && a + len <= |pt|
    ensures Undoable(t, pt, a, b, len) <==>
            forall there: seq<bool>, back: seq<bool> :: |there| == |back| == |t| ==>
                Lossless(t, pt, a, b, len, there, back)
  {
    if Undoable(t, pt, a, b, len) {
      forall there: seq<bool>, back: seq<bool> | |there| == |back| == |t|
        ensures Lossless(t, pt, a, b, len, there, back) {
        UndoableSuffices(t, pt, a, b, len, there, back);
      }
    } else {
      var j: nat, m: nat :| m < j <= len && CanEnd(t, a, b, len, j) && Missing(Extended(t, a, b, j), a, b, m)
        && !AllEmpty(pt, a + m, j - m);
      var there, back := seq(|t|, d => j == len || d != (b + j) / PMD), seq(|t|, d => false);
      UndoableNeeded(t, pt, a, b, len, j, m, there, back);
    }
  }

  /** Every page of the range has its page-table page. */
  ghost predicate Backed(t: seq<bool>, a: nat, k: nat)
    requires a + k <= |t| * PMD
  {
    forall p: nat {:trigger p / PMD} :: a <= p < a + k ==> t[p / PMD]
  }

  /** With all page-table pages of the source there, as the comment in move_vma takes for granted, nothing is lost. */
  lemma {:induction false} BackedUndoable(t: seq<bool>, pt: seq<Pte>, a: nat, b: nat, len: nat)
    requires InTables(t, a, b, len) && a + len <= |pt| && Backed(t, a, len)
    ensures Undoable(t, pt, a, b, len)
  {
    forall j: nat, m: nat | m < j <= len ensures !Missing(Extended(t, a, b, j), a, b, m) {
      ExtendedKeeps(t, a, b, 0, j, (a + m) / PMD);
      assert t[(a + m) / PMD] && Extended(t, a, b, 0) == t;
    }
  }

  /** Pages 511 and 512 move to 1024 and 1025. Only the second has a page-table page, and the destination gets
      one for both. On the way back page 511 needs one, is refused it, and the entry of page 512 stays behind. */
  lemma {:induction false} UndoLoses(pt: seq<Pte>)
    requires |pt| == 3 * PMD && pt[512] != Empty
    ensures var t := [false, true, false];
            && !Undoable(t, pt, 511, 1024, 2)
            && !Lossless(t, pt, 511, 1024, 2, [true, true, true], [false, false, false])
  {
    var t := [false, true, false];
    assert Extended(t, 511, 1024, 0) == t && Extended(t, 511, 1024, 1) == t;
    assert Extended(t, 511, 1024, 2) == [false, true, true];
    assert CanEnd(t, 511, 1024, 2, 2) && Missing([false, true, true], 511, 1024, 0);
    assert 511 <= 512 < 511 + (2 - 0);
    UndoableNeeded(t, pt, 511, 1024, 2, 2, 0, [true, true, true], [false, false, false]);
  }

  // ---------- the table ----------

  class PageTable {
    const pte: array<Pte>
    /** Whether the page-table page for each stretch of PMD pages is there. */
    const table: array<bool>

    constructor (n: nat)
      ensures Valid() && fresh(pte) && fresh(table) && table.Length == n && AllEmpty(pte[..], 0, pte.Length)
    {
      pte := new Pte[n * PMD](_ => Empty);
      table := new bool[n](_ => false);
    }

    ghost predicate Valid()
      reads pte, table
    {
      && pte.Length == table.Length * PMD
      && forall p {:trigger pte[p]} :: 0 <= p < pte.Length && !table[p / PMD] ==> pte[p] == Empty
    }

    /** move_ptes: one stretch inside one page-table page on either side. */
    method MovePtes(from: nat, end: nat, to: nat)
      requires Valid() && from < end && Disjoint(pte.Length, from, to, end - from) && AllEmpty(pte[..], to, end - from)
      requires from / PMD == (end - 1) / PMD && to / PMD == (to + (end - from) - 1) / PMD
      requires table[from / PMD] && table[to / PMD]
      modifies pte
      ensures Valid() && pte[..] == Moved(old(pte[..]), from, to, end - from)
    {
      hide Moved;
      ghost var t := pte[..];
      var a, b := from, to;
      MovedZero(t, from, to);
      while a < end
        invariant from <= a <= end && b - to == a - from
        invariant pte[..] == Moved(t, from, to, a - from)
      {
        MovedOneMore(t, from, to, a - from);
        ghost var m := pte[..];
        assert pte[a] == m[a];
        if pte[a] != Empty {
          var e := pte[a];
          pte[a] := Empty;
          pte[b] := Soft(e);
          assert pte[..] == m[a := Empty][b := Soft(e)];
        }
        a, b := a + 1, b + 1;
      }
      forall p | 0 <= p < pte.Length && !table[p / PMD] ensures pte[p] == Empty {
        if to <= p < to + (end - from) {
          InPage(to, to + (end - from), p);
        } else {
          MovedOutside(t, from, to, end - from, p);
          assert pte[p] == pte[..][p];
        }
      }
    }

    /** alloc_new_pmd and pte_alloc: a page-table page that is missing is allocated if the allocator grants it. */
    method PteAlloc(p: nat, grant: seq<bool>) returns (ok: bool)
      requires Valid() && p < pte.Length && |grant| == table.Length
      modifies table
      ensures Valid() && ok == (old(table[p / PMD]) || grant[p / PMD])
      ensures table[..] == if ok then old(table[..])[p / PMD := true] else old(table[..])
    {
      ok := table[p / PMD] || grant[p / PMD];
      if ok { table[p / PMD] := true; }
    }

    /** How far a stretch from a towards `end` may go: not past a page-table page. */
    static function Extent(a: nat, end: nat): (e: nat)
      requires a < end
      ensures 0 < e <= end - a && a / PMD == (a + e - 1) / PMD
    {
      var next := (a / PMD + 1) * PMD;
      if next - a < end - a then next - a else end - a
    }

    /** A stretch of `extent` pages cut down to the page-table page at the destination and the latency limit. */
    static function Reach(b: nat, a: nat, extent: nat): (e: nat)
      requires extent > 0 && a / PMD == (a + extent - 1) / PMD
      ensures 0 < e <= extent && b / PMD == (b + e - 1) / PMD && a / PMD == (a + e - 1) / PMD
    {
      var other := Extent(b, b + extent);
      var e := if other > LATENCY_LIMIT then LATENCY_LIMIT else other;
      InPage(a, a + extent, a + e - 1);
      InPage(b, b + other, b + e - 1);
      e
    }

    /** A stretch without a page-table page holds no entries. */
    lemma {:induction false} NoTable(a: nat, e: nat)
      requires Valid() && e > 0 && a + e <= pte.Length && a / PMD == (a + e - 1) / PMD && !table[a / PMD]
      ensures AllEmpty(pte[..], a, e)
    {
      forall p: nat | a <= p < a + e ensures pte[p] == Empty { InPage(a, a + e, p); }
    }

    /** One round of move_page_tables: a stretch of `extent` pages moves, or a page-table page is not to be had. */
    method MoveStretch(a: nat, b: nat, rest: nat, grant: seq<bool>) returns (ok: bool, extent: nat)
      requires Valid() && rest > 0 && Disjoint(pte.Length, a, b, rest) && AllEmpty(pte[..], b, rest)
               && |grant| == table.Length
      modifies pte, table
      ensures Valid() && (ok <==> !old(table[a / PMD] && !table[b / PMD] && !grant[b / PMD]))
      ensures ok ==> 0 < extent <= rest && pte[..] == Moved(old(pte[..]), a, b, extent)
      ensures ok ==> a / PMD == (a + extent - 1) / PMD && (old(table[a / PMD]) ==> b / PMD == (b + extent - 1) / PMD)
      ensures ok ==> table[..] == if old(table[a / PMD]) then old(table[..])[b / PMD := true] else old(table[..])
      ensures !ok ==> pte[..] == old(pte[..]) && table[..] == old(table[..])
    {
      hide Moved;
      ok := true;
      extent := Extent(a, a + rest);
      if table[a / PMD] {
        ok := PteAlloc(b, grant);
        if !ok { return; }
        ghost var tables := table[..];
        assert table[a / PMD] == tables[a / PMD] && table[b / PMD] == tables[b / PMD];
        extent := Reach(b, a, extent);
        assert pte[..] == old(pte[..]);
        MovePtes(a, a + extent, b);
        assert table[..] == tables;
      } else {
        NoTable(a, extent);
        MovedNothing(pte[..], a, b, extent);
      }
    }

    /** move_page_tables: the first `done` entries have moved, and they are as many as the allocator lets. */
    method MovePageTables(from: nat, to: nat, len: nat, grant: seq<bool>) returns (done: nat)
      requires Valid() && Disjoint(pte.Length, from, to, len) && AllEmpty(pte[..], to, len) && |grant| == table.Length
      modifies pte, table
      ensures Valid() && StopsAt(old(table[..]), from, to, len, grant, done)
      ensures pte[..] == Moved(old(pte[..]), from, to, done) && table[..] == Extended(old(table[..]), from, to, done)
    {
      hide Moved, Extended, AllEmpty, MovedAt;
      ghost var t, tables := pte[..], table[..];
      var a, b := from, to;
      MovedZero(t, from, to);
      ExtendedZero(tables, from, to);
      while a < from + len
        invariant from <= a <= from + len && b - to == a - from
        invariant Valid() && pte[..] == Moved(t, from, to, a - from)
                  && table[..] == Extended(tables, from, to, a - from)
        invariant forall i :: 0 <= i < a - from ==> !Stuck(tables, from, to, grant, i)
        decreases from + len - a
      {
        MovedAhead(t, from, to, a - from, from + len - a);
        ghost var u := table[..];
        assert table[a / PMD] == u[a / PMD] && table[b / PMD] == u[b / PMD];
        var ok, extent := MoveStretch(a, b, from + len - a, grant);
        if !ok { break; }
        MovedFurther(t, from, to, a - from, extent);
        NotStuck(tables, from, to, a - from, extent, grant);
        a, b := a + extent, b + extent;
      }
      done := a - from;
    }

    /** move_vma's use of it: when not all entries could be moved, or the area's own mremap operation fails,
        those that were moved go back. `back` is how many did; every entry is restored, but for soft-dirty
        bits, if and only if there was none among the others. */
    method MoveOrUndo(from: nat, to: nat, len: nat, there: seq<bool>, homeward: seq<bool>, hookOk: bool)
      returns (ok: bool, done: nat, back: nat)
      requires Valid() && Disjoint(pte.Length, from, to, len) && AllEmpty(pte[..], to, len)
      requires |there| == |homeward| == table.Length
      modifies pte, table
      ensures Valid() && back <= done <= len && (ok <==> done == len && hookOk)
      ensures StopsAt(old(table[..]), from, to, len, there, done)
      ensures ok ==> pte[..] == Moved(old(pte[..]), from, to, len)
      ensures !ok ==> StopsAt(Extended(old(table[..]), from, to, done), to, from, done, homeward, back)
      ensures !ok ==> (Restored(old(pte[..]), pte[..]) <==> AllEmpty(old(pte[..]), from + back, done - back))
      ensures !ok && Undoable(old(table[..]), old(pte[..]), from, to, len) ==> Restored(old(pte[..]), pte[..])
    {
      hide Moved, Extended, StopsAt;
      ghost var t, tables := pte[..], table[..];
      done := MovePageTables(from, to, len, there);
      StopsWithin(tables, from, to, len, there, done);
      back := done;
      ok := done == len && hookOk;
      if !ok {
        MovedLeaves(t, from, to, done);
        back := MovePageTables(to, from, done, homeward);
        StopsWithin(Extended(tables, from, to, done), to, from, done, homeward, back);
        MovedPrefix(t, to, len, done);
        BackExact(t, from, to, done, back);
        if Undoable(tables, t, from, to, len) {
          UndoableSuffices(tables, t, from, to, len, there, homeward);
        }
      }
    }
  }

  /** Every entry is the same, but for soft-dirty bits. */
  ghost predicate Restored(t: seq<Pte>, r: seq<Pte>) {
    |r| == |t| && forall p :: 0 <= p < |t| ==> Same(r[p], t[p])
  }

  /** Of k entries that moved away, the first m came back: all is restored if and only if the others were empty. */
  lemma {:induction false} BackExact(t: seq<Pte>, a: nat, b: nat, k: nat, m: nat)
    requires Disjoint(|t|, a, b, k) && AllEmpty(t, b, k) && m <= k
    ensures var r := Moved(Moved(t, a, b, k), b, a, m);
            Restored(t, r) <==> AllEmpty(t, a + m, k - m)
  {
    var moved := Moved(t, a, b, k);
    var r := Moved(moved, b, a, m);
    forall p: nat | p < |t|
      ensures (a + m <= p < a + k ==> r[p] == Empty) && (a <= p < a + m ==> Same(r[p], t[p]))
      ensures b <= p < b + m ==> r[p] == Empty
      ensures b + m <= p < b + k ==> r[p] == Soft(t[p - b + a])
      ensures !(a <= p < a + k) && !(b <= p < b + k) ==> r[p] == t[p] {
      assert r[p] == MovedAt(moved, b, a, m, p) && moved[p] == MovedAt(t, a, b, k, p);
      if a <= p < a + m { assert moved[p - a + b] == MovedAt(t, a, b, k, p - a + b); }
    }
    if AllEmpty(t, a + m, k - m) {
      forall p: nat | p < |t| ensures Same(r[p], t[p]) {
        if b + m <= p < b + k { assert t[p - b + a] == Empty; }
      }
    } else {
      var p :| a + m <= p < a + m + (k - m) && t[p] != Empty;
      assert r[p] == Empty && !Same(r[p], t[p]);
    }
  }

  /** Moving there and back restores every entry, but for soft-dirty bits. */
  lemma {:induction false} MovedBack(t: seq<Pte>, a: nat, b: nat, k: nat)
    requires Disjoint(|t|, a, b, k) && AllEmpty(t, b, k)
    ensures Restored(t, Moved(Moved(t, a, b, k), b, a, k))
  {
    BackExact(t, a, b, k, k);
  }

  lemma {:induction false} ExtendedZero(t: seq<bool>, a: nat, b: nat)
    requires InTables(t, a, b, 0)
    ensures Extended(t, a, b, 0) == t
  {
  }

  lemma {:induction false} StopsWithin(t: seq<bool>, a: nat, b: nat, len: nat, grant: seq<bool>, done: nat)
    requires InTables(t, a, b, len) && |grant| == |t| && StopsAt(t, a, b, len, grant, done)
    ensures done <= len
  {
  }

  /** A stretch that moves or is skipped gets stuck nowhere, and leaves the page-table pages as entry by entry. */
  lemma {:induction false} NotStuck(t: seq<bool>, a: nat, b: nat, k: nat, e: nat, grant: seq<bool>)
    requires InTables(t, a, b, k + e) && |grant| == |t| && e > 0 && (a + k) / PMD == (a + k + e - 1) / PMD
    requires !Stuck(t, a, b, grant, k)
    requires Extended(t, a, b, k)[(a + k) / PMD] ==> (b + k) / PMD == (b + k + e - 1) / PMD
    ensures var u := Extended(t, a, b, k);
            Extended(t, a, b, k + e) == if u[(a + k) / PMD] then u[(b + k) / PMD := true] else u
    ensures forall i :: k <= i < k + e ==> !Stuck(t, a, b, grant, i)
  {
    hide Extended;
    if Extended(t, a, b, k)[(a + k) / PMD] {
      ExtendedStretch(t, a, b, k, e);
      forall i | k < i < k + e ensures !Stuck(t, a, b, grant, i) { FreeStretch(t, a, b, k, e, grant, i); }
    } else {
      ExtendedSkip(t, a, b, k, e);
      forall i | k < i < k + e ensures !Stuck(t, a, b, grant, i) { FreeSkip(t, a, b, k, e, grant, i); }
    }
  }

  lemma {:induction false} FreeStretch(t: seq<bool>, a: nat, b: nat, k: nat, e: nat, grant: seq<bool>, i: nat)
    requires InTables(t, a, b, k + e) && |grant| == |t| && k < i < k + e
    requires (a + k) / PMD == (a + k + e - 1) / PMD && (b + k) / PMD == (b + k + e - 1) / PMD
    requires Extended(t, a, b, k)[(a + k) / PMD]
    ensures !Stuck(t, a, b, grant, i)
  {
    hide Extended;
    InPage(a + k, a + k + e, a + i - 1);
    InPage(b + k, b + k + e, b + i - 1);
    InPage(b + k, b + k + e, b + i);
    ExtendedStretch(t, a, b, k, i - k);
  }

  lemma {:induction false} FreeSkip(t: seq<bool>, a: nat, b: nat, k: nat, e: nat, grant: seq<bool>, i: nat)
    requires InTables(t, a, b, k + e) && |grant| == |t| && k < i < k + e
    requires (a + k) / PMD == (a + k + e - 1) / PMD && !Extended(t, a, b, k)[(a + k) / PMD]
    ensures !Stuck(t, a, b, grant, i)
  {
    hide Extended;
    InPage(a + k, a + k + e, a + i - 1);
    InPage(a + k, a + k + e, a + i);
    ExtendedSkip(t, a, b, k, i - k);
  }

  lemma {:induction false} MovedLeaves(t: seq<Pte>, a: nat, b: nat, k: nat)
    requires Disjoint(|t|, a, b, k)
    ensures |Moved(t, a, b, k)| == |t| && AllEmpty(Moved(t, a, b, k), a, k)
  {
  }

  lemma {:induction false} MovedPrefix(t: seq<Pte>, b: nat, len: nat, k: nat)
    requires k <= len && b + len <= |t| && AllEmpty(t, b, len)
    ensures AllEmpty(t, b, k)
  {
  }

  /** What lies ahead of a move is untouched: the destination is still empty. */
  lemma {:induction false} MovedAhead(t: seq<Pte>, a: nat, b: nat, k: nat, e: nat)
    requires Disjoint(|t|, a, b, k + e) && AllEmpty(t, b, k + e)
    ensures |Moved(t, a, b, k)| == |t| && AllEmpty(Moved(t, a, b, k), b + k, e)
  {
  }
}
