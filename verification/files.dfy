/** struct files_struct with its lock held: growing the table, handing out and giving back numbers. */
module Descriptors {
  import opened Errors
  import opened Areas
  import opened FdTable

  // ---------- references held by slots ----------

  /** The files in the first n slots, once per slot. */
  function SlotsTo(s: seq<Option<FileId>>, n: nat): multiset<FileId>
    requires n <= |s|
  {
    if n == 0 then multiset{} else SlotsTo(s, n - 1) + RefOf(s[n - 1])
  }

  function Slots(s: seq<Option<FileId>>): multiset<FileId> {
    SlotsTo(s, |s|)
  }

  lemma {:induction false} SlotsSame(s: seq<Option<FileId>>, t: seq<Option<FileId>>, n: nat)
    requires n <= |s| && n <= |t| && forall i :: 0 <= i < n ==> s[i] == t[i]
    ensures SlotsTo(s, n) == SlotsTo(t, n)
  {
    if n > 0 { SlotsSame(s, t, n - 1); }
  }

  /** Writing a slot exchanges what it held for what it gets. */
  lemma {:induction false} SlotsUpdate(s: seq<Option<FileId>>, n: nat, i: nat, e: Option<FileId>)
    requires i < n <= |s|
    ensures SlotsTo(s[i := e], n) + RefOf(s[i]) == SlotsTo(s, n) + RefOf(e)
  {
    hide RefOf;
    if i == n - 1 {
      SlotsSame(s, s[i := e], n - 1);
    } else {
      SlotsUpdate(s, n - 1, i, e);
      assert s[i := e][n - 1] == s[n - 1];
      Regroup(SlotsTo(s[i := e], n - 1), RefOf(s[i]), SlotsTo(s, n - 1), RefOf(e), RefOf(s[n - 1]));
    }
  }

  /** What the slots hold after one of them is written. */
  lemma {:induction false} SlotsWrite(s: seq<Option<FileId>>, i: nat, e: Option<FileId>)
    requires i < |s|
    ensures Slots(s[i := e]) == Slots(s) + RefOf(e) - RefOf(s[i])
    ensures s[i] == None ==> Slots(s[i := e]) == Slots(s) + RefOf(e)
    ensures e == None ==> Slots(s[i := e]) == Slots(s) - RefOf(s[i])
  {
    hide SlotsTo;
    SlotsUpdate(s, |s|, i, e);
    Exchanged(Slots(s), Slots(s[i := e]), RefOf(s[i]), RefOf(e));
    assert Slots(s) + multiset{} == Slots(s);
    assert Slots(s) + RefOf(e) - multiset{} == Slots(s) + RefOf(e);
  }

  lemma {:induction false} Exchanged(before: multiset<FileId>, after: multiset<FileId>, out: multiset<FileId>,
                                     in': multiset<FileId>)
    requires after + out == before + in'
    ensures after == before + in' - out
  {
    assert (after + out) - out == after;
  }

  lemma {:induction false} Regroup(a: multiset<FileId>, b: multiset<FileId>, c: multiset<FileId>, d: multiset<FileId>,
                                   x: multiset<FileId>)
    requires a + b == c + d
    ensures (a + x) + b == (c + x) + d
  {
    assert (a + x) + b == (a + b) + x && (c + x) + d == (c + d) + x;
  }

  /** Empty slots behind the first n add nothing. */
  lemma {:induction false} SlotsPadded(s: seq<Option<FileId>>, n: nat, m: nat)
    requires n <= m <= |s| && forall i :: n <= i < m ==> s[i] == None
    ensures SlotsTo(s, m) == SlotsTo(s, n)
    decreases m
  {
    if n < m {
      SlotsPadded(s, n, m - 1);
      assert s[m - 1] == None && SlotsTo(s, m) == SlotsTo(s, m - 1) + multiset{};
    }
  }

  lemma {:induction false} SlotsExtended(s: seq<Option<FileId>>, t: seq<Option<FileId>>)
    requires |s| <= |t| && forall i :: 0 <= i < |t| ==> t[i] == if i < |s| then s[i] else None
    ensures Slots(t) == Slots(s)
  {
    SlotsSame(s, t, |s|);
    SlotsPadded(t, |s|, |t|);
  }

  // ---------- table sizes ----------

  /** roundup_pow_of_two, by doubling p. */
  function RoundUpPow2(x: nat, p: nat): (r: nat)
    requires p > 0
    ensures r >= x && r >= p && (r == p || r < 2 * x)
    decreases x - p
  {
    if p >= x then p else RoundUpPow2(x, 2 * p)
  }

  /** A number rounded up to whole words of bits. */
  function WholeWords(n: nat): nat {
    (n + BITS_PER_LONG - 1) / BITS_PER_LONG * BITS_PER_LONG
  }

  /** The number of slots that alloc_fdtable gives a table that must hold number nr. */
  function TableSize(nr: nat, nrOpen: nat): nat {
    var n := RoundUpPow2(nr / 128 + 1, 1) * 128;
    if n > nrOpen then WholeWords(nrOpen) else n
  }

  /** Whole words; room for nr exactly if the limit, in whole words, lies above it; and no table of the double size. */
  lemma {:induction false} TableSizeFits(nr: nat, nrOpen: nat)
    requires nrOpen > 0
    ensures TableSize(nr, nrOpen) > 0 && TableSize(nr, nrOpen) % BITS_PER_LONG == 0
    ensures TableSize(nr, nrOpen) > nr <==> WholeWords(nrOpen) > nr
    ensures TableSize(nr, nrOpen) <= WholeWords(nrOpen) && TableSize(nr, nrOpen) <= 2 * (nr + 128)
  {
    var p := RoundUpPow2(nr / 128 + 1, 1);
    assert p * 128 >= (nr / 128 + 1) * 128 > nr;
  }

  // ---------- copying ----------

  /** What a copy of the first `count` bits holds. */
  ghost predicate CopyOf(to: seq<bool>, from: seq<bool>, count: nat) {
    count <= |from| && count <= |to| && forall i :: 0 <= i < |to| ==> to[i] == (i < count && from[i])
  }

  /** The full bits copied with the first `count` bits are right in the new table, if the old table has
      no open number behind them. */
  lemma {:induction false} CopyExact(open: seq<bool>, full: seq<bool>, open2: seq<bool>, full2: seq<bool>, count: nat)
    requires FullExact(open, full) && |open| % BITS_PER_LONG == 0 && |open2| % BITS_PER_LONG == 0
             && count % BITS_PER_LONG == 0
    requires |full| == BitBits(|open|) && |full2| == BitBits(|open2|)
    requires CopyOf(open2, open, count) && forall i :: count <= i < |open| ==> !open[i]
    requires BitBits(count) <= |full| && BitBits(count) <= |full2| && CopyOf(full2, full, BitBits(count))
    ensures FullExact(open2, full2)
  {
    forall w: nat | w < |full2| ensures full2[w] <==> w < |open2| / BITS_PER_LONG && WordFull(open2, w) {
      var first := w * BITS_PER_LONG;
      if w < count / BITS_PER_LONG {
        assert WordFull(open2, w) <==> WordFull(open, w) by {
          assert forall i :: first <= i < first + BITS_PER_LONG ==> open2[i] == open[i];
        }
      } else {
        if w < |open| / BITS_PER_LONG { assert !open[first]; }
        if w < |open2| / BITS_PER_LONG { assert !open2[first]; }
      }
    }
  }

  method CopyBits(to: array<bool>, from: array<bool>, count: nat)
    requires to != from && count <= to.Length && count <= from.Length && forall i :: 0 <= i < to.Length ==> !to[i]
    modifies to
    ensures CopyOf(to[..], from[..], count)
  {
    var i := 0;
    while i < count
      invariant 0 <= i <= count && forall j :: 0 <= j < to.Length ==> to[j] == (j < i && from[j])
    {
      to[i] := from[i];
      i := i + 1;
    }
  }

  /** The new table holds the slots and bits of the old one, and nothing more. */
  ghost predicate Extends(old': Fdt, new': Fdt)
    reads old'.fd, old'.open, old'.cloexec, new'.fd, new'.open, new'.cloexec
  {
    && old'.Shape() && new'.Shape() && old'.fd.Length <= new'.fd.Length
    && (forall i :: 0 <= i < new'.fd.Length ==> new'.fd[i] == if i < old'.fd.Length then old'.fd[i] else None)
    && CopyOf(new'.open[..], old'.open[..], old'.fd.Length)
       && CopyOf(new'.cloexec[..], old'.cloexec[..], old'.fd.Length)
  }

  /** copy_fdtable */
  method CopyFdtable(new': Fdt, old': Fdt)
    requires old'.Valid() && new'.Shape() && old'.fd.Length <= new'.fd.Length
    requires old'.fd != new'.fd && {old'.open, old'.cloexec, old'.full} !! {new'.open, new'.cloexec, new'.full}
    requires forall i :: 0 <= i < new'.fd.Length ==> new'.fd[i] == None && !new'.open[i] && !new'.cloexec[i]
    requires forall w :: 0 <= w < new'.full.Length ==> !new'.full[w]
    modifies new'.fd, new'.open, new'.cloexec, new'.full
    ensures Extends(old', new') && new'.Valid()
  {
    var n := old'.fd.Length;
    var i := 0;
    while i < n
      invariant 0 <= i <= n && forall j :: 0 <= j < new'.fd.Length ==> new'.fd[j] == if j < i then old'.fd[j] else None
      modifies new'.fd
    {
      new'.fd[i] := old'.fd[i];
      i := i + 1;
    }
    CopyBits(new'.open, old'.open, n);
    CopyBits(new'.cloexec, old'.cloexec, n);
    BitsFit(n, new'.fd.Length);
    CopyBits(new'.full, old'.full, BitBits(n));
    CopyExact(old'.open[..], old'.full[..], new'.open[..], new'.full[..], n);
    assert forall j :: 0 <= j < new'.open.Length ==> new'.open[j] == new'.open[..][j];
  }

  lemma {:induction false} BitsFit(n: nat, m: nat)
    requires n <= m
    ensures BitBits(n) <= BitBits(m)
  {
  }

  /** What a slot or a bit reads as; beyond the table everything is empty. */
  function SlotIn(s: seq<Option<FileId>>, i: nat): Option<FileId> {
    if i < |s| then s[i] else None
  }

  predicate BitIn(bits: seq<bool>, i: nat) {
    i < |bits| && bits[i]
  }

  class Files {
    var fdt: Fdt
    var nextFd: nat
    /** References to files taken for the slots of this table and not dropped. */
    var held: multiset<FileId>

    constructor ()
      ensures Valid() && fresh(fdt.fd) && fresh(fdt.open) && fresh(fdt.cloexec) && fresh(fdt.full)
      ensures held == multiset{} && nextFd == 0 && fdt.fd.Length == BITS_PER_LONG
      ensures forall i :: 0 <= i < fdt.fd.Length ==> fdt.fd[i] == None && !fdt.open[i] && !fdt.cloexec[i]
      ensures forall w :: 0 <= w < fdt.full.Length ==> !fdt.full[w]
    {
      fdt := new Fdt(BITS_PER_LONG);
      nextFd, held := 0, multiset{};
      new;
      SlotsPadded(fdt.fd[..], 0, fdt.fd.Length);
      assert forall w: nat :: w < fdt.full.Length && w < fdt.open.Length / BITS_PER_LONG ==>
               !fdt.open[..][w * BITS_PER_LONG];
    }

    /** Occupied slots are open, full bits exact, every number below next_fd open. */
    ghost predicate Tidy()
      reads this, fdt.fd, fdt.open, fdt.full
    {
      fdt.Valid() && nextFd <= fdt.fd.Length && forall i :: 0 <= i < nextFd ==> fdt.open[i]
    }

    /** Tidy, and one reference is held per occupied slot. */
    ghost predicate Valid()
      reads this, fdt.fd, fdt.open, fdt.full
    {
      Tidy() && held == Slots(fdt.fd[..])
    }

    ghost function SlotAt(i: nat): Option<FileId>
      reads this, fdt.fd
    {
      SlotIn(fdt.fd[..], i)
    }

    ghost predicate OpenAt(i: nat)
      reads this, fdt.open
    {
      BitIn(fdt.open[..], i)
    }

    ghost predicate CloexecAt(i: nat)
      reads this, fdt.cloexec
    {
      BitIn(fdt.cloexec[..], i)
    }

    /** expand_fdtable: a bigger copy takes the place of the table. The limit may have come down to `limit`. */
    method ExpandFdtable(nr: nat, limit: nat, willing: bool) returns (err: Errno)
      requires Valid() && nr >= fdt.fd.Length && limit > 0
      modifies this`fdt
      ensures Valid() && nextFd == old(nextFd) && held == old(held)
      ensures err != OK ==> fdt == old(fdt)
      ensures (err == ENOMEM && !willing) || err == if WholeWords(limit) <= nr then EMFILE else OK
      ensures err == OK ==> fdt.fd.Length == TableSize(nr, limit)
      ensures err == OK ==> nr < fdt.fd.Length && fresh(fdt) && fresh(fdt.fd) && fresh(fdt.open) && fresh(fdt.cloexec)
                            && fresh(fdt.full)
      ensures err == OK ==> Extends(old(fdt), fdt)
    {
      hide Slots, FullExact, TableSize, WholeWords;
      var gotMemory: bool := *;
      if !gotMemory && !willing { return ENOMEM; }
      TableSizeFits(nr, limit);
      var bigger := new Fdt(TableSize(nr, limit));
      if bigger.fd.Length <= nr { return EMFILE; }
      CopyFdtable(bigger, fdt);
      SlotsExtended(fdt.fd[..], bigger.fd[..]);
      assert forall i :: 0 <= i < nextFd ==> bigger.open[i] == bigger.open[..][i];
      fdt := bigger;
      err := OK;
    }

    /** The table is the one it was, or a new one. */
    twostate predicate Renewed()
      reads this
    {
      fdt == old(fdt) || (fresh(fdt) && fresh(fdt.fd) && fresh(fdt.open) && fresh(fdt.cloexec) && fresh(fdt.full))
    }

    /** No slot and no bit differs from before; there may be room for more. */
    twostate predicate SameContents()
      reads this, fdt.fd, fdt.open, fdt.cloexec
    {
      forall i: nat :: SlotAt(i) == old(SlotAt(i)) && OpenAt(i) == old(OpenAt(i)) && CloexecAt(i) == old(CloexecAt(i))
    }

    /** The lowest number from `start` on that is not open, as a naive scan finds it. */
    ghost predicate LowestFree(start: nat, n: nat)
      reads this, fdt.open
    {
      start <= n && !OpenAt(n) && forall j: nat :: start <= j < n ==> OpenAt(j)
    }

    /** What stands against number nr: a table that is too small and may not grow. */
    static ghost function RoomErr(size: nat, nr: nat, nrOpen: nat, limit: nat): (e: Errno)
      ensures e == OK || e == EMFILE
    {
      if size <= nr && (nrOpen <= nr || WholeWords(limit) <= nr) then EMFILE else OK
    }

    /** expand_files, with no other resize in progress. */
    method ExpandFiles(nr: nat, nrOpen: nat, limit: nat, willing: bool) returns (err: Errno, expanded: bool)
      requires Valid() && limit > 0
      modifies this`fdt
      ensures Valid() && nextFd == old(nextFd) && held == old(held) && Renewed() && SameContents()
      ensures !expanded ==> fdt == old(fdt)
      ensures err == OK ==> nr < fdt.fd.Length && (expanded <==> nr >= old(fdt.fd.Length))
      ensures err != OK ==> fdt == old(fdt)
      ensures err == ENOMEM || err == RoomErr(old(fdt.fd.Length), nr, nrOpen, limit)
      ensures err == ENOMEM ==> !willing && old(fdt.fd.Length) <= nr < nrOpen
    {
      hide FullExact, Slots, BitBits, WholeWords;
      err, expanded := OK, false;
      if nr < fdt.fd.Length { return; }
      if nr >= nrOpen { return EMFILE, false; }
      err := ExpandFdtable(nr, limit, willing);
      expanded := err == OK;
      if expanded {
        forall i: nat ensures OpenAt(i) == old(OpenAt(i)) && CloexecAt(i) == old(CloexecAt(i)) {
          if i < fdt.fd.Length { assert fdt.open[i] == fdt.open[..][i] && fdt.cloexec[i] == fdt.cloexec[..][i]; }
        }
      }
    }

    /** The part of __alloc_fd that looks for a number. */
    method NextFree(start: nat) returns (n: nat)
      requires Valid()
      ensures LowestFree(start, n) && n >= nextFd
    {
      n := if start < nextFd then nextFd else start;
      ghost var from := n;
      if n < fdt.fd.Length { n := fdt.FindNextFd(n); }
      forall j: nat | start <= j < n ensures OpenAt(j) {
        if from <= j { assert !IsFree(fdt.open[..], j); }
      }
    }

    /** __alloc_fd: the lowest free number from `start` on and below `end`, marked open. */
    method AllocFd(start: nat, end: nat, cloexec: bool, nrOpen: nat, limit: nat, willing: bool)
      returns (err: Errno, n: nat, ghost first: nat)
      requires Valid() && limit > 0
      modifies this, fdt.open, fdt.cloexec, fdt.full
      ensures Valid() && Renewed() && held == old(held)
      ensures old(LowestFree(start, first))
      ensures err == OK ==> n == first < end && SlotAt(n) == None
      ensures err == ENOMEM || err == if end <= first then EMFILE else RoomErr(old(fdt.fd.Length), first, nrOpen, limit)
      ensures err == ENOMEM ==> !willing && old(fdt.fd.Length) <= first < end && first < nrOpen
      ensures forall i: nat :: SlotAt(i) == old(SlotAt(i))
      ensures forall i: nat :: OpenAt(i) == ((err == OK && i == n) || old(OpenAt(i)))
      ensures forall i: nat :: CloexecAt(i) == if err == OK && i == n then cloexec else old(CloexecAt(i))
    {
      hide FullExact, Slots, BitBits, WholeWords;
      err, n, first := OK, 0, 0;
      var expanded := true;
      ghost var grown := false;
      while expanded
        invariant Valid() && Renewed() && held == old(held) && nextFd == old(nextFd) && SameContents()
        invariant grown || !expanded ==> old(LowestFree(start, first)) && first < fdt.fd.Length
        invariant !expanded ==> n == first < end
        invariant grown ==> first < end && RoomErr(old(fdt.fd.Length), first, nrOpen, limit) == OK
        invariant !grown ==> fdt == old(fdt)
        invariant err == OK
        decreases expanded, !grown
        modifies this`fdt
      {
        n := NextFree(start);
        if grown { assert n == first; }
        first := n;
        if n >= end { return EMFILE, n, first; }
        err, expanded := ExpandFiles(n, nrOpen, limit, willing);
        if err != OK { return; }
        grown := true;
      }
      Claim(n, start, cloexec);
    }

    /** The part of __alloc_fd that marks a number. */
    method Claim(n: nat, start: nat, cloexec: bool)
      requires Valid() && n < fdt.fd.Length && LowestFree(start, n)
      modifies this`nextFd, fdt.open, fdt.cloexec, fdt.full
      ensures Valid() && SlotAt(n) == None
      ensures forall i: nat :: OpenAt(i) == (i == n || old(OpenAt(i)))
      ensures forall i: nat :: CloexecAt(i) == if i == n then cloexec else old(CloexecAt(i))
    {
      hide FullExact, Slots, BitBits;
      if start <= nextFd {
        forall i | 0 <= i < n ensures fdt.open[i] { assert OpenAt(i); }
        nextFd := n + 1;
      }
      fdt.SetOpenFd(n);
      ghost var open, full := fdt.open[..], fdt.full[..];
      fdt.cloexec[n] := cloexec;
      assert fdt.open[..] == open && fdt.full[..] == full && fdt.fd[..] == old(fdt.fd[..]);
      assert forall i :: 0 <= i < fdt.open.Length ==> fdt.open[i] == fdt.open[..][i];
    }

    /** __put_unused_fd */
    method PutUnusedFd(n: nat)
      requires Tidy() && n < fdt.fd.Length && fdt.fd[n] == None
      modifies this`nextFd, fdt.open, fdt.full
      ensures Tidy() && fdt.open[..] == old(fdt.open[..])[n := false]
    {
      hide FullExact, BitBits;
      fdt.ClearOpenFd(n);
      if n < nextFd { nextFd := n; }
      assert forall i :: 0 <= i < fdt.open.Length ==> fdt.open[i] == fdt.open[..][i];
    }

    /** __fd_install: the slot was reserved and is empty, so its BUG_ON does not fire. The caller's
        reference to the file goes to the slot. */
    method FdInstall(n: nat, file: FileId, loose: multiset<FileId>) returns (left: multiset<FileId>)
      requires Valid() && OpenAt(n) && SlotAt(n) == None && file in loose
      modifies this`held, fdt.fd
      ensures Valid() && held == old(held) + RefOf(Some(file)) && fdt.fd[..] == old(fdt.fd[..])[n := Some(file)]
      ensures forall i: nat :: SlotAt(i) == if i == n then Some(file) else old(SlotAt(i))
      ensures forall i: nat :: OpenAt(i) == old(OpenAt(i)) && CloexecAt(i) == old(CloexecAt(i))
      ensures left == loose - RefOf(Some(file))
    {
      hide FullExact, BitBits, Slots, RefOf;
      SlotsWrite(fdt.fd[..], n, Some(file));
      fdt.fd[n] := Some(file);
      held, left := held + RefOf(Some(file)), loose - RefOf(Some(file));
      assert fdt.fd[..] == old(fdt.fd[..])[n := Some(file)];
    }

    /** __close_fd. The reference of the slot is dropped. */
    method CloseFd(n: nat) returns (err: Errno)
      requires Valid()
      modifies this`nextFd, this`held, fdt.fd, fdt.open, fdt.cloexec, fdt.full
      ensures Valid()
      ensures err == if old(SlotAt(n)).Some? then OK else EBADF
      ensures err == OK ==>
                && held == old(held) - RefOf(old(SlotAt(n))) && fdt.fd[..] == old(fdt.fd[..])[n := None]
                && fdt.open[..] == old(fdt.open[..])[n := false] && fdt.cloexec[..] == old(fdt.cloexec[..])[n := false]
      ensures err != OK ==> held == old(held) && fdt.fd[..] == old(fdt.fd[..]) && fdt.open[..] == old(fdt.open[..])
                            && fdt.cloexec[..] == old(fdt.cloexec[..])
    {
      hide FullExact, BitBits, Slots, RefOf;
      if n >= fdt.fd.Length || fdt.fd[n] == None { return EBADF; }
      var file := fdt.fd[n].value;
      SlotsWrite(fdt.fd[..], n, None);
      ghost var open, full := fdt.open[..], fdt.full[..];
      fdt.fd[n] := None;
      fdt.cloexec[n] := false;
      assert fdt.open[..] == open && fdt.full[..] == full;
      PutUnusedFd(n);
      held := held - RefOf(Some(file));
      err := OK;
      assert fdt.fd[..] == old(fdt.fd[..])[n := None];
    }

    /** Number n got this slot and this close_on_exec bit and is open; no other number changed. */
    twostate predicate Placed(n: nat, slot: Option<FileId>, cloexec: bool)
      reads this, fdt.fd, fdt.open, fdt.cloexec
    {
      forall i: nat :: SlotAt(i) == (if i == n then slot else old(SlotAt(i))) && OpenAt(i) == (i == n || old(OpenAt(i)))
                       && CloexecAt(i) == if i == n then cloexec else old(CloexecAt(i))
    }

    /** do_dup2: the slot gets the file, what it held before is dropped. A reserved number is busy. */
    method DoDup2(file: FileId, n: nat, cloexec: bool) returns (err: Errno)
      requires Valid() && n < fdt.fd.Length
      modifies this`held, fdt.fd, fdt.open, fdt.cloexec, fdt.full
      ensures Valid()
      ensures err == if old(SlotAt(n)) == None && old(OpenAt(n)) then EBUSY else OK
      ensures err == OK ==>
                held == old(held) + RefOf(Some(file)) - RefOf(old(SlotAt(n))) && Placed(n, Some(file), cloexec)
      ensures err != OK ==> held == old(held) && SameContents()
    {
      hide FullExact, BitBits, Slots, RefOf;
      if fdt.fd[n] == None && fdt.open[n] { return EBUSY; }
      ReplaceSlot(file, n, cloexec);
      err := OK;
    }

    /** The part of do_dup2 that writes: the file gets a reference for the slot, what was there loses its own. */
    method ReplaceSlot(file: FileId, n: nat, cloexec: bool)
      requires Valid() && n < fdt.fd.Length
      modifies this`held, fdt.fd, fdt.open, fdt.cloexec, fdt.full
      ensures Valid() && held == old(held) + RefOf(Some(file)) - RefOf(old(SlotAt(n)))
      ensures fdt.fd[..] == old(fdt.fd[..])[n := Some(file)]
      ensures fdt.open[..] == old(fdt.open[..])[n := true] && fdt.cloexec[..] == old(fdt.cloexec[..])[n := cloexec]
    {
      hide FullExact, BitBits, Slots, RefOf;
      var toFree := fdt.fd[n];
      MarkOpen(n, cloexec);
      SlotsWrite(fdt.fd[..], n, Some(file));
      held := held + RefOf(Some(file));
      fdt.fd[n] := Some(file);
      assert fdt.fd[..] == old(fdt.fd[..])[n := Some(file)];
      held := held - RefOf(toFree);
    }

    /** Set the open bit of a number and give its close_on_exec bit a value. */
    method MarkOpen(n: nat, cloexec: bool)
      requires Valid() && n < fdt.fd.Length
      modifies fdt.open, fdt.cloexec, fdt.full
      ensures Valid() && fdt.open[n] && fdt.fd[..] == old(fdt.fd[..])
      ensures fdt.open[..] == old(fdt.open[..])[n := true] && fdt.cloexec[..] == old(fdt.cloexec[..])[n := cloexec]
    {
      hide FullExact, BitBits, Slots;
      ghost var open, full := fdt.open[..], fdt.full[..];
      fdt.cloexec[n] := cloexec;
      assert fdt.open[..] == open && fdt.full[..] == full;
      fdt.SetOpenFd(n);
      assert fdt.fd[..] == old(fdt.fd[..]);
      assert forall i :: 0 <= i < fdt.open.Length ==> fdt.open[i] == fdt.open[..][i];
    }

    /** Empty an occupied slot, free its number and drop its reference. */
    method DropSlot(n: nat)
      requires Valid() && n < fdt.fd.Length && fdt.fd[n].Some?
      modifies this`nextFd, this`held, fdt.fd, fdt.open, fdt.full
      ensures Valid() && fdt.fd[..] == old(fdt.fd[..])[n := None] && fdt.open[..] == old(fdt.open[..])[n := false]
    {
      hide FullExact, BitBits, Slots, RefOf;
      var file := fdt.fd[n];
      SlotsWrite(fdt.fd[..], n, None);
      ghost var open, full := fdt.open[..], fdt.full[..];
      fdt.fd[n] := None;
      assert fdt.open[..] == open && fdt.full[..] == full;
      PutUnusedFd(n);
      held := held - RefOf(file);
      assert fdt.fd[..] == old(fdt.fd[..])[n := None];
    }

    /** One word of do_close_on_exec: `bits` are its close_on_exec bits, already cleared in the table. */
    method CloseWord(first: nat, bits: seq<bool>, ghost was: Snapshot)
      requires Valid() && |bits| == BITS_PER_LONG && first + BITS_PER_LONG <= fdt.fd.Length == |was.fd| && was.Sized()
      requires bits == was.cloexec[first..first + BITS_PER_LONG] && ExecedTo(was, fdt.fd[..], fdt.open[..], first)
      modifies this`nextFd, this`held, fdt.fd, fdt.open, fdt.full
      ensures Valid() && ExecedTo(was, fdt.fd[..], fdt.open[..], first + BITS_PER_LONG)
    {
      hide FullExact, BitBits, Slots, ExecedTo;
      var n := 0;
      while n < BITS_PER_LONG
        invariant Valid() && 0 <= n <= BITS_PER_LONG && ExecedTo(was, fdt.fd[..], fdt.open[..], first + n)
      {
        ExecStep(was, fdt.fd[..], fdt.open[..], first + n);
        assert fdt.fd[..][first + n] == fdt.fd[first + n];
        if bits[n] && fdt.fd[first + n].Some? { DropSlot(first + n); }
        n := n + 1;
      }
    }

    /** do_close_on_exec, word by word. */
    method DoCloseOnExec()
      requires Valid()
      modifies this`nextFd, this`held, fdt.fd, fdt.open, fdt.cloexec, fdt.full
      ensures Valid() && fdt == old(fdt) && forall i :: 0 <= i < fdt.cloexec.Length ==> !fdt.cloexec[i]
      ensures ExecedTo(old(Snapshot(fdt.fd[..], fdt.open[..], fdt.cloexec[..])), fdt.fd[..], fdt.open[..],
                       fdt.fd.Length)
    {
      hide FullExact, BitBits, Slots, ExecedTo;
      ghost var was := Snapshot(fdt.fd[..], fdt.open[..], fdt.cloexec[..]);
      var first := 0;
      ExecStart(was);
      while first < fdt.fd.Length
        invariant Valid() && fdt == old(fdt) && 0 <= first <= fdt.fd.Length && first % BITS_PER_LONG == 0
        invariant ExecedTo(was, fdt.fd[..], fdt.open[..], first)
        invariant forall i :: 0 <= i < fdt.cloexec.Length ==> fdt.cloexec[i] == (first <= i && was.cloexec[i])
      {
        var bits := fdt.cloexec[first..first + BITS_PER_LONG];
        ghost var fd, open := fdt.fd[..], fdt.open[..];
        ClearWord(first);
        assert fdt.fd[..] == fd && fdt.open[..] == open;
        CloseWord(first, bits, was);
        first := first + BITS_PER_LONG;
      }
    }

    /** close_files: every open number is looked at and every reference dropped. */
    method CloseFiles()
      requires Valid()
      modifies this`held, fdt.fd
      ensures Valid() && held == multiset{} && forall i :: 0 <= i < fdt.fd.Length ==> fdt.fd[i] == None
    {
      hide FullExact, BitBits, Slots, RefOf;
      var i := 0;
      while i < fdt.fd.Length
        invariant Valid() && 0 <= i <= fdt.fd.Length && forall j :: 0 <= j < i ==> fdt.fd[j] == None
      {
        if fdt.open[i] {
          TakeSlot(i);
          assert forall j :: 0 <= j < fdt.fd.Length ==> fdt.fd[j] == fdt.fd[..][j];
        }
        i := i + 1;
      }
      NoSlots(fdt.fd[..]);
    }

    /** Empty a slot and drop its reference; its number stays taken. */
    method TakeSlot(n: nat)
      requires Valid() && n < fdt.fd.Length
      modifies this`held, fdt.fd
      ensures Valid() && fdt.fd[..] == old(fdt.fd[..])[n := None]
    {
      hide FullExact, BitBits, Slots, RefOf;
      var file := fdt.fd[n];
      SlotsWrite(fdt.fd[..], n, None);
      fdt.fd[n] := None;
      assert fdt.fd[..] == old(fdt.fd[..])[n := None];
      held := held - RefOf(file);
    }

    /** count_open_files: whole words, up to the last one with an open number. */
    method CountOpenFiles() returns (n: nat)
      requires Valid()
      ensures n <= fdt.fd.Length && CountsOpen(this, n)
    {
      n := fdt.fd.Length;
      while n > BITS_PER_LONG
        invariant BITS_PER_LONG <= n <= fdt.fd.Length && n % BITS_PER_LONG == 0 && forall i ::
                    n <= i < fdt.fd.Length ==> !fdt.open[i]
      {
        var i := n - BITS_PER_LONG;
        while i < n && !fdt.open[i]
          invariant n - BITS_PER_LONG <= i <= n && forall j :: n - BITS_PER_LONG <= j < i ==> !fdt.open[j]
        {
          i := i + 1;
        }
        if i < n {
          assert OpenAt(i);
          return;
        }
        n := n - BITS_PER_LONG;
      }
    }

    method ClearWord(first: nat)
      requires Valid() && first + BITS_PER_LONG <= fdt.fd.Length
      modifies fdt.cloexec
      ensures Valid()
      ensures forall i :: 0 <= i < fdt.cloexec.Length ==> fdt.cloexec[i] ==
                                                          (!(first <= i < first + BITS_PER_LONG) && old(fdt.cloexec[i]))
    {
      hide FullExact, BitBits, Slots;
      ghost var open, full := fdt.open[..], fdt.full[..];
      forall i | first <= i < first + BITS_PER_LONG { fdt.cloexec[i] := false; }
      assert fdt.open[..] == open && fdt.full[..] == full;
    }
  }

  /** A table's slots and bits at one moment. */
  datatype Snapshot = Snapshot(fd: seq<Option<FileId>>, open: seq<bool>, cloexec: seq<bool>) {
    predicate Sized() {
      |open| == |fd| && |cloexec| == |fd|
    }
  }

  /** Numbers below k are as close-on-exec leaves them: occupied slots with the bit set are empty and free. */
  ghost predicate ExecedTo(was: Snapshot, fd: seq<Option<FileId>>, open: seq<bool>, k: nat) {
    && was.Sized() && |fd| == |was.fd| && |open| == |was.fd|
    && forall i {:trigger fd[i]} {:trigger open[i]} :: 0 <= i < |fd| ==>
         if i < k && was.cloexec[i] && was.fd[i].Some? then fd[i] == None && !open[i]
         else fd[i] == was.fd[i] && open[i] == was.open[i]
  }

  lemma {:induction false} ExecStart(was: Snapshot)
    requires was.Sized()
    ensures ExecedTo(was, was.fd, was.open, 0)
  {
  }

  lemma {:induction false} ExecStep(was: Snapshot, fd: seq<Option<FileId>>, open: seq<bool>, k: nat)
    requires ExecedTo(was, fd, open, k) && k < |was.fd|
    ensures fd[k] == was.fd[k]
    ensures if was.cloexec[k] && fd[k].Some? then ExecedTo(was, fd[k := None], open[k := false], k + 1)
            else ExecedTo(was, fd, open, k + 1)
  {
  }

  lemma {:induction false} NoSlots(s: seq<Option<FileId>>)
    requires forall i :: 0 <= i < |s| ==> s[i] == None
    ensures Slots(s) == multiset{}
  {
    SlotsPadded(s, 0, |s|);
  }

  // ---------- fork ----------

  /** The new table has the old one's files in the same slots, and exactly those numbers are open. */
  ghost predicate Forked(old': Files, new': Files)
    reads old', old'.fdt.fd, old'.fdt.cloexec, new', new'.fdt.fd, new'.fdt.open, new'.fdt.cloexec
  {
    && (forall i: nat :: new'.SlotAt(i) == old'.SlotAt(i))
    && (forall i: nat :: new'.OpenAt(i) <==> old'.SlotAt(i).Some?)
    && (forall i: nat :: new'.CloexecAt(i) ==> old'.CloexecAt(i))
    && (forall i: nat :: old'.SlotAt(i).Some? ==> new'.CloexecAt(i) == old'.CloexecAt(i))
  }

  /** The bitmaps of dup_fd before the slots are copied. */
  method CopyFdBitmaps(new': Fdt, old': Fdt, count: nat)
    requires old'.Valid() && new'.Shape() && count <= old'.fd.Length && count <= new'.fd.Length
             && count % BITS_PER_LONG == 0
    requires {old'.open, old'.cloexec, old'.full} !! {new'.open, new'.cloexec, new'.full}
    requires forall i :: count <= i < old'.fd.Length ==> !old'.open[i]
    requires forall i :: 0 <= i < new'.fd.Length ==> !new'.open[i] && !new'.cloexec[i]
    requires forall w :: 0 <= w < new'.full.Length ==> !new'.full[w]
    modifies new'.open, new'.cloexec, new'.full
    ensures CopyOf(new'.open[..], old'.open[..], count) && CopyOf(new'.cloexec[..], old'.cloexec[..], count)
    ensures FullExact(new'.open[..], new'.full[..])
  {
    CopyBits(new'.open, old'.open, count);
    CopyBits(new'.cloexec, old'.cloexec, count);
    BitsFit(count, new'.fd.Length);
    BitsFit(count, old'.fd.Length);
    CopyBits(new'.full, old'.full, BitBits(count));
    CopyExact(old'.open[..], old'.full[..], new'.open[..], new'.full[..], count);
  }

  /** The first i slots are copied: exactly their numbers are open, and one reference is held for each file. */
  ghost predicate CopiedTo(newf: Files, old': Fdt, count: nat, i: nat)
    reads newf, newf.fdt.fd, newf.fdt.open, newf.fdt.full, old'.fd, old'.open
  {
    var t := newf.fdt;
    && t.Shape() && old'.Shape() && i <= count <= old'.fd.Length && count <= t.fd.Length && newf.nextFd == 0
    && newf.held == Slots(t.fd[..]) && FullExact(t.open[..], t.full[..])
    && (forall j :: 0 <= j < t.fd.Length ==> t.fd[j] == if j < i then old'.fd[j] else None)
    && (forall j :: 0 <= j < t.open.Length ==>
          t.open[j] == if j < i then old'.fd[j].Some? else j < count && old'.open[j])
  }

  /** One slot of dup_fd: the file gets a reference; a number that is reserved but empty is freed in the new table. */
  method CopySlot(newf: Files, old': Fdt, ghost count: nat, i: nat)
    requires i < count && CopiedTo(newf, old', count, i) && old'.Valid() && newf.fdt.fd != old'.fd
             && {old'.open} !! {newf.fdt.open, newf.fdt.full}
    modifies newf`held, newf.fdt.fd, newf.fdt.open, newf.fdt.full
    ensures CopiedTo(newf, old', count, i + 1)
  {
    hide FullExact, BitBits, Slots, RefOf;
    var t, f := newf.fdt, old'.fd[i];
    ghost var fd := t.fd[..];
    EmptyWrite(fd, i, f);
    if f.Some? {
      newf.held := newf.held + RefOf(f);
    } else {
      t.ClearOpenFd(i);
      assert forall j :: 0 <= j < t.open.Length ==> t.open[j] == t.open[..][j];
    }
    ghost var open, full := t.open[..], t.full[..];
    t.fd[i] := f;
    assert t.open[..] == open && t.full[..] == full && t.fd[..] == fd[i := f];
  }

  lemma {:induction false} EmptyWrite(s: seq<Option<FileId>>, i: nat, e: Option<FileId>)
    requires i < |s| && s[i] == None
    ensures e == None ==> s[i := e] == s
    ensures Slots(s[i := e]) == if e.Some? then Slots(s) + RefOf(e) else Slots(s)
  {
    SlotsWrite(s, i, e);
    if e == None { assert s[i := e] == s; }
  }

  /** A table in which nothing is open. */
  ghost predicate Blank(f: Files)
    reads f, f.fdt.fd, f.fdt.open, f.fdt.cloexec, f.fdt.full
  {
    && f.fdt.Shape() && f.nextFd == 0 && f.held == multiset{}
    && (forall i :: 0 <= i < f.fdt.fd.Length ==> f.fdt.fd[i] == None && !f.fdt.open[i] && !f.fdt.cloexec[i])
    && (forall w :: 0 <= w < f.fdt.full.Length ==> !f.fdt.full[w])
  }

  /** The new files_struct of dup_fd, with a table for `count` numbers. */
  method NewFiles(count: nat, limit: nat, willing: bool) returns (err: Errno, newf: Files)
    requires limit > 0 && count > 0
    ensures (err == ENOMEM && !willing) || err == Files.RoomErr(BITS_PER_LONG, count - 1, count, limit)
    ensures err == OK ==> fresh(newf) && Blank(newf) && count <= newf.fdt.fd.Length
    ensures err == OK ==> fresh(newf.fdt.fd) && fresh(newf.fdt.open) && fresh(newf.fdt.cloexec) && fresh(newf.fdt.full)
  {
    hide FullExact, BitBits, Slots, TableSize, WholeWords;
    newf := new Files();
    err := OK;
    var gotFiles: bool := *;
    if !gotFiles && !willing { return ENOMEM, newf; }
    if count > newf.fdt.fd.Length {
      var gotMemory: bool := *;
      if !gotMemory && !willing { return ENOMEM, newf; }
      TableSizeFits(count - 1, limit);
      var bigger := new Fdt(TableSize(count - 1, limit));
      if bigger.fd.Length < count { return EMFILE, newf; }
      newf.fdt := bigger;
    }
  }

  /** The slot loop of dup_fd. */
  method CopySlots(newf: Files, old': Fdt, count: nat)
    requires CopiedTo(newf, old', count, 0) && old'.Valid() && newf.fdt.fd != old'.fd
             && {old'.open, old'.full} !! {newf.fdt.open, newf.fdt.full}
    modifies newf`held, newf.fdt.fd, newf.fdt.open, newf.fdt.full
    ensures CopiedTo(newf, old', count, count)
  {
    hide CopiedTo, FullExact, BitBits;
    var i := 0;
    while i < count
      invariant 0 <= i <= count && CopiedTo(newf, old', count, i) && old'.Valid() && newf.fdt == old(newf.fdt)
    {
      CopySlot(newf, old', count, i);
      i := i + 1;
    }
  }

  lemma {:induction false} BlankCopied(newf: Files, old': Fdt, count: nat)
    requires newf.fdt.Shape() && newf.nextFd == 0 && newf.held == multiset{} && old'.Shape() && count <= old'.fd.Length
             && count <= newf.fdt.fd.Length
    requires forall i :: 0 <= i < newf.fdt.fd.Length ==> newf.fdt.fd[i] == None
    requires CopyOf(newf.fdt.open[..], old'.open[..], count) && FullExact(newf.fdt.open[..], newf.fdt.full[..])
    ensures CopiedTo(newf, old', count, 0)
  {
    hide FullExact, BitBits;
    NoSlots(newf.fdt.fd[..]);
    assert forall j :: 0 <= j < newf.fdt.open.Length ==> newf.fdt.open[j] == newf.fdt.open[..][j];
  }

  /** The table's open numbers lie in its first `count` ones: at least a word, and no word too many. */
  ghost predicate CountsOpen(f: Files, count: nat)
    reads f, f.fdt.open
  {
    && BITS_PER_LONG <= count && count % BITS_PER_LONG == 0 && (forall i: nat :: f.OpenAt(i) ==> i < count)
    && (count > BITS_PER_LONG ==> exists i: nat :: count - BITS_PER_LONG <= i < count && f.OpenAt(i))
  }

  lemma {:induction false} NoneBehind(f: Files, count: nat)
    requires f.fdt.Shape() && CountsOpen(f, count)
    ensures BITS_PER_LONG <= count && count % BITS_PER_LONG == 0
    ensures forall i :: count <= i < f.fdt.fd.Length ==> !f.fdt.open[i]
  {
    forall i | count <= i < f.fdt.fd.Length ensures !f.fdt.open[i] {
      assert !f.OpenAt(i);
    }
  }

  /** dup_fd. `limit` is sysctl_nr_open when the new table is allocated. */
  method DupFd(oldf: Files, limit: nat, willing: bool) returns (err: Errno, newf: Files, ghost count: nat)
    requires oldf.Valid() && limit > 0
    ensures CountsOpen(oldf, count)
    ensures (err == ENOMEM && !willing) || err == Files.RoomErr(BITS_PER_LONG, count - 1, count, limit)
    ensures err == OK ==> fresh(newf) && newf.Valid() && Forked(oldf, newf) && newf.held == oldf.held
    ensures err == OK ==> fresh(newf.fdt.fd) && fresh(newf.fdt.open) && fresh(newf.fdt.cloexec) && fresh(newf.fdt.full)
  {
    hide FullExact, BitBits, Slots, CopyOf, CopiedTo, Forked, CountsOpen, Files.RoomErr;
    var n := oldf.CountOpenFiles();
    count := n;
    NoneBehind(oldf, n);
    err, newf := NewFiles(n, limit, willing);
    if err != OK { return; }
    CopyFdBitmaps(newf.fdt, oldf.fdt, n);
    BlankCopied(newf, oldf.fdt, n);
    ghost var cloexec := newf.fdt.cloexec[..];
    CopySlots(newf, oldf.fdt, n);
    assert newf.fdt.cloexec[..] == cloexec;
    ForkedFrom(oldf, newf, n);
  }

  lemma {:induction false} ForkedFrom(oldf: Files, newf: Files, count: nat)
    requires oldf.Valid() && CopiedTo(newf, oldf.fdt, count, count)
    requires CopyOf(newf.fdt.cloexec[..], oldf.fdt.cloexec[..], count) && forall i ::
               count <= i < oldf.fdt.fd.Length ==> !oldf.fdt.open[i]
    ensures newf.Valid() && Forked(oldf, newf) && newf.held == oldf.held
  {
    hide FullExact, BitBits, Slots;
    ForkedSlots(oldf.fdt.fd[..], newf.fdt.fd[..], count);
    assert forall j :: 0 <= j < newf.fdt.fd.Length ==> newf.fdt.cloexec[j] == newf.fdt.cloexec[..][j];
    assert forall j :: 0 <= j < oldf.fdt.fd.Length ==> oldf.fdt.cloexec[j] == oldf.fdt.cloexec[..][j];
  }

  lemma {:induction false} ForkedSlots(s: seq<Option<FileId>>, t: seq<Option<FileId>>, count: nat)
    requires count <= |s| && count <= |t| && (forall i :: 0 <= i < count ==> s[i] == t[i])
    requires (forall i :: count <= i < |s| ==> s[i] == None) && (forall i :: count <= i < |t| ==> t[i] == None)
    ensures Slots(s) == Slots(t)
  {
    SlotsSame(s, t, count);
    SlotsPadded(s, count, |s|);
    SlotsPadded(t, count, |t|);
  }
}
