/** struct fdtable: the slots of a descriptor table, its bitmaps and the two-level search for a free number. */
module FdTable {
  import opened Areas

  const BITS_PER_LONG: nat := 64

  /** All numbers of word w are open. */
  ghost predicate WordFull(open: seq<bool>, w: nat) {
    forall i :: w * BITS_PER_LONG <= i < (w + 1) * BITS_PER_LONG && i < |open| ==> open[i]
  }

  /** Bit w of full_fds_bits says that word w is all ones; the spare bits behind the last word are clear. */
  ghost predicate FullExact(open: seq<bool>, full: seq<bool>) {
    forall w: nat :: w < |full| ==> (full[w] <==> w < |open| / BITS_PER_LONG && WordFull(open, w))
  }

  /** Bits in full_fds_bits for a table of n numbers: whole longs. */
  function BitBits(n: nat): nat {
    (n / BITS_PER_LONG + BITS_PER_LONG - 1) / BITS_PER_LONG * BITS_PER_LONG
  }

  /** The sizes of the arrays of a table for n numbers. */
  predicate Sized(n: nat, open: nat, cloexec: nat, full: nat) {
    n > 0 && n % BITS_PER_LONG == 0 && open == n && cloexec == n && full == BitBits(n)
  }

  /** A number can be handed out when no bit says that it is taken; beyond the table all are free. */
  predicate IsFree(open: seq<bool>, i: nat) {
    i >= |open| || !open[i]
  }

  /** The first free number from `start` on, as a naive scan finds it. */
  ghost predicate FirstFree(open: seq<bool>, start: nat, i: nat) {
    start <= i && IsFree(open, i) && forall j :: start <= j < i ==> !IsFree(open, j)
  }

  /** find_next_zero_bit: the first clear bit from `start` on, `size` if there is none. */
  method FindNextZeroBit(bits: array<bool>, size: nat, start: nat) returns (i: nat)
    requires size <= bits.Length
    ensures start <= size ==> start <= i <= size
    ensures start > size ==> i == size
    ensures i < size ==> !bits[i]
    ensures forall j :: start <= j < i && j < size ==> bits[j]
  {
    i := start;
    while i < size && bits[i]
      invariant start <= i && (start <= size ==> i <= size)
      invariant forall j :: start <= j < i && j < size ==> bits[j]
    {
      i := i + 1;
    }
    if i > size { i := size; }
  }

  class Fdt {
    const fd: array<Option<FileId>>
    const open: array<bool>
    const cloexec: array<bool>
    const full: array<bool>

    constructor (n: nat)
      requires n > 0 && n % BITS_PER_LONG == 0
      ensures Shape() && fd.Length == n && fresh(fd) && fresh(open) && fresh(cloexec) && fresh(full)
      ensures forall i :: 0 <= i < n ==> fd[i] == None && !open[i] && !cloexec[i]
      ensures forall w :: 0 <= w < full.Length ==> !full[w]
    {
      fd := new Option<FileId>[n](_ => None);
      open := new bool[n](_ => false);
      cloexec := new bool[n](_ => false);
      full := new bool[BitBits(n)](_ => false);
    }

    ghost predicate Shape() {
      && Sized(fd.Length, open.Length, cloexec.Length, full.Length)
      && open != cloexec && open != full && cloexec != full
    }

    /** An occupied slot has its open bit, and the full bits are right. */
    ghost predicate Valid()
      reads fd, open, full
    {
      && Shape()
      && (forall i :: 0 <= i < fd.Length && fd[i].Some? ==> open[i])
      && FullExact(open[..], full[..])
    }

    /** __set_open_fd */
    method SetOpenFd(n: nat)
      requires Shape() && n < fd.Length && FullExact(open[..], full[..])
      modifies open, full
      ensures open[..] == old(open[..])[n := true] && FullExact(open[..], full[..])
    {
      open[n] := true;
      var w := n / BITS_PER_LONG;
      var all := true;
      var i := w * BITS_PER_LONG;
      while i < (w + 1) * BITS_PER_LONG
        invariant w * BITS_PER_LONG <= i <= (w + 1) * BITS_PER_LONG <= open.Length
        invariant all <==> forall j :: w * BITS_PER_LONG <= j < i ==> open[j]
      {
        all := all && open[i];
        i := i + 1;
      }
      InWord(n, open.Length);
      if all { full[w] := true; }
      SetExact(old(open[..]), old(full[..]), n, open[..], full[..]);
    }

    /** __clear_open_fd */
    method ClearOpenFd(n: nat)
      requires Shape() && n < fd.Length && FullExact(open[..], full[..])
      modifies open, full
      ensures open[..] == old(open[..])[n := false] && FullExact(open[..], full[..])
    {
      open[n] := false;
      InWord(n, open.Length);
      full[n / BITS_PER_LONG] := false;
      ClearExact(old(open[..]), old(full[..]), n);
      assert open[..] == old(open[..])[n := false];
      assert full[..] == old(full[..])[n / BITS_PER_LONG := false];
    }

    /** find_next_fd: skip full words, then look bit by bit. */
    method FindNextFd(start: nat) returns (n: nat)
      requires Shape() && FullExact(open[..], full[..]) && start < fd.Length
      ensures FirstFree(open[..], start, n) && n <= fd.Length
    {
      var maxFd, from := fd.Length, start;
      var maxBit := maxFd / BITS_PER_LONG;
      WordsFit(maxFd);
      var word := FindNextZeroBit(full, maxBit, start / BITS_PER_LONG);
      var bitbit := word * BITS_PER_LONG;
      FullSkip(open[..], full[..], start, word);
      if bitbit > start { from := if bitbit > maxFd then maxFd else bitbit; }
      n := FindNextZeroBit(open, maxFd, from);
    }
  }

  lemma {:induction false} InWord(n: nat, size: nat)
    requires n < size && size % BITS_PER_LONG == 0
    ensures n / BITS_PER_LONG < size / BITS_PER_LONG <= BitBits(size) && (n / BITS_PER_LONG + 1) * BITS_PER_LONG <= size
    ensures n / BITS_PER_LONG * BITS_PER_LONG <= n < (n / BITS_PER_LONG + 1) * BITS_PER_LONG
  {
  }

  lemma {:induction false} WordsFit(size: nat)
    requires size % BITS_PER_LONG == 0
    ensures size / BITS_PER_LONG <= BitBits(size) && size / BITS_PER_LONG * BITS_PER_LONG == size
  {
  }

  /** Words up to `word` are full, so no number from `start` up to that word is free. */
  lemma {:induction false} FullSkip(open: seq<bool>, full: seq<bool>, start: nat, word: nat)
    requires FullExact(open, full) && start < |open| && |open| % BITS_PER_LONG == 0
    requires start / BITS_PER_LONG <= word <= |open| / BITS_PER_LONG <= |full|
    requires forall w :: start / BITS_PER_LONG <= w < word ==> full[w]
    ensures forall j :: start <= j < word * BITS_PER_LONG ==> !IsFree(open, j)
  {
    forall j: nat | start <= j < word * BITS_PER_LONG ensures !IsFree(open, j) {
      var w := j / BITS_PER_LONG;
      assert full[w] && WordFull(open, w);
    }
  }

  lemma {:induction false} SetExact(open: seq<bool>, full: seq<bool>, n: nat, open2: seq<bool>, full2: seq<bool>)
    requires n < |open| && |open| % BITS_PER_LONG == 0 && FullExact(open, full) && n / BITS_PER_LONG < |full|
    requires open2 == open[n := true]
    requires full2 == (if WordFull(open2, n / BITS_PER_LONG) then full[n / BITS_PER_LONG := true] else full)
    ensures FullExact(open2, full2)
  {
    forall w: nat | w < |full| && w < |open| / BITS_PER_LONG && w != n / BITS_PER_LONG
      ensures WordFull(open2, w) <==> WordFull(open, w) {
      OtherWord(open, n, true, w);
    }
    if WordFull(open, n / BITS_PER_LONG) { assert WordFull(open2, n / BITS_PER_LONG); }
  }

  /** Changing a bit concerns no word but its own. */
  lemma {:induction false} OtherWord(open: seq<bool>, n: nat, b: bool, w: nat)
    requires n < |open| && w != n / BITS_PER_LONG
    ensures WordFull(open[n := b], w) <==> WordFull(open, w)
  {
    assert forall i :: w * BITS_PER_LONG <= i < (w + 1) * BITS_PER_LONG && i < |open| ==> open[n := b][i] == open[i];
  }

  lemma {:induction false} ClearExact(open: seq<bool>, full: seq<bool>, n: nat)
    requires n < |open| && |open| % BITS_PER_LONG == 0 && FullExact(open, full) && n / BITS_PER_LONG < |full|
    ensures FullExact(open[n := false], full[n / BITS_PER_LONG := false])
  {
    forall w: nat | w < |full| && w < |open| / BITS_PER_LONG && w != n / BITS_PER_LONG
      ensures WordFull(open[n := false], w) <==> WordFull(open, w) {
      OtherWord(open, n, false, w);
    }
    assert !open[n := false][n];
  }
}
