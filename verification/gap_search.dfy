/** unmapped_area and unmapped_area_topdown: searching the gap tree for room.

    Lengths, limits and the alignment are counted in pages. */
module GapSearch {
  import opened Areas
  import opened GapTree
  import opened VmaIndex

  /** struct vm_unmapped_area_info; `align` is align_mask + 1. */
  datatype Info = Info(length: nat, low: nat, high: nat, align: nat, offset: nat)

  predicate Valid(info: Info) {
    info.length < SPACE && info.low < SPACE && info.high < SPACE && 0 < info.align < SPACE
  }

  /** The length to search for: room to align in the worst case. */
  function Room(info: Info): int {
    info.length + info.align - 1
  }

  /** Where gap i begins, the gap in front of area i or behind the last area. */
  function GapStart(s: seq<Vma>, i: nat): nat
    requires i <= |s|
  {
    if i == 0 then 0 else s[i - 1].end
  }

  /** Gap i has room between the limits. */
  predicate Fit(s: seq<Vma>, i: nat, info: Info) {
    && i <= |s|
    && info.low + Room(info) <= info.high
    && GapStart(s, i) + Room(info) <= info.high
    && (i < |s| ==> info.low + Room(info) <= s[i].start && GapStart(s, i) + Room(info) <= s[i].start)
  }

  /** The first aligned address at or above g, and the last at or below e. */
  function AlignUp(g: int, info: Info): int
    requires info.align > 0
  {
    g + (info.offset - g) % info.align
  }

  function AlignDown(e: int, info: Info): int
    requires info.align > 0
  {
    e - (e - info.offset) % info.align
  }

  lemma {:induction false} AlignFits(x: int, info: Info)
    requires info.align > 0
    ensures x <= AlignUp(x, info) < x + info.align && (AlignUp(x, info) - info.offset) % info.align == 0
    ensures x - info.align < AlignDown(x, info) <= x && (AlignDown(x, info) - info.offset) % info.align == 0
  {
    hide AlignUp, AlignDown;
    AlignUpFits(x, info);
    AlignDownFits(x, info);
  }

  lemma {:induction false} AlignUpFits(x: int, info: Info)
    requires info.align > 0
    ensures x <= AlignUp(x, info) < x + info.align && (AlignUp(x, info) - info.offset) % info.align == 0
  {
    var d, m := info.offset - x, info.align;
    var rest := d % m;
    ModStep(d, m);
    assert AlignUp(x, info) == x + rest;
    assert x + rest - info.offset == rest - d;
  }

  lemma {:induction false} AlignDownFits(x: int, info: Info)
    requires info.align > 0
    ensures x - info.align < AlignDown(x, info) <= x && (AlignDown(x, info) - info.offset) % info.align == 0
  {
    var d, m := x - info.offset, info.align;
    var rest := d % m;
    ModStep(d, m);
    assert AlignDown(x, info) == x - rest;
    assert x - rest - info.offset == d - rest;
  }

  /** The lowest aligned address of gap i. */
  function Lowest(s: seq<Vma>, i: nat, info: Info): int
    requires i <= |s| && info.align > 0
  {
    AlignUp(Max(GapStart(s, i), info.low), info)
  }

  /** The highest aligned address from which the length still fits in gap i. */
  function Highest(s: seq<Vma>, i: nat, info: Info): int
    requires i <= |s| && info.align > 0
  {
    AlignDown((if i < |s| && s[i].start < info.high then s[i].start else info.high) - info.length, info)
  }

  // ---------- the linear scans ----------

  /** Scanning the gaps upward from gap i. */
  function ScanUp(s: seq<Vma>, i: nat, info: Info): Option<int>
    requires info.align > 0
    decreases |s| - i
  {
    if i > |s| then None
    else if Fit(s, i, info) then Some(Lowest(s, i, info))
    else ScanUp(s, i + 1, info)
  }

  /** Scanning the gaps downward from below gap n. */
  function ScanDown(s: seq<Vma>, n: nat, info: Info): Option<int>
    requires info.align > 0 && n <= |s| + 1
  {
    if n == 0 then None
    else if Fit(s, n - 1, info) then Some(Highest(s, n - 1, info))
    else ScanDown(s, n - 1, info)
  }

  /** An address fit for the request: aligned, between the limits, and the range meets no area. */
  ghost predicate Free(s: seq<Vma>, info: Info, addr: int) {
    && info.low <= addr && addr + info.length <= info.high
    && info.align > 0 && (addr - info.offset) % info.align == 0
    && forall j :: 0 <= j < |s| ==> s[j].end <= addr || addr + info.length <= s[j].start
  }

  lemma {:induction false} ModStep(x: int, m: int)
    requires m > 0
    ensures 0 <= x % m < m && (x - x % m) % m == 0 && (x % m - x) % m == 0
  {
    var q := x / m;
    assert x - x % m == q * m;
    MulMod(q, m);
    MulMod(-q, m);
    assert x % m - x == -q * m;
  }

  lemma {:induction false} MulMod(q: int, m: int)
    requires m > 0
    ensures q * m % m == 0
  {
    var x := q * m;
    var k := q - x / m;
    assert k * m == x - x / m * m == x % m;
    FarMultiple(k, m);
  }

  lemma {:induction false} FarMultiple(k: int, m: int)
    requires m > 0
    ensures (k >= 1 ==> k * m >= m) && (k <= -1 ==> k * m <= -m)
  {
  }

  /** Ends of all areas before gap i and starts of all behind it. */
  lemma {:induction false} GapApart(s: seq<Vma>, i: nat)
    requires Sorted(s) && i <= |s|
    ensures forall j :: 0 <= j < i ==> s[j].end <= GapStart(s, i)
    ensures forall j :: i <= j < |s| ==> s[i].start <= s[j].start
  {
    forall j | 0 <= j < i ensures s[j].end <= GapStart(s, i) {
      if j < i - 1 { assert s[j].end <= s[i - 1].start; }
    }
    forall j | i <= j < |s| ensures s[i].start <= s[j].start {
      if i < j { assert s[i].end <= s[j].start; }
    }
  }

  lemma {:induction false} LowestFree(s: seq<Vma>, i: nat, info: Info)
    requires Sorted(s) && Valid(info) && Fit(s, i, info)
    ensures Free(s, info, Lowest(s, i, info))
  {
    hide AlignUp;
    AlignFits(Max(GapStart(s, i), info.low), info);
    GapApart(s, i);
  }

  lemma {:induction false} HighestFree(s: seq<Vma>, i: nat, info: Info)
    requires Sorted(s) && Valid(info) && Fit(s, i, info)
    ensures Free(s, info, Highest(s, i, info))
  {
    hide AlignDown;
    AlignFits((if i < |s| && s[i].start < info.high then s[i].start else info.high) - info.length, info);
    GapApart(s, i);
  }

  /** The scan upward finds the lowest gap with room, and fails only if there is none. */
  lemma {:induction false} ScanUpFinds(s: seq<Vma>, i: nat, info: Info)
    requires Sorted(s) && Valid(info)
    ensures ScanUp(s, i, info).None? <==> forall j: nat :: i <= j <= |s| ==> !Fit(s, j, info)
    ensures ScanUp(s, i, info).Some? ==> Free(s, info, ScanUp(s, i, info).value)
    ensures ScanUp(s, i, info).Some? ==>
              exists j: nat :: i <= j && Fit(s, j, info) && ScanUp(s, i, info).value == Lowest(s, j, info)
                               && forall k: nat :: i <= k < j ==> !Fit(s, k, info)
    decreases |s| - i
  {
    hide Free, Lowest, Fit, Valid;
    if i <= |s| {
      if Fit(s, i, info) { LowestFree(s, i, info); } else { ScanUpFinds(s, i + 1, info); }
    }
  }

  lemma {:induction false} ScanDownFinds(s: seq<Vma>, n: nat, info: Info)
    requires Sorted(s) && Valid(info) && n <= |s| + 1
    ensures ScanDown(s, n, info).None? <==> forall j: nat :: j < n ==> !Fit(s, j, info)
    ensures ScanDown(s, n, info).Some? ==> Free(s, info, ScanDown(s, n, info).value)
    ensures ScanDown(s, n, info).Some? ==>
              exists j: nat :: j < n && Fit(s, j, info) && ScanDown(s, n, info).value == Highest(s, j, info)
                               && forall k: nat :: j < k < n ==> !Fit(s, k, info)
  {
    hide Free, Fit, Highest, Valid;
    if n > 0 {
      if Fit(s, n - 1, info) { HighestFree(s, n - 1, info); } else { ScanDownFinds(s, n - 1, info); }
    }
  }

  // ---------- what the scans find, in terms of free ranges alone ----------

  /** From a on there is room for the length and the worst case of alignment: length + align_mask pages between the
      limits that meet no area. */
  ghost predicate Wide(s: seq<Vma>, info: Info, a: int) {
    && info.low <= a && a + info.length + info.align - 1 <= info.high
    && forall j :: 0 <= j < |s| ==> s[j].end <= a || a + info.length + info.align - 1 <= s[j].start
  }

  ghost predicate FirstWide(s: seq<Vma>, info: Info, a: int) {
    Wide(s, info, a) && forall b: int :: Wide(s, info, b) ==> a <= b
  }

  ghost predicate LastWide(s: seq<Vma>, info: Info, a: int) {
    Wide(s, info, a) && forall b: int :: Wide(s, info, b) ==> b <= a
  }

  /** A wide range lies in a gap with room. */
  lemma {:induction false} WideGap(s: seq<Vma>, info: Info, a: int) returns (i: nat)
    requires Sorted(s) && Valid(info) && Wide(s, info, a)
    ensures Fit(s, i, info) && GapStart(s, i) <= a
    ensures i < |s| ==> a + info.length + info.align - 1 <= s[i].start
  {
    i := 0;
    while i < |s| && s[i].end <= a
      invariant i <= |s| && (i > 0 ==> s[i - 1].end <= a)
    {
      i := i + 1;
    }
  }

  /** A gap with room begins and ends with a wide range. */
  lemma {:induction false} GapWide(s: seq<Vma>, info: Info, i: nat)
    requires Sorted(s) && Valid(info) && Fit(s, i, info)
    ensures Wide(s, info, Max(GapStart(s, i), info.low))
    ensures Wide(s, info, (if i < |s| && s[i].start < info.high then s[i].start
                           else info.high) - info.length - info.align + 1)
  {
    GapApart(s, i);
  }

  /** The scan upward fails if and only if nothing is wide; what it finds is the first aligned address from where
      the lowest wide range begins. */
  lemma {:induction false} UpExactly(s: seq<Vma>, info: Info)
    requires Sorted(s) && Valid(info)
    ensures ScanUp(s, 0, info) == None <==> forall a: int :: !Wide(s, info, a)
    ensures ScanUp(s, 0, info).Some? ==>
              exists a: int :: FirstWide(s, info, a) && a <= ScanUp(s, 0, info).value < a + info.align
                               && (ScanUp(s, 0, info).value - info.offset) % info.align == 0
  {
    hide AlignUp, Wide;
    ScanUpFinds(s, 0, info);
    if ScanUp(s, 0, info) == None {
      forall a: int ensures !Wide(s, info, a) {
        if Wide(s, info, a) { var i := WideGap(s, info, a); }
      }
    } else {
      var j: nat :| Fit(s, j, info) && ScanUp(s, 0, info).value == Lowest(s, j, info)
                    && forall k: nat :: 0 <= k < j ==> !Fit(s, k, info);
      var a := Max(GapStart(s, j), info.low);
      GapWide(s, info, j);
      AlignFits(a, info);
      forall b: int | Wide(s, info, b) ensures a <= b {
        var i := WideGap(s, info, b);
        GapOrder(s, j, i);
        WideLow(s, info, b);
      }
      assert FirstWide(s, info, a);
    }
  }

  /** The scan downward likewise; what it finds is the last aligned address before the room behind it gets short. */
  lemma {:induction false} DownExactly(s: seq<Vma>, info: Info)
    requires Sorted(s) && Valid(info)
    ensures ScanDown(s, |s| + 1, info) == None <==> forall a: int :: !Wide(s, info, a)
    ensures ScanDown(s, |s| + 1, info).Some? ==>
              exists a: int :: LastWide(s, info, a) && a <= ScanDown(s, |s| + 1, info).value < a + info.align
                               && (ScanDown(s, |s| + 1, info).value - info.offset) % info.align == 0
  {
    hide AlignDown, Wide, ScanDown, LastWide;
    ScanDownFinds(s, |s| + 1, info);
    if ScanDown(s, |s| + 1, info) == None {
      forall a: int ensures !Wide(s, info, a) {
        if Wide(s, info, a) { var i := WideGap(s, info, a); }
      }
    } else {
      var j: nat :| j < |s| + 1 && Fit(s, j, info) && ScanDown(s, |s| + 1, info).value == Highest(s, j, info)
                    && forall k: nat :: j < k < |s| + 1 ==> !Fit(s, k, info);
      LastGap(s, info, j);
    }
  }

  /** The last gap with room ends the last address with room. */
  lemma {:induction false} LastGap(s: seq<Vma>, info: Info, j: nat)
    requires Sorted(s) && Valid(info) && j <= |s| && Fit(s, j, info)
    requires forall k: nat :: j < k <= |s| ==> !Fit(s, k, info)
    ensures exists a: int :: LastWide(s, info, a) && Wide(s, info, a) && a <= Highest(s, j, info) < a + info.align
                             && (Highest(s, j, info) - info.offset) % info.align == 0
  {
    hide AlignDown, Wide;
    var e := (if j < |s| && s[j].start < info.high then s[j].start else info.high) - info.length;
    var a := e - info.align + 1;
    GapWide(s, info, j);
    AlignFits(e, info);
    forall b: int | Wide(s, info, b) ensures b <= a {
      var i := WideGap(s, info, b);
      GapOrder(s, i, j);
      WideLow(s, info, b);
    }
    assert LastWide(s, info, a);
  }

  lemma {:induction false} GapOrder(s: seq<Vma>, i: nat, j: nat)
    requires Sorted(s) && i <= j <= |s|
    ensures GapStart(s, i) <= GapStart(s, j) && (j < |s| ==> s[i].start <= s[j].start)
  {
    GapApart(s, j);
    if 0 < i < j { assert s[i - 1].end <= GapStart(s, j); }
    if i < j < |s| { assert s[i].end <= s[j].start; }
  }

  lemma {:induction false} WideLow(s: seq<Vma>, info: Info, a: int)
    requires Wide(s, info, a)
    ensures info.low <= a && a + info.length + info.align - 1 <= info.high
  {
  }

  /** Without alignment: an address is found if and only if one is free, upward the lowest and downward the highest. */
  lemma {:induction false} PlainExactly(s: seq<Vma>, info: Info)
    requires Sorted(s) && Valid(info) && info.align == 1
    ensures ScanUp(s, 0, info) == None <==> forall a: int :: !Free(s, info, a)
    ensures ScanUp(s, 0, info).Some? ==>
              Free(s, info, ScanUp(s, 0, info).value) && forall a: int :: Free(s, info, a) ==>
                  ScanUp(s, 0, info).value <= a
    ensures ScanDown(s, |s| + 1, info) == None <==> forall a: int :: !Free(s, info, a)
    ensures ScanDown(s, |s| + 1, info).Some? ==>
              && Free(s, info, ScanDown(s, |s| + 1, info).value)
              && forall a: int :: Free(s, info, a) ==> a <= ScanDown(s, |s| + 1, info).value
  {
    hide ScanUp, ScanDown;
    UpExactly(s, info);
    DownExactly(s, info);
    assert forall a: int :: Free(s, info, a) <==> Wide(s, info, a);
  }

  /** Gaps without room can be skipped. */
  lemma {:induction false} SkipUp(s: seq<Vma>, i: nat, k: nat, info: Info)
    requires info.align > 0 && i <= k && forall j: nat :: i <= j < k ==> !Fit(s, j, info)
    ensures ScanUp(s, i, info) == ScanUp(s, k, info)
    decreases k - i
  {
    if i < k { SkipUp(s, i + 1, k, info); }
  }

  lemma {:induction false} SkipDown(s: seq<Vma>, n: nat, k: nat, info: Info)
    requires info.align > 0 && k <= n <= |s| + 1 && forall j: nat :: k <= j < n ==> !Fit(s, j, info)
    ensures ScanDown(s, n, info) == ScanDown(s, k, info)
    decreases n - k
  {
    if k < n { SkipDown(s, n - 1, k, info); }
  }

  // ---------- the tree walk ----------

  /** The way back from a node to the root: its ancestors, and whether it hangs left or right of each. */
  datatype Path = Root | LeftOf(parent: Tree, up: Path) | RightOf(parent: Tree, up: Path)

  /** The stretch of the list that lies below the path's end. */
  ghost function Lo(path: Path, s: seq<Vma>): nat {
    match path
    case Root => 0
    case LeftOf(_, up) => Lo(up, s)
    case RightOf(parent, _) => if parent.Node? then IndexOf(s, parent.id) + 1 else 0
  }

  ghost function Hi(path: Path, s: seq<Vma>): nat {
    match path
    case Root => |s|
    case LeftOf(parent, _) => if parent.Node? then IndexOf(s, parent.id) else 0
    case RightOf(_, up) => Hi(up, s)
  }

  function Depth(path: Path): nat {
    if path.Root? then 0 else 1 + Depth(path.up)
  }

  /** The node hangs at the end of the path, and all caches on it and below are right. */
  ghost predicate Hangs(node: Tree, path: Path, s: seq<Vma>)
    decreases path
  {
    && node.Node? && Consistent(node, s) && Covers(node, s, Lo(path, s), Hi(path, s))
    && match path
       case Root => true
       case LeftOf(parent, up) => Hangs(parent, up, s) && parent.left == node
       case RightOf(parent, up) => Hangs(parent, up, s) && parent.right == node
  }

  /** Where the node's area is in the list. */
  function Pos(node: Tree, s: seq<Vma>): nat
    requires node.Node?
  {
    IndexOf(s, node.id)
  }

  lemma {:induction false} HangsAt(node: Tree, path: Path, s: seq<Vma>)
    requires Hangs(node, path, s)
    ensures node.Node? && Lo(path, s) <= Pos(node, s) < Hi(path, s) <= |s|
    ensures node.left.Node? ==> Hangs(node.left, LeftOf(node, path), s)
    ensures node.left.Leaf? ==> Lo(path, s) == Pos(node, s)
    ensures node.right.Node? ==> Hangs(node.right, RightOf(node, path), s)
    ensures node.right.Leaf? ==> Pos(node, s) + 1 == Hi(path, s)
    ensures path.LeftOf? ==> Hangs(path.parent, path.up, s) && path.parent.Node? && path.parent.left.Node?
                             && Pos(path.parent, s) == Hi(path, s)
    ensures path.RightOf? ==> Hangs(path.parent, path.up, s) && path.parent.Node? && Hi(path, s) == Hi(path.up, s)
                              && Lo(path, s) == Pos(path.parent, s) + 1
    ensures path.LeftOf? ==> Lo(path, s) == Lo(path.up, s)
  {
    assert Covers(node.left, s, Lo(path, s), Pos(node, s)) && Covers(node.right, s, Pos(node, s) + 1, Hi(path, s));
  }

  /** The cached gap bounds every gap in front of an area of the subtree. */
  lemma {:induction false} CoveredGap(t: Tree, s: seq<Vma>, lo: nat, hi: nat, i: nat)
    requires Consistent(t, s) && Covers(t, s, lo, hi) && lo <= i < hi <= |s|
    ensures GapAt(s, i) <= Gap(t)
  {
    var k := IndexOf(s, t.id);
    if i < k {
      CoveredGap(t.left, s, lo, k, i);
    } else if i > k {
      CoveredGap(t.right, s, k + 1, hi, i);
    }
  }

  /** A subtree whose cached gap is too small holds no gap with room. */
  lemma {:induction false} PruneSmall(t: Tree, s: seq<Vma>, lo: nat, hi: nat, info: Info)
    requires Sorted(s) && Consistent(t, s) && Covers(t, s, lo, hi) && hi <= |s| && (Gap(t) < Room(info) || t.Leaf?)
    ensures forall i: nat :: lo <= i < hi ==> !Fit(s, i, info)
  {
    forall i: nat | lo <= i < hi ensures !Fit(s, i, info) {
      CoveredGap(t, s, lo, hi, i);
      if i > 0 { assert s[i - 1].end <= s[i].start; }
    }
  }

  /** Gaps that end below low_limit have no room. */
  lemma {:induction false} PruneLow(s: seq<Vma>, k: nat, info: Info)
    requires Sorted(s) && k < |s| && s[k].start < info.low + Room(info)
    ensures forall i: nat :: i <= k ==> !Fit(s, i, info)
  {
    forall i: nat | i <= k ensures !Fit(s, i, info) {
      if i < k { assert s[i].end <= s[k].start; }
    }
  }

  /** Gaps that begin above high_limit have no room. */
  lemma {:induction false} PruneHigh(s: seq<Vma>, k: nat, info: Info)
    requires Sorted(s) && k <= |s| && GapStart(s, k) + Room(info) > info.high
    ensures forall i: nat :: k <= i <= |s| ==> !Fit(s, i, info)
  {
    forall i: nat | k <= i <= |s| ensures !Fit(s, i, info) {
      if k < i && k > 0 { assert s[k - 1].end <= s[i - 1].start; }
    }
  }

  /** How the walk ends: at a gap with room, past high_limit, or with the tree exhausted. */
  datatype Verdict = Found(gapStart: nat, gapEnd: nat) | TooFar | Exhausted

  /** No gap from i up to k has room. */
  ghost predicate NoneIn(s: seq<Vma>, i: nat, k: nat, info: Info) {
    forall j: nat :: i <= j < k ==> !Fit(s, j, info)
  }

  /** The loop of unmapped_area. Gap `at` is the one found. */
  method WalkUp(t: Tree, s: seq<Vma>, length: nat, lowLimit: nat, highLimit: nat, ghost info: Info)
    returns (v: Verdict, ghost at: nat)
    requires Sorted(s) && Hangs(t, Root, s) && length == Room(info)
    requires lowLimit == info.low + length && highLimit == info.high - length && info.low <= highLimit
    ensures v.Found? ==> at < |s| && Fit(s, at, info) && NoneIn(s, 0, at, info) && v.gapStart == GapStart(s, at)
                         && v.gapEnd == s[at].start
    ensures v.TooFar? ==> NoneIn(s, 0, |s| + 1, info)
    ensures v.Exhausted? ==> NoneIn(s, 0, |s|, info)
  {
    hide Hangs, NoneIn;
    HangsAt(t, Root, s);
    NoneYet(s, info);
    var vma, path := t, Root;
    var checkCurrent := false;
    at := 0;
    while true
      invariant vma.Node? && Hangs(vma, path, s)
      invariant NoneIn(s, 0, if checkCurrent then Pos(vma, s) else Lo(path, s), info)
      invariant checkCurrent ==> vma.left.Node?
      decreases |s| - (if checkCurrent then Pos(vma, s) else Lo(path, s)), !checkCurrent, vma
    {
      HangsAt(vma, path, s);
      var i := Pos(vma, s);
      var gapEnd := s[i].start;
      if !checkCurrent && gapEnd >= lowLimit && vma.left.Node? && vma.left.gap >= length {
        vma, path := vma.left, LeftOf(vma, path);
        continue;
      }
      if !checkCurrent { SkippedLeft(vma, path, s, info); }
      at := i;
      var gapStart := if i > 0 then s[i - 1].end else 0;
      if gapStart > highLimit {
        SkippedRest(s, i, info);
        return TooFar, at;
      }
      if gapEnd >= lowLimit && gapEnd - gapStart >= length {
        return Found(gapStart, gapEnd), at;
      }
      NoneHere(s, i, info);
      if vma.right.Node? && vma.right.gap >= length {
        vma, path, checkCurrent := vma.right, RightOf(vma, path), false;
        continue;
      }
      SkippedRight(vma, path, s, info);
      var done := false;
      while !done
        invariant vma.Node? && Hangs(vma, path, s)
        invariant !done ==> NoneIn(s, 0, Hi(path, s), info) && i < Hi(path, s)
        invariant done ==> NoneIn(s, 0, Pos(vma, s), info) && i < Pos(vma, s) && vma.left.Node?
        decreases !done, path
      {
        HangsAt(vma, path, s);
        match path
        case Root => return Exhausted, at;
        case LeftOf(parent, up) => vma, path, done := parent, up, true;
        case RightOf(parent, up) => vma, path := parent, up;
      }
      checkCurrent := true;
    }
  }

  lemma {:induction false} NoneYet(s: seq<Vma>, info: Info)
    ensures NoneIn(s, 0, 0, info)
  {
  }

  lemma {:induction false} NoneHere(s: seq<Vma>, i: nat, info: Info)
    requires NoneIn(s, 0, i, info) && !Fit(s, i, info)
    ensures NoneIn(s, 0, i + 1, info)
  {
  }

  lemma {:induction false} SkippedRest(s: seq<Vma>, i: nat, info: Info)
    requires Sorted(s) && i <= |s| && NoneIn(s, 0, i, info) && GapStart(s, i) + Room(info) > info.high
    ensures NoneIn(s, 0, |s| + 1, info)
  {
    PruneHigh(s, i, info);
  }

  /** The left subtree is not visited: it holds no gap with room. */
  lemma {:induction false} SkippedLeft(vma: Tree, path: Path, s: seq<Vma>, info: Info)
    requires Sorted(s) && Hangs(vma, path, s) && NoneIn(s, 0, Lo(path, s), info)
    requires s[Pos(vma, s)].start < info.low + Room(info) || vma.left.Leaf? || vma.left.gap < Room(info)
    ensures NoneIn(s, 0, Pos(vma, s), info)
  {
    if s[Pos(vma, s)].start < info.low + Room(info) {
      PruneLow(s, Pos(vma, s), info);
    } else {
      PruneSmall(vma.left, s, Lo(path, s), Pos(vma, s), info);
    }
  }

  lemma {:induction false} SkippedRight(vma: Tree, path: Path, s: seq<Vma>, info: Info)
    requires Sorted(s) && Hangs(vma, path, s) && NoneIn(s, 0, Pos(vma, s) + 1, info)
    requires vma.right.Leaf? || vma.right.gap < Room(info)
    ensures NoneIn(s, 0, Hi(path, s), info)
  {
    PruneSmall(vma.right, s, Pos(vma, s) + 1, Hi(path, s), info);
  }

  /** The loop of unmapped_area_topdown. */
  method WalkDown(t: Tree, s: seq<Vma>, length: nat, lowLimit: nat, highLimit: nat, ghost info: Info)
    returns (v: Verdict, ghost at: nat)
    requires Sorted(s) && Hangs(t, Root, s) && length == Room(info)
    requires lowLimit == info.low + length && highLimit == info.high - length && info.low <= highLimit
    requires NoneIn(s, |s|, |s| + 1, info)
    ensures v.Found? ==> at < |s| && Fit(s, at, info) && NoneIn(s, at + 1, |s| + 1, info) && v.gapEnd == s[at].start
    ensures !v.Found? ==> NoneIn(s, 0, |s| + 1, info)
  {
    hide Hangs, NoneIn;
    HangsAt(t, Root, s);
    var vma, path := t, Root;
    var checkCurrent := false;
    at := 0;
    while true
      invariant vma.Node? && Hangs(vma, path, s)
      invariant NoneIn(s, if checkCurrent then Pos(vma, s) + 1 else Hi(path, s), |s| + 1, info)
      decreases if checkCurrent then Pos(vma, s) + 1 else Hi(path, s), !checkCurrent, vma
    {
      HangsAt(vma, path, s);
      var i := Pos(vma, s);
      var gapStart := if i > 0 then s[i - 1].end else 0;
      if !checkCurrent && gapStart <= highLimit && vma.right.Node? && vma.right.gap >= length {
        vma, path := vma.right, RightOf(vma, path);
        continue;
      }
      if !checkCurrent { PassedRight(vma, path, s, info); }
      at := i;
      var gapEnd := s[i].start;
      if gapEnd < lowLimit {
        PassedRest(s, i, info);
        return TooFar, at;
      }
      if gapStart <= highLimit && gapEnd - gapStart >= length {
        return Found(gapStart, gapEnd), at;
      }
      PassedHere(s, i, info);
      if vma.left.Node? && vma.left.gap >= length {
        vma, path, checkCurrent := vma.left, LeftOf(vma, path), false;
        continue;
      }
      PassedLeft(vma, path, s, info);
      var done := false;
      while !done
        invariant vma.Node? && Hangs(vma, path, s)
        invariant !done ==> NoneIn(s, Lo(path, s), |s| + 1, info) && Lo(path, s) <= i
        invariant done ==> NoneIn(s, Pos(vma, s) + 1, |s| + 1, info) && Pos(vma, s) < i
        decreases !done, path
      {
        HangsAt(vma, path, s);
        match path
        case Root => return Exhausted, at;
        case LeftOf(parent, up) => vma, path := parent, up;
        case RightOf(parent, up) => vma, path, done := parent, up, true;
      }
      checkCurrent := true;
    }
  }

  lemma {:induction false} PassedRight(vma: Tree, path: Path, s: seq<Vma>, info: Info)
    requires Sorted(s) && Hangs(vma, path, s) && NoneIn(s, Hi(path, s), |s| + 1, info)
    requires GapStart(s, Pos(vma, s)) + Room(info) > info.high || vma.right.Leaf? || vma.right.gap < Room(info)
    ensures NoneIn(s, Pos(vma, s) + 1, |s| + 1, info)
  {
    if GapStart(s, Pos(vma, s)) + Room(info) > info.high {
      PruneHigh(s, Pos(vma, s), info);
    } else {
      PruneSmall(vma.right, s, Pos(vma, s) + 1, Hi(path, s), info);
    }
  }

  lemma {:induction false} PassedRest(s: seq<Vma>, i: nat, info: Info)
    requires Sorted(s) && i < |s| && NoneIn(s, i + 1, |s| + 1, info) && s[i].start < info.low + Room(info)
    ensures NoneIn(s, 0, |s| + 1, info)
  {
    PruneLow(s, i, info);
  }

  lemma {:induction false} PassedHere(s: seq<Vma>, i: nat, info: Info)
    requires NoneIn(s, i + 1, |s| + 1, info) && !Fit(s, i, info)
    ensures NoneIn(s, i, |s| + 1, info)
  {
  }

  lemma {:induction false} PassedLeft(vma: Tree, path: Path, s: seq<Vma>, info: Info)
    requires Sorted(s) && Hangs(vma, path, s) && NoneIn(s, Pos(vma, s), |s| + 1, info)
    requires vma.left.Leaf? || vma.left.gap < Room(info)
    ensures NoneIn(s, Lo(path, s), |s| + 1, info)
  {
    PruneSmall(vma.left, s, Lo(path, s), Pos(vma, s), info);
  }

  // ---------- the searches ----------

  /** The length to search for and the two limits adjusted by it; failure when no gap can do. */
  method Adjust(s: seq<Vma>, info: Info) returns (ok: bool, length: nat, lowLimit: nat, highLimit: nat)
    requires Valid(info)
    ensures ok ==> length == Room(info) && lowLimit == info.low + length && highLimit == info.high - length
                   && info.low <= highLimit
    ensures !ok ==> NoneIn(s, 0, |s| + 1, info)
  {
    ok, lowLimit, highLimit := false, 0, 0;
    length := (info.length + (info.align - 1)) % SPACE;
    if length < info.length { return; }
    if info.high < length { return; }
    highLimit := info.high - length;
    if info.low > highLimit { return; }
    lowLimit := info.low + length;
    ok := true;
  }

  /** The linear scan skips what has no room. */
  lemma {:induction false} ScanFrom(s: seq<Vma>, k: nat, info: Info)
    requires info.align > 0 && k <= |s| + 1
    ensures NoneIn(s, 0, k, info) ==> ScanUp(s, 0, info) == ScanUp(s, k, info)
    ensures NoneIn(s, k, |s| + 1, info) ==> ScanDown(s, |s| + 1, info) == ScanDown(s, k, info)
  {
    if NoneIn(s, 0, k, info) { SkipUp(s, 0, k, info); }
    if NoneIn(s, k, |s| + 1, info) { SkipDown(s, |s| + 1, k, info); }
  }

  lemma {:induction false} RootHangs(t: Tree, s: seq<Vma>)
    requires DistinctIds(s) && InOrder(t) == Ids(s) && Consistent(t, s) && t.Node?
    ensures Hangs(t, Root, s)
  {
    RootCovers(t, s);
  }

  /** The root shows that no gap in front of an area has room. */
  lemma {:induction false} RootPruned(t: Tree, s: seq<Vma>, info: Info)
    requires Sorted(s) && DistinctIds(s) && InOrder(t) == Ids(s) && Consistent(t, s)
    requires t.Leaf? || t.gap < Room(info)
    ensures NoneIn(s, 0, |s|, info)
  {
    RootCovers(t, s);
    PruneSmall(t, s, 0, |s|, info);
  }

  /** unmapped_area: the walk agrees with the linear scan upward. */
  method UnmappedArea(t: Tree, s: seq<Vma>, highest: nat, info: Info) returns (addr: Option<int>)
    requires Sorted(s) && DistinctIds(s) && InOrder(t) == Ids(s) && Consistent(t, s) && highest == LastEnd(s)
    requires Valid(info)
    ensures addr == ScanUp(s, 0, info)
  {
    hide NoneIn, Hangs, InOrder, Ids, ConsistentBut, AlignUp, AlignDown;
    var ok, length, lowLimit, highLimit := Adjust(s, info);
    if !ok {
      ScanFrom(s, |s| + 1, info);
      return None;
    }
    var v, gapStart := Exhausted, 0;
    ghost var at := |s|;
    if t.Leaf? || t.gap < length {
      RootPruned(t, s, info);
    } else {
      RootHangs(t, s);
      v, at := WalkUp(t, s, length, lowLimit, highLimit, info);
    }
    if v.TooFar? {
      ScanFrom(s, |s| + 1, info);
      return None;
    } else if v.Found? {
      gapStart := v.gapStart;
      ScanFrom(s, at, info);
    } else {
      gapStart := highest;
      ScanFrom(s, |s|, info);
      if gapStart > highLimit { return None; }
    }
    if gapStart < info.low { gapStart := info.low; }
    addr := Some(AlignUp(gapStart, info));
  }

  /** unmapped_area_topdown: the walk agrees with the linear scan downward. */
  method UnmappedAreaTopdown(t: Tree, s: seq<Vma>, highest: nat, info: Info) returns (addr: Option<int>)
    requires Sorted(s) && DistinctIds(s) && InOrder(t) == Ids(s) && Consistent(t, s) && highest == LastEnd(s)
    requires Valid(info)
    ensures addr == ScanDown(s, |s| + 1, info)
  {
    hide NoneIn, Hangs, InOrder, Ids, ConsistentBut, AlignUp, AlignDown;
    var ok, length, lowLimit, highLimit := Adjust(s, info);
    if !ok {
      ScanFrom(s, 0, info);
      return None;
    }
    var gapEnd := info.high;
    if highest > highLimit {
      NoneAbove(s, info);
      if t.Leaf? || t.gap < length {
        RootPruned(t, s, info);
        NoneAtAll(s, info);
        ScanFrom(s, 0, info);
        return None;
      }
      RootHangs(t, s);
      var v; ghost var at;
      v, at := WalkDown(t, s, length, lowLimit, highLimit, info);
      if !v.Found? {
        ScanFrom(s, 0, info);
        return None;
      }
      ScanFrom(s, at + 1, info);
      gapEnd := if v.gapEnd > info.high then info.high else v.gapEnd;
    }
    addr := Some(AlignDown(gapEnd - info.length, info));
  }

  lemma {:induction false} NoneAbove(s: seq<Vma>, info: Info)
    requires LastEnd(s) + Room(info) > info.high
    ensures NoneIn(s, |s|, |s| + 1, info)
  {
  }

  lemma {:induction false} NoneAtAll(s: seq<Vma>, info: Info)
    requires NoneIn(s, 0, |s|, info) && NoneIn(s, |s|, |s| + 1, info)
    ensures NoneIn(s, 0, |s| + 1, info)
  {
  }
}
