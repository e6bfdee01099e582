/** vma_merge: laying a request over the areas by extending a neighbour instead of adding an area. */
module Merge {
  import opened VmFlags
  import opened Areas
  import opened GapTree
  import opened VmaIndex
  import opened Adjust

  /** A mapping request: pages [addr, end) to map file from page pgoff on with these flags. */
  datatype Request = Request(addr: nat, end: nat, flags: Flags, file: Option<FileId>, pgoff: nat, tag: Tag)

  /** What the request maps page p to. */
  function Wanted(q: Request, p: nat): Cell
    requires q.addr <= p
  {
    Cell(q.file, q.pgoff + (p - q.addr), Clean(q.flags))
  }

  /** The places where callers lay a request: in a hole behind area prev, inside area prev with the
      same file and offset, or at the start of the area after prev with the same file and offset. */
  datatype Place = Hole | InPrev | InNext

  ghost predicate Callable(s: seq<Vma>, prev: int, q: Request, place: Place) {
    && -1 <= prev < |s| && q.addr < q.end <= TASK_SIZE
    && (prev >= 0 ==> s[prev].start < q.addr)
    && match place
       case Hole => Fits(s, prev + 1, q.addr, q.end)
       case InPrev =>
         && prev >= 0 && q.end <= s[prev].end
         && q.file == s[prev].file && q.pgoff == s[prev].pgoff + (q.addr - s[prev].start)
       case InNext =>
         && (prev >= 0 ==> s[prev].end <= q.addr)
         && prev + 1 < |s| && q.addr == s[prev + 1].start && q.end <= s[prev + 1].end
         && q.file == s[prev + 1].file && q.pgoff == s[prev + 1].pgoff
  }

  /** is_mergeable_vma */
  predicate IsMergeable(v: Vma, q: Request) {
    Clean(v.flags) == Clean(q.flags) && v.file == q.file && !v.tag.closes && v.tag.uffd == q.tag.uffd
  }

  /** is_mergeable_anon_vma; `singular` is what the anon_vma chain of the area says, true without one. */
  predicate AnonAllows(anon1: nat, anon2: nat, singular: bool) {
    ((anon1 == 0 || anon2 == 0) && singular) || anon1 == anon2
  }

  /** can_vma_merge_before and can_vma_merge_after, with the policy test of the caller. */
  predicate CanMergeBefore(v: Vma, q: Request) {
    q.tag.policy == v.tag.policy && IsMergeable(v, q) && v.pgoff == q.pgoff + (q.end - q.addr)
  }

  predicate CanMergeAfter(v: Vma, q: Request) {
    q.tag.policy == v.tag.policy && IsMergeable(v, q) && v.pgoff + (v.end - v.start) == q.pgoff
  }

  // ---------- what each case does to the page view ----------

  /** At page p, r maps what the request wants if p is in its range, and what s maps otherwise. */
  ghost predicate Shows(s: seq<Vma>, r: seq<Vma>, q: Request, p: nat) {
    At(r, p) == if q.addr <= p < q.end then Some(Wanted(q, p)) else At(s, p)
  }

  /** The page view changes to the request on [addr, end) and nowhere else. */
  ghost predicate Overlaid(s: seq<Vma>, r: seq<Vma>, q: Request) {
    forall p: nat :: Shows(s, r, q, p)
  }

  /** What shows in the edited stretch shows in the whole list. */
  lemma {:induction false} Lift(s: seq<Vma>, i: nat, j: nat, mid: seq<Vma>, q: Request, p: nat)
    requires i <= j <= |s| && Sorted(s) && Sorted(s[..i] + mid + s[j..])
    requires Shows(s[i..j], mid, q, p)
    ensures Shows(s, s[..i] + mid + s[j..], q, p)
  {
    LocalView(s, i, j, mid, p);
    assert s[..i] + s[i..j] + s[j..] == s;
    SpliceView(s, i, j, s[i..j], p);
  }

  /** Cases 2 and 3: one area grows over a hole. */
  lemma {:induction false} OneForOne(a: Vma, w: Vma, q: Request, p: nat)
    requires a.start < a.end && q.addr < q.end
    requires w.file == a.file == q.file && Clean(w.flags) == Clean(a.flags) == Clean(q.flags)
    requires || (w.start == a.start && a.end == q.addr && w.end == q.end && w.pgoff == a.pgoff
                 && q.pgoff == w.pgoff + (q.addr - w.start))
             || (w.end == a.end && a.start == q.end && w.start == q.addr && w.pgoff == q.pgoff
                 && a.pgoff == q.pgoff + (q.end - q.addr))
    ensures Shows([a], [w], q, p)
  {
    AtPair(w, w, p);
    AtPair(a, w, p);
  }

  /** Cases 4 and 5: the boundary between two adjacent areas moves. */
  lemma {:induction false} TwoForTwo(a: Vma, b: Vma, w: Vma, n: Vma, q: Request, p: nat)
    requires a.start < a.end == b.start < b.end && w.start < w.end == n.start < n.end && q.addr < q.end
    requires w == a.(end := w.end) && n == b.(start := n.start, pgoff := n.pgoff)
    requires n.pgoff == b.pgoff + n.start - b.start
    requires || (q.addr == w.end && q.end == a.end && q.pgoff == n.pgoff
                 && q.file == n.file && Clean(q.flags) == Clean(n.flags))
             || (q.addr == a.end && q.end == w.end && q.pgoff == w.pgoff + (q.addr - w.start)
                 && q.file == w.file && Clean(q.flags) == Clean(w.flags))
    ensures Shows([a, b], [w, n], q, p)
  {
    AtPair(w, n, p);
    AtPair(a, b, p);
  }

  /** Case 1: prev and next meet over the hole. */
  lemma {:induction false} FillHole(a: Vma, b: Vma, w: Vma, q: Request, p: nat)
    requires a.start < a.end == q.addr < q.end == b.start < b.end
    requires CanMergeAfter(a, q) && CanMergeBefore(b, q) && w == a.(end := b.end)
    ensures Shows([a, b], [w], q, p)
  {
    AtPair(w, w, p);
    AtPair(a, b, p);
  }

  /** Case 7: prev takes over the area of the request. */
  lemma {:induction false} TakeNext(a: Vma, b: Vma, w: Vma, q: Request, p: nat)
    requires a.start < a.end == b.start == q.addr < q.end == b.end
    requires CanMergeAfter(a, q) && w == a.(end := b.end)
    ensures Shows([a, b], [w], q, p)
  {
    AtPair(w, w, p);
    AtPair(a, b, p);
  }

  /** Case 8: next takes over the area of the request. */
  lemma {:induction false} TakePrev(a: Vma, b: Vma, w: Vma, q: Request, p: nat)
    requires a.start == q.addr < a.end == q.end == b.start < b.end
    requires CanMergeBefore(b, q) && w == b.(start := a.start, pgoff := q.pgoff)
    ensures Shows([a, b], [w], q, p)
  {
    AtPair(w, w, p);
    AtPair(a, b, p);
  }

  /** Case 6: prev takes over the area of the request and the next one. */
  lemma {:induction false} TakeBoth(a: Vma, b: Vma, c: Vma, w: Vma, q: Request, p: nat)
    requires a.start < a.end == b.start == q.addr < q.end == b.end == c.start < c.end
    requires CanMergeAfter(a, q) && CanMergeBefore(c, q) && w == a.(end := c.end)
    ensures Shows([a, b, c], [w], q, p)
  {
    AtPair(w, w, p);
    AtTriple(a, b, c, p);
  }

  /** The eight cases, by the areas they edit: area v and its successors. */
  datatype Case = Fill1 | GrowUp2 | GrowDown3 | ShiftDown4 | ShiftUp5 | TakeBoth6 | TakeNext7 | TakePrev8

  /** The case applies at area v. */
  ghost predicate Applies(s: seq<Vma>, v: nat, q: Request, c: Case) {
    && v < |s| && q.addr < q.end <= TASK_SIZE
    && match c
       case Fill1 => v + 1 < |s| && s[v].end == q.addr && q.end == s[v + 1].start && CanMergeAfter(s[v], q)
         && CanMergeBefore(s[v + 1], q)
       case GrowUp2 => s[v].end == q.addr && CanMergeAfter(s[v], q) && (v + 1 < |s| ==> q.end <= s[v + 1].start)
       case GrowDown3 => s[v].start == q.end && CanMergeBefore(s[v], q) && (v > 0 ==> s[v - 1].end <= q.addr)
       case ShiftDown4 =>
         && v + 1 < |s| && s[v].start < q.addr && q.end == s[v].end == s[v + 1].start && CanMergeBefore(s[v + 1], q)
       case ShiftUp5 => v + 1 < |s| && s[v].end == q.addr == s[v + 1].start && q.end < s[v + 1].end
         && CanMergeAfter(s[v], q)
       case TakeBoth6 =>
         && v + 2 < |s| && s[v].end == q.addr == s[v + 1].start && s[v + 1].end == q.end == s[v + 2].start
         && CanMergeAfter(s[v], q) && CanMergeBefore(s[v + 2], q) && s[v + 1].file == q.file
       case TakeNext7 =>
         && v + 1 < |s| && s[v].end == q.addr == s[v + 1].start && s[v + 1].end == q.end
         && CanMergeAfter(s[v], q) && s[v + 1].file == q.file
       case TakePrev8 =>
         && v + 1 < |s| && s[v].start == q.addr && s[v].end == q.end == s[v + 1].start
         && CanMergeBefore(s[v + 1], q) && s[v].file == q.file
  }

  function WayOf(c: Case): Way {
    match c
    case Fill1 => Absorb(1)
    case GrowUp2 => Resize
    case GrowDown3 => Resize
    case ShiftDown4 => Shift
    case ShiftUp5 => Shift
    case TakeBoth6 => Absorb(2)
    case TakeNext7 => Absorb(1)
    case TakePrev8 => Swap
  }

  /** The bounds that vma_merge passes to __vma_adjust for area v. */
  ghost function StartOf(s: seq<Vma>, v: nat, q: Request, c: Case): nat
    requires Applies(s, v, q, c)
  {
    if c.GrowDown3? || c.TakePrev8? then q.addr else s[v].start
  }

  ghost function EndOf(s: seq<Vma>, v: nat, q: Request, c: Case): nat
    requires Applies(s, v, q, c)
  {
    match c
    case Fill1 => s[v + 1].end
    case GrowDown3 => s[v].end
    case ShiftDown4 => q.addr
    case TakeBoth6 => s[v + 2].end
    case TakePrev8 => s[v + 1].end
    case _ => q.end
  }

  ghost function PgoffOf(s: seq<Vma>, v: nat, q: Request, c: Case): nat
    requires Applies(s, v, q, c)
  {
    if c.GrowDown3? || c.TakePrev8? then q.pgoff else s[v].pgoff
  }

  lemma {:induction false} CaseAllowed(s: seq<Vma>, v: nat, q: Request, c: Case)
    requires Sorted(s) && LastEnd(s) <= TASK_SIZE && Applies(s, v, q, c)
    ensures Allowed(s, v, StartOf(s, v, q, c), EndOf(s, v, q, c), PgoffOf(s, v, q, c), WayOf(c))
  {
    assert forall i :: 0 <= i < |s| - 1 ==> s[i].end <= s[|s| - 1].start;
  }

  /** The list that the case leaves. */
  ghost function Merged(s: seq<Vma>, v: nat, q: Request, c: Case): seq<Vma>
    requires Applies(s, v, q, c)
    requires Allowed(s, v, StartOf(s, v, q, c), EndOf(s, v, q, c), PgoffOf(s, v, q, c), WayOf(c))
  {
    Adjusted(s, v, StartOf(s, v, q, c), EndOf(s, v, q, c), PgoffOf(s, v, q, c), WayOf(c))
  }

  ghost predicate InPlace(s: seq<Vma>, v: nat, q: Request, c: Case) {
    && Sorted(s) && Applies(s, v, q, c)
    && Allowed(s, v, StartOf(s, v, q, c), EndOf(s, v, q, c), PgoffOf(s, v, q, c), WayOf(c))
    && Sorted(Merged(s, v, q, c))
  }

  lemma {:induction false} ResizeShows(s: seq<Vma>, v: nat, q: Request, c: Case, p: nat)
    requires InPlace(s, v, q, c) && (c.GrowUp2? || c.GrowDown3?)
    ensures Shows(s, Merged(s, v, q, c), q, p)
  {
    var w := Merged(s, v, q, c)[v];
    OneForOne(s[v], w, q, p);
    assert s[v..v + 1] == [s[v]] && s[v := w] == s[..v] + [w] + s[v + 1..];
    Lift(s, v, v + 1, [w], q, p);
  }

  lemma {:induction false} ShiftShows(s: seq<Vma>, v: nat, q: Request, c: Case, p: nat)
    requires InPlace(s, v, q, c) && (c.ShiftDown4? || c.ShiftUp5?)
    ensures Shows(s, Merged(s, v, q, c), q, p)
  {
    var w, n := Merged(s, v, q, c)[v], Merged(s, v, q, c)[v + 1];
    TwoForTwo(s[v], s[v + 1], w, n, q, p);
    assert s[v..v + 2] == [s[v], s[v + 1]] && s[v := w][v + 1 := n] == s[..v] + [w, n] + s[v + 2..];
    Lift(s, v, v + 2, [w, n], q, p);
  }

  lemma {:induction false} PairShows(s: seq<Vma>, v: nat, q: Request, c: Case, p: nat)
    requires InPlace(s, v, q, c) && (c.Fill1? || c.TakeNext7? || c.TakePrev8?)
    ensures Shows(s, Merged(s, v, q, c), q, p)
  {
    var a, b := s[v], s[v + 1];
    var w := if c.TakePrev8? then b.(start := a.start, pgoff := q.pgoff) else a.(end := b.end);
    if c.Fill1? { FillHole(a, b, w, q, p); }
    if c.TakeNext7? { TakeNext(a, b, w, q, p); }
    if c.TakePrev8? { TakePrev(a, b, w, q, p); }
    assert s[v..v + 2] == [a, b];
    Lift(s, v, v + 2, [w], q, p);
  }

  lemma {:induction false} TripleShows(s: seq<Vma>, v: nat, q: Request, p: nat)
    requires InPlace(s, v, q, TakeBoth6)
    ensures Shows(s, Merged(s, v, q, TakeBoth6), q, p)
  {
    var w := s[v].(end := s[v + 2].end);
    TakeBoth(s[v], s[v + 1], s[v + 2], w, q, p);
    assert s[v..v + 3] == [s[v], s[v + 1], s[v + 2]];
    Lift(s, v, v + 3, [w], q, p);
  }

  /** Whatever the case, the page view takes on the request and nothing else. */
  lemma {:induction false} CaseView(s: seq<Vma>, v: nat, q: Request, c: Case)
    requires InPlace(s, v, q, c)
    ensures Overlaid(s, Merged(s, v, q, c), q)
  {
    forall p: nat ensures Shows(s, Merged(s, v, q, c), q, p) {
      match c
      case GrowUp2 => ResizeShows(s, v, q, c, p);
      case GrowDown3 => ResizeShows(s, v, q, c, p);
      case ShiftDown4 => ShiftShows(s, v, q, c, p);
      case ShiftUp5 => ShiftShows(s, v, q, c, p);
      case TakeBoth6 => TripleShows(s, v, q, p);
      case _ => PairShows(s, v, q, c, p);
    }
  }

  /** The area that serves the request: it contains the range and more, with the request's file and flags. */
  ghost predicate Serves(s: seq<Vma>, at: nat, q: Request) {
    && at < |s| && s[at].start <= q.addr && q.end <= s[at].end && (s[at].start < q.addr || q.end < s[at].end)
    && s[at].file == q.file && Clean(s[at].flags) == Clean(q.flags)
  }

  lemma {:induction false} CaseServes(s: seq<Vma>, v: nat, q: Request, c: Case)
    requires InPlace(s, v, q, c)
    ensures Serves(Merged(s, v, q, c), if c.ShiftDown4? then v + 1 else v, q)
  {
  }

  /** Filling a hole only extends area `at`, over its successor when the two meet. */
  ghost predicate Grew(s: seq<Vma>, r: seq<Vma>, at: nat) {
    && at < |s| && at < |r| && r[at].start <= s[at].start && s[at].end <= r[at].end
    && (r == s[at := r[at]] || (at + 1 < |s| && s[at + 1].end <= r[at].end && r == s[..at] + [r[at]] + s[at + 2..]))
  }

  predicate FillsHole(c: Case) {
    c.Fill1? || c.GrowUp2? || c.GrowDown3?
  }

  lemma {:induction false} CaseGrew(s: seq<Vma>, v: nat, q: Request, c: Case)
    requires InPlace(s, v, q, c) && FillsHole(c)
    ensures Grew(s, Merged(s, v, q, c), v)
  {
    if c.Fill1? { assert s[v].end <= s[v + 1].start; }
  }

  /** In a hole only the cases apply that fill it. */
  lemma {:induction false} HoleCase(s: seq<Vma>, prev: int, q: Request, both: bool)
    requires Sorted(s) && Callable(s, prev, q, Hole)
    ensures FillsHole(AfterCase(s, prev, q, Hole, both)) && FillsHole(BeforeCase(s, prev, q))
  {
  }

  lemma {:induction false} CaseResult(s: seq<Vma>, v: nat, q: Request, c: Case)
    requires InPlace(s, v, q, c)
    ensures Overlaid(s, Merged(s, v, q, c), q) && Serves(Merged(s, v, q, c), if c.ShiftDown4? then v + 1 else v, q)
  {
    CaseView(s, v, q, c);
    CaseServes(s, v, q, c);
  }

  /** The area after the request: the one behind area prev, or the one after that if the request
      reaches exactly to its end. */
  function NextOf(s: seq<Vma>, prev: int, q: Request): nat
    requires -1 <= prev < |s|
  {
    if prev + 1 < |s| && s[prev + 1].end == q.end then prev + 2 else prev + 1
  }

  /** The case when the request can be merged behind prev, alone or with what follows. */
  function AfterCase(s: seq<Vma>, prev: int, q: Request, place: Place, both: bool): Case
    requires -1 <= prev < |s|
  {
    if both then (if NextOf(s, prev, q) == prev + 1 then Fill1 else TakeBoth6)
    else if place.Hole? then GrowUp2 else if NextOf(s, prev, q) == prev + 1 then ShiftUp5 else TakeNext7
  }

  /** The case applies at area v, with the arguments that __vma_adjust then gets, and area `at` will
      serve the request. */
  ghost predicate Chosen(s: seq<Vma>, prev: int, q: Request, c: Case, v: nat, start: nat, end: nat, pgoff: nat,
                         expand: int, at: int) {
    && Applies(s, v, q, c)
    && (WayOf(c).Absorb? ==> expand == v) && (WayOf(c).Swap? ==> expand == v + 1)
    && start == StartOf(s, v, q, c) && end == EndOf(s, v, q, c) && pgoff == PgoffOf(s, v, q, c)
    && at == (if c.ShiftDown4? then v + 1 else v) && (at == prev || at == prev + 1)
  }

  lemma {:induction false} AfterApplies(s: seq<Vma>, prev: nat, q: Request, place: Place, both: bool)
    requires Sorted(s) && Callable(s, prev, q, place) && s[prev].end == q.addr && CanMergeAfter(s[prev], q)
    requires both ==> var next := NextOf(s, prev, q); next < |s| && q.end == s[next].start && CanMergeBefore(s[next], q)
    ensures Chosen(s, prev, q, AfterCase(s, prev, q, place, both), prev, s[prev].start,
                   if both then s[NextOf(s, prev, q)].end else q.end, s[prev].pgoff, prev, prev)
  {
  }

  function BeforeCase(s: seq<Vma>, prev: int, q: Request): Case
    requires -1 <= prev < |s|
  {
    if prev >= 0 && q.addr < s[prev].end then ShiftDown4
    else if NextOf(s, prev, q) == prev + 1 then GrowDown3 else TakePrev8
  }

  lemma {:induction false} BeforeApplies(s: seq<Vma>, prev: int, q: Request, place: Place)
    requires Sorted(s) && Callable(s, prev, q, place)
    requires var next := NextOf(s, prev, q); next < |s| && q.end == s[next].start && CanMergeBefore(s[next], q)
    ensures var c, next := BeforeCase(s, prev, q), NextOf(s, prev, q);
            if c.ShiftDown4? then Chosen(s, prev, q, c, prev, s[prev].start, q.addr, s[prev].pgoff, next, prev + 1)
            else Chosen(s, prev, q, c, prev + 1, q.addr, s[next].end, s[next].pgoff - (q.end - q.addr), next, prev + 1)
  {
  }

  // ---------- when a request can be merged ----------

  /** What the page view does not show and vma_merge compares: policy, userfaultfd context, a close operation. */
  predicate Compatible(v: Vma, q: Request) {
    v.tag.policy == q.tag.policy && v.tag.uffd == q.tag.uffd && !v.tag.closes
  }

  /** The area ends where the request begins and, continued over it, maps what the request wants. */
  ghost predicate Precedes(v: Vma, q: Request) {
    && v.start < v.end == q.addr && Compatible(v, q)
    && forall p: nat :: q.addr <= p < q.end ==> CellOf(v, p) == Wanted(q, p)
  }

  /** The area begins where the request ends and maps what the request, continued over it, wants. */
  ghost predicate Follows(v: Vma, q: Request) {
    && q.addr <= q.end == v.start && Compatible(v, q)
    && forall p: nat :: v.start <= p < v.end ==> CellOf(v, p) == Wanted(q, p)
  }

  /** The tests of can_vma_merge_after and can_vma_merge_before say just that. */
  lemma {:induction false} MergeTests(v: Vma, q: Request)
    requires v.start < v.end && q.addr < q.end
    ensures Precedes(v, q) <==> v.end == q.addr && CanMergeAfter(v, q)
    ensures Follows(v, q) <==> v.start == q.end && CanMergeBefore(v, q)
  {
    if Precedes(v, q) { assert CellOf(v, q.addr) == Wanted(q, q.addr); }
    if Follows(v, q) { assert CellOf(v, v.start) == Wanted(q, v.start); }
  }

  /** Of two anon_vmas one is NULL, or they are the same. */
  predicate Reconcilable(a: nat, b: nat) {
    a == 0 || b == 0 || a == b
  }

  ghost predicate JoinsPrev(sp: Space, prev: int, q: Request, anonVma: nat) {
    0 <= prev < |sp.list| && Precedes(sp.list[prev], q) && Reconcilable(anonVma, AnonOf(sp, prev))
  }

  ghost predicate JoinsNext(sp: Space, i: nat, q: Request, anonVma: nat) {
    i < |sp.list| && Follows(sp.list[i], q) && Reconcilable(anonVma, AnonOf(sp, i))
  }

  /** Area i can be taken along: with the area before the request, if that joins too, or alone. */
  ghost predicate TakesNext(sp: Space, prev: int, i: nat, q: Request, anonVma: nat) {
    && JoinsNext(sp, i, q, anonVma)
    && (JoinsPrev(sp, prev, q, anonVma) ==> Reconcilable(AnonOf(sp, prev), AnonOf(sp, i)))
  }

  ghost predicate Mergeable(sp: Space, prev: int, q: Request, anonVma: nat) {
    && VmIo !in q.flags && VmDontExpand !in q.flags && VmPfnMap !in q.flags && VmMixedMap !in q.flags
    && (JoinsPrev(sp, prev, q, anonVma) || exists i: nat :: JoinsNext(sp, i, q, anonVma))
  }

  /** All anon_vmas involved are the same, so that nothing has to be cloned and no chain is looked at. */
  ghost predicate SameAnon(sp: Space, anonVma: nat) {
    forall i :: 0 <= i < |sp.list| ==> AnonOf(sp, i) == anonVma
  }

  /** The request covers an area from end to end. */
  ghost predicate Covered(s: seq<Vma>, q: Request) {
    exists i :: 0 <= i < |s| && s[i].start == q.addr && s[i].end == q.end
  }

  /** How far the area that serves the request reaches, whose struct it is and how many areas are left. */
  ghost predicate Reaches(sp: Space, prev: int, q: Request, anonVma: nat, r: seq<Vma>, at: nat) {
    var s := sp.list;
    && at < |r|
    && (if JoinsPrev(sp, prev, q, anonVma) then r[at].start == s[prev].start && r[at].id == s[prev].id
        else r[at].start == q.addr)
    && (forall i: nat :: TakesNext(sp, prev, i, q, anonVma) ==>
          && r[at].end == s[i].end && (!JoinsPrev(sp, prev, q, anonVma) ==> r[at].id == s[i].id)
          && |r| == |s| - (if JoinsPrev(sp, prev, q, anonVma) then 1 else 0) - (if Covered(s, q) then 1 else 0))
    && ((forall i: nat :: !TakesNext(sp, prev, i, q, anonVma)) ==>
          r[at].end == q.end && |r| == |s| - (if Covered(s, q) then 1 else 0))
  }

  /** Only the area that NextOf names begins where the request ends. */
  lemma {:induction false} OnlyNext(s: seq<Vma>, prev: int, q: Request, place: Place, i: nat)
    requires Sorted(s) && Callable(s, prev, q, place) && i < |s| && s[i].start == q.end
    ensures i == NextOf(s, prev, q)
  {
    var next := NextOf(s, prev, q);
    assert next < |s| ==> q.end < s[next].end;
    assert prev >= 0 ==> s[prev].start < q.end;
    assert forall j :: 0 <= j < next ==> s[j].start < q.end;
    assert forall j :: next < j < |s| ==> q.end < s[j].start;
  }

  /** What the case leaves. */
  lemma {:induction false} CaseExtent(s: seq<Vma>, v: nat, q: Request, c: Case)
    requires InPlace(s, v, q, c)
    ensures var r, at := Merged(s, v, q, c), if c.ShiftDown4? then v + 1 else v;
            var after := c.Fill1? || c.GrowUp2? || c.ShiftUp5? || c.TakeBoth6? || c.TakeNext7?;
            && at < |r| && (if after then r[at].start == s[v].start && r[at].id == s[v].id else r[at].start == q.addr)
            && |r| == |s| - (if c.Fill1? || c.TakeBoth6? then 1 else 0)
                      - (if c.TakeBoth6? || c.TakeNext7? || c.TakePrev8? then 1 else 0)
    ensures var r := Merged(s, v, q, c);
            match c
            case Fill1 => r[v].end == s[v + 1].end
            case TakeBoth6 => r[v].end == s[v + 2].end
            case GrowDown3 => r[v].end == s[v].end && r[v].id == s[v].id
            case ShiftDown4 => r[v + 1].end == s[v + 1].end && r[v + 1].id == s[v + 1].id
            case TakePrev8 => r[v].end == s[v + 1].end && r[v].id == s[v + 1].id
            case _ => r[v].end == q.end
    ensures Covered(s, q) <==> c.TakeBoth6? || c.TakeNext7? || c.TakePrev8?
  {
    CaseCovered(s, v, q, c);
  }

  lemma {:induction false} CaseCovered(s: seq<Vma>, v: nat, q: Request, c: Case)
    requires Sorted(s) && Applies(s, v, q, c)
    ensures Covered(s, q) <==> c.TakeBoth6? || c.TakeNext7? || c.TakePrev8?
  {
    forall i | 0 <= i < |s| && s[i].start == q.addr && s[i].end == q.end
      ensures c.TakeBoth6? || c.TakeNext7? || c.TakePrev8? {
      assert forall j :: 0 <= j < i ==> s[j].end <= q.addr;
      assert forall j :: i < j < |s| ==> q.end <= s[j].start;
    }
    if c.TakePrev8? { assert s[v].start == q.addr; }
    if c.TakeBoth6? || c.TakeNext7? { assert s[v + 1].start == q.addr; }
  }

  /** The place where vma_merge decides: which area to adjust, to what bounds, expanding whom.
      `at` is the area that will serve the request. */
  method Choose(sp: Space, prev: int, q: Request, anonVma: nat, willing: bool, ghost place: Place)
    returns (found: bool, v: nat, start: nat, end: nat, pgoff: nat, expand: int, at: int, ghost c: Case)
    requires Sorted(sp.list) && Callable(sp.list, prev, q, place)
    ensures found ==> Chosen(sp.list, prev, q, c, v, start, end, pgoff, expand, at)
    ensures found && place.Hole? ==> FillsHole(c)
    ensures found ==> Mergeable(sp, prev, q, anonVma)
    ensures willing || SameAnon(sp, anonVma) ==>
              (found <==> Mergeable(sp, prev, q, anonVma)) && (found ==> Decided(sp, prev, q, anonVma, c, v))
  {
    hide Applies, StartOf, EndOf, PgoffOf, FillsHole, CanMergeAfter, Precedes, Follows, Chosen, Decided, Mergeable,
      JoinsPrev, JoinsNext, TakesNext, SameAnon, AnonAllows;
    var s := sp.list;
    found, v, start, end, pgoff, expand, at, c := false, 0, 0, 0, 0, -1, -1, Fill1;
    if Special(q.flags) {
      NotMergeable(sp, prev, q, anonVma);
      return;
    }
    var area: nat := prev + 1;
    var next := area;
    if area < |s| && s[area].end == q.end { next := next + 1; }
    var sing1: bool, sing2: bool := *, *;
    sing1, sing2 := sing1 || willing, sing2 || willing;
    var after := prev >= 0 && s[prev].end == q.addr && CanMergeAfter(s[prev], q)
      && AnonAllows(anonVma, AnonOf(sp, prev), sing1);
    var before := next < |s| && q.end == s[next].start && CanMergeBefore(s[next], q)
      && AnonAllows(anonVma, AnonOf(sp, next), sing2);
    var both := after && before && AnonAllows(AnonOf(sp, prev), AnonOf(sp, next), true);
    Tested(sp, prev, q, anonVma, place, sing1, sing2, after, before, both);
    if after {
      found, at, v, start, pgoff, expand := true, prev, prev, s[prev].start, s[prev].pgoff, prev;
      end := if both then s[next].end else q.end;
      AfterApplies(s, prev, q, place, both);
      c := AfterCase(s, prev, q, place, both);
      AfterDecided(sp, prev, q, anonVma, place, both);
      if place.Hole? { HoleCase(s, prev, q, both); }
    } else if before {
      found, at, expand := true, area, next;
      if prev >= 0 && q.addr < s[prev].end {
        v, start, end, pgoff := prev, s[prev].start, q.addr, s[prev].pgoff;
      } else {
        v, start, end, pgoff := area, q.addr, s[next].end, s[next].pgoff - (q.end - q.addr);
      }
      BeforeApplies(s, prev, q, place);
      c := BeforeCase(s, prev, q);
      BeforeDecided(sp, prev, q, anonVma, place);
      if place.Hole? { HoleCase(s, prev, q, false); }
    } else if willing || SameAnon(sp, anonVma) {
      NotMergeable(sp, prev, q, anonVma);
    }
  }

  /** The case is one that takes along what can be taken along. */
  ghost predicate Decided(sp: Space, prev: int, q: Request, anonVma: nat, c: Case, v: nat) {
    var after := JoinsPrev(sp, prev, q, anonVma);
    && (after ==> v == prev && (c.Fill1? || c.GrowUp2? || c.ShiftUp5? || c.TakeBoth6? || c.TakeNext7?))
    && (!after ==> c.GrowDown3? || c.ShiftDown4? || c.TakePrev8?)
    && (c.Fill1? || c.TakeBoth6? <==> after && exists i: nat :: TakesNext(sp, prev, i, q, anonVma))
    && forall i: nat :: TakesNext(sp, prev, i, q, anonVma) ==>
         i == if c.Fill1? || c.ShiftDown4? || c.TakePrev8? then v + 1 else if c.TakeBoth6? then v + 2 else v
  }

  lemma {:induction false} AfterDecided(sp: Space, prev: int, q: Request, anonVma: nat, place: Place, both: bool)
    requires -1 <= prev < |sp.list| && !Special(q.flags) && JoinsPrev(sp, prev, q, anonVma)
    requires forall i: nat :: JoinsNext(sp, i, q, anonVma) ==> i == NextOf(sp.list, prev, q)
    ensures Mergeable(sp, prev, q, anonVma)
    ensures (both <==> TakesNext(sp, prev, NextOf(sp.list, prev, q), q, anonVma)) ==>
              Decided(sp, prev, q, anonVma, AfterCase(sp.list, prev, q, place, both), prev)
  {
    hide JoinsPrev, JoinsNext;
  }

  lemma {:induction false} BeforeDecided(sp: Space, prev: int, q: Request, anonVma: nat, place: Place)
    requires Sorted(sp.list) && Callable(sp.list, prev, q, place) && !Special(q.flags)
             && JoinsNext(sp, NextOf(sp.list, prev, q), q, anonVma)
    requires forall i: nat :: JoinsNext(sp, i, q, anonVma) ==> i == NextOf(sp.list, prev, q)
    ensures Mergeable(sp, prev, q, anonVma)
    ensures !JoinsPrev(sp, prev, q, anonVma) ==>
              var c := BeforeCase(sp.list, prev, q);
              Decided(sp, prev, q, anonVma, c, if c.ShiftDown4? then prev else prev + 1)
  {
    hide JoinsPrev, JoinsNext;
  }

  lemma {:induction false} NotMergeable(sp: Space, prev: int, q: Request, anonVma: nat)
    requires -1 <= prev < |sp.list|
    requires || Special(q.flags)
             || (!JoinsPrev(sp, prev, q, anonVma) && !JoinsNext(sp, NextOf(sp.list, prev, q), q, anonVma)
                 && forall i: nat :: JoinsNext(sp, i, q, anonVma) ==> i == NextOf(sp.list, prev, q))
    ensures !Mergeable(sp, prev, q, anonVma)
  {
    hide JoinsPrev, JoinsNext;
  }

  /** The tests that vma_merge makes, and what they say about the areas. */
  lemma {:induction false} Tested(sp: Space, prev: int, q: Request, anonVma: nat, place: Place, sing1: bool,
                                  sing2: bool, after: bool, before: bool, both: bool)
    requires Sorted(sp.list) && Callable(sp.list, prev, q, place)
    requires after <==> prev >= 0 && sp.list[prev].end == q.addr && CanMergeAfter(sp.list[prev], q)
                        && AnonAllows(anonVma, AnonOf(sp, prev), sing1)
    requires var next := NextOf(sp.list, prev, q);
             before <==> next < |sp.list| && q.end == sp.list[next].start && CanMergeBefore(sp.list[next], q)
                         && AnonAllows(anonVma, AnonOf(sp, next), sing2)
    requires both <==> after && before && AnonAllows(AnonOf(sp, prev), AnonOf(sp, NextOf(sp.list, prev, q)), true)
    ensures after ==> JoinsPrev(sp, prev, q, anonVma)
    ensures before ==> JoinsNext(sp, NextOf(sp.list, prev, q), q, anonVma)
    ensures forall i: nat :: JoinsNext(sp, i, q, anonVma) ==> i == NextOf(sp.list, prev, q)
    ensures (sing1 && sing2) || SameAnon(sp, anonVma) ==>
              && (after <==> JoinsPrev(sp, prev, q, anonVma))
              && (before <==> JoinsNext(sp, NextOf(sp.list, prev, q), q, anonVma))
              && (both <==> after && TakesNext(sp, prev, NextOf(sp.list, prev, q), q, anonVma))
  {
    hide CanMergeAfter, CanMergeBefore, Callable, Precedes, Follows;
    Nonempty(sp.list, prev, q, place);
    var s, next := sp.list, NextOf(sp.list, prev, q);
    if prev >= 0 { MergeTests(s[prev], q); }
    if next < |s| { MergeTests(s[next], q); }
    forall i: nat | JoinsNext(sp, i, q, anonVma) ensures i == next {
      FollowsAt(s[i], q);
      OnlyNext(s, prev, q, place, i);
    }
    PrecedesAt(sp, prev, q, anonVma);
    if next < |s| { FollowsStart(s[next], q); }
  }

  lemma {:induction false} Nonempty(s: seq<Vma>, prev: int, q: Request, place: Place)
    requires Sorted(s) && Callable(s, prev, q, place)
    ensures -1 <= prev < |s| && q.addr < q.end && forall i :: 0 <= i < |s| ==> s[i].start < s[i].end
  {
  }

  lemma {:induction false} FollowsAt(v: Vma, q: Request)
    requires Follows(v, q)
    ensures v.start == q.end
  {
  }

  lemma {:induction false} FollowsStart(v: Vma, q: Request)
    ensures Follows(v, q) ==> v.start == q.end
  {
  }

  lemma {:induction false} PrecedesAt(sp: Space, prev: int, q: Request, anonVma: nat)
    ensures JoinsPrev(sp, prev, q, anonVma) ==> sp.list[prev].end == q.addr
  {
  }

  /** The adjustment of a case: the list becomes what the case says or stays. */
  method Carry(sp: Space, ghost prev: int, v: nat, start: nat, end: nat, pgoff: nat, expand: int, ghost at: int,
               ghost q: Request, ghost c: Case, willing: bool, ghost anonVma: nat)
    returns (ok: bool, r: Space)
    requires Shaped(sp) && Chosen(sp.list, prev, q, c, v, start, end, pgoff, expand, at)
    ensures Shaped(r) && r.nextId == sp.nextId
    ensures Allowed(sp.list, v, start, end, pgoff, WayOf(c))
    ensures r.list == if ok then Adjusted(sp.list, v, start, end, pgoff, WayOf(c)) else sp.list
    ensures willing || SameAnon(sp, anonVma) ==> ok
  {
    CaseAllowed(sp.list, v, q, c);
    ok, r := VmaAdjust(sp, v, start, end, pgoff, expand, willing, WayOf(c));
  }

  /** vma_merge. `prev` is the area before the request, -1 for none; `at` the area that now serves it. `willing`
      says that an anon_vma can be cloned and that no chain stands in the way. */
  method VmaMerge(sp: Space, prev: int, q: Request, anonVma: nat, willing: bool, ghost place: Place)
    returns (found: bool, at: int, r: Space)
    requires Shaped(sp) && Callable(sp.list, prev, q, place)
    ensures Shaped(r) && r.nextId == sp.nextId
    ensures !found ==> r.list == sp.list
    ensures found ==> (at == prev || at == prev + 1) && at >= 0 && Overlaid(sp.list, r.list, q) && Serves(r.list, at, q)
    ensures found && place.Hole? ==> Grew(sp.list, r.list, at)
    ensures found ==> Mergeable(sp, prev, q, anonVma)
    ensures willing || SameAnon(sp, anonVma) ==>
              (found <==> Mergeable(sp, prev, q, anonVma)) && (found ==> Reaches(sp, prev, q, anonVma, r.list, at))
  {
    hide Grew, Sorted, Applies, Callable, Overlaid, Serves, ConsistentBut, InOrder, Ids, Files, Adjusted, Mergeable,
      Reaches, SameAnon, Decided;
    var v, start, end, pgoff, expand;
    ghost var c: Case;
    r := sp;
    found, v, start, end, pgoff, expand, at, c := Choose(sp, prev, q, anonVma, willing, place);
    if found {
      found, r := Carry(sp, prev, v, start, end, pgoff, expand, at, q, c, willing, anonVma);
      if found {
        CaseResult(sp.list, v, q, c);
        if place.Hole? { CaseGrew(sp.list, v, q, c); }
        if willing || SameAnon(sp, anonVma) { DecidedReaches(sp, prev, q, anonVma, c, v); }
      }
    }
  }

  lemma {:induction false} DecidedReaches(sp: Space, prev: int, q: Request, anonVma: nat, c: Case, v: nat)
    requires InPlace(sp.list, v, q, c) && Mergeable(sp, prev, q, anonVma) && Decided(sp, prev, q, anonVma, c, v)
    ensures Reaches(sp, prev, q, anonVma, Merged(sp.list, v, q, c), if c.ShiftDown4? then v + 1 else v)
  {
    hide JoinsPrev, JoinsNext, Merged, Applies, Covered;
    CaseExtent(sp.list, v, q, c);
    var s, r, at := sp.list, Merged(sp.list, v, q, c), if c.ShiftDown4? then v + 1 else v;
    var after := JoinsPrev(sp, prev, q, anonVma);
    if !after {
      var i: nat :| JoinsNext(sp, i, q, anonVma);
      assert TakesNext(sp, prev, i, q, anonVma);
    }
    assert if after then r[at].start == s[prev].start && r[at].id == s[prev].id else r[at].start == q.addr;
    forall i: nat | TakesNext(sp, prev, i, q, anonVma)
      ensures r[at].end == s[i].end && (!after ==> r[at].id == s[i].id)
      ensures |r| == |s| - (if after then 1 else 0) - (if Covered(s, q) then 1 else 0) {
    }
  }
}
