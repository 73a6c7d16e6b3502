/** Address-space usage: the union of disjoint reservations and page-table leaves. */
module MappingUsage {
  import opened Common
  import SparseWalk

  const PAGE: nat := 4096
  const USER_END: nat := 0x8000_0000_0000
  const USER_PAGES: nat := 0x8_0000_0000

  datatype Answer = Leaf(page: Option<nat>) | Failed

  datatype UsageResult = Ok(bytes: nat) | InvalidRange | Backend

  function Interval(lo: nat, hi: nat): (r: set<nat>)
    ensures forall n :: n in r <==> lo <= n < hi
    ensures lo <= hi ==> |r| == hi - lo
    decreases hi
  {
    if lo >= hi then {} else Interval(lo, hi - 1) + {hi - 1}
  }

  datatype Region = Region(start: nat, end: nat) {
    predicate Aligned() { start < end <= USER_END && start % PAGE == 0 && end % PAGE == 0 }
    predicate Overlaps(other: Region) { start < other.end && other.start < end }
    predicate Contains(page: nat) { start <= page < end }

    /** The page numbers reserved. */
    function Pages(): set<nat> { Interval(start / PAGE, end / PAGE) }
  }

  /** Every region is aligned and disjoint from those before it. */
  ghost predicate Disjoint(regions: seq<Region>) {
    && (forall i :: 0 <= i < |regions| ==> regions[i].Aligned())
    && (forall i, j :: 0 <= i < j < |regions| ==> !regions[j].Overlaps(regions[i]))
  }

  ghost function Reserved(regions: seq<Region>): set<nat> {
    set i, n | 0 <= i < |regions| && n in regions[i].Pages() :: n
  }

  /** The query answers with the least leaf at or after the cursor. */
  ghost predicate Faithful(query: nat -> Answer, leaves: set<nat>) {
    && (forall n :: n in leaves ==> n < USER_PAGES)
    && forall cursor: nat :: cursor % PAGE == 0 ==> Least(query(cursor), leaves, cursor / PAGE)
  }

  ghost predicate Least(answer: Answer, leaves: set<nat>, from: nat) {
    && answer.Leaf?
    && (answer.page.None? ==> forall n :: n in leaves ==> n < from)
    && (answer.page.Some? ==>
          && answer.page.value % PAGE == 0 && answer.page.value / PAGE in leaves && from <= answer.page.value / PAGE
          && forall n :: n in leaves && from <= n ==> answer.page.value / PAGE <= n)
  }

  // ------------------------------------------------------------- cardinalities

  lemma {:induction false} SubsetIsSmaller(a: set<nat>, b: set<nat>)
    requires a <= b
    ensures |a| <= |b|
    decreases |a|
  {
    if a != {} {
      var x :| x in a;
      SubsetIsSmaller(a - {x}, b - {x});
    }
  }

  /** One more disjoint region adds exactly its own pages. */
  lemma {:induction false} ReservedGrows(regions: seq<Region>, k: nat)
    requires k < |regions| && Disjoint(regions[..k + 1])
    ensures PAGE * |Reserved(regions[..k + 1])| == PAGE * |Reserved(regions[..k])| + (regions[k].end - regions[k].start)
    ensures Reserved(regions[..k + 1]) == Reserved(regions[..k]) + regions[k].Pages()
  {
    var before, r := regions[..k], regions[k];
    assert regions[..k + 1] == before + [r];
    ReservedSplit(before, r);
    forall i | 0 <= i < k ensures r.Pages() !! before[i].Pages() {
      assert before[i] == regions[..k + 1][i] && r == regions[..k + 1][k];
      PagesDisjoint(r, before[i]);
    }
    assert r.Aligned() by { assert regions[..k + 1][k] == r; }
    hide Disjoint;
    assert Reserved(before) !! r.Pages();
  }

  lemma {:induction false} PagesDisjoint(a: Region, b: Region)
    requires a.Aligned() && b.Aligned() && !a.Overlaps(b)
    ensures a.Pages() !! b.Pages()
  {
  }

  lemma {:induction false} ReservedSplit(before: seq<Region>, r: Region)
    ensures Reserved(before + [r]) == Reserved(before) + r.Pages()
  {
    var after := before + [r];
    forall n | n in r.Pages() ensures n in Reserved(after) {
      assert after[|before|] == r;
    }
    forall n | n in Reserved(before) ensures n in Reserved(after) {
      var i :| 0 <= i < |before| && n in before[i].Pages();
      assert after[i] == before[i];
    }
  }

  lemma {:induction false} ReservedIsBelowEnd(regions: seq<Region>, n: nat)
    requires Disjoint(regions) && n in Reserved(regions)
    ensures n < USER_PAGES
  {
    var i :| 0 <= i < |regions| && n in regions[i].Pages();
    assert regions[i].Aligned();
  }

  // ------------------------------------------------------------------- counting

  ghost function Uncovered(regions: seq<Region>, leaves: set<nat>, below: nat): set<nat> {
    set n | n in leaves && n !in Reserved(regions) && n < below
  }

  /** Everything the address space holds, each page once. */
  ghost function Union(regions: seq<Region>, leaves: set<nat>): set<nat> {
    Reserved(regions) + leaves
  }

  lemma {:induction false} DisjointSum(a: set<nat>, b: set<nat>)
    requires a !! b
    ensures |a + b| == |a| + |b|
  {
  }

  lemma {:induction false} UnionIsBounded(regions: seq<Region>, leaves: set<nat>)
    requires Disjoint(regions) && forall n :: n in leaves ==> n < USER_PAGES
    ensures |Union(regions, leaves)| <= USER_PAGES
  {
    forall n | n in Union(regions, leaves) ensures n in Interval(0, USER_PAGES) {
      if n in Reserved(regions) {
        ReservedIsBelowEnd(regions, n);
      }
    }
    SubsetIsSmaller(Union(regions, leaves), Interval(0, USER_PAGES));
  }

  lemma {:induction false} ReservedIsBounded(regions: seq<Region>)
    requires Disjoint(regions)
    ensures PAGE * |Reserved(regions)| <= USER_END
  {
    UnionIsBounded(regions, {});
    assert Union(regions, {}) == Reserved(regions);
  }

  lemma {:induction false} CountedAll(regions: seq<Region>, leaves: set<nat>, below: nat)
    requires Disjoint(regions) && forall n :: n in leaves ==> n < USER_PAGES
    requires forall n :: n in leaves ==> n < below
    ensures |Reserved(regions)| + |Uncovered(regions, leaves, below)| == |Union(regions, leaves)|
    ensures Uncovered(regions, leaves, below) == leaves - Reserved(regions)
  {
    hide Reserved, Disjoint;
    DisjointSum(Reserved(regions), Uncovered(regions, leaves, below));
    assert Reserved(regions) + Uncovered(regions, leaves, below) == Union(regions, leaves);
  }

  /** The first earlier region that this one overlaps, if any. */
  method Clashes(regions: seq<Region>, k: nat) returns (j: nat)
    requires k < |regions|
    ensures j <= k && (j < k ==> regions[k].Overlaps(regions[j]))
    ensures j == k ==> forall i :: 0 <= i < k ==> !regions[k].Overlaps(regions[i])
  {
    j := 0;
    while j < k && !regions[k].Overlaps(regions[j])
      invariant j <= k && forall i :: 0 <= i < j ==> !regions[k].Overlaps(regions[i])
    {
      j := j + 1;
    }
  }

  lemma {:induction false} DisjointGrows(regions: seq<Region>, k: nat)
    requires k < |regions| && Disjoint(regions[..k]) && regions[k].Aligned()
    requires forall i :: 0 <= i < k ==> !regions[k].Overlaps(regions[i])
    ensures Disjoint(regions[..k + 1])
  {
    var before, after := regions[..k], regions[..k + 1];
    assert forall i :: 0 <= i < k ==> after[i] == before[i] == regions[i];
    assert after[k] == regions[k];
  }

  /** Sums the reservations, or reports the first that is malformed or overlaps an earlier one. */
  method SumReservations(regions: seq<Region>) returns (ok: bool, total: nat)
    ensures ok <==> Disjoint(regions)
    ensures ok ==> total == PAGE * |Reserved(regions)| <= USER_END
  {
    total := 0;
    var k := 0;
    assert Reserved(regions[..0]) == {};
    hide Reserved;
    while k < |regions|
      invariant k <= |regions| && Disjoint(regions[..k]) && total == PAGE * |Reserved(regions[..k])| <= USER_END
    {
      var r := regions[k];
      var clash := Clashes(regions, k);
      if !r.Aligned() || clash < k {
        assert !Disjoint(regions);
        return false, 0;
      }
      DisjointGrows(regions, k);
      hide Disjoint;
      ReservedGrows(regions, k);
      ReservedIsBounded(regions[..k + 1]);
      total := total + (r.end - r.start);
      k := k + 1;
    }
    assert regions[..k] == regions;
    return true, total;
  }

  /** The region that holds a page, if any. */
  method FindRegion(regions: seq<Region>, page: nat) returns (i: nat)
    ensures i <= |regions| && (i < |regions| ==> regions[i].Contains(page))
    ensures i == |regions| ==> forall j :: 0 <= j < |regions| ==> !regions[j].Contains(page)
  {
    i := 0;
    while i < |regions| && !regions[i].Contains(page)
      invariant i <= |regions| && forall j :: 0 <= j < i ==> !regions[j].Contains(page)
    {
      i := i + 1;
    }
  }

  lemma {:induction false} InsideIsReserved(regions: seq<Region>, page: nat, i: nat)
    requires Disjoint(regions) && page % PAGE == 0 && i < |regions| && regions[i].Contains(page)
    ensures forall n :: page / PAGE <= n < regions[i].end / PAGE ==> n in Reserved(regions)
  {
    assert regions[i].Aligned();
    forall n | page / PAGE <= n < regions[i].end / PAGE ensures n in Reserved(regions) {
      assert n in regions[i].Pages();
    }
  }

  lemma {:induction false} OutsideIsUncovered(regions: seq<Region>, page: nat)
    requires Disjoint(regions) && page % PAGE == 0
    requires forall j :: 0 <= j < |regions| ==> !regions[j].Contains(page)
    ensures page / PAGE !in Reserved(regions)
  {
    forall j | 0 <= j < |regions| ensures page / PAGE !in regions[j].Pages() {
      assert regions[j].Aligned() && !regions[j].Contains(page);
    }
  }

  /** Jumping a reservation counts nothing new. */
  lemma {:induction false} JumpCounts(regions: seq<Region>, leaves: set<nat>, cursor: nat, page: nat, end: nat)
    requires cursor <= page <= end && forall n :: n in leaves && cursor <= n ==> page <= n
    requires forall n :: page <= n < end ==> n in Reserved(regions)
    ensures Uncovered(regions, leaves, end) == Uncovered(regions, leaves, cursor)
  {
    hide Reserved;
  }

  /** A leaf outside every reservation counts once. */
  lemma {:induction false} LeafCounts(regions: seq<Region>, leaves: set<nat>, cursor: nat, page: nat)
    requires cursor <= page && page in leaves && forall n :: n in leaves && cursor <= n ==> page <= n
    requires page !in Reserved(regions)
    ensures |Uncovered(regions, leaves, page + 1)| == |Uncovered(regions, leaves, cursor)| + 1
  {
    hide Reserved;
    assert Uncovered(regions, leaves, page + 1) == Uncovered(regions, leaves, cursor) + {page};
  }

  /** Where the scan stands: the bytes counted so far and the queries spent on them. */
  ghost predicate Counted(regions: seq<Region>, leaves: set<nat>, cursor: nat, total: nat, asked: nat, jumped: set<nat>) {
    && total == PAGE * (|Reserved(regions)| + |Uncovered(regions, leaves, cursor / PAGE)|)
    && asked == |jumped| + |Uncovered(regions, leaves, cursor / PAGE)|
    && forall i :: i in jumped ==> i < |regions| && regions[i].end <= cursor
  }

  lemma {:induction false} JumpStep(regions: seq<Region>, leaves: set<nat>, cursor: nat, total: nat, asked: nat,
                                    jumped: set<nat>, page: nat, i: nat)
    requires Disjoint(regions) && Counted(regions, leaves, cursor, total, asked, jumped)
    requires cursor % PAGE == 0 && Least(Leaf(Some(page)), leaves, cursor / PAGE)
    requires i < |regions| && regions[i].Contains(page)
    ensures Counted(regions, leaves, regions[i].end, total, asked + 1, jumped + {i})
  {
    InsideIsReserved(regions, page, i);
    JumpCounts(regions, leaves, cursor / PAGE, page / PAGE, regions[i].end / PAGE);
  }

  lemma {:induction false} LeafStep(regions: seq<Region>, leaves: set<nat>, cursor: nat, total: nat, asked: nat,
                                    jumped: set<nat>, page: nat)
    requires Disjoint(regions) && Counted(regions, leaves, cursor, total, asked, jumped)
    requires cursor % PAGE == 0 && Least(Leaf(Some(page)), leaves, cursor / PAGE)
    requires forall j :: 0 <= j < |regions| ==> !regions[j].Contains(page)
    ensures Counted(regions, leaves, page + PAGE, total + PAGE, asked + 1, jumped)
  {
    OutsideIsUncovered(regions, page);
    LeafCounts(regions, leaves, cursor / PAGE, page / PAGE);
    assert (page + PAGE) / PAGE == page / PAGE + 1;
    hide Reserved, Disjoint, Uncovered;
  }

  lemma {:induction false} EndStep(regions: seq<Region>, leaves: set<nat>, cursor: nat, total: nat, asked: nat, jumped: set<nat>)
    requires Disjoint(regions) && Counted(regions, leaves, cursor, total, asked, jumped)
    requires (forall n :: n in leaves ==> n < USER_PAGES) && Least(Leaf(None), leaves, cursor / PAGE)
    ensures total == PAGE * |Union(regions, leaves)|
    ensures asked <= |regions| + |leaves - Reserved(regions)|
  {
    CountedAll(regions, leaves, cursor / PAGE);
    JumpedAtMostAll(regions, jumped);
  }

  /**
   Given a query that finds the least leaf, usage is the page size times the number of distinct
   pages reserved or mapped, and the scan asks at most once per reservation, once per leaf
   outside them, and once at the end.
   */
  method Bytes(regions: seq<Region>, query: nat -> Answer, ghost leaves: set<nat>) returns (r: UsageResult, asked: nat)
    ensures !Disjoint(regions) ==> r == InvalidRange
    ensures Disjoint(regions) && Faithful(query, leaves) ==> r == Ok(PAGE * |Union(regions, leaves)|)
    ensures Faithful(query, leaves) ==> asked <= |regions| + |leaves - Reserved(regions)| + 1
  {
    asked := 0;
    var ok: bool, total: nat := SumReservations(regions);
    if !ok {
      return InvalidRange, asked;
    }
    ghost var faithful, jumped: set<nat> := Faithful(query, leaves), {};
    var cursor := 0;
    assert Uncovered(regions, leaves, 0) == {};
    assert faithful ==> Counted(regions, leaves, cursor, total, asked, jumped);
    hide Reserved, Disjoint, Counted, Uncovered, Union, Faithful, Least;
    while true
      invariant cursor % PAGE == 0 && cursor <= USER_END && total <= USER_END + cursor
      invariant faithful ==> Counted(regions, leaves, cursor, total, asked, jumped)
      decreases USER_END - cursor
    {
      var answer := query(cursor);
      if faithful {
        FaithfulAt(query, leaves, cursor);
      }
      if answer.Failed? {
        return Backend, asked + 1;
      }
      if answer.page.None? {
        if faithful {
          EndStep(regions, leaves, cursor, total, asked, jumped);
        }
        return Ok(total), asked + 1;
      }
      var page := answer.page.value;
      if page < cursor || page >= USER_END || page % PAGE != 0 {
        return InvalidRange, asked + 1;
      }
      cursor, total, jumped := Advance(regions, leaves, cursor, total, asked, jumped, page, faithful);
      asked := asked + 1;
    }
  }

  /** One answered query: jump the reservation that holds the leaf, or count the leaf. */
  method Advance(regions: seq<Region>, ghost leaves: set<nat>, cursor: nat, total: nat, ghost asked: nat,
                 ghost jumped: set<nat>, page: nat, ghost faithful: bool)
    returns (next: nat, sum: nat, ghost jumps: set<nat>)
    requires Disjoint(regions) && cursor % PAGE == 0 && cursor <= page < USER_END && page % PAGE == 0
    requires faithful ==> Counted(regions, leaves, cursor, total, asked, jumped)
    requires faithful ==> Least(Leaf(Some(page)), leaves, cursor / PAGE)
    ensures cursor < next <= USER_END && next % PAGE == 0 && sum - total <= next - cursor
    ensures faithful ==> Counted(regions, leaves, next, sum, asked + 1, jumps)
  {
    hide Reserved, Disjoint, Counted, Least;
    var i := FindRegion(regions, page);
    if i < |regions| {
      RegionAligned(regions, i);
      if faithful {
        JumpStep(regions, leaves, cursor, total, asked, jumped, page, i);
      }
      next, sum, jumps := regions[i].end, total, jumped + {i};
    } else {
      if faithful {
        LeafStep(regions, leaves, cursor, total, asked, jumped, page);
      }
      next, sum, jumps := page + PAGE, total + PAGE, jumped;
    }
  }

  lemma {:induction false} FaithfulAt(query: nat -> Answer, leaves: set<nat>, cursor: nat)
    requires Faithful(query, leaves) && cursor % PAGE == 0
    ensures (forall n :: n in leaves ==> n < USER_PAGES) && Least(query(cursor), leaves, cursor / PAGE)
    ensures query(cursor).Leaf?
    ensures query(cursor).page.Some? ==> cursor <= query(cursor).page.value < USER_END && query(cursor).page.value % PAGE == 0
  {
    assert Least(query(cursor), leaves, cursor / PAGE);
  }

  lemma RegionAligned(regions: seq<Region>, i: nat)
    requires Disjoint(regions) && i < |regions|
    ensures regions[i].Aligned()
  {
  }

  lemma {:induction false} JumpedAtMostAll(regions: seq<Region>, jumped: set<nat>)
    requires forall i :: i in jumped ==> i < |regions|
    ensures |jumped| <= |regions|
  {
    SubsetIsSmaller(jumped, Interval(0, |regions|));
  }

  // ------------------------------------------------------- usage of a page table

  predicate MappedPage(tree: SparseWalk.Tree, root: nat, n: nat) {
    SparseWalk.Lookup(tree, root, 4, n * PAGE) == SparseWalk.Mapped
  }

  /** The page numbers a table maps. */
  function TreeLeaves(tree: SparseWalk.Tree, root: nat): set<nat> {
    set n: nat | n < USER_PAGES && MappedPage(tree, root, n)
  }

  /** The sparse walk as a leaf query. */
  function WalkFrom(tree: SparseWalk.Tree, root: nat, cursor: nat): Answer {
    match SparseWalk.Scan(tree, root, cursor, USER_END)
    case Ok(page) => Leaf(page)
    case Err(_) => Failed
  }

  ghost predicate Readable(tree: SparseWalk.Tree, root: nat) {
    forall a: nat :: a < USER_END ==> !SparseWalk.Lookup(tree, root, 4, a).Broken?
  }

  lemma {:induction false} ReadableScanIsOk(tree: SparseWalk.Tree, root: nat, cursor: nat)
    requires Readable(tree, root)
    ensures SparseWalk.Scan(tree, root, cursor, USER_END).Ok?
    decreases USER_END - cursor
  {
    hide SparseWalk.Lookup;
    if cursor < USER_END && SparseWalk.Lookup(tree, root, 4, cursor).Hole? {
      ReadableScanIsOk(tree, root, cursor + PAGE);
    }
  }

  /** On a readable table the walk always answers with the least leaf, which is what the usage scan needs. */
  lemma {:induction false} WalkFindsLeastLeaf(tree: SparseWalk.Tree, root: nat, cursor: nat)
    requires Readable(tree, root) && cursor % PAGE == 0
    ensures Least(WalkFrom(tree, root, cursor), TreeLeaves(tree, root), cursor / PAGE)
  {
    ReadableScanIsOk(tree, root, cursor);
    var from, leaves, answer := cursor / PAGE, TreeLeaves(tree, root), WalkFrom(tree, root, cursor);
    forall n | n in leaves && from <= n
      ensures answer.page.Some? && answer.page.value / PAGE <= n
    {
      LeafIsFound(tree, root, cursor, n);
    }
    if answer.page.Some? {
      FoundIsLeaf(tree, root, cursor);
    }
  }

  lemma {:induction false} LeafIsFound(tree: SparseWalk.Tree, root: nat, cursor: nat, n: nat)
    requires Readable(tree, root) && cursor % PAGE == 0 && cursor / PAGE <= n < USER_PAGES && MappedPage(tree, root, n)
    ensures WalkFrom(tree, root, cursor).Leaf? && WalkFrom(tree, root, cursor).page.Some?
    ensures WalkFrom(tree, root, cursor).page.value / PAGE <= n
  {
    hide SparseWalk.Lookup, SparseWalk.Scan, Readable;
    ReadableScanIsOk(tree, root, cursor);
    var a := n * PAGE;
    assert cursor <= a < USER_END && a % PAGE == 0 && a / PAGE == n;
    SparseWalk.ScanFindsLeast(tree, root, cursor, USER_END, a);
    assert SparseWalk.Scan(tree, root, cursor, USER_END).page.Some?;
    assert SparseWalk.Scan(tree, root, cursor, USER_END).page.value <= a;
  }

  lemma {:induction false} FoundIsLeaf(tree: SparseWalk.Tree, root: nat, cursor: nat)
    requires Readable(tree, root) && cursor % PAGE == 0
    requires WalkFrom(tree, root, cursor).Leaf? && WalkFrom(tree, root, cursor).page.Some?
    ensures var page := WalkFrom(tree, root, cursor).page.value;
      page % PAGE == 0 && cursor / PAGE <= page / PAGE && page / PAGE in TreeLeaves(tree, root)
  {
    SparseWalk.ScanFindsLeast(tree, root, cursor, USER_END, cursor);
    hide SparseWalk.Lookup, SparseWalk.Scan;
    var page := WalkFrom(tree, root, cursor).page.value;
    assert page / PAGE * PAGE == page;
  }

  /** The usage of an address space, as the union of its reservations and the leaves of its table. */
  method TableUsage(regions: seq<Region>, tree: SparseWalk.Tree, root: nat) returns (r: UsageResult, asked: nat)
    ensures !Disjoint(regions) ==> r == InvalidRange
    ensures Disjoint(regions) && Readable(tree, root) ==> r == Ok(PAGE * |Union(regions, TreeLeaves(tree, root))|)
    ensures Readable(tree, root) ==> asked <= |regions| + |TreeLeaves(tree, root) - Reserved(regions)| + 1
  {
    if Readable(tree, root) {
      forall cursor: nat | cursor % PAGE == 0
        ensures Least(WalkFrom(tree, root, cursor), TreeLeaves(tree, root), cursor / PAGE)
      {
        WalkFindsLeastLeaf(tree, root, cursor);
      }
    }
    r, asked := Bytes(regions, (cursor: nat) => WalkFrom(tree, root, cursor), TreeLeaves(tree, root));
  }
}
