/** Discovery of the next mapped page: skips absent subtrees, and agrees with looking at every page. */
module SparseWalk {
  import opened Common
  import ByteExtent

  const PAGE: nat := 4096
  const USER_END: nat := 0x8000_0000_0000

  datatype Entry = Absent | Branch(child: nat) | Leaf

  /** What inspecting one table slot yields; a backend may fail. */
  datatype Slot = Found(entry: Entry) | Unreadable(code: nat)

  datatype Error = InvalidRange | InvalidTree | Backend(code: nat)

  datatype WalkResult = Ok(page: Option<nat>) | Err(error: Error)

  /** Table, index and level to slot. */
  type Tree = (nat, nat, nat) -> Slot

  /** The bytes one slot of a level covers. */
  function Size(level: nat): nat
    requires 1 <= level <= 4
  {
    if level == 1 then 0x1000 else if level == 2 then 0x20_0000 else if level == 3 then 0x4000_0000 else 0x80_0000_0000
  }

  function Index(a: nat, level: nat): nat
    requires 1 <= level <= 4
  {
    a / Size(level) % 512
  }

  /** How the walk ends for one page: at a leaf, at a hole of some level, or in an error. */
  datatype Outcome = Mapped | Hole(level: nat) | Broken(error: Error)

  function Lookup(tree: Tree, table: nat, level: nat, a: nat): (r: Outcome)
    requires 1 <= level <= 4
    ensures r.Hole? ==> 1 <= r.level <= level
    decreases level
  {
    match tree(table, Index(a, level), level)
    case Unreadable(code) => Broken(Backend(code))
    case Found(Absent) => Hole(level)
    case Found(Leaf) => if level == 1 then Mapped else Broken(InvalidTree)
    case Found(Branch(child)) =>
      if level > 1 && child != 0 && child % PAGE == 0 then Lookup(tree, child, level - 1, a) else Broken(InvalidTree)
  }

  /** The reference: one look-up per page. */
  function Scan(tree: Tree, root: nat, start: nat, end: nat): WalkResult
    decreases end - start
  {
    if start >= end then Ok(None)
    else
      match Lookup(tree, root, 4, start)
      case Mapped => Ok(Some(start))
      case Broken(error) => Err(error)
      case Hole(_) => Scan(tree, root, start + PAGE, end)
  }

  predicate ValidRange(root: nat, start: nat, end: nat) {
    root != 0 && root % PAGE == 0 && start % PAGE == 0 && end % PAGE == 0 && start <= end <= USER_END
  }

  lemma SameIndexAbove(a: nat, b: nat, low: nat, level: nat)
    requires 1 <= low <= level <= 4 && a / Size(low) == b / Size(low)
    ensures Index(a, level) == Index(b, level)
  {
    assert a / 0x20_0000 == a / 0x1000 / 512 && b / 0x20_0000 == b / 0x1000 / 512;
    assert a / 0x4000_0000 == a / 0x20_0000 / 512 && b / 0x4000_0000 == b / 0x20_0000 / 512;
    assert a / 0x80_0000_0000 == a / 0x4000_0000 / 512 && b / 0x80_0000_0000 == b / 0x4000_0000 / 512;
  }

  /** Every page under an absent slot ends its walk in the same hole. */
  lemma {:induction false} HoleIsShared(tree: Tree, table: nat, level: nat, a: nat, b: nat)
    requires 1 <= level <= 4
    requires Lookup(tree, table, level, a).Hole?
    requires a / Size(Lookup(tree, table, level, a).level) == b / Size(Lookup(tree, table, level, a).level)
    ensures Lookup(tree, table, level, b) == Lookup(tree, table, level, a)
    decreases level
  {
    var low := Lookup(tree, table, level, a).level;
    SameIndexAbove(a, b, low, level);
    var slot := tree(table, Index(a, level), level);
    if slot.Found? && slot.entry.Branch? {
      HoleIsShared(tree, slot.entry.child, level - 1, a, b);
    }
  }

  /** Where the walk goes on after a hole: the next multiple of the hole's size. */
  function After(a: nat, level: nat): nat
    requires 1 <= level <= 4
  {
    (a / Size(level) + 1) * Size(level)
  }

  lemma {:induction false} AfterIsNext(a: nat, level: nat)
    requires 1 <= level <= 4 && a % PAGE == 0
    ensures a < After(a, level) && After(a, level) % PAGE == 0
    ensures forall b :: a <= b < After(a, level) ==> b / Size(level) == a / Size(level)
  {
    var size, q := Size(level), a / Size(level);
    ByteExtent.CapacityArithmetic(a, size);
    ByteExtent.Successor(q, size);
    forall b | a <= b < After(a, level) ensures b / size == q {
      ByteExtent.QuotientIs(b, size, q, b - q * size);
    }
    SizeIsPages(level, q + 1);
  }

  lemma {:induction false} SizeIsPages(level: nat, n: nat)
    requires 1 <= level <= 4
    ensures n * Size(level) % PAGE == 0
  {
    var pages := if level == 1 then 1 else if level == 2 then 512 else if level == 3 then 0x4_0000 else 0x800_0000;
    assert Size(level) == pages * PAGE;
    assert n * Size(level) == (n * pages) * PAGE;
    ByteExtent.QuotientIs(n * Size(level), PAGE, n * pages, 0);
  }

  ghost predicate AllHoles(tree: Tree, root: nat, start: nat, end: nat) {
    forall a: nat :: start <= a < end && a % PAGE == 0 ==> Lookup(tree, root, 4, a).Hole?
  }

  lemma {:induction false} ScanPasses(tree: Tree, root: nat, from: nat, next: nat, end: nat)
    requires from <= next && from % PAGE == 0 && next % PAGE == 0 && AllHoles(tree, root, from, next)
    ensures Scan(tree, root, from, end) == Scan(tree, root, next, end)
    decreases next - from
  {
    hide Lookup;
    if from < next && from < end {
      assert Lookup(tree, root, 4, from).Hole? && AllHoles(tree, root, from + PAGE, next);
      hide AllHoles;
      ScanPasses(tree, root, from + PAGE, next, end);
    }
  }

  /** Skipping a hole changes nothing about what a page-by-page scan finds. */
  lemma {:induction false} ScanSkipsHole(tree: Tree, root: nat, a: nat, end: nat)
    requires a % PAGE == 0 && Lookup(tree, root, 4, a).Hole?
    ensures Scan(tree, root, a, end) == Scan(tree, root, After(a, Lookup(tree, root, 4, a).level), end)
  {
    var level := Lookup(tree, root, 4, a).level;
    var next := After(a, level);
    AfterIsNext(a, level);
    hide Lookup, After, Size, Scan;
    forall b | a <= b < next ensures Lookup(tree, root, 4, b).Hole? {
      HoleIsShared(tree, root, 4, a, b);
    }
    assert AllHoles(tree, root, a, next);
    ScanPasses(tree, root, a, next, end);
  }

  /** The scan returns the least mapped page, or the first error, or nothing exactly when all pages are holes. */
  lemma {:induction false} ScanFindsLeast(tree: Tree, root: nat, start: nat, end: nat, a: nat)
    requires start % PAGE == 0 && a % PAGE == 0 && start <= a < end
    ensures var r := Scan(tree, root, start, end);
      && (r == Ok(None) ==> Lookup(tree, root, 4, a).Hole?)
      && (r.Ok? && r.page.Some? ==> start <= r.page.value < end && r.page.value % PAGE == 0)
      && (r.Ok? && r.page.Some? ==> Lookup(tree, root, 4, r.page.value) == Mapped)
      && (r.Ok? && r.page.Some? && a < r.page.value ==> Lookup(tree, root, 4, a).Hole?)
    decreases end - start
  {
    hide Lookup;
    if Lookup(tree, root, 4, start).Hole? && start + PAGE < end {
      ScanFindsLeast(tree, root, start + PAGE, end, if start < a then a else start + PAGE);
    }
  }

  /** Nothing is found exactly when every page of the range is a hole. */
  lemma {:induction false} ScanFindsNothingIff(tree: Tree, root: nat, start: nat, end: nat)
    requires start % PAGE == 0 && end % PAGE == 0 && start <= end
    ensures Scan(tree, root, start, end) == Ok(None) <==> AllHoles(tree, root, start, end)
  {
    hide Lookup;
    if Scan(tree, root, start, end) == Ok(None) {
      forall a | start <= a < end && a % PAGE == 0 ensures Lookup(tree, root, 4, a).Hole? {
        ScanFindsLeast(tree, root, start, end, a);
      }
    } else if AllHoles(tree, root, start, end) {
      ScanPasses(tree, root, start, end, end);
    }
  }

  /** The sparse walk is the page-by-page scan, errors included; the address grows at every skip. */
  method Next(tree: Tree, root: nat, start: nat, end: nat) returns (r: WalkResult)
    ensures r == if ValidRange(root, start, end) then Scan(tree, root, start, end) else Err(InvalidRange)
  {
    if !ValidRange(root, start, end) {
      return Err(InvalidRange);
    }
    var address := start;
    while address < end
      invariant start <= address && address % PAGE == 0
      invariant Scan(tree, root, start, end) == Scan(tree, root, address, end)
      decreases end - address
    {
      var table := root;
      var level := 4;
      var skipped := false;
      while level >= 1 && !skipped
        invariant 0 <= level <= 4
        invariant !skipped ==> level >= 1 && Lookup(tree, root, 4, address) == Lookup(tree, table, level, address)
        invariant skipped ==> level >= 1 && Lookup(tree, root, 4, address) == Hole(level)
        decreases level, !skipped
      {
        match tree(table, Index(address, level), level)
        case Unreadable(code) => return Err(Backend(code));
        case Found(Absent) => skipped := true;
        case Found(Leaf) =>
          if level == 1 {
            return Ok(Some(address));
          }
          return Err(InvalidTree);
        case Found(Branch(child)) =>
          if level > 1 && child != 0 && child % PAGE == 0 {
            table := child;
            level := level - 1;
          } else {
            return Err(InvalidTree);
          }
      }
      AfterIsNext(address, level);
      ScanSkipsHole(tree, root, address, end);
      address := After(address, level);
    }
    return Ok(None);
  }
}
