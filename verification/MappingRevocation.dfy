/**
 All-or-nothing revocation of mappings. A journal discovers every leaf of the
 requested ranges, suspends them, waits for the CPUs, and then either releases all
 of them or restores all of them.
 */
module MappingRevocation {
  import opened Common

  const PAGE: nat := 4096

  datatype Range = Range(table: nat, start: nat, end: nat)

  datatype Key = Key(table: nat, address: nat)

  datatype Leaf = Leaf(frame: nat, present: bool)

  datatype Error = InvalidRange | Allocation | BackendFailure

  predicate WellFormed(r: Range) {
    r.start < r.end && r.table % PAGE == 0 && r.start % PAGE == 0 && r.end % PAGE == 0
  }

  predicate Covers(r: Range, k: Key) {
    k.table == r.table && r.start <= k.address < r.end
  }

  predicate CoveredBy(ranges: seq<Range>, k: Key) {
    exists i :: 0 <= i < |ranges| && Covers(ranges[i], k)
  }

  predicate Disjoint(a: Range, b: Range) {
    a.table != b.table || a.end <= b.start || b.end <= a.start
  }

  ghost predicate PairwiseDisjoint(ranges: seq<Range>) {
    forall i, j :: 0 <= i < j < |ranges| ==> Disjoint(ranges[i], ranges[j])
  }

  // ---------------------------------------------------------------- the plan

  predicate LexLe(a: Range, b: Range) {
    a.table < b.table || (a.table == b.table && (a.start < b.start || (a.start == b.start && a.end <= b.end)))
  }

  ghost predicate Sorted(ranges: seq<Range>) {
    forall i, j :: 0 <= i < j < |ranges| ==> LexLe(ranges[i], ranges[j])
  }

  function Insert(r: Range, sorted: seq<Range>): seq<Range> {
    if sorted == [] || LexLe(r, sorted[0]) then [r] + sorted else [sorted[0]] + Insert(r, sorted[1..])
  }

  function Sort(ranges: seq<Range>): seq<Range> {
    if ranges == [] then [] else Insert(ranges[0], Sort(ranges[1..]))
  }

  lemma {:induction false} InsertSorts(r: Range, sorted: seq<Range>)
    requires Sorted(sorted)
    ensures Sorted(Insert(r, sorted))
    ensures forall x :: x in Insert(r, sorted) <==> x == r || x in sorted
  {
    if sorted != [] && !LexLe(r, sorted[0]) {
      InsertSorts(r, sorted[1..]);
      var rest := Insert(r, sorted[1..]);
      assert forall x :: x in sorted <==> x == sorted[0] || x in sorted[1..];
      forall j | 0 <= j < |rest| ensures LexLe(sorted[0], rest[j]) {
        assert rest[j] in rest;
      }
    }
  }

  lemma {:induction false} InsertAdds(r: Range, ranges: seq<Range>)
    ensures multiset(Insert(r, ranges)) == multiset(ranges) + multiset{r}
  {
    if ranges != [] && !LexLe(r, ranges[0]) {
      InsertAdds(r, ranges[1..]);
      assert ranges == [ranges[0]] + ranges[1..];
    }
  }

  lemma {:induction false} SortSorts(ranges: seq<Range>)
    ensures Sorted(Sort(ranges)) && multiset(Sort(ranges)) == multiset(ranges)
    ensures forall x :: x in Sort(ranges) <==> x in ranges
  {
    if ranges != [] {
      assert ranges == [ranges[0]] + ranges[1..];
      SortSorts(ranges[1..]);
      InsertSorts(ranges[0], Sort(ranges[1..]));
      InsertAdds(ranges[0], Sort(ranges[1..]));
      assert forall x :: x in ranges <==> x == ranges[0] || x in ranges[1..];
    }
  }

  /** The check made on neighbours of the sorted plan. */
  predicate NeighboursOverlap(plan: seq<Range>) {
    exists i :: 0 <= i < |plan| - 1 && plan[i].table == plan[i + 1].table && plan[i + 1].start < plan[i].end
  }

  lemma {:induction false} NeighboursReach(plan: seq<Range>, i: nat, j: nat)
    requires Sorted(plan) && !NeighboursOverlap(plan) && forall k :: 0 <= k < |plan| ==> WellFormed(plan[k])
    requires i < j < |plan| && plan[i].table == plan[j].table
    ensures plan[i].end <= plan[j].start
    decreases j - i
  {
    if j > i + 1 {
      assert LexLe(plan[i], plan[j - 1]) && LexLe(plan[j - 1], plan[j]);
      NeighboursReach(plan, i, j - 1);
    }
    assert plan[j - 1].table == plan[j].table ==> plan[j].start >= plan[j - 1].end;
  }

  /** After sorting, checking neighbours is checking all pairs. */
  lemma {:induction false} NeighboursSuffice(plan: seq<Range>)
    requires Sorted(plan) && forall k :: 0 <= k < |plan| ==> WellFormed(plan[k])
    ensures NeighboursOverlap(plan) <==> !PairwiseDisjoint(plan)
  {
    if NeighboursOverlap(plan) {
      OverlapIsNotDisjoint(plan);
    } else {
      hide Sorted, NeighboursOverlap, WellFormed, LexLe;
      forall i, j | 0 <= i < j < |plan| ensures Disjoint(plan[i], plan[j]) {
        if plan[i].table == plan[j].table { NeighboursReach(plan, i, j); }
      }
    }
  }

  lemma {:induction false} OverlapIsNotDisjoint(plan: seq<Range>)
    requires Sorted(plan) && NeighboursOverlap(plan) && forall k :: 0 <= k < |plan| ==> WellFormed(plan[k])
    ensures !PairwiseDisjoint(plan)
  {
    var i :| 0 <= i < |plan| - 1 && plan[i].table == plan[i + 1].table && plan[i + 1].start < plan[i].end;
    var j := i + 1;
    assert LexLe(plan[i], plan[j]) && WellFormed(plan[i]) && WellFormed(plan[j]);
    assert !Disjoint(plan[i], plan[j]);
  }

  lemma {:induction false} InsertKeepsDisjointness(r: Range, s: seq<Range>)
    ensures PairwiseDisjoint(Insert(r, s)) <==> PairwiseDisjoint([r] + s)
    ensures forall x :: x in Insert(r, s) <==> x == r || x in s
  {
    if s != [] && !LexLe(r, s[0]) {
      var first, rest := s[0], s[1..];
      InsertKeepsDisjointness(r, rest);
      assert s == [first] + rest && Insert(r, s) == [first] + Insert(r, rest);
      assert forall x :: x in s <==> x == first || x in rest;
      ConsDisjoint(first, Insert(r, rest));
      ConsDisjoint(r, rest);
      ConsDisjoint(first, rest);
      ConsDisjoint(r, s);
      assert first in s && r in Insert(r, rest);
      assert Disjoint(first, r) <==> Disjoint(r, first);
    }
  }

  lemma ConsDisjoint(r: Range, s: seq<Range>)
    ensures PairwiseDisjoint([r] + s) <==> PairwiseDisjoint(s) && forall x :: x in s ==> Disjoint(r, x)
  {
    var whole := [r] + s;
    assert forall i :: 0 <= i < |s| ==> s[i] == whole[i + 1];
    if PairwiseDisjoint(whole) {
      forall i, j | 0 <= i < j < |s| ensures Disjoint(s[i], s[j]) { assert Disjoint(whole[i + 1], whole[j + 1]); }
      forall i | 0 <= i < |s| ensures Disjoint(r, s[i]) { assert Disjoint(whole[0], whole[i + 1]); }
    }
    if PairwiseDisjoint(s) && forall x :: x in s ==> Disjoint(r, x) {
      forall i, j | 0 <= i < j < |whole| ensures Disjoint(whole[i], whole[j]) {
        if i > 0 { assert Disjoint(s[i - 1], s[j - 1]); } else { assert whole[j] in s; }
      }
    }
  }

  lemma {:induction false} SortKeepsDisjointness(ranges: seq<Range>)
    ensures PairwiseDisjoint(Sort(ranges)) <==> PairwiseDisjoint(ranges)
  {
    if ranges != [] {
      SortKeepsDisjointness(ranges[1..]);
      SortSorts(ranges[1..]);
      InsertKeepsDisjointness(ranges[0], Sort(ranges[1..]));
      ConsDisjoint(ranges[0], Sort(ranges[1..]));
      ConsDisjoint(ranges[0], ranges[1..]);
      assert ranges == [ranges[0]] + ranges[1..];
    }
  }

  /** Disjointness and coverage do not depend on the order of the ranges. */
  lemma SortKeepsMeaning(ranges: seq<Range>)
    ensures PairwiseDisjoint(Sort(ranges)) <==> PairwiseDisjoint(ranges)
    ensures forall k :: CoveredBy(Sort(ranges), k) <==> CoveredBy(ranges, k)
    ensures (forall r :: r in ranges ==> WellFormed(r)) ==> forall i :: 0 <= i < |Sort(ranges)| ==> WellFormed(Sort(ranges)[i])
  {
    SortSorts(ranges);
    SortKeepsDisjointness(ranges);
    hide PairwiseDisjoint;
    var plan := Sort(ranges);
    forall k ensures CoveredBy(plan, k) <==> CoveredBy(ranges, k) {
      if CoveredBy(plan, k) {
        var i :| 0 <= i < |plan| && Covers(plan[i], k);
        assert plan[i] in ranges;
      }
      if CoveredBy(ranges, k) {
        var i :| 0 <= i < |ranges| && Covers(ranges[i], k);
        assert ranges[i] in plan;
      }
    }
  }

  // ---------------------------------------------------------------- records

  /** A suspended leaf and what it was. */
  datatype Record = Record(key: Key, original: Leaf)

  /** The leaves with the listed ones suspended. */
  function Marked(leaves: map<Key, Leaf>, keys: seq<Key>): map<Key, Leaf> {
    map k | k in leaves :: if k in keys then leaves[k].(present := false) else leaves[k]
  }

  ghost predicate NoRepeats(keys: seq<Key>) {
    forall i, j :: 0 <= i < j < |keys| ==> keys[i] != keys[j]
  }

  /** Exactly the leaves of the ranges, each once. */
  ghost predicate Lists(keys: seq<Key>, leaves: map<Key, Leaf>, ranges: seq<Range>) {
    && NoRepeats(keys)
    && (forall k :: k in keys <==> k in leaves && CoveredBy(ranges, k))
  }

  function Without(leaves: map<Key, Leaf>, ranges: seq<Range>): map<Key, Leaf> {
    map k | k in leaves && !CoveredBy(ranges, k) :: leaves[k]
  }

  datatype Selection = Unrepresentable | Selected(span: Option<(nat, nat)>)

  const MAX_ADDRESS: nat := 0xffff_ffff_ffff_ffff

  /** The virtual overlap of a mapping with a range of its backing object. */
  function VirtualOverlap(virtualStart: nat, length: nat, offset: nat, start: nat, end: nat): Selection {
    if start > end || offset + length > MAX_ADDRESS || virtualStart + length > MAX_ADDRESS then Unrepresentable
    else
      var low := if offset < start then start else offset;
      var high := if offset + length < end then offset + length else end;
      if low >= high then Selected(None)
      else Selected(Some((virtualStart + (low - offset), virtualStart + (high - offset))))
  }

  /** An address maps a byte of the backing range exactly when it lies in the overlap. */
  lemma OverlapSelectsBackingBytes(virtualStart: nat, length: nat, offset: nat, start: nat, end: nat, address: nat)
    ensures VirtualOverlap(virtualStart, length, offset, start, end).Unrepresentable? <==>
      start > end || offset + length > MAX_ADDRESS || virtualStart + length > MAX_ADDRESS
    ensures var selection := VirtualOverlap(virtualStart, length, offset, start, end);
      selection.Selected? ==>
        ((selection.span.Some? && selection.span.value.0 <= address < selection.span.value.1)
         <==> (virtualStart <= address < virtualStart + length && start <= offset + (address - virtualStart) < end))
  {}

  // ---------------------------------------------------------------- any backend meeting its contract

  datatype Found = Found(page: Option<nat>) | NotFound(error: Error)

  /**
   A page-table backend. `fails` and `strays` are its free choices: any fallible call
   may fail without effect, and a discovery may answer with an address out of range.
   */
  class Backend {
    var leaves: map<Key, Leaf>
    var calls: nat
    const fails: nat -> bool
    const strays: nat -> Option<nat>
    /** Keys released so far, in order. */
    ghost var released: seq<Key>

    constructor (leaves: map<Key, Leaf>, fails: nat -> bool, strays: nat -> Option<nat>)
      ensures this.leaves == leaves && released == []
    {
      this.leaves, this.fails, this.strays, calls, released := leaves, fails, strays, 0, [];
    }

    /** Never fails and never answers out of range. */
    ghost predicate Reliable() {
      forall n :: !fails(n) && strays(n).None?
    }

    /** Discovers the first leaf of a range without editing anything. */
    method NextPage(table: nat, start: nat, end: nat) returns (found: Found)
      requires start % PAGE == 0 && end % PAGE == 0
      modifies this`calls
      ensures Reliable() ==> found.Found? && (found.page.Some? ==> start <= found.page.value < end && found.page.value % PAGE == 0)
      ensures found.Found? && found.page.None? ==> forall k :: k in leaves && k.address % PAGE == 0 ==> !Covers(Range(table, start, end), k)
      ensures found.Found? && found.page.Some? && start <= found.page.value < end && found.page.value % PAGE == 0 ==>
        && Key(table, found.page.value) in leaves
        && forall k :: k in leaves && k.address % PAGE == 0 && Covers(Range(table, start, end), k) ==> found.page.value <= k.address
    {
      calls := calls + 1;
      if fails(calls) { return NotFound(BackendFailure); }
      var stray := strays(calls);
      if stray.Some? && !(start <= stray.value < end && stray.value % PAGE == 0) { return Found(stray); }
      var address := start;
      while address < end
        invariant address % PAGE == 0 && start <= address
        invariant forall k :: k in leaves && k.address % PAGE == 0 && k.table == table && start <= k.address < end ==> address <= k.address
      {
        if Key(table, address) in leaves { return Found(Some(address)); }
        address := address + PAGE;
      }
      return Found(None);
    }

    /** Clears PRESENT and keeps the frame reference; a failure leaves the entry unchanged. */
    method Suspend(key: Key) returns (failed: bool, record: Option<Record>)
      modifies this`calls, this`leaves
      ensures failed ==> leaves == old(leaves) && !Reliable()
      ensures !failed ==> (record.Some? <==> key in old(leaves))
      ensures !failed && record.Some? ==>
        record.value == Record(key, old(leaves)[key]) && leaves == old(leaves)[key := old(leaves)[key].(present := false)]
      ensures !failed && record.None? ==> leaves == old(leaves)
    {
      calls := calls + 1;
      if fails(calls) { return true, None; }
      if key !in leaves { return false, None; }
      record := Some(Record(key, leaves[key]));
      leaves := leaves[key := leaves[key].(present := false)];
      return false, record;
    }

    method Restore(record: Record)
      modifies this`leaves
      ensures leaves == old(leaves)[record.key := record.original]
    {
      leaves := leaves[record.key := record.original];
    }

    method Synchronize() returns (ok: bool)
      modifies this`calls
      ensures Reliable() ==> ok
    {
      calls := calls + 1;
      ok := !fails(calls);
    }

    method Release(record: Record)
      modifies this`leaves, this`released
      ensures leaves == old(leaves) - {record.key} && released == old(released) + [record.key]
    {
      leaves := leaves - {record.key};
      released := released + [record.key];
    }
  }

  predicate Aligned(leaves: map<Key, Leaf>) {
    forall k :: k in leaves ==> k.address % PAGE == 0
  }

  /** Leaves found while the scan of `plan[i]` stands at `cursor`. */
  ghost predicate Discovered(keys: seq<Key>, leaves: map<Key, Leaf>, plan: seq<Range>, i: nat, cursor: nat)
    requires i < |plan|
  {
    && NoRepeats(keys)
    && (forall k :: k in keys <==> k in leaves && (CoveredBy(plan[..i], k) || (Covers(plan[i], k) && k.address < cursor)))
  }

  lemma DiscoverNext(keys: seq<Key>, leaves: map<Key, Leaf>, plan: seq<Range>, i: nat, cursor: nat, address: nat)
    requires i < |plan| && PairwiseDisjoint(plan) && Discovered(keys, leaves, plan, i, cursor) && Aligned(leaves)
    requires plan[i].start <= cursor <= address < plan[i].end && Key(plan[i].table, address) in leaves
    requires forall k :: k in leaves && Covers(Range(plan[i].table, cursor, plan[i].end), k) ==> address <= k.address
    requires address % PAGE == 0
    ensures Discovered(keys + [Key(plan[i].table, address)], leaves, plan, i, address + PAGE)
  {
    var key := Key(plan[i].table, address);
    var keys' := keys + [key];
    assert key !in keys by {
      if CoveredBy(plan[..i], key) {
        assert false;
      }
    }
    forall k ensures k in keys' <==> k in leaves && (CoveredBy(plan[..i], k) || (Covers(plan[i], k) && k.address < address + PAGE)) {
      assert k in keys' <==> k in keys || k == key;
      if k in leaves && Covers(plan[i], k) && cursor <= k.address < address + PAGE {
        assert k.address == address;
      }
    }
  }

  lemma DiscoverDone(keys: seq<Key>, leaves: map<Key, Leaf>, plan: seq<Range>, i: nat, cursor: nat)
    requires i < |plan| && Discovered(keys, leaves, plan, i, cursor)
    requires cursor >= plan[i].end || forall k :: k in leaves ==> !Covers(Range(plan[i].table, cursor, plan[i].end), k)
    ensures Lists(keys, leaves, plan[..i + 1])
  {
    forall k ensures CoveredBy(plan[..i + 1], k) <==> CoveredBy(plan[..i], k) || Covers(plan[i], k) {
      if CoveredBy(plan[..i + 1], k) {
        var j :| 0 <= j < i + 1 && Covers(plan[..i + 1][j], k);
        if j < i { assert Covers(plan[..i][j], k); }
      }
      if CoveredBy(plan[..i], k) {
        var j :| 0 <= j < i && Covers(plan[..i][j], k);
        assert Covers(plan[..i + 1][j], k);
      }
      if Covers(plan[i], k) { assert Covers(plan[..i + 1][i], k); }
    }
  }

  /** Which allocations succeed: one for each planned range, one for each discovered leaf, and the journal's own. */
  datatype Memory = Memory(plan: nat -> bool, discovery: nat -> bool, journal: bool)

  /** No call of the backend and no allocation fails. */
  ghost predicate Unobstructed(backend: Backend, memory: Memory) {
    backend.Reliable() && (forall n :: memory.plan(n) && memory.discovery(n)) && memory.journal
  }

  /** Owns the suspended leaves of a backend until they are released or restored. */
  class Suspension {
    const backend: Backend
    var pages: seq<Record>
    /** The leaves before the first edit, and the suspended keys in order. */
    ghost var before: map<Key, Leaf>
    ghost var keys: seq<Key>

    constructor (backend: Backend)
      ensures this.backend == backend && pages == [] && Valid() && before == backend.leaves && keys == []
    {
      this.backend := backend;
      pages, keys := [], [];
      before := backend.leaves;
      new;
      assert Marked(before, []) == before;
    }

    ghost predicate Valid()
      reads this, backend
    {
      && |pages| == |keys| && NoRepeats(keys)
      && (forall i :: 0 <= i < |keys| ==> keys[i] in before && pages[i] == Record(keys[i], before[keys[i]]))
      && backend.leaves == Marked(before, keys)
    }

    /** Dropping the journal restores every entry, last suspended first. */
    method Rollback()
      requires Valid()
      modifies this`pages, this`keys, backend`leaves
      ensures Valid() && pages == [] && backend.leaves == before
    {
      while pages != []
        invariant Valid()
        decreases |pages|
      {
        var last := |pages| - 1;
        assert keys == keys[..last] + [keys[last]];
        backend.Restore(pages[last]);
        assert Marked(before, keys)[keys[last] := before[keys[last]]] == Marked(before, keys[..last]);
        pages, keys := pages[..last], keys[..last];
      }
      assert Marked(before, []) == before;
    }

    /** Plans, discovers, suspends and synchronizes; any failure leaves every entry as it was. */
    method Acquire(ranges: seq<Range>, memory: Memory) returns (error: Option<Error>)
      requires Valid() && pages == [] && Aligned(backend.leaves)
      modifies this, backend`calls, backend`leaves
      ensures Valid() && before == old(backend.leaves)
      ensures error.Some? ==> pages == [] && backend.leaves == old(backend.leaves)
      ensures error.None? ==> (forall r :: r in ranges ==> WellFormed(r)) && PairwiseDisjoint(ranges)
      ensures error.None? ==> Lists(keys, before, ranges)
      ensures Unobstructed(backend, memory) && (forall r :: r in ranges ==> WellFormed(r)) && PairwiseDisjoint(ranges) ==> error.None?
    {
      before, keys := backend.leaves, [];
      assert Marked(before, []) == before;
      for i := 0 to |ranges|
        invariant forall j :: 0 <= j < i ==> WellFormed(ranges[j])
      {
        if !WellFormed(ranges[i]) { return Some(InvalidRange); }
        if !memory.plan(i) { return Some(Allocation); }
      }
      var plan := Sort(ranges);
      SortSorts(ranges);
      SortKeepsMeaning(ranges);
      NeighboursSuffice(plan);
      if NeighboursOverlap(plan) { return Some(InvalidRange); }
      var failure, found := Discover(plan, memory);
      if failure.Some? { return failure; }
      if !memory.journal { return Some(Allocation); }
      error := SuspendAll(found);
      if error.Some? { return; }
      assert Lists(keys, before, ranges);
      if pages != [] {
        var synchronized := backend.Synchronize();
        if !synchronized {
          Rollback();
          return Some(BackendFailure);
        }
      }
      return None;
    }

    /** Walks every range of the plan before any entry is edited. */
    method Discover(plan: seq<Range>, memory: Memory) returns (error: Option<Error>, found: seq<Key>)
      requires PairwiseDisjoint(plan) && Aligned(backend.leaves)
      requires forall i :: 0 <= i < |plan| ==> WellFormed(plan[i])
      modifies backend`calls
      ensures error.None? ==> Lists(found, backend.leaves, plan)
      ensures Unobstructed(backend, memory) ==> error.None?
    {
      found := [];
      var i := 0;
      while i < |plan|
        invariant 0 <= i <= |plan|
        invariant Lists(found, backend.leaves, plan[..i])
      {
        var cursor := plan[i].start;
        while cursor < plan[i].end
          invariant plan[i].start <= cursor && cursor % PAGE == 0
          invariant Discovered(found, backend.leaves, plan, i, cursor)
          decreases plan[i].end - cursor
        {
          var next := backend.NextPage(plan[i].table, cursor, plan[i].end);
          if next.NotFound? { return Some(next.error), found; }
          if next.page.None? { break; }
          var address := next.page.value;
          if address < cursor || address >= plan[i].end || address % PAGE != 0 { return Some(InvalidRange), found; }
          if !memory.discovery(|found|) { return Some(Allocation), found; }
          DiscoverNext(found, backend.leaves, plan, i, cursor, address);
          found := found + [Key(plan[i].table, address)];
          cursor := address + PAGE;
        }
        DiscoverDone(found, backend.leaves, plan, i, cursor);
        i := i + 1;
      }
      assert plan[..i] == plan;
      return None, found;
    }

    method SuspendAll(found: seq<Key>) returns (error: Option<Error>)
      requires Valid() && pages == [] && before == backend.leaves
      requires NoRepeats(found) && forall k :: k in found ==> k in before
      modifies this`pages, this`keys, backend`calls, backend`leaves
      ensures Valid()
      ensures error.Some? ==> pages == [] && backend.leaves == before
      ensures error.None? ==> keys == found
      ensures backend.Reliable() ==> error.None?
    {
      for i := 0 to |found|
        invariant Valid() && keys == found[..i]
      {
        var failed, record := backend.Suspend(found[i]);
        if failed {
          Rollback();
          return Some(BackendFailure);
        }
        assert found[i] in before;
        assert found[..i + 1] == found[..i] + [found[i]];
        assert Marked(before, found[..i])[found[i] := before[found[i]].(present := false)] == Marked(before, found[..i + 1]);
        pages, keys := pages + [record.value], keys + [found[i]];
      }
      return None;
    }

    /** Releases every page, or restores every page if the caller's commit failed. */
    method CommitWith(commits: bool) returns (ok: bool)
      requires Valid()
      modifies this`pages, this`keys, backend`leaves, backend`released
      ensures ok == commits && pages == []
      ensures ok ==> backend.released == old(backend.released) + old(keys) && backend.leaves == before - (set k | k in old(keys))
      ensures !ok ==> backend.released == old(backend.released) && backend.leaves == before
    {
      if !commits {
        Rollback();
        return false;
      }
      ghost var all := keys;
      var i := 0;
      while i < |pages|
        invariant 0 <= i <= |pages| && |pages| == |all| && pages == old(pages)
        invariant backend.released == old(backend.released) + all[..i]
        invariant backend.leaves == Marked(before, all) - (set k | k in all[..i])
      {
        assert pages[i].key == all[i];
        backend.Release(pages[i]);
        assert all[..i + 1] == all[..i] + [all[i]];
        i := i + 1;
      }
      assert all[..i] == all;
      assert Marked(before, all) - (set k | k in all) == before - (set k | k in all);
      pages, keys := [], [];
      return true;
    }
  }

  /**
   Revokes the ranges around a commit. On any error every entry is as before and
   nothing was released; on success each leaf of the ranges was released exactly once.
   */
  method RevokeWith(backend: Backend, ranges: seq<Range>, memory: Memory, commits: bool) returns (error: Option<Error>)
    requires Aligned(backend.leaves)
    modifies backend
    ensures error.Some? ==> backend.leaves == old(backend.leaves) && backend.released == old(backend.released)
    ensures error.None? ==> commits && PairwiseDisjoint(ranges) && forall r :: r in ranges ==> WellFormed(r)
    ensures Unobstructed(backend, memory) && commits && PairwiseDisjoint(ranges) && (forall r :: r in ranges ==> WellFormed(r))
      ==> error.None?
    ensures error.None? ==> backend.leaves == Without(old(backend.leaves), ranges)
    ensures error.None? ==>
      && |backend.released| >= |old(backend.released)| && backend.released[..|old(backend.released)|] == old(backend.released)
      && Lists(backend.released[|old(backend.released)|..], old(backend.leaves), ranges)
  {
    var journal := new Suspension(backend);
    error := journal.Acquire(ranges, memory);
    if error.Some? { return; }
    ghost var keys := journal.keys;
    ghost var before := journal.before;
    var ok := journal.CommitWith(commits);
    if !ok { return Some(BackendFailure); }
    assert before - (set k | k in keys) == Without(before, ranges);
    assert backend.released[|old(backend.released)|..] == keys;
  }
}
