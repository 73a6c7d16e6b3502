/**
 Owner counts of shared user frames: an open-addressing table with tombstones,
 refining a map from frame to owner count in which an absent frame has one owner.
 The hash is a parameter, so everything below holds for every hash function.
 */
module FrameRefs {
  import opened Common

  const EMPTY: nat := 0
  const DELETED: nat := 1
  const INITIAL_CAPACITY: nat := 64
  const MAX_REFS: nat := 0xffff_ffff
  const MAX_CAPACITY: nat := 0xffff_ffff_ffff_ffff

  /** `refs` is EMPTY, DELETED, or the owner count (at least two) of `phys`. */
  datatype Slot = Slot(phys: nat, refs: nat)

  // ---------------------------------------------------------------- the ledger

  /** Owner counts; a frame without an entry has exactly one owner. */
  type Counts = map<nat, nat>

  predicate WellFormed(counts: Counts) {
    forall f :: f in counts ==> 2 <= counts[f] <= MAX_REFS
  }

  function Owners(counts: Counts, phys: nat): nat {
    if phys in counts then counts[phys] else 1
  }

  function Retained(counts: Counts, phys: nat): Counts {
    counts[phys := Owners(counts, phys) + 1]
  }

  function Released(counts: Counts, phys: nat): Counts {
    if phys !in counts then counts
    else if counts[phys] <= 2 then counts - {phys}
    else counts[phys := counts[phys] - 1]
  }

  /** The released reference was the last one, so the frame is free. */
  predicate LastOwner(counts: Counts, phys: nat) {
    phys !in counts
  }

  /** A retain followed by a release of the same frame restores the ledger and keeps the frame. */
  lemma RetainReleaseRoundTrip(counts: Counts, phys: nat)
    requires WellFormed(counts)
    ensures Released(Retained(counts, phys), phys) == counts
    ensures !LastOwner(Retained(counts, phys), phys)
  {}

  // ---------------------------------------------------------------- probe order

  /** The slot reached from `home` after `k` steps around a table of `n` slots. */
  function Probe(home: nat, k: nat, n: nat): nat
    requires home < n && k <= n
  {
    if home + k < n then home + k else home + k - n
  }

  /** Steps from `home` to slot `i`. */
  function Distance(home: nat, i: nat, n: nat): (d: nat)
    requires home < n && i < n
    ensures d < n && Probe(home, d, n) == i
  {
    if home <= i then i - home else i + n - home
  }

  lemma NextProbe(home: nat, k: nat, n: nat)
    requires home < n && k < n
    ensures Probe(home, k, n) < n
    ensures k + 1 < n ==> (Probe(home, k, n) + 1) % n == Probe(home, k + 1, n)
  {
    assert (Probe(home, k, n) + 1) % n == if Probe(home, k, n) + 1 == n then 0 else Probe(home, k, n) + 1;
  }

  // ---------------------------------------------------------------- counting slots

  function One(b: bool): nat { if b then 1 else 0 }

  function LiveCount(slots: seq<Slot>): nat {
    if slots == [] then 0
    else LiveCount(slots[..|slots| - 1]) + One(slots[|slots| - 1].refs >= 2)
  }

  function DeletedCount(slots: seq<Slot>): nat {
    if slots == [] then 0
    else DeletedCount(slots[..|slots| - 1]) + One(slots[|slots| - 1].refs == DELETED)
  }

  lemma {:induction false} CountsAfterUpdate(slots: seq<Slot>, i: nat, slot: Slot)
    requires i < |slots|
    ensures LiveCount(slots[i := slot]) + One(slots[i].refs >= 2)
         == LiveCount(slots) + One(slot.refs >= 2)
    ensures DeletedCount(slots[i := slot]) + One(slots[i].refs == DELETED)
         == DeletedCount(slots) + One(slot.refs == DELETED)
  {
    var last := |slots| - 1;
    if i == last {
      assert slots[i := slot][..last] == slots[..last];
    } else {
      CountsAfterUpdate(slots[..last], i, slot);
      assert slots[i := slot][..last] == slots[..last][i := slot];
    }
  }

  lemma {:induction false} EmptySlotExists(slots: seq<Slot>)
    requires LiveCount(slots) + DeletedCount(slots) < |slots|
    ensures exists i :: 0 <= i < |slots| && slots[i].refs == EMPTY
  {
    var last := |slots| - 1;
    if slots[last].refs != EMPTY {
      EmptySlotExists(slots[..last]);
      var i :| 0 <= i < last && slots[..last][i].refs == EMPTY;
      assert slots[i].refs == EMPTY;
    }
  }

  lemma {:induction false} EmptyCounts(n: nat)
    ensures LiveCount(seq(n, _ => Slot(0, EMPTY))) == 0
    ensures DeletedCount(seq(n, _ => Slot(0, EMPTY))) == 0
  {
    if n > 0 {
      EmptyCounts(n - 1);
      assert seq(n, _ => Slot(0, EMPTY))[..n - 1] == seq(n - 1, _ => Slot(0, EMPTY));
    }
  }

  lemma InitialCapacityFits()
    ensures PowerOfTwo(INITIAL_CAPACITY)
  {
    assert PowerOfTwo(2) && PowerOfTwo(4) && PowerOfTwo(8) && PowerOfTwo(16) && PowerOfTwo(32);
  }

  lemma CapacityFits(slots: nat, live: nat, capacity: nat)
    requires 64 <= slots && PowerOfTwo(slots) && live <= slots * 3 / 4
    requires if live + 1 <= slots / 2 then capacity == slots else capacity == 2 * slots
    ensures 64 <= capacity && PowerOfTwo(capacity) && live + 1 <= capacity * 3 / 4
  {}

  // ---------------------------------------------------------------- table shape

  /** Every live slot can be reached from its home without crossing an empty slot. */
  ghost predicate Reachable(slots: seq<Slot>, hash: nat -> nat) {
    forall i, k :: 0 <= i < |slots| && slots[i].refs >= 2
      && 0 <= k < Distance(hash(slots[i].phys) % |slots|, i, |slots|)
      ==> slots[Probe(hash(slots[i].phys) % |slots|, k, |slots|)].refs != EMPTY
  }

  ghost predicate UniqueKeys(slots: seq<Slot>) {
    forall i, j :: 0 <= i < j < |slots| && slots[i].refs >= 2 && slots[j].refs >= 2
      ==> slots[i].phys != slots[j].phys
  }

  /** Live slots are exactly the ledger. */
  ghost predicate Represents(slots: seq<Slot>, counts: Counts) {
    && (forall i :: 0 <= i < |slots| && slots[i].refs >= 2
          ==> slots[i].phys in counts && counts[slots[i].phys] == slots[i].refs)
    && (forall f :: f in counts
          ==> exists i :: 0 <= i < |slots| && slots[i].refs >= 2 && slots[i].phys == f)
  }

  ghost predicate WellPlaced(slots: seq<Slot>, hash: nat -> nat, counts: Counts) {
    Reachable(slots, hash) && UniqueKeys(slots) && Represents(slots, counts)
  }

  /** The first `k` probes for `phys` met neither an empty slot nor the frame itself. */
  ghost predicate Passed(slots: seq<Slot>, home: nat, phys: nat, k: nat)
    requires home < |slots| && k <= |slots|
  {
    forall j :: 0 <= j < k ==>
      var s := slots[Probe(home, j, |slots|)];
      s.refs != EMPTY && !(s.refs >= 2 && s.phys == phys)
  }

  lemma FoundMeansCounted(slots: seq<Slot>, hash: nat -> nat, counts: Counts, index: nat)
    requires index < |slots| && WellPlaced(slots, hash, counts) && slots[index].refs >= 2
    ensures slots[index].phys in counts && counts[slots[index].phys] == slots[index].refs
  {
  }

  /** A probe that reaches an empty slot proves that the frame has no entry. */
  lemma EmptyMeansAbsent(slots: seq<Slot>, hash: nat -> nat, counts: Counts, phys: nat, k: nat)
    requires |slots| > 0 && k < |slots|
    requires WellPlaced(slots, hash, counts)
    requires Passed(slots, hash(phys) % |slots|, phys, k)
    requires slots[Probe(hash(phys) % |slots|, k, |slots|)].refs == EMPTY
    ensures phys !in counts
  {
    if phys in counts {
      var n := |slots|;
      var home := hash(phys) % n;
      var i :| 0 <= i < n && slots[i].refs >= 2 && slots[i].phys == phys;
      var d := Distance(home, i, n);
      assert false;
    }
  }

  /** The first `k` probes met no tombstone. */
  ghost predicate Unburied(slots: seq<Slot>, home: nat, k: nat)
    requires home < |slots| && k <= |slots|
  {
    forall j :: 0 <= j < k ==> slots[Probe(home, j, |slots|)].refs != DELETED
  }

  /** A probe cannot circle the table, which always has an empty slot. */
  lemma ProbeEnds(slots: seq<Slot>, home: nat, phys: nat, k: nat)
    requires home < |slots| && k <= |slots|
    requires LiveCount(slots) + DeletedCount(slots) < |slots|
    requires Passed(slots, home, phys, k)
    ensures k < |slots|
  {
    if k == |slots| {
      EmptySlotExists(slots);
      var e :| 0 <= e < |slots| && slots[e].refs == EMPTY;
      var d := Distance(home, e, |slots|);
      assert false;
    }
  }

  /** Writing a new entry over an empty or deleted slot that the probe passed keeps the table well placed. */
  lemma InsertKeeps(slots: seq<Slot>, hash: nat -> nat, counts: Counts, phys: nat, refs: nat, k: nat)
    requires |slots| > 0 && k < |slots| && refs >= 2
    requires WellPlaced(slots, hash, counts)
    requires Passed(slots, hash(phys) % |slots|, phys, k)
    requires slots[Probe(hash(phys) % |slots|, k, |slots|)].refs < 2
    requires phys !in counts
    ensures WellPlaced(slots[Probe(hash(phys) % |slots|, k, |slots|) := Slot(phys, refs)],
                       hash, counts[phys := refs])
  {
    var n := |slots|;
    var home := hash(phys) % n;
    var t := Probe(home, k, n);
    var after := slots[t := Slot(phys, refs)];
    assert Distance(home, t, n) == k;
    assert forall i :: 0 <= i < n && slots[i].refs >= 2 ==> slots[i].phys != phys;
    var counts' := counts[phys := refs];
    assert Represents(after, counts') by {
      forall f | f in counts'
        ensures exists i :: 0 <= i < n && after[i].refs >= 2 && after[i].phys == f
      {
        if f == phys {
          assert after[t].phys == f;
        } else {
          var i :| 0 <= i < n && slots[i].refs >= 2 && slots[i].phys == f;
          assert after[i].phys == f;
        }
      }
    }
    assert Reachable(after, hash) by {
      forall i, j | 0 <= i < n && after[i].refs >= 2
        && 0 <= j < Distance(hash(after[i].phys) % n, i, n)
        ensures after[Probe(hash(after[i].phys) % n, j, n)].refs != EMPTY
      {
        if i != t {
          assert slots[Probe(hash(slots[i].phys) % n, j, n)].refs != EMPTY;
        }
      }
    }
  }

  /** Changing the count of a live entry, or burying it, keeps every other entry reachable. */
  lemma RewriteKeeps(slots: seq<Slot>, hash: nat -> nat, counts: Counts, t: nat, refs: nat)
    requires t < |slots| && slots[t].refs >= 2 && refs >= 1
    requires WellPlaced(slots, hash, counts)
    ensures var phys := slots[t].phys;
      phys in counts && counts[phys] == slots[t].refs
      && WellPlaced(slots[t := slots[t].(refs := refs)], hash,
                    if refs >= 2 then counts[phys := refs] else counts - {phys})
  {
    var n := |slots|;
    var phys := slots[t].phys;
    var after := slots[t := slots[t].(refs := refs)];
    var counts' := if refs >= 2 then counts[phys := refs] else counts - {phys};
    assert forall i :: 0 <= i < n && i != t && slots[i].refs >= 2 ==> slots[i].phys != phys by {
      forall i | 0 <= i < n && i != t && slots[i].refs >= 2 ensures slots[i].phys != phys {
        if i < t { assert slots[i].phys != slots[t].phys; } else { assert slots[t].phys != slots[i].phys; }
      }
    }
    assert Represents(after, counts') by {
      forall f | f in counts'
        ensures exists i :: 0 <= i < n && after[i].refs >= 2 && after[i].phys == f
      {
        var i :| 0 <= i < n && slots[i].refs >= 2 && slots[i].phys == f;
        assert after[i].phys == f;
      }
    }
    assert Reachable(after, hash) by {
      forall i, j | 0 <= i < n && after[i].refs >= 2
        && 0 <= j < Distance(hash(after[i].phys) % n, i, n)
        ensures after[Probe(hash(after[i].phys) % n, j, n)].refs != EMPTY
      {
        assert slots[i].refs >= 2;
        assert slots[Probe(hash(slots[i].phys) % n, j, n)].refs != EMPTY;
      }
    }
  }

  function Keys(slots: seq<Slot>): (keys: set<nat>)
    ensures forall f :: f in keys <==> exists i :: 0 <= i < |slots| && slots[i].refs >= 2 && slots[i].phys == f
  {
    if slots == [] then {}
    else
      var last := |slots| - 1;
      assert slots == slots[..last] + [slots[last]];
      Keys(slots[..last]) + if slots[last].refs >= 2 then {slots[last].phys} else {}
  }

  lemma {:induction false} LiveCountIsKeys(slots: seq<Slot>)
    requires UniqueKeys(slots)
    ensures LiveCount(slots) == |Keys(slots)|
  {
    if slots != [] {
      var last := |slots| - 1;
      LiveCountIsKeys(slots[..last]);
      assert slots[last].refs >= 2 ==> slots[last].phys !in Keys(slots[..last]);
    }
  }

  /** There are as many live slots as frames in the ledger. */
  lemma {:induction false} LiveIsLedger(slots: seq<Slot>, hash: nat -> nat, counts: Counts)
    requires WellPlaced(slots, hash, counts)
    ensures LiveCount(slots) == |counts|
  {
    LiveCountIsKeys(slots);
    assert Keys(slots) == counts.Keys;
    assert |counts| == |counts.Keys|;
  }

  // ---------------------------------------------------------------- histories

  datatype Op = Retain(phys: nat, memory: bool) | Release(phys: nat) | Query(phys: nat)

  /** The ledger after `op` answered `answer`; a refused retain changes nothing. */
  function Apply(counts: Counts, op: Op, answer: bool): Counts {
    match op
    case Retain(f, _) => if answer then Retained(counts, f) else counts
    case Release(f) => Released(counts, f)
    case Query(_) => counts
  }

  /** The only reasons to refuse a retain: no memory, a full count, or a quarter of all addressable slots in use. */
  predicate MayRefuse(counts: Counts, phys: nat, memory: bool) {
    !memory || Owners(counts, phys) == MAX_REFS || 4 * (|counts| + 1) > MAX_CAPACITY
  }

  /** The answer agrees with the ledger. */
  predicate Honest(counts: Counts, op: Op, answer: bool) {
    match op
    case Retain(f, memory) => if answer then Owners(counts, f) < MAX_REFS else MayRefuse(counts, f, memory)
    case Release(f) => answer == (Owners(counts, f) == 1)
    case Query(f) => answer == (Owners(counts, f) > 1)
  }

  function History(counts: Counts, ops: seq<Op>, answers: seq<bool>): Counts
    requires |ops| == |answers|
  {
    if ops == [] then counts
    else Apply(History(counts, ops[..|ops| - 1], answers[..|ops| - 1]), ops[|ops| - 1], answers[|ops| - 1])
  }

  ghost predicate HonestHistory(counts: Counts, ops: seq<Op>, answers: seq<bool>)
    requires |ops| == |answers|
  {
    forall i :: 0 <= i < |ops| ==> Honest(History(counts, ops[..i], answers[..i]), ops[i], answers[i])
  }

  // ---------------------------------------------------------------- the table

  class FrameReferenceTable {
    var slots: seq<Slot>
    var live: nat
    var deleted: nat
    const hash: nat -> nat
    /** The ledger this table stands for. */
    ghost var counts: Counts

    ghost predicate Valid()
      reads this
    {
      && live == LiveCount(slots) && deleted == DeletedCount(slots)
      && (slots == [] || PowerOfTwo(|slots|))
      && (slots == [] ==> counts == map[])
      && (slots != [] ==> 64 <= |slots| && live + deleted <= |slots| * 3 / 4)
      && WellPlaced(slots, hash, counts)
      && WellFormed(counts)
    }

    constructor (hash: nat -> nat)
      ensures Valid() && counts == map[] && this.hash == hash
    {
      this.hash := hash;
      slots, live, deleted, counts := [], 0, 0, map[];
    }

    /** Probes to the frame's own slot, or to the empty slot that proves it has none. */
    method Seek(phys: nat) returns (index: nat, firstDeleted: int, ghost k: nat, ghost deletedStep: nat)
      requires Valid() && slots != []
      ensures k < |slots| && index == Probe(hash(phys) % |slots|, k, |slots|)
      ensures Passed(slots, hash(phys) % |slots|, phys, k)
      ensures if slots[index].refs == EMPTY then phys !in counts
              else slots[index].refs >= 2 && slots[index].phys == phys
      ensures slots[index].refs >= 2 ==> phys in counts && counts[phys] == slots[index].refs
      ensures firstDeleted >= 0 ==>
        && deletedStep < k && firstDeleted == Probe(hash(phys) % |slots|, deletedStep, |slots|)
        && slots[firstDeleted].refs == DELETED
      ensures Unburied(slots, hash(phys) % |slots|, if firstDeleted >= 0 then deletedStep else k)
    {
      hide WellPlaced, Reachable, UniqueKeys, Represents;
      var n := |slots|;
      var home := hash(phys) % n;
      index, firstDeleted, k, deletedStep := home, -1, 0, 0;
      while slots[index].refs != EMPTY && !(slots[index].refs >= 2 && slots[index].phys == phys)
        invariant k < n && index == Probe(home, k, n)
        invariant Passed(slots, home, phys, k)
        invariant firstDeleted >= 0 ==>
          deletedStep < k && firstDeleted == Probe(home, deletedStep, n) && slots[firstDeleted].refs == DELETED
        invariant Unburied(slots, home, if firstDeleted >= 0 then deletedStep else k)
        decreases n - k
      {
        if slots[index].refs == DELETED && firstDeleted < 0 {
          firstDeleted, deletedStep := index, k;
        }
        assert Passed(slots, home, phys, k + 1);
        ProbeEnds(slots, home, phys, k + 1);
        NextProbe(home, k, n);
        index := (index + 1) % n;
        k := k + 1;
      }
      if slots[index].refs == EMPTY {
        EmptyMeansAbsent(slots, hash, counts, phys, k);
      } else {
        FoundMeansCounted(slots, hash, counts, index);
      }
    }

    /** Counts one more owner, or fails and leaves every count as it was. */
    method Retain(phys: nat, memory: bool) returns (ok: bool)
      requires Valid()
      modifies this
      ensures Valid()
      ensures counts == if ok then Retained(old(counts), phys) else old(counts)
      ensures ok ==> Owners(old(counts), phys) < MAX_REFS
      ensures !ok ==> MayRefuse(old(counts), phys, memory)
    {
      hide WellPlaced;
      ok := EnsureInsertCapacity(memory);
      if !ok { return; }
      var index, firstDeleted, k, deletedStep := Seek(phys);
      if slots[index].refs == EMPTY {
        var place := if firstDeleted >= 0 then firstDeleted else index;
        Put(place, phys, if firstDeleted >= 0 then deletedStep else k);
        live := live + 1;
        if firstDeleted >= 0 {
          deleted := deleted - 1;
        }
      } else if slots[index].refs == MAX_REFS {
        ok := false;
      } else {
        SetRefs(index, slots[index].refs + 1);
      }
    }

    /** Writes a first shared count into a slot the probe passed; the caller adjusts the totals. */
    method Put(place: nat, phys: nat, ghost k: nat)
      requires Valid() && k < |slots| && place < |slots|
      requires place == Probe(hash(phys) % |slots|, k, |slots|) && slots[place].refs < 2
      requires Passed(slots, hash(phys) % |slots|, phys, k) && phys !in counts
      modifies this`slots, this`counts
      ensures slots == old(slots)[place := Slot(phys, 2)] && counts == old(counts)[phys := 2]
      ensures WellPlaced(slots, hash, counts)
      ensures LiveCount(slots) == live + 1
      ensures DeletedCount(slots) == deleted - One(old(slots)[place].refs == DELETED)
    {
      InsertKeeps(slots, hash, counts, phys, 2, k);
      CountsAfterUpdate(slots, place, Slot(phys, 2));
      slots, counts := slots[place := Slot(phys, 2)], counts[phys := 2];
    }

    /** Rewrites the count of a live slot; the caller adjusts the totals of a buried one. */
    method SetRefs(index: nat, refs: nat)
      requires Valid() && index < |slots| && slots[index].refs >= 2 && 1 <= refs <= MAX_REFS
      modifies this`slots, this`counts
      ensures slots == old(slots)[index := old(slots)[index].(refs := refs)]
      ensures WellPlaced(slots, hash, counts)
      ensures var phys := old(slots)[index].phys;
        phys in old(counts) && old(counts)[phys] == old(slots)[index].refs
        && counts == if refs >= 2 then old(counts)[phys := refs] else old(counts) - {phys}
      ensures LiveCount(slots) == live - One(refs == 1)
      ensures DeletedCount(slots) == deleted + One(refs == 1)
    {
      ghost var phys := slots[index].phys;
      RewriteKeeps(slots, hash, counts, index, refs);
      CountsAfterUpdate(slots, index, slots[index].(refs := refs));
      counts := if refs >= 2 then counts[phys := refs] else counts - {phys};
      slots := slots[index := slots[index].(refs := refs)];
    }

    /** Drops one owner; true exactly when that was the last one. */
    method Release(phys: nat) returns (last: bool)
      requires Valid()
      modifies this
      ensures Valid()
      ensures counts == Released(old(counts), phys)
      ensures last == (Owners(old(counts), phys) == 1)
    {
      hide WellPlaced;
      if slots == [] { return true; }
      var index, _, _, _ := Seek(phys);
      if slots[index].refs == EMPTY {
        return true;
      }
      if slots[index].refs == 2 {
        SetRefs(index, DELETED);
        live := live - 1;
        deleted := deleted + 1;
      } else {
        SetRefs(index, slots[index].refs - 1);
      }
      return false;
    }

    method HasMultipleOwners(phys: nat) returns (shared: bool)
      requires Valid()
      ensures shared == (Owners(counts, phys) > 1)
    {
      if slots == [] { return false; }
      var index, _, _, _ := Seek(phys);
      return slots[index].refs != EMPTY;
    }

    /** Leaves room for one insertion within three quarters of the slots; never changes a count. */
    method EnsureInsertCapacity(memory: bool) returns (ok: bool)
      requires Valid()
      modifies this
      ensures Valid() && counts == old(counts)
      ensures ok ==> slots != [] && live + deleted + 1 <= |slots| * 3 / 4
      ensures !ok ==> unchanged(this) && (!memory || 4 * (|counts| + 1) > MAX_CAPACITY)
    {
      LiveIsLedger(slots, hash, counts);
      InitialCapacityFits();
      hide WellPlaced, PowerOfTwo;
      if slots == [] {
        ok := Rehash(INITIAL_CAPACITY, memory);
        return;
      }
      if live + deleted + 1 <= |slots| * 3 / 4 { return true; }
      var capacity := |slots|;
      if !(live + 1 <= |slots| / 2) {
        if 2 * |slots| > MAX_CAPACITY { return false; }
        capacity := 2 * |slots|;
      }
      CapacityFits(|slots|, live, capacity);
      ok := Rehash(capacity, memory);
    }

    /** Moves every live entry to a table without tombstones. */
    method Rehash(capacity: nat, memory: bool) returns (ok: bool)
      requires Valid()
      requires 64 <= capacity && PowerOfTwo(capacity) && live + 1 <= capacity * 3 / 4
      modifies this
      ensures Valid() && counts == old(counts) && live == old(live)
      ensures ok == memory
      ensures ok ==> |slots| == capacity && deleted == 0
      ensures !ok ==> unchanged(this)
    {
      if !memory { return false; }
      var target := seq(capacity, _ => Slot(0, EMPTY));
      EmptyCounts(capacity);
      ghost var moved: Counts := map[];
      var i := 0;
      while i < |slots|
        invariant 0 <= i <= |slots| && |target| == capacity
        invariant WellPlaced(target, hash, moved)
        invariant LiveCount(target) == LiveCount(slots[..i]) && DeletedCount(target) == 0
        invariant Represents(slots[..i], moved)
        modifies {}
      {
        LiveCountPrefix(slots, i + 1);
        PrefixStep(slots, i, moved);
        if slots[i].refs >= 2 {
          target, moved := Place(target, moved, slots[i]);
        }
        i := i + 1;
      }
      assert slots[..i] == slots;
      SameLedger(slots, moved, counts);
      slots := target;
      deleted := 0;
      return true;
    }

    /** Inserts one live entry into a table without tombstones. */
    method Place(target: seq<Slot>, ghost moved: Counts, entry: Slot) returns (after: seq<Slot>, ghost moved': Counts)
      requires |target| > 0 && entry.refs >= 2
      requires WellPlaced(target, hash, moved) && entry.phys !in moved
      requires LiveCount(target) < |target| && DeletedCount(target) == 0
      ensures |after| == |target| && moved' == moved[entry.phys := entry.refs]
      ensures WellPlaced(after, hash, moved')
      ensures LiveCount(after) == LiveCount(target) + 1 && DeletedCount(after) == 0
    {
      var n := |target|;
      var home := hash(entry.phys) % n;
      var index := home;
      ghost var k := 0;
      while target[index].refs != EMPTY
        invariant 0 <= k < n && index == Probe(home, k, n)
        invariant Passed(target, home, entry.phys, k)
        decreases n - k
      {
        assert target[index].refs >= 2 ==> target[index].phys in moved;
        assert Passed(target, home, entry.phys, k + 1);
        ProbeEnds(target, home, entry.phys, k + 1);
        NextProbe(home, k, n);
        index := (index + 1) % n;
        k := k + 1;
      }
      InsertKeeps(target, hash, moved, entry.phys, entry.refs, k);
      CountsAfterUpdate(target, index, entry);
      after := target[index := entry];
      moved' := moved[entry.phys := entry.refs];
    }

    method Perform(op: Op) returns (answer: bool)
      requires Valid()
      modifies this
      ensures Valid()
      ensures counts == Apply(old(counts), op, answer) && Honest(old(counts), op, answer)
    {
      hide WellPlaced;
      match op
      case Retain(f, memory) => answer := Retain(f, memory);
      case Release(f) => answer := Release(f);
      case Query(f) => answer := HasMultipleOwners(f);
    }

    /** Any history of calls answers as the ledger would. */
    method Replay(ops: seq<Op>) returns (answers: seq<bool>)
      requires Valid()
      modifies this
      ensures Valid() && |answers| == |ops|
      ensures counts == History(old(counts), ops, answers)
      ensures HonestHistory(old(counts), ops, answers)
    {
      hide Valid;
      answers := [];
      for i := 0 to |ops|
        invariant Valid() && |answers| == i
        invariant counts == History(old(counts), ops[..i], answers)
        invariant HonestHistory(old(counts), ops[..i], answers)
      {
        var answer := Perform(ops[i]);
        HistoryStep(old(counts), ops[..i], answers, ops[i], answer);
        assert ops[..i + 1] == ops[..i] + [ops[i]];
        answers := answers + [answer];
      }
      assert ops[..|ops|] == ops;
    }
  }

  lemma HistoryStep(counts: Counts, ops: seq<Op>, answers: seq<bool>, op: Op, answer: bool)
    requires |ops| == |answers| && HonestHistory(counts, ops, answers)
    requires Honest(History(counts, ops, answers), op, answer)
    ensures History(counts, ops + [op], answers + [answer]) == Apply(History(counts, ops, answers), op, answer)
    ensures HonestHistory(counts, ops + [op], answers + [answer])
  {
    var ops', answers' := ops + [op], answers + [answer];
    assert ops'[..|ops|] == ops && answers'[..|ops|] == answers;
    forall j | 0 <= j < |ops'|
      ensures Honest(History(counts, ops'[..j], answers'[..j]), ops'[j], answers'[j])
    {
      if j < |ops| {
        assert ops'[..j] == ops[..j] && answers'[..j] == answers[..j];
      }
    }
  }

  /** Taking one more slot of a well formed table extends the ledger by that slot alone. */
  lemma PrefixStep(slots: seq<Slot>, i: nat, moved: Counts)
    requires i < |slots| && UniqueKeys(slots) && Represents(slots[..i], moved)
    ensures slots[i].refs >= 2 ==> slots[i].phys !in moved
    ensures Represents(slots[..i + 1], if slots[i].refs >= 2 then moved[slots[i].phys := slots[i].refs] else moved)
  {
    var prefix, longer := slots[..i], slots[..i + 1];
    assert longer == prefix + [slots[i]];
    if slots[i].refs >= 2 && slots[i].phys in moved {
      assert false;
    }
    var moved' := if slots[i].refs >= 2 then moved[slots[i].phys := slots[i].refs] else moved;
    forall f | f in moved'
      ensures exists j :: 0 <= j < |longer| && longer[j].refs >= 2 && longer[j].phys == f
    {
      if f in moved {
        var j :| 0 <= j < |prefix| && prefix[j].refs >= 2 && prefix[j].phys == f;
        assert longer[j].phys == f;
      } else {
        assert longer[i].phys == f;
      }
    }
  }

  lemma {:induction false} LiveCountPrefix(slots: seq<Slot>, i: nat)
    requires 0 < i <= |slots|
    ensures LiveCount(slots[..i]) == LiveCount(slots[..i - 1]) + One(slots[i - 1].refs >= 2)
    ensures LiveCount(slots[..i]) <= LiveCount(slots)
    decreases |slots| - i
  {
    assert slots[..i][..i - 1] == slots[..i - 1];
    if i == |slots| {
      assert slots[..i] == slots;
    } else {
      LiveCountPrefix(slots, i + 1);
    }
  }

  /** A table stands for one ledger. */
  lemma SameLedger(slots: seq<Slot>, a: Counts, b: Counts)
    requires Represents(slots, a) && Represents(slots, b)
    ensures a == b
  {
    forall f ensures f in a <==> f in b {
      if f in a {
        var i :| 0 <= i < |slots| && slots[i].refs >= 2 && slots[i].phys == f;
      }
      if f in b {
        var i :| 0 <= i < |slots| && slots[i].refs >= 2 && slots[i].phys == f;
      }
    }
    forall f | f in a ensures a[f] == b[f] {
      var i :| 0 <= i < |slots| && slots[i].refs >= 2 && slots[i].phys == f;
    }
  }
}
