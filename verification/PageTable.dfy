/**
 The cache vector behind the page cache: lookup, insertion with least-recently-used
 eviction, and the loops that refresh, snapshot and clean its entries in place.
 */
module PageTable {
  import opened Common
  import opened PageBytes
  import opened PageCache

  const MAX_CACHED_PAGES: nat := 256

  datatype Key = Key(owner: nat, index: nat)

  datatype Slot = Slot(key: Key, entry: Entry, lastUsed: nat)

  /** `at` tells where each key stands, so no key stands twice. */
  ghost predicate Indexes(at: map<Key, nat>, slots: seq<Slot>) {
    && (forall i :: 0 <= i < |slots| ==> slots[i].key in at && at[slots[i].key] == i)
    && (forall k :: k in at ==> at[k] < |slots| && slots[at[k]].key == k)
  }

  ghost function View(at: map<Key, nat>, slots: seq<Slot>): map<Key, Entry>
    requires Indexes(at, slots)
  {
    map k | k in at :: slots[at[k]].entry
  }

  /** The pages of one object, as the run model sees them. */
  ghost function PagesOf(view: map<Key, Entry>, owner: nat): (pages: map<nat, Entry>)
    ensures forall p :: p in pages <==> Key(owner, p) in view
    ensures forall p :: p in pages ==> pages[p] == view[Key(owner, p)]
  {
    map k | k in view && k.owner == owner :: k.index := view[k]
  }

  // ------------------------------------------------------- edits of the vector

  function SwapRemoved(slots: seq<Slot>, i: nat): seq<Slot>
    requires i < |slots|
  {
    slots[i := slots[|slots| - 1]][..|slots| - 1]
  }

  lemma {:induction false} SwapRemovedView(at: map<Key, nat>, slots: seq<Slot>, i: nat) returns (moved: map<Key, nat>)
    requires Indexes(at, slots) && i < |slots|
    ensures Indexes(moved, SwapRemoved(slots, i))
    ensures View(moved, SwapRemoved(slots, i)) == View(at, slots) - {slots[i].key}
  {
    var last := |slots| - 1;
    moved := at[slots[last].key := i] - {slots[i].key};
    var after := SwapRemoved(slots, i);
    assert forall j :: 0 <= j < last ==> after[j] == slots[if j == i then last else j];
  }

  // ------------------------------------------------- transfers, page by page

  predicate Overlaps(p: nat, offset: nat, end: nat) {
    p * PAGE < end && offset < (p + 1) * PAGE && offset < end
  }

  /** The part of a transfer that falls into one page. */
  function PieceOf(p: nat, offset: nat, input: seq<Byte>): (piece: Piece)
    requires Overlaps(p, offset, offset + |input|)
    ensures piece.Fits()
  {
    var start := if offset < p * PAGE then p * PAGE else offset;
    var stop := if offset + |input| < (p + 1) * PAGE then offset + |input| else (p + 1) * PAGE;
    Piece(start - p * PAGE, input[start - offset..stop - offset])
  }

  function PiecesOf(offset: nat, input: seq<Byte>): (pieces: map<nat, Piece>)
    ensures AllFit(pieces)
  {
    map p: nat | p < offset + |input| && Overlaps(p, offset, offset + |input|) :: PieceOf(p, offset, input)
  }

  lemma {:induction false} PieceHolds(p: nat, offset: nat, input: seq<Byte>, i: nat)
    requires i < PAGE && Overlaps(p, offset, offset + |input|)
    ensures var piece := PieceOf(p, offset, input);
      && (piece.Covers(i) <==> offset <= p * PAGE + i < offset + |input|)
      && (piece.Covers(i) ==> piece.bytes[i - piece.start] == input[p * PAGE + i - offset])
  {
  }

  lemma {:induction false} WrittenAt(store: map<nat, Page>, offset: nat, input: seq<Byte>, p: nat)
    ensures At(Written(store, PiecesOf(offset, input)), p) ==
      if Overlaps(p, offset, offset + |input|) then Overlay(At(store, p), PieceOf(p, offset, input)) else At(store, p)
  {
    hide PieceOf, Overlay;
    assert p in PiecesOf(offset, input) <==> Overlaps(p, offset, offset + |input|);
  }

  /** Splitting a transfer into pages writes exactly its bytes, and nothing else. */
  lemma {:induction false} PiecesWriteTheRange(store: map<nat, Page>, offset: nat, input: seq<Byte>, p: nat, i: nat)
    requires i < PAGE
    ensures At(Written(store, PiecesOf(offset, input)), p)[i] ==
      if offset <= p * PAGE + i < offset + |input| then input[p * PAGE + i - offset] else At(store, p)[i]
  {
    WrittenAt(store, offset, input, p);
    if Overlaps(p, offset, offset + |input|) {
      PieceHolds(p, offset, input, i);
      hide PieceOf, Overlay, Written, PiecesOf;
    }
  }

  /** Slot by slot rewriting is what the run model calls refreshing. */
  lemma {:induction false} PatchedPages(before: map<Key, Entry>, after: map<Key, Entry>, owner: nat, offset: nat, input: seq<Byte>)
    requires after.Keys == before.Keys
    requires forall k :: k in before ==> after[k] == Patched(k, before[k], owner, offset, input)
    ensures PagesOf(after, owner) == Refreshed(PagesOf(before, owner), PiecesOf(offset, input))
    ensures forall o :: o != owner ==> PagesOf(after, o) == PagesOf(before, o)
  {
    hide PieceOf, Overlay;
    var pieces := PiecesOf(offset, input);
    assert forall p: nat :: p in pieces <==> Overlaps(p, offset, offset + |input|);
    assert forall p: nat :: p in pieces ==> pieces[p] == PieceOf(p, offset, input);
  }

  function Patched(key: Key, entry: Entry, owner: nat, offset: nat, input: seq<Byte>): Entry {
    if key.owner == owner && Overlaps(key.index, offset, offset + |input|)
    then Entry(Overlay(entry.bytes, PieceOf(key.index, offset, input)), entry.dirty, entry.version + 1)
    else entry
  }

  // ---------------------------------------------------------------- the vector

  datatype Outcome = Existing(bytes: Page) | Moved | Bypassed | Cached

  predicate Evictable(slot: Slot) {
    slot.entry.dirty.Clean?
  }

  /** No evictable slot was used longer ago than this one. */
  ghost predicate LeastRecent(slots: seq<Slot>, v: nat) {
    && v < |slots| && Evictable(slots[v])
    && forall i :: 0 <= i < |slots| && Evictable(slots[i]) ==> slots[v].lastUsed <= slots[i].lastUsed
  }

  class CacheVector {
    var slots: seq<Slot>
    var clock: nat
    ghost var at: map<Key, nat>

    ghost predicate Valid()
      reads this
    {
      Indexes(at, slots)
    }

    ghost function Entries(): map<Key, Entry>
      requires Valid()
      reads this
    {
      View(at, slots)
    }

    constructor ()
      ensures Valid() && Entries() == map[]
    {
      slots, clock, at := [], 1, map[];
    }

    method Find(key: Key) returns (i: nat)
      requires Valid()
      ensures i <= |slots| && (i < |slots| <==> key in Entries())
      ensures i < |slots| ==> slots[i].key == key && Entries()[key] == slots[i].entry
    {
      i := 0;
      while i < |slots| && slots[i].key != key
        invariant i <= |slots| && forall j :: 0 <= j < i ==> slots[j].key != key
      {
        i := i + 1;
      }
    }

    /** The least recently used evictable slot, or none. */
    method Victim() returns (victim: nat)
      ensures victim <= |slots|
      ensures victim < |slots| ==> Evictable(slots[victim])
      ensures victim < |slots| ==> forall i :: 0 <= i < |slots| && Evictable(slots[i]) ==> slots[victim].lastUsed <= slots[i].lastUsed
      ensures victim == |slots| ==> forall i :: 0 <= i < |slots| ==> !Evictable(slots[i])
    {
      victim := |slots|;
      var i := 0;
      while i < |slots|
        invariant i <= |slots|
        invariant victim < i || victim == |slots|
        invariant victim < i ==> Evictable(slots[victim])
        invariant victim < i ==> forall j :: 0 <= j < i && Evictable(slots[j]) ==> slots[victim].lastUsed <= slots[j].lastUsed
        invariant victim == |slots| ==> forall j :: 0 <= j < i ==> !Evictable(slots[j])
      {
        if Evictable(slots[i]) && (victim == |slots| || slots[i].lastUsed < slots[victim].lastUsed) {
          victim := i;
        }
        i := i + 1;
      }
    }

    /** Rewrites one slot in place and marks it used. */
    method Rewrite(i: nat, entry: Entry)
      requires Valid() && i < |slots|
      modifies this
      ensures Valid() && at == old(at) && |slots| == |old(slots)|
      ensures Entries() == old(Entries())[old(slots)[i].key := entry]
      ensures forall j :: 0 <= j < |slots| ==>
        slots[j].key == old(slots)[j].key && slots[j].entry == if j == i then entry else old(slots)[j].entry
    {
      slots := slots[i := Slot(slots[i].key, entry, clock)];
      clock := clock + 1;
    }

    method Append(key: Key, bytes: Page)
      requires Valid() && key !in Entries()
      modifies this
      ensures Valid() && Entries() == old(Entries())[key := Entry(bytes, Clean, 0)]
    {
      at := at[key := |slots|];
      slots := slots + [Slot(key, Entry(bytes, Clean, 0), clock)];
      clock := clock + 1;
    }

    /** Insertion of a loaded page: an existing entry wins, a moved epoch is refused, a full cache evicts or bypasses. */
    method CacheOrSnapshot(key: Key, bytes: Page, epoch: nat, expected: nat) returns (r: Outcome, ghost gone: set<Key>)
      requires Valid()
      modifies this
      ensures Valid()
      ensures r.Existing? <==> key in old(Entries())
      ensures r.Existing? ==> r.bytes == old(Entries())[key].bytes
      ensures r == Moved <==> key !in old(Entries()) && epoch != expected
      ensures r != Cached ==> Entries() == old(Entries())
      ensures r == Bypassed ==> forall k :: k in old(Entries()) ==> old(Entries())[k].dirty.Dirty?
      ensures r == Bypassed <==>
        && key !in old(Entries()) && epoch == expected && MAX_CACHED_PAGES <= |old(slots)|
        && forall i :: 0 <= i < |old(slots)| ==> !Evictable(old(slots)[i])
      ensures forall k :: k in gone ==> k in old(Entries()) && old(Entries())[k].dirty.Clean?
      ensures gone != {} <==> r == Cached && MAX_CACHED_PAGES <= |old(slots)|
      ensures gone != {} ==> exists v :: 0 <= v < |old(slots)| && gone == {old(slots)[v].key} && LeastRecent(old(slots), v)
      ensures r == Cached ==> Entries() == (old(Entries()) - gone)[key := Entry(bytes, Clean, 0)]
    {
      gone := {};
      var i := Find(key);
      if i < |slots| {
        r := Existing(slots[i].entry.bytes);
        Rewrite(i, slots[i].entry);
        return;
      }
      if epoch != expected {
        return Moved, gone;
      }
      if |slots| >= MAX_CACHED_PAGES {
        var victim := Victim();
        if victim == |slots| {
          return Bypassed, gone;
        }
        assert LeastRecent(slots, victim);
        gone := {slots[victim].key};
        at := SwapRemovedView(at, slots, victim);
        slots := SwapRemoved(slots, victim);
      }
      Append(key, bytes);
      r := Cached;
    }

    /** One staged write into a resident page. */
    method StageInto(key: Key, piece: Piece) returns (staged: bool)
      requires Valid() && piece.Fits()
      modifies this
      ensures Valid() && (staged <==> key in old(Entries()))
      ensures Entries() == if staged then old(Entries())[key := Staged(old(Entries())[key], piece)] else old(Entries())
    {
      var i := Find(key);
      staged := i < |slots|;
      if staged {
        Rewrite(i, Staged(slots[i].entry, piece));
      }
    }

    /** After a gated write, every resident page of the object takes its part of the bytes. */
    method UpdateCachedRange(owner: nat, offset: nat, input: seq<Byte>)
      requires Valid()
      modifies this
      ensures Valid() && Entries().Keys == old(Entries()).Keys
      ensures PagesOf(Entries(), owner) == Refreshed(PagesOf(old(Entries()), owner), PiecesOf(offset, input))
      ensures forall o :: o != owner ==> PagesOf(Entries(), o) == PagesOf(old(Entries()), o)
    {
      hide PieceOf, Overlay, PiecesOf, PagesOf, Refreshed;
      var end := offset + |input|;
      ghost var before := slots;
      var i := 0;
      while i < |slots|
        invariant Valid() && at == old(at) && i <= |slots| == |before|
        invariant forall j :: 0 <= j < |slots| ==> slots[j].key == before[j].key
        invariant forall j :: 0 <= j < i ==> slots[j].entry == Patched(before[j].key, before[j].entry, owner, offset, input)
        invariant forall j :: i <= j < |slots| ==> slots[j].entry == before[j].entry
      {
        var slot := slots[i];
        if slot.key.owner == owner && Overlaps(slot.key.index, offset, end) {
          var piece := PieceOf(slot.key.index, offset, input);
          Rewrite(i, Entry(Overlay(slot.entry.bytes, piece), slot.entry.dirty, slot.entry.version + 1));
        }
        i := i + 1;
      }
      PatchedPages(old(Entries()), Entries(), owner, offset, input);
    }

    /** What a flush of [offset, end) copies out of the object's dirty pages. */
    method TakeSnapshots(owner: nat, offset: nat, end: nat) returns (taken: seq<nat>, snaps: map<nat, Snapshot>)
      requires Valid()
      ensures snaps == Snapshots(PagesOf(Entries(), owner), Touched(Entries(), owner, offset, end))
      ensures forall p :: p in taken <==> p in snaps
    {
      taken, snaps := [], map[];
      var i := 0;
      while i < |slots|
        invariant i <= |slots|
        invariant forall p :: p in taken <==> p in snaps
        invariant forall p :: p in snaps ==> Key(owner, p) in at && at[Key(owner, p)] < i
        invariant forall j :: 0 <= j < i && slots[j].key.owner == owner ==>
          (slots[j].key.index in snaps <==> Overlaps(slots[j].key.index, offset, end) && slots[j].entry.dirty.Dirty?)
        invariant forall j :: 0 <= j < i && slots[j].key.owner == owner && slots[j].key.index in snaps ==>
          snaps[slots[j].key.index] == SnapshotOf(slots[j].entry)
      {
        var slot := slots[i];
        if slot.key.owner == owner && Overlaps(slot.key.index, offset, end) && slot.entry.dirty.Dirty? {
          taken := taken + [slot.key.index];
          snaps := snaps[slot.key.index := SnapshotOf(slot.entry)];
        }
        i := i + 1;
      }
    }

    method CleanOne(key: Key, snap: Snapshot)
      requires Valid()
      modifies this
      ensures Valid()
      ensures Entries() ==
        if key in old(Entries()) then old(Entries())[key := CleanedEntry(old(Entries())[key], snap)] else old(Entries())
    {
      var i := Find(key);
      if i < |slots| && slots[i].entry.version == snap.version {
        Rewrite(i, slots[i].entry.(dirty := Clean));
      }
    }

    /** Publishes clean state after the writes and the sync: only for versions the flush wrote. */
    method MarkClean(owner: nat, taken: seq<nat>, snaps: map<nat, Snapshot>)
      requires Valid() && forall p :: p in taken <==> p in snaps
      modifies this
      ensures Valid() && PagesOf(Entries(), owner) == Cleaned(PagesOf(old(Entries()), owner), snaps)
      ensures forall k :: k in old(Entries()) && k.owner != owner ==> k in Entries() && Entries()[k] == old(Entries())[k]
    {
      hide View, Indexes;
      ghost var before := Entries();
      var n := 0;
      while n < |taken|
        invariant n <= |taken| && Valid() && Entries().Keys == before.Keys
        invariant forall k :: k in before && k.owner != owner ==> Entries()[k] == before[k]
        invariant forall k :: k in before && k.owner == owner ==>
          Entries()[k] == if k.index in taken[..n] then CleanedEntry(before[k], snaps[k.index]) else before[k]
      {
        assert taken[..n + 1] == taken[..n] + [taken[n]];
        CleanOne(Key(owner, taken[n]), snaps[taken[n]]);
        n := n + 1;
      }
      assert taken[..n] == taken;
    }
  }

  function SnapshotOf(entry: Entry): Snapshot
    requires entry.dirty.Dirty?
  {
    Snapshot(entry.bytes, entry.dirty.lo, entry.dirty.hi, entry.version)
  }

  function CleanedEntry(entry: Entry, snap: Snapshot): Entry {
    if entry.version == snap.version then entry.(dirty := Clean) else entry
  }

  ghost function Touched(view: map<Key, Entry>, owner: nat, offset: nat, end: nat): set<nat> {
    set p | p in PagesOf(view, owner) && Overlaps(p, offset, end)
  }
}
