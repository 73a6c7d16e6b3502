/**
 The work of an extent transaction as it edits its record list, its phase and the
 page tables in place, and the cleanup pass over the queue of abandoned work.
 */
module ExtentCleanup {
  import opened Common
  import opened ExtentTransaction
  import PageBytes

  /** Page-table entries, frame bytes, and the frame references given back. */
  class Machine {
    var entries: map<Key, Pte>
    var memory: map<nat, PageBytes.Page>
    ghost var freed: seq<nat>

    ghost function View(): Tables
      reads this
    {
      Tables(entries, memory, freed)
    }

    constructor (entries: map<Key, Pte>, memory: map<nat, PageBytes.Page>)
      ensures View() == Tables(entries, memory, [])
    {
      this.entries, this.memory, freed := entries, memory, [];
    }

    /** Writes zeros byte by byte from an offset to the end of a frame. */
    method ClearSuffix(frame: nat, from: nat)
      modifies this`memory
      ensures View() == Cleared(old(View()), frame, from)
    {
      var page: PageBytes.Page := if frame in memory then memory[frame] else PageBytes.Zeros();
      ghost var before: PageBytes.Page := page;
      var i := from;
      while i < PageBytes.PAGE
        invariant from <= i
        invariant forall j :: 0 <= j < PageBytes.PAGE ==> page[j] == if from <= j < i then 0 else before[j]
      {
        page := page[i := 0];
        i := i + 1;
      }
      assert page == ClearedPage(before, from);
      memory := memory[frame := page];
    }
  }

  class Work {
    var pages: seq<Page>
    var phase: Phase
    const spans: seq<Span>
    const external: bool
    const refresh: bool
    ghost var suspended: seq<Page>
    ghost var resolved: seq<Resolved>
    ghost var acknowledged: bool

    ghost function View(): ExtentTransaction.Work
      reads this
    {
      ExtentTransaction.Work(pages, spans, phase, external, refresh, suspended, resolved, acknowledged)
    }

    constructor (spans: seq<Span>, external: bool, refresh: bool)
      ensures View() == ExtentTransaction.Work([], spans, Prepared, external, refresh, [], [], false)
    {
      this.spans, this.external, this.refresh := spans, external, refresh;
      pages, phase := [], Prepared;
      suspended, resolved, acknowledged := [], [], false;
    }

    /** Suspends the discovered leaves one by one; a failure keeps the records made so far. */
    method SuspendAll(tables: Machine, locations: seq<Location>) returns (ok: bool)
      modifies this, tables
      ensures Result(tables.View(), View(), ok) == ExtentTransaction.SuspendAll(old(tables.View()), old(View()), locations)
    {
      var i := 0;
      assert locations[0..] == locations;
      while i < |locations|
        invariant 0 <= i <= |locations|
        invariant ExtentTransaction.SuspendAll(tables.View(), View(), locations[i..])
               == ExtentTransaction.SuspendAll(old(tables.View()), old(View()), locations)
      {
        var at := locations[i];
        assert locations[i..][1..] == locations[i + 1..];
        if !at.suspends { return false; }
        if at.key in tables.entries {
          var original := tables.entries[at.key];
          tables.entries := tables.entries[at.key := original.(present := false)];
          var zero := if at.affected && at.addressable then at.boundary else None;
          pages := pages + [Page(Record(at.key, original), zero, at.affected)];
          suspended := suspended + [Page(Record(at.key, original), zero, at.affected)];
          if at.affected && at.boundary.Some? && !at.addressable { return false; }
        }
        i := i + 1;
      }
      return true;
    }

    /** Pops records and restores or releases each, stopping at the first entry that is no longer ours. */
    method Resolve(tables: Machine) returns (ok: bool)
      modifies this, tables
      ensures Result(tables.View(), View(), ok) == ExtentTransaction.Resolve(old(tables.View()), old(View()))
    {
      if phase == InFlight || phase == Requested { return false; }
      var published := phase == Published;
      while pages != []
        invariant phase == old(phase)
        invariant ExtentTransaction.Resolve(tables.View(), View())
               == ExtentTransaction.Resolve(old(tables.View()), old(View()))
        decreases |pages|
      {
        var page := pages[|pages| - 1];
        if !IsCurrent(tables.entries, page) { return false; }
        ghost var next := ResolvePage(tables.View(), phase, page);
        var record := page.record;
        pages := pages[..|pages| - 1];
        resolved := [Outcome(phase, page)] + resolved;
        if published && page.zero.Some? {
          tables.ClearSuffix(record.original.frame, page.zero.value);
        }
        if phase != Unavailable && (!published || !page.affected || page.zero.Some?) {
          var now := tables.entries[record.key];
          tables.entries := tables.entries[record.key := record.original.(
            accessed := record.original.accessed || now.accessed, dirty := record.original.dirty || now.dirty)];
        } else {
          tables.entries := tables.entries - {record.key};
          tables.freed := tables.freed + [record.original.frame];
        }
        assert tables.View() == next;
      }
      return true;
    }

    predicate IsCurrent(entries: map<Key, Pte>, page: Page)
      reads this
    {
      Current(Tables(entries, map[], []), ExtentTransaction.Work([], spans, Prepared, external, refresh, [], [], false), page)
    }

    /** Every record is checked before the cache changes. */
    method PublishCache(tables: Machine, cache: bool) returns (ok: bool)
      modifies this`phase
      ensures (View(), ok) == ExtentTransaction.PublishCache(tables.View(), old(View()), cache)
    {
      if phase == Published { return true; }
      for i := 0 to |pages|
        invariant View() == old(View())
        invariant forall j :: 0 <= j < i ==> Current(tables.View(), View(), pages[j])
      {
        if !IsCurrent(tables.entries, pages[i]) {
          assert !Current(tables.View(), View(), pages[i]);
          return false;
        }
      }
      if !cache { return false; }
      phase := Published;
      return true;
    }

    method Progress(tables: Machine, cache: bool) returns (ok: bool)
      modifies this, tables
      ensures Result(tables.View(), View(), ok) == ExtentTransaction.Progress(old(tables.View()), old(View()), cache)
    {
      match phase
      case InFlight =>
        if refresh { return false; }
        phase := Unavailable;
        ok := Resolve(tables);
      case Prepared => ok := Resolve(tables);
      case Unchanged => ok := Resolve(tables);
      case Unavailable => ok := Resolve(tables);
      case Requested =>
        ok := PublishCache(tables, cache);
        if ok { ok := Resolve(tables); }
      case Published =>
        ok := PublishCache(tables, cache);
        if ok { ok := Resolve(tables); }
    }
  }

  // ---------------------------------------------------------------- a pass over the queue

  ghost function Views(works: seq<Work>): (views: seq<ExtentTransaction.Work>)
    reads works
    ensures |views| == |works| && forall i :: 0 <= i < |works| ==> views[i] == works[i].View()
  {
    seq(|works|, i requires 0 <= i < |works| reads works => works[i].View())
  }

  /** What a pass leaves: the page tables, every work, and which of them completed. */
  datatype Pass = Pass(tables: Tables, works: seq<ExtentTransaction.Work>, complete: seq<bool>)

  /** The first `n` works get one attempt each, oldest first; one that is locked out is left alone. */
  ghost function Sweep(tables: Tables, works: seq<ExtentTransaction.Work>, busy: nat -> bool, cache: nat -> bool, n: nat): (p: Pass)
    requires n <= |works|
    ensures |p.works| == |p.complete| == n
  {
    if n == 0 then Pass(tables, [], [])
    else
      var p := Sweep(tables, works, busy, cache, n - 1);
      var r := Chance(p.tables, works[n - 1], busy(n - 1), cache(n - 1));
      Pass(r.tables, p.works + [r.work], p.complete + [r.ok])
  }

  ghost function Chance(tables: Tables, w: ExtentTransaction.Work, busy: bool, cache: bool): Result {
    if busy then Result(tables, w, false) else Progress(tables, w, cache)
  }

  lemma ChanceKeeps(tables: Tables, w: ExtentTransaction.Work, busy: bool, cache: bool)
    requires WorkInv(w, false)
    ensures var r := Chance(tables, w, busy, cache); Attempted(w, r.work, r.ok)
  {
    ProgressKeeps(tables, w, cache);
    hide WorkInv, Progress;
  }

  ghost function Remaining(batch: seq<Work>, complete: seq<bool>): (rest: seq<Work>)
    requires |batch| == |complete|
    ensures forall w :: w in rest ==> w in batch
  {
    if batch == [] then []
    else
      var last := |batch| - 1;
      Remaining(batch[..last], complete[..last]) + if complete[last] then [] else [batch[last]]
  }

  /** One attempt keeps the history and the decision of a work, and completes it only when no record is left. */
  ghost predicate Attempted(before: ExtentTransaction.Work, after: ExtentTransaction.Work, complete: bool) {
    && WorkInv(after, false) && after.suspended == before.suspended && Reaches(before.phase, after.phase)
    && (complete ==> after.pages == [] && Decided(after.phase))
  }

  /** A pass gives every work one attempt, so the reservation of a completed work may go. */
  lemma {:induction false} SweepAttempts(tables: Tables, works: seq<ExtentTransaction.Work>, busy: nat -> bool, cache: nat -> bool, n: nat, i: nat)
    requires i < n <= |works| && forall j :: 0 <= j < |works| ==> WorkInv(works[j], false)
    ensures var p := Sweep(tables, works, busy, cache, n); Attempted(works[i], p.works[i], p.complete[i])
  {
    if i < n - 1 {
      SweepAttempts(tables, works, busy, cache, n - 1, i);
    } else {
      ChanceKeeps(Sweep(tables, works, busy, cache, i).tables, works[i], busy(i), cache(i));
    }
    hide Attempted, Chance;
  }

  /** Work that is neither locked out nor refused, and whose entries are its own, leaves the queue in this pass. */
  lemma {:induction false} SweepCompletes(tables: Tables, works: seq<ExtentTransaction.Work>, busy: nat -> bool, cache: nat -> bool, n: nat, i: nat)
    requires i < n <= |works| && !busy(i) && cache(i) && WorkInv(works[i], false)
    requires AllCurrent(Sweep(tables, works, busy, cache, i).tables, works[i])
    ensures Sweep(tables, works, busy, cache, n).complete[i]
  {
    if i < n - 1 {
      SweepCompletes(tables, works, busy, cache, n - 1, i);
    } else {
      ProgressCompletes(Sweep(tables, works, busy, cache, i).tables, works[i]);
    }
    hide WorkInv, Progress, AllCurrent;
  }

  lemma SweepNone(tables: Tables, works: seq<ExtentTransaction.Work>, busy: nat -> bool, cache: nat -> bool)
    ensures Sweep(tables, works, busy, cache, 0) == Pass(tables, [], [])
  {}

  lemma SweepNext(tables: Tables, works: seq<ExtentTransaction.Work>, busy: nat -> bool, cache: nat -> bool, n: nat)
    requires n < |works|
    ensures var p := Sweep(tables, works, busy, cache, n); var r := Chance(p.tables, works[n], busy(n), cache(n));
      Sweep(tables, works, busy, cache, n + 1) == Pass(r.tables, p.works + [r.work], p.complete + [r.ok])
  {}

  lemma RemainingNone()
    ensures Remaining([], []) == []
  {}

  lemma RemainingNext(batch: seq<Work>, i: nat, complete: seq<bool>)
    requires i < |batch| && |complete| == i + 1
    ensures Remaining(batch[..i + 1], complete) == Remaining(batch[..i], complete[..i]) + if complete[i] then [] else [batch[i]]
  {
    assert batch[..i + 1][..i] == batch[..i];
  }

  /** Abandoned work, waiting for a pass that gets the mapping lock. */
  class Cleanup {
    var pending: seq<Work>

    constructor ()
      ensures pending == []
    {
      pending := [];
    }

    /** One chance for one work; a work that is locked out stays as it is. */
    method Attempt(tables: Machine, work: Work, busy: bool, cache: bool) returns (complete: bool)
      modifies tables, work
      ensures Result(tables.View(), work.View(), complete) == Chance(old(tables.View()), old(work.View()), busy, cache)
    {
      complete := false;
      if !busy {
        complete := work.Progress(tables, cache);
      }
    }

    /**
     Detaches the queue and gives every work one chance. Work that is locked out or
     refused returns to the queue with all its records, in the old order; the rest leaves it.
     */
    method Flush(tables: Machine, busy: nat -> bool, cache: nat -> bool)
      requires forall i, j :: 0 <= i < j < |pending| ==> pending[i] != pending[j]
      modifies this, tables, pending
      ensures var p := Sweep(old(tables.View()), old(Views(pending)), busy, cache, |old(pending)|);
        && tables.View() == p.tables
        && Views(old(pending)) == p.works
        && pending == Remaining(old(pending), p.complete)
    {
      hide Chance, Remaining, Sweep, Work.View, Machine.View;
      var batch := pending;
      ghost var views, p := Views(batch), Pass(tables.View(), [], []);
      RemainingNone();
      SweepNone(tables.View(), views, busy, cache);
      pending := [];
      var i := 0;
      while i < |batch|
        invariant 0 <= i <= |batch| && batch == old(pending)
        invariant p == Sweep(old(tables.View()), views, busy, cache, i)
        invariant tables.View() == p.tables
        invariant forall j :: 0 <= j < |batch| ==> batch[j].View() == if j < i then p.works[j] else views[j]
        invariant pending == Remaining(batch[..i], p.complete)
      {
        var complete := Attempt(tables, batch[i], busy(i), cache(i));
        p := Pass(tables.View(), p.works + [batch[i].View()], p.complete + [complete]);
        SweepNext(old(tables.View()), views, busy, cache, i);
        RemainingNext(batch, i, p.complete);
        if !complete {
          pending := pending + [batch[i]];
        }
        i := i + 1;
      }
      assert batch[..i] == batch;
    }
  }
}
