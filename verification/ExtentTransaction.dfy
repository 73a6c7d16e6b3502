/**
 Publication of a new backing extent. A transaction suspends page-table entries,
 keeps a record of each together with the backing reservation, and resolves every
 record by restoring or releasing it, now or in a later cleanup pass.
 */
module ExtentTransaction {
  import opened Common
  import PageBytes

  /** Page-table identity and virtual page address. */
  datatype Key = Key(root: nat, address: nat)

  /** A used user entry; hardware may set `accessed` and `dirty` behind the kernel's back. */
  datatype Pte = Pte(frame: nat, bits: nat, present: bool, accessed: bool, dirty: bool)

  /** Page-table entries, the bytes of the frames, and the frame references given back so far. */
  datatype Tables = Tables(entries: map<Key, Pte>, memory: map<nat, PageBytes.Page>, freed: seq<nat>)

  datatype Record = Record(key: Key, original: Pte)

  /** `zero` is the first byte to clear in a boundary page; `affected` lies in the revoked range. */
  datatype Page = Page(record: Record, zero: Option<nat>, affected: bool)

  datatype Span = Span(root: nat, low: nat, high: nat)

  // ---------------------------------------------------------------- suspended entries

  /** The entry is still the suspended original, whatever the hardware did to A and D. */
  predicate Matches(tables: Tables, record: Record) {
    && record.key in tables.entries
    && tables.entries[record.key].(accessed := false, dirty := false)
       == record.original.(present := false, accessed := false, dirty := false)
  }

  function Restored(tables: Tables, record: Record): Tables
    requires Matches(tables, record)
  {
    var now := tables.entries[record.key];
    tables.(entries := tables.entries[record.key := record.original.(accessed := record.original.accessed || now.accessed,
                                                                     dirty := record.original.dirty || now.dirty)])
  }

  function Released(tables: Tables, record: Record): Tables {
    tables.(entries := tables.entries - {record.key}, freed := tables.freed + [record.original.frame])
  }

  function PageOf(tables: Tables, frame: nat): PageBytes.Page {
    if frame in tables.memory then tables.memory[frame] else PageBytes.Zeros()
  }

  function ClearedPage(page: PageBytes.Page, from: nat): (r: PageBytes.Page)
    ensures forall i :: 0 <= i < PageBytes.PAGE ==> r[i] == if i < from then page[i] else 0
  {
    seq(PageBytes.PAGE, i requires 0 <= i < PageBytes.PAGE => if i < from then page[i] else 0)
  }

  /** Clears a frame from one byte to its end. */
  function Cleared(tables: Tables, frame: nat, from: nat): Tables {
    tables.(memory := tables.memory[frame := ClearedPage(PageOf(tables, frame), from)])
  }

  function Suspended(tables: Tables, key: Key): Tables
    requires key in tables.entries
  {
    tables.(entries := tables.entries[key := tables.entries[key].(present := false)])
  }

  /** Suspending and restoring an entry that nobody touched is the identity. */
  lemma SuspendRestoreRoundTrip(tables: Tables, key: Key)
    requires key in tables.entries
    ensures Matches(Suspended(tables, key), Record(key, tables.entries[key]))
    ensures Restored(Suspended(tables, key), Record(key, tables.entries[key])) == tables
  {}

  predicate Contains(spans: seq<Span>, key: Key, end: nat) {
    key.address < end && exists i :: 0 <= i < |spans| && spans[i].root == key.root && spans[i].low <= key.address && end <= spans[i].high
  }

  // ---------------------------------------------------------------- the publication phases

  datatype Phase = Prepared | InFlight | Unchanged | Unavailable | Requested | Published

  datatype Fate = Restore | Release

  /** What the current phase decides for a page. */
  function FateOf(phase: Phase, page: Page): Fate {
    if phase != Unavailable && (phase != Published || !page.affected || page.zero.Some?) then Restore else Release
  }

  /** A resolved page: what happened to it and whether its suffix was cleared first. */
  datatype Resolved = Resolved(page: Page, fate: Fate, cleared: bool)

  function Outcome(phase: Phase, page: Page): Resolved {
    Resolved(page, FateOf(phase, page), phase == Published && page.zero.Some?)
  }

  datatype Work = Work(
    pages: seq<Page>,
    spans: seq<Span>,
    phase: Phase,
    external: bool,
    refresh: bool,
    // History: every page ever suspended, those resolved since (latest first), and the TLB acknowledgement.
    suspended: seq<Page>,
    resolved: seq<Resolved>,
    acknowledged: bool)

  predicate Current(tables: Tables, w: Work, page: Page) {
    Contains(w.spans, page.record.key, page.record.key.address + 4096) && Matches(tables, page.record)
  }

  predicate AllCurrent(tables: Tables, w: Work) {
    forall i :: 0 <= i < |w.pages| ==> Current(tables, w, w.pages[i])
  }

  predicate Decided(phase: Phase) {
    phase != InFlight && phase != Requested
  }

  /** Pops the last page and resolves it as the phase decides. */
  function PopPage(w: Work): Work
    requires w.pages != []
  {
    var last := |w.pages| - 1;
    w.(pages := w.pages[..last], resolved := [Outcome(w.phase, w.pages[last])] + w.resolved)
  }

  /** Clears a boundary page once the new extent is published, then restores or releases the entry. */
  function ResolvePage(tables: Tables, phase: Phase, page: Page): Tables
    requires Matches(tables, page.record)
  {
    var t := if phase == Published && page.zero.Some? then Cleared(tables, page.record.original.frame, page.zero.value) else tables;
    if FateOf(phase, page) == Restore then Restored(t, page.record) else Released(t, page.record)
  }

  datatype Result = Result(tables: Tables, work: Work, ok: bool)

  /** Resolves pages until none is left, or stops at the first entry that is no longer ours. */
  function Resolve(tables: Tables, w: Work): Result
    decreases |w.pages|
  {
    if !Decided(w.phase) then Result(tables, w, false)
    else if w.pages == [] then Result(tables, w, true)
    else
      var page := w.pages[|w.pages| - 1];
      if !Current(tables, w, page) then Result(tables, w, false)
      else Resolve(ResolvePage(tables, w.phase, page), PopPage(w))
  }

  function PublishCache(tables: Tables, w: Work, cache: bool): (Work, bool) {
    if w.phase == Published then (w, true)
    else if !AllCurrent(tables, w) || !cache then (w, false)
    else (w.(phase := Published), true)
  }

  function PublishAndResolve(tables: Tables, w: Work, cache: bool): Result {
    var (published, ok) := PublishCache(tables, w, cache);
    if ok then Resolve(tables, published) else Result(tables, published, false)
  }

  /** A cleanup pass: an uncertain outcome is quarantined, a request is completed, all else is cancelled. */
  function Progress(tables: Tables, w: Work, cache: bool): Result {
    match w.phase
    case InFlight =>
      if w.refresh then Result(tables, w, false) else Resolve(tables, w.(phase := Unavailable))
    case Prepared => Resolve(tables, w)
    case Unchanged => Resolve(tables, w)
    case Unavailable => Resolve(tables, w)
    case Requested => PublishAndResolve(tables, w, cache)
    case Published => PublishAndResolve(tables, w, cache)
  }

  // ---------------------------------------------------------------- calls of a live owner

  function BeginExternal(tables: Tables, w: Work, preflight: bool): (Work, bool) {
    if !w.external || w.phase != Prepared || !AllCurrent(tables, w) || !preflight then (w, false)
    else (w.(phase := InFlight), true)
  }

  function ConfirmUnchanged(tables: Tables, w: Work): Result {
    if w.phase != InFlight && w.phase != Unchanged then Result(tables, w, false)
    else Resolve(tables, w.(phase := Unchanged))
  }

  function Finish(tables: Tables, w: Work, request: bool, cache: bool): Result {
    if (request && w.refresh) || w.phase == Unchanged || (w.phase == InFlight && !request) || w.phase == Unavailable
    then Result(tables, w, false)
    else
      var w' := if request && (w.phase == Prepared || w.phase == InFlight) then w.(phase := Requested) else w;
      PublishAndResolve(tables, w', cache)
  }

  /** Provider updates must have crossed the uncertainty boundary first. */
  function RequestExternal(tables: Tables, w: Work, cache: bool): Result {
    if !w.external || (w.phase != InFlight && w.phase != Requested && w.phase != Published) then Result(tables, w, false)
    else Finish(tables, w, true, cache)
  }

  // ---------------------------------------------------------------- preparation

  /** A discovered leaf: its suffix to clear if it is a boundary page, and what its suspension meets. */
  datatype Location = Location(key: Key, affected: bool, boundary: Option<nat>, suspends: bool, addressable: bool)

  /** Captured ranges of one root do not overlap and each is walked upwards, so no leaf is listed twice. */
  predicate ListedOnce(locations: seq<Location>) {
    forall i, j :: 0 <= i < j < |locations| ==> locations[i].key != locations[j].key
  }

  /** Suspends the listed leaves; each record joins the work before any later check can fail. */
  function SuspendAll(tables: Tables, w: Work, locations: seq<Location>): Result
    decreases |locations|
  {
    if locations == [] then Result(tables, w, true)
    else
      var at := locations[0];
      if !at.suspends then Result(tables, w, false)
      else if at.key !in tables.entries then SuspendAll(tables, w, locations[1..])
      else
        var zero := if at.affected && at.addressable then at.boundary else None;
        var page := Page(Record(at.key, tables.entries[at.key]), zero, at.affected);
        var w' := w.(pages := w.pages + [page], suspended := w.suspended + [page]);
        var tables' := Suspended(tables, at.key);
        if at.affected && at.boundary.Some? && !at.addressable then Result(tables', w', false)
        else SuspendAll(tables', w', locations[1..])
  }

  function Prepare(tables: Tables, external: bool, refresh: bool, spans: seq<Span>, locations: seq<Location>,
                   acknowledges: bool, preflight: bool): Result
  {
    var w := Work([], spans, Prepared, external && !refresh, refresh, [], [], false);
    var r := SuspendAll(tables, w, locations);
    if !r.ok then r
    else if r.work.pages != [] && !acknowledges then Result(r.tables, r.work, false)
    else Result(r.tables, r.work.(acknowledged := true), preflight)
  }

  // ---------------------------------------------------------------- what a work keeps

  function Pages(resolved: seq<Resolved>): (pages: seq<Page>)
    ensures |pages| == |resolved|
  {
    if resolved == [] then [] else [resolved[0].page] + Pages(resolved[1..])
  }

  predicate DistinctKeys(pages: seq<Page>) {
    forall i, j :: 0 <= i < j < |pages| ==> pages[i].record.key != pages[j].record.key
  }

  ghost predicate WorkInv(w: Work, owned: bool) {
    // Every suspended page is either still recorded or resolved, once, in order.
    && w.suspended == w.pages + Pages(w.resolved) && DistinctKeys(w.suspended)
    // All resolved pages met the fate the present phase decides: there is a single decision.
    && (forall i :: 0 <= i < |w.resolved| ==> w.resolved[i] == Outcome(w.phase, w.resolved[i].page))
    && (w.resolved != [] ==> Decided(w.phase) && (owned ==> w.phase != Prepared))
    && (owned || w.phase != Prepared ==> w.acknowledged)
    && (w.phase == InFlight ==> w.external)
    && (w.external ==> !w.refresh)
    && (w.phase == Unavailable ==> !owned)
  }

  lemma {:induction false} ResolveKeeps(tables: Tables, w: Work, owned: bool)
    requires WorkInv(w, owned) && (owned ==> w.phase != Prepared)
    ensures var r := Resolve(tables, w);
      && WorkInv(r.work, owned)
      && r.work == w.(pages := r.work.pages, resolved := r.work.resolved)
      && (r.ok ==> r.work.pages == [] && Decided(r.work.phase))
    decreases |w.pages|
  {
    if Decided(w.phase) && w.pages != [] {
      var page := w.pages[|w.pages| - 1];
      if Current(tables, w, page) {
        var popped := PopPage(w);
        assert popped.resolved[1..] == w.resolved;
        assert w.pages == popped.pages + [page];
        assert popped.pages + Pages(popped.resolved) == w.suspended;
        ResolveKeeps(ResolvePage(tables, w.phase, page), popped, owned);
      }
    }
  }

  /** Resolving touches no entry but those of its own records. */
  lemma {:induction false} ResolveFrame(tables: Tables, w: Work, key: Key)
    requires forall i :: 0 <= i < |w.pages| ==> w.pages[i].record.key != key
    ensures var t := Resolve(tables, w).tables;
      (key in t.entries <==> key in tables.entries) && (key in tables.entries ==> t.entries[key] == tables.entries[key])
    decreases |w.pages|
  {
    if Decided(w.phase) && w.pages != [] {
      var page := w.pages[|w.pages| - 1];
      if Current(tables, w, page) {
        ResolveFrame(ResolvePage(tables, w.phase, page), PopPage(w), key);
      }
    }
  }

  // ---------------------------------------------------------------- what resolution does to the machine

  /** The page table and the frame show what was decided for a page. */
  ghost predicate Met(tables: Tables, r: Resolved) {
    && (r.fate == Release ==> r.page.record.key !in tables.entries)
    && (r.fate == Restore ==> IsOriginal(tables, r.page.record))
    && (r.cleared ==> r.page.zero.Some? && ZeroFrom(tables, r.page.record.original.frame, r.page.zero.value))
  }

  /** The entry is the original again, with whatever accessed and dirty bits the hardware added. */
  predicate IsOriginal(tables: Tables, record: Record) {
    && record.key in tables.entries
    && (record.original.accessed ==> tables.entries[record.key].accessed)
    && (record.original.dirty ==> tables.entries[record.key].dirty)
    && tables.entries[record.key].(accessed := false, dirty := false) == record.original.(accessed := false, dirty := false)
  }

  ghost predicate ZeroFrom(tables: Tables, frame: nat, from: nat) {
    forall i :: from <= i < PageBytes.PAGE ==> PageOf(tables, frame)[i] == 0
  }

  /** The frame references that resolving these pages gives back, last page first. */
  function FreedBy(phase: Phase, pages: seq<Page>): seq<nat> {
    if pages == [] then []
    else
      var last := |pages| - 1;
      Freeing(phase, pages[last]) + FreedBy(phase, pages[..last])
  }

  function Freeing(phase: Phase, page: Page): seq<nat> {
    if FateOf(phase, page) == Release then [page.record.original.frame] else []
  }

  /** What lies between two moments of a work: popped pages met their fate, the others are as they were. */
  ghost predicate Moved(tables: Tables, pages: seq<Page>, after: Tables, w: Work) {
    && w.pages <= pages
    && (forall k :: |w.pages| <= k < |pages| ==> Met(after, Outcome(w.phase, pages[k])))
    && (forall key :: !Leaves(pages, |w.pages|, key) ==> SameEntry(tables, after, key))
    && after.freed == tables.freed + FreedBy(w.phase, pages[|w.pages|..])
    && (w.phase != Published ==> after.memory == tables.memory)
  }

  /** The key belongs to a page that left the list. */
  predicate Leaves(pages: seq<Page>, from: nat, key: Key) {
    exists k :: from <= k < |pages| && pages[k].record.key == key
  }

  predicate SameEntry(tables: Tables, after: Tables, key: Key) {
    (key in after.entries <==> key in tables.entries) && (key in tables.entries ==> after.entries[key] == tables.entries[key])
  }

  lemma PageKeepsZero(tables: Tables, phase: Phase, page: Page, frame: nat, from: nat)
    requires Matches(tables, page.record) && ZeroFrom(tables, frame, from)
    ensures ZeroFrom(ResolvePage(tables, phase, page), frame, from)
  {
    var before, after := PageOf(tables, frame), PageOf(ResolvePage(tables, phase, page), frame);
    assert after == before || (page.zero.Some? && after == ClearedPage(before, page.zero.value));
    hide PageOf, ResolvePage, ClearedPage;
  }

  lemma {:induction false} ResolveKeepsZero(tables: Tables, w: Work, frame: nat, from: nat)
    requires ZeroFrom(tables, frame, from)
    ensures ZeroFrom(Resolve(tables, w).tables, frame, from)
    decreases |w.pages|
  {
    if Decided(w.phase) && w.pages != [] {
      var page := w.pages[|w.pages| - 1];
      if Current(tables, w, page) {
        PageKeepsZero(tables, w.phase, page, frame, from);
        ResolveKeepsZero(ResolvePage(tables, w.phase, page), PopPage(w), frame, from);
      }
    }
  }

  lemma PageMeetsFate(tables: Tables, phase: Phase, page: Page)
    requires Matches(tables, page.record)
    ensures Met(ResolvePage(tables, phase, page), Outcome(phase, page))
  {
  }

  lemma {:induction false} ResolvePops(tables: Tables, w: Work)
    ensures Resolve(tables, w).work.pages <= w.pages && Resolve(tables, w).work.phase == w.phase
    decreases |w.pages|
  {
    if Decided(w.phase) && w.pages != [] && Current(tables, w, w.pages[|w.pages| - 1]) {
      ResolvePops(ResolvePage(tables, w.phase, w.pages[|w.pages| - 1]), PopPage(w));
    }
  }

  lemma {:induction false} ResolveMeets(tables: Tables, w: Work, k: nat)
    requires DistinctKeys(w.pages) && |Resolve(tables, w).work.pages| <= k < |w.pages|
    ensures Met(Resolve(tables, w).tables, Outcome(w.phase, w.pages[k]))
    decreases |w.pages|
  {
    var last := |w.pages| - 1;
    if Decided(w.phase) && Current(tables, w, w.pages[last]) {
      var next, popped := ResolvePage(tables, w.phase, w.pages[last]), PopPage(w);
      if k < last {
        ResolveMeets(next, popped, k);
      } else {
        var page := w.pages[last];
        PageMeetsFate(tables, w.phase, page);
        ResolveFrame(next, popped, page.record.key);
        if Outcome(w.phase, page).cleared {
          ResolveKeepsZero(next, popped, page.record.original.frame, page.zero.value);
        }
        hide Resolve;
      }
    }
  }

  lemma PageSpares(tables: Tables, phase: Phase, page: Page, key: Key)
    requires Matches(tables, page.record) && page.record.key != key
    ensures SameEntry(tables, ResolvePage(tables, phase, page), key)
  {}

  lemma {:induction false} ResolveSpares(tables: Tables, w: Work, key: Key)
    requires Resolve(tables, w).work.pages <= w.pages && !Leaves(w.pages, |Resolve(tables, w).work.pages|, key)
    ensures SameEntry(tables, Resolve(tables, w).tables, key)
    decreases |w.pages|
  {
    hide ResolvePage, Contains, Matches, Outcome;
    if Decided(w.phase) && w.pages != [] && Current(tables, w, w.pages[|w.pages| - 1]) {
      var last := |w.pages| - 1;
      var next, popped := ResolvePage(tables, w.phase, w.pages[last]), PopPage(w);
      ResolvePops(next, popped);
      PageSpares(tables, w.phase, w.pages[last], key);
      ResolveSpares(next, popped, key);
    }
  }

  lemma {:induction false} FreedByLast(phase: Phase, pages: seq<Page>, from: nat)
    requires from < |pages|
    ensures FreedBy(phase, pages[from..]) ==
      Freeing(phase, pages[|pages| - 1]) + FreedBy(phase, pages[..|pages| - 1][from..])
  {
    var last := |pages| - 1;
    assert pages[from..][..last - from] == pages[..last][from..];
  }

  lemma PageFrees(tables: Tables, phase: Phase, page: Page)
    requires Matches(tables, page.record)
    ensures var t := ResolvePage(tables, phase, page);
      t.freed == tables.freed + Freeing(phase, page) && (phase != Published ==> t.memory == tables.memory)
  {
  }

  lemma {:induction false} ResolveFrees(tables: Tables, w: Work)
    requires Resolve(tables, w).work.pages <= w.pages
    ensures var r := Resolve(tables, w); r.tables.freed == tables.freed + FreedBy(w.phase, w.pages[|r.work.pages|..])
    decreases |w.pages|
  {
    hide ResolvePage, FreedBy, Freeing, Contains, Matches;
    if Decided(w.phase) && w.pages != [] && Current(tables, w, w.pages[|w.pages| - 1]) {
      var last := |w.pages| - 1;
      var next, popped := ResolvePage(tables, w.phase, w.pages[last]), PopPage(w);
      ResolvePops(next, popped);
      ResolveFrees(next, popped);
      var rest := |Resolve(next, popped).work.pages|;
      FreedByLast(w.phase, w.pages, rest);
      PageFrees(tables, w.phase, w.pages[last]);
      var x, y := Freeing(w.phase, w.pages[last]), FreedBy(w.phase, popped.pages[rest..]);
      assert (tables.freed + x) + y == tables.freed + (x + y);
    } else {
      FreedByNothing(w.phase, w.pages);
    }
  }

  lemma FreedByNothing(phase: Phase, pages: seq<Page>)
    ensures FreedBy(phase, pages[|pages|..]) == []
  {
  }

  /** Nothing is cleared unless the new extent is published. */
  lemma {:induction false} ResolveClearsNothing(tables: Tables, w: Work)
    requires w.phase != Published
    ensures Resolve(tables, w).tables.memory == tables.memory
    decreases |w.pages|
  {
    if Decided(w.phase) && w.pages != [] && Current(tables, w, w.pages[|w.pages| - 1]) {
      PageFrees(tables, w.phase, w.pages[|w.pages| - 1]);
      ResolveClearsNothing(ResolvePage(tables, w.phase, w.pages[|w.pages| - 1]), PopPage(w));
    }
  }

  /** Every page that leaves the list has met its fate in the page table when resolution returns. */
  lemma {:induction false} ResolveMoves(tables: Tables, w: Work)
    requires DistinctKeys(w.pages)
    ensures Moved(tables, w.pages, Resolve(tables, w).tables, Resolve(tables, w).work)
  {
    var r := Resolve(tables, w);
    ResolvePops(tables, w);
    ResolveFrees(tables, w);
    if w.phase != Published {
      ResolveClearsNothing(tables, w);
    }
    hide Resolve, Met, SameEntry, FreedBy, Outcome, Leaves;
    forall k | |r.work.pages| <= k < |w.pages| ensures Met(r.tables, Outcome(w.phase, w.pages[k])) {
      ResolveMeets(tables, w, k);
    }
    forall key | !Leaves(w.pages, |r.work.pages|, key) ensures SameEntry(tables, r.tables, key) {
      ResolveSpares(tables, w, key);
    }
  }

  lemma NothingMoves(tables: Tables, w: Work)
    ensures Moved(tables, w.pages, tables, w)
  {
    FreedByNothing(w.phase, w.pages);
  }

  lemma {:induction false} PublishMoves(tables: Tables, w: Work, cache: bool)
    requires DistinctKeys(w.pages)
    ensures Moved(tables, w.pages, PublishAndResolve(tables, w, cache).tables, PublishAndResolve(tables, w, cache).work)
  {
    hide Moved, Resolve;
    var (published, ok) := PublishCache(tables, w, cache);
    NothingMoves(tables, published);
    ResolveMoves(tables, published);
  }

  lemma {:induction false} ProgressMoves(tables: Tables, w: Work, cache: bool)
    requires DistinctKeys(w.pages)
    ensures Moved(tables, w.pages, Progress(tables, w, cache).tables, Progress(tables, w, cache).work)
  {
    hide Moved, Resolve, PublishAndResolve;
    NothingMoves(tables, w);
    ResolveMoves(tables, w);
    ResolveMoves(tables, w.(phase := Unavailable));
    PublishMoves(tables, w, cache);
  }

  /** The calls of a live owner that may resolve. */
  lemma {:induction false} OwnerMoves(tables: Tables, w: Work, request: bool, cache: bool)
    requires DistinctKeys(w.pages)
    ensures Moved(tables, w.pages, ConfirmUnchanged(tables, w).tables, ConfirmUnchanged(tables, w).work)
    ensures Moved(tables, w.pages, Finish(tables, w, request, cache).tables, Finish(tables, w, request, cache).work)
    ensures Moved(tables, w.pages, RequestExternal(tables, w, cache).tables, RequestExternal(tables, w, cache).work)
  {
    hide Moved, Resolve, PublishAndResolve;
    NothingMoves(tables, w);
    ResolveMoves(tables, w.(phase := Unchanged));
    PublishMoves(tables, w, cache);
    PublishMoves(tables, w.(phase := Requested), cache);
  }

  /** If every entry is still ours, a decided work resolves completely. */
  lemma {:induction false} ResolveCompletes(tables: Tables, w: Work)
    requires Decided(w.phase) && AllCurrent(tables, w) && DistinctKeys(w.pages)
    ensures Resolve(tables, w).ok
    decreases |w.pages|
  {
    if w.pages != [] {
      var last := |w.pages| - 1;
      var page := w.pages[last];
      var tables' := ResolvePage(tables, w.phase, page);
      var popped := PopPage(w);
      forall i | 0 <= i < |popped.pages| ensures Current(tables', popped, popped.pages[i]) {
        assert Current(tables, w, w.pages[i]);
        assert w.pages[i].record.key != page.record.key;
      }
      ResolveCompletes(tables', popped);
    }
  }

  lemma PublishKeeps(tables: Tables, w: Work, cache: bool, owned: bool)
    requires WorkInv(w, owned) && (w.phase == Prepared ==> owned && w.resolved == [])
    requires w.phase != Unchanged && w.phase != Unavailable && w.phase != InFlight
    ensures var r := PublishAndResolve(tables, w, cache);
      && WorkInv(r.work, owned)
      && r.work == w.(pages := r.work.pages, resolved := r.work.resolved, phase := r.work.phase)
      && (r.work.phase == w.phase || r.work.phase == Published)
      && (r.ok ==> r.work.pages == [] && Decided(r.work.phase))
  {
    var (published, ok) := PublishCache(tables, w, cache);
    if ok { ResolveKeeps(tables, published, owned); }
  }

  lemma {:induction false} SuspendAllKeeps(tables: Tables, w: Work, locations: seq<Location>)
    requires WorkInv(w, false) && w.phase == Prepared && w.resolved == [] && ListedOnce(locations)
    requires forall i, j :: 0 <= i < |w.pages| && 0 <= j < |locations| ==> w.pages[i].record.key != locations[j].key
    ensures var r := SuspendAll(tables, w, locations);
      && WorkInv(r.work, false) && r.work.resolved == []
      && r.work == w.(pages := r.work.pages, suspended := r.work.suspended)
    decreases |locations|
  {
    if locations != [] && locations[0].suspends {
      var at := locations[0];
      if at.key !in tables.entries {
        SuspendAllKeeps(tables, w, locations[1..]);
      } else {
        var zero := if at.affected && at.addressable then at.boundary else None;
        var page := Page(Record(at.key, tables.entries[at.key]), zero, at.affected);
        var w' := w.(pages := w.pages + [page], suspended := w.suspended + [page]);
        assert w'.pages + Pages(w'.resolved) == w'.suspended;
        SuspendAllKeeps(Suspended(tables, at.key), w', locations[1..]);
      }
    }
  }

  // ---------------------------------------------------------------- runs

  /** A transaction is owned, queued for cleanup, or done; its reservation is held until it is done. */
  datatype Status = Owned | Queued | Done

  datatype Transaction = Transaction(work: Work, status: Status)

  datatype State = State(tables: Tables, transactions: map<nat, Transaction>)

  datatype Op =
    | Start(id: nat, external: bool, refresh: bool, spans: seq<Span>, locations: seq<Location>, acknowledges: bool, preflight: bool)
    | Begin(id: nat, preflight: bool)
    | Confirm(id: nat)
    | Publish(id: nat, request: bool, cache: bool)
    | PublishExternal(id: nat, cache: bool)
    | Drop(id: nat)
    | Cleanup(id: nat, locked: bool, cache: bool)
    | Touch(key: Key, pte: Option<Pte>)
    | Store(frame: nat, bytes: PageBytes.Page)

  /** A successful call or pass ends the transaction; a failed one keeps it where it was. */
  function Completed(s: State, id: nat, status: Status, r: Result): State {
    State(r.tables, s.transactions[id := Transaction(r.work, if r.ok then Done else status)])
  }

  function OwnerCall(s: State, op: Op, id: nat, w: Work): State {
    match op
    case Begin(_, preflight) => s.(transactions := s.transactions[id := Transaction(BeginExternal(s.tables, w, preflight).0, Owned)])
    case Confirm(_) => Completed(s, id, Owned, ConfirmUnchanged(s.tables, w))
    case Publish(_, request, cache) => Completed(s, id, Owned, Finish(s.tables, w, request, cache))
    case PublishExternal(_, cache) => Completed(s, id, Owned, RequestExternal(s.tables, w, cache))
    case Drop(_) => s.(transactions := s.transactions[id := Transaction(w, Queued)])
    case _ => s
  }

  function Apply(s: State, op: Op): State {
    match op
    case Touch(key, pte) =>
      s.(tables := s.tables.(entries := if pte.Some? then s.tables.entries[key := pte.value] else s.tables.entries - {key}))
    case Store(frame, bytes) => s.(tables := s.tables.(memory := s.tables.memory[frame := bytes]))
    case Start(id, external, refresh, spans, locations, acknowledges, preflight) =>
      if id in s.transactions || !ListedOnce(locations) then s
      else
        var r := Prepare(s.tables, external, refresh, spans, locations, acknowledges, preflight);
        State(r.tables, s.transactions[id := Transaction(r.work, if r.ok then Owned else Queued)])
    case Cleanup(id, locked, cache) =>
      if locked || id !in s.transactions || s.transactions[id].status != Queued then s
      else Completed(s, id, Queued, Progress(s.tables, s.transactions[id].work, cache))
    case _ =>
      if op.id !in s.transactions || s.transactions[op.id].status != Owned then s
      else OwnerCall(s, op, op.id, s.transactions[op.id].work)
  }

  function Run(s: State, ops: seq<Op>): State
    decreases |ops|
  {
    if ops == [] then s else Run(Apply(s, ops[0]), ops[1..])
  }

  ghost predicate TransactionInv(t: Transaction) {
    && WorkInv(t.work, t.status == Owned)
    && (t.status == Done ==> t.work.pages == [] && Decided(t.work.phase))
  }

  ghost predicate Inv(s: State) {
    forall id :: id in s.transactions ==> TransactionInv(s.transactions[id])
  }

  /** Phases a transaction can still reach; both outcomes and the request are final. */
  predicate Reaches(before: Phase, after: Phase) {
    match before
    case Prepared => true
    case InFlight => after != Prepared
    case Unchanged => after == Unchanged
    case Unavailable => after == Unavailable
    case Requested => after == Requested || after == Published
    case Published => after == Published
  }

  /** One step of a transaction: its history only grows and its decision is never revised. */
  ghost predicate Advances(before: Transaction, after: Transaction) {
    && after.work.suspended == before.work.suspended
    && Reaches(before.work.phase, after.work.phase)
    && (before.status == Queued && before.work.phase == Prepared ==> after.work.phase == Prepared)
    && (before.status == Queued && before.work.phase == InFlight ==> after.work.phase == InFlight || after.work.phase == Unavailable)
    && (before.status != Owned ==> after.status != Owned)
    && (before.status == Done ==> after == before)
  }

  lemma OwnerCallKeeps(s: State, op: Op, id: nat)
    requires id in s.transactions && s.transactions[id].status == Owned && TransactionInv(s.transactions[id])
    ensures var t := OwnerCall(s, op, id, s.transactions[id].work);
      && t.transactions.Keys == s.transactions.Keys
      && TransactionInv(t.transactions[id]) && Advances(s.transactions[id], t.transactions[id])
      && forall other :: other in s.transactions && other != id ==> t.transactions[other] == s.transactions[other]
  {
    hide Finish, ConfirmUnchanged, BeginExternal, WorkInv;
    var w := s.transactions[id].work;
    match op
    case Begin(_, preflight) => BeginKeeps(s.tables, w, preflight);
    case Confirm(_) =>
      ConfirmKeeps(s.tables, w);
      AbandonedKeeps(ConfirmUnchanged(s.tables, w).work);
    case Publish(_, request, cache) =>
      FinishKeeps(s.tables, w, request, cache);
      AbandonedKeeps(Finish(s.tables, w, request, cache).work);
    case PublishExternal(_, cache) =>
      FinishKeeps(s.tables, w, true, cache);
      AbandonedKeeps(Finish(s.tables, w, true, cache).work);
    case Drop(_) => AbandonedKeeps(w);
    case _ =>
  }

  lemma AbandonedKeeps(w: Work)
    requires WorkInv(w, true)
    ensures WorkInv(w, false)
  {}

  lemma BeginKeeps(tables: Tables, w: Work, preflight: bool)
    requires WorkInv(w, true)
    ensures var w' := BeginExternal(tables, w, preflight).0;
      WorkInv(w', true) && w'.suspended == w.suspended && Reaches(w.phase, w'.phase)
  {}

  lemma ConfirmKeeps(tables: Tables, w: Work)
    requires WorkInv(w, true)
    ensures var r := ConfirmUnchanged(tables, w);
      && WorkInv(r.work, true) && r.work.suspended == w.suspended && Reaches(w.phase, r.work.phase)
      && (r.ok ==> r.work.pages == [] && Decided(r.work.phase))
  {
    if w.phase == InFlight || w.phase == Unchanged { ResolveKeeps(tables, w.(phase := Unchanged), true); }
  }

  lemma FinishKeeps(tables: Tables, w: Work, request: bool, cache: bool)
    requires WorkInv(w, true)
    ensures var r := Finish(tables, w, request, cache);
      && WorkInv(r.work, true) && r.work.suspended == w.suspended && Reaches(w.phase, r.work.phase)
      && (r.ok ==> r.work.pages == [] && Decided(r.work.phase))
  {
    if !(request && w.refresh) && w.phase != Unchanged && (w.phase == InFlight ==> request) && w.phase != Unavailable {
      var w' := if request && (w.phase == Prepared || w.phase == InFlight) then w.(phase := Requested) else w;
      PublishKeeps(tables, w', cache, true);
    }
  }

  lemma ProgressKeeps(tables: Tables, w: Work, cache: bool)
    requires WorkInv(w, false)
    ensures var r := Progress(tables, w, cache);
      && WorkInv(r.work, false) && r.work.suspended == w.suspended && Reaches(w.phase, r.work.phase)
      && (w.phase == Prepared ==> r.work.phase == Prepared)
      && (w.phase == InFlight ==> r.work.phase == InFlight || r.work.phase == Unavailable)
      && (r.ok ==> r.work.pages == [] && Decided(r.work.phase))
  {
    match w.phase
    case InFlight => ResolveKeeps(tables, w.(phase := Unavailable), false);
    case Requested => PublishKeeps(tables, w, cache, false);
    case Published => PublishKeeps(tables, w, cache, false);
    case _ => ResolveKeeps(tables, w, false);
  }

  lemma PrepareKeeps(tables: Tables, external: bool, refresh: bool, spans: seq<Span>, locations: seq<Location>,
                     acknowledges: bool, preflight: bool)
    requires ListedOnce(locations)
    ensures var r := Prepare(tables, external, refresh, spans, locations, acknowledges, preflight);
      WorkInv(r.work, r.ok) && r.work.phase == Prepared
  {
    SuspendAllKeeps(tables, Work([], spans, Prepared, external && !refresh, refresh, [], [], false), locations);
  }

  lemma StepKeeps(s: State, op: Op)
    requires Inv(s)
    ensures Inv(Apply(s, op))
    ensures forall id :: id in s.transactions ==>
      id in Apply(s, op).transactions && Advances(s.transactions[id], Apply(s, op).transactions[id])
  {
    hide WorkInv, OwnerCall, Prepare, Progress;
    match op
    case Touch(_, _) =>
    case Store(_, _) =>
    case Start(id, external, refresh, spans, locations, acknowledges, preflight) =>
      if ListedOnce(locations) {
        PrepareKeeps(s.tables, external, refresh, spans, locations, acknowledges, preflight);
      }
    case Cleanup(id, locked, cache) =>
      if !locked && id in s.transactions && s.transactions[id].status == Queued {
        ProgressKeeps(s.tables, s.transactions[id].work, cache);
      }
    case _ =>
      if op.id in s.transactions && s.transactions[op.id].status == Owned {
        OwnerCallKeeps(s, op, op.id);
      }
  }

  lemma {:induction false} RunKeeps(s: State, ops: seq<Op>)
    requires Inv(s)
    ensures Inv(Run(s, ops))
    decreases |ops|
  {
    if ops != [] {
      StepKeeps(s, ops[0]);
      RunKeeps(Apply(s, ops[0]), ops[1..]);
    }
  }

  // ---------------------------------------------------------------- theorems

  function Begun(tables: Tables): State { State(tables, map[]) }

  /** After any run, every suspended page is recorded or resolved, never both; a finished transaction resolved them all. */
  lemma EverySuspendedPageIsResolvedOnce(tables: Tables, ops: seq<Op>, id: nat)
    ensures var s := Run(Begun(tables), ops);
      id in s.transactions ==>
        var t := s.transactions[id];
        && t.work.suspended == t.work.pages + Pages(t.work.resolved)
        && (t.status == Done ==> t.work.suspended == Pages(t.work.resolved))
  {
    RunKeeps(Begun(tables), ops);
  }

  /** After any run, all pages of a transaction were resolved by one decision. */
  lemma OneDecisionForAllPages(tables: Tables, ops: seq<Op>, id: nat, i: nat)
    ensures var s := Run(Begun(tables), ops);
      id in s.transactions && i < |s.transactions[id].work.resolved| ==>
        var w, r := s.transactions[id].work, s.transactions[id].work.resolved[i];
        && w.phase != InFlight && w.phase != Requested
        && (w.phase == Prepared || w.phase == Unchanged ==> r.fate == Restore)
        && (w.phase == Unavailable ==> r.fate == Release)
        && (w.phase == Published ==> (r.fate == Restore <==> !r.page.affected || r.page.zero.Some?))
        && (r.fate == Restore && r.page.affected && r.page.zero.None? ==> w.phase == Prepared || w.phase == Unchanged)
        && (r.cleared <==> w.phase == Published && r.page.zero.Some?)
        && (r.fate == Release ==> w.acknowledged)
  {
    RunKeeps(Begun(tables), ops);
  }

  /** The operation is a call or a cleanup pass of this transaction. */
  predicate Concerns(op: Op, id: nat) {
    !op.Touch? && !op.Store? && !op.Start? && op.id == id
  }

  /** A step resolves pages of its own transaction only, and does so in the page tables. */
  lemma {:induction false} StepMoves(s: State, op: Op, id: nat)
    requires Inv(s) && id in s.transactions
    ensures id in Apply(s, op).transactions
    ensures var w, t := s.transactions[id].work, Apply(s, op);
      if Concerns(op, id) then Moved(s.tables, w.pages, t.tables, t.transactions[id].work) else t.transactions[id].work == w
  {
    var w := s.transactions[id].work;
    assert DistinctKeys(w.pages) by { PagesAreDistinct(w, s.transactions[id].status == Owned); }
    hide Moved, Progress, ConfirmUnchanged, Finish, RequestExternal, WorkInv;
    if Concerns(op, id) {
      NothingMoves(s.tables, w);
      match op
      case Cleanup(_, locked, cache) => ProgressMoves(s.tables, w, cache);
      case Begin(_, preflight) => NothingMoves(s.tables, BeginExternal(s.tables, w, preflight).0);
      case Confirm(_) => OwnerMoves(s.tables, w, false, false);
      case Publish(_, request, cache) => OwnerMoves(s.tables, w, request, cache);
      case PublishExternal(_, cache) => OwnerMoves(s.tables, w, false, cache);
      case _ =>
    }
  }

  /** Frame references are given back by resolution only: page-table edits, stores and preparations free none. */
  lemma {:induction false} OnlyResolutionFrees(s: State, op: Op)
    requires op.Touch? || op.Store? || op.Start?
    ensures Apply(s, op).tables.freed == s.tables.freed
    ensures !op.Store? ==> Apply(s, op).tables.memory == s.tables.memory
  {
    if op.Start? {
      SuspensionFreesNothing(s.tables, Work([], op.spans, Prepared, op.external && !op.refresh, op.refresh, [], [], false), op.locations);
    }
  }

  lemma {:induction false} SuspensionFreesNothing(tables: Tables, w: Work, locations: seq<Location>)
    ensures SuspendAll(tables, w, locations).tables == tables.(entries := SuspendAll(tables, w, locations).tables.entries)
    decreases |locations|
  {
    if locations != [] && locations[0].suspends {
      var at := locations[0];
      if at.key !in tables.entries {
        SuspensionFreesNothing(tables, w, locations[1..]);
      } else {
        var zero := if at.affected && at.addressable then at.boundary else None;
        var page := Page(Record(at.key, tables.entries[at.key]), zero, at.affected);
        SuspensionFreesNothing(Suspended(tables, at.key),
          w.(pages := w.pages + [page], suspended := w.suspended + [page]), locations[1..]);
      }
    }
  }

  lemma PagesAreDistinct(w: Work, owned: bool)
    requires WorkInv(w, owned)
    ensures DistinctKeys(w.pages)
  {
    assert forall i :: 0 <= i < |w.pages| ==> w.suspended[i] == w.pages[i];
  }

  lemma {:induction false} PagesAt(resolved: seq<Resolved>, i: nat)
    requires i < |resolved|
    ensures Pages(resolved)[i] == resolved[i].page
  {
    if i > 0 {
      PagesAt(resolved[1..], i - 1);
    }
  }

  /** Page `k` of the transaction left its records between two states. */
  predicate Left(s: State, t: State, id: nat, k: nat) {
    && id in s.transactions && id in t.transactions
    && |t.transactions[id].work.pages| <= k < |s.transactions[id].work.pages|
  }

  /** It is recorded as resolved by the decision of the phase, and the page tables show it. */
  ghost predicate Fated(s: State, t: State, id: nat, k: nat)
    requires Left(s, t, id, k)
  {
    var w, w' := s.transactions[id].work, t.transactions[id].work;
    && k - |w'.pages| < |w'.resolved| && w'.resolved[k - |w'.pages|] == Outcome(w'.phase, w.pages[k])
    && Met(t.tables, Outcome(w'.phase, w.pages[k]))
  }

  /**
   After any run and for every next operation: a page that leaves the records of a transaction is
   recorded as resolved by the decision of its phase, and the page table shows it. A released entry
   is gone, a restored one is the original up to accessed and dirty bits, a cleared suffix is zero.
   */
  lemma {:induction false} PagesLeaveByTheirFate(tables: Tables, ops: seq<Op>, op: Op, id: nat, k: nat)
    requires Left(Run(Begun(tables), ops), Apply(Run(Begun(tables), ops), op), id, k)
    ensures Fated(Run(Begun(tables), ops), Apply(Run(Begun(tables), ops), op), id, k)
  {
    hide Run, Apply, Left, Fated, WorkInv;
    RunKeeps(Begun(tables), ops);
    LeavingPageIsMet(Run(Begun(tables), ops), op, id, k);
  }

  lemma {:induction false} LeavingPageIsMet(s: State, op: Op, id: nat, k: nat)
    requires Inv(s) && Left(s, Apply(s, op), id, k)
    ensures Fated(s, Apply(s, op), id, k)
  {
    hide Apply, Met, Moved, WorkInv, Outcome;
    var t := Apply(s, op);
    StepMoves(s, op, id);
    MovedMeets(s.tables, s.transactions[id].work.pages, t.tables, t.transactions[id].work, k);
    StepKeeps(s, op);
    assert TransactionInv(s.transactions[id]);
    LeavingPageIsRecorded(s.transactions[id], t.transactions[id], k);
  }

  lemma MovedMeets(tables: Tables, pages: seq<Page>, after: Tables, w: Work, k: nat)
    requires Moved(tables, pages, after, w) && |w.pages| <= k < |pages|
    ensures Met(after, Outcome(w.phase, pages[k]))
  {}

  lemma {:induction false} LeavingPageIsRecorded(before: Transaction, after: Transaction, k: nat)
    requires TransactionInv(before) && TransactionInv(after) && Advances(before, after)
    requires |after.work.pages| <= k < |before.work.pages|
    ensures var w, w' := before.work, after.work;
      k - |w'.pages| < |w'.resolved| && w'.resolved[k - |w'.pages|] == Outcome(w'.phase, w.pages[k])
  {
    var w, w' := before.work, after.work;
    assert w'.suspended[k] == w.suspended[k] == w.pages[k];
    assert w'.suspended[k] == Pages(w'.resolved)[k - |w'.pages|];
    PagesAt(w'.resolved, k - |w'.pages|);
  }

  lemma AdvancesCompose(a: Transaction, b: Transaction, c: Transaction)
    requires Advances(a, b) && Advances(b, c) && TransactionInv(b)
    ensures Advances(a, c)
  {
    hide WorkInv;
  }

  lemma AdvancesNowhere(a: Transaction)
    ensures Advances(a, a)
  {}

  /** A decision once taken is kept by every continuation, and no transaction is forgotten. */
  lemma {:induction false} DecisionIsFinal(s: State, ops: seq<Op>, id: nat)
    requires Inv(s) && id in s.transactions
    ensures id in Run(s, ops).transactions && Advances(s.transactions[id], Run(s, ops).transactions[id])
    decreases |ops|
  {
    hide Apply, Advances, TransactionInv;
    if ops == [] {
      AdvancesNowhere(s.transactions[id]);
    } else {
      var t := Apply(s, ops[0]);
      StepKeeps(s, ops[0]);
      DecisionIsFinal(t, ops[1..], id);
      AdvancesCompose(s.transactions[id], t.transactions[id], Run(t, ops[1..]).transactions[id]);
    }
  }

  /** An owner lost in flight can only quarantine: nothing it suspended is ever restored. */
  lemma LostOwnerQuarantines(s: State, ops: seq<Op>, id: nat)
    requires Inv(s) && id in s.transactions
    requires s.transactions[id].status == Queued && s.transactions[id].work.phase == InFlight
    ensures id in Run(s, ops).transactions
    ensures var t := Run(s, ops).transactions[id];
      && (t.status == Done ==> t.work.phase == Unavailable)
      && forall i :: 0 <= i < |t.work.resolved| ==> t.work.resolved[i].fate == Release
  {
    DecisionIsFinal(s, ops, id);
    RunKeeps(s, ops);
  }

  /** What a lost owner suspended leaves the page table whenever it is resolved, in any continuation. */
  lemma {:induction false} QuarantineEmptiesEntries(s: State, ops: seq<Op>, op: Op, id: nat, k: nat)
    requires Inv(s) && id in s.transactions && Left(Run(s, ops), Apply(Run(s, ops), op), id, k)
    requires s.transactions[id].status == Queued && s.transactions[id].work.phase == InFlight
    ensures Run(s, ops).transactions[id].work.pages[k].record.key !in Apply(Run(s, ops), op).tables.entries
  {
    var t := Run(s, ops);
    DecisionIsFinal(s, ops, id);
    RunKeeps(s, ops);
    hide Run, Apply, WorkInv;
    StepKeeps(t, op);
    LeavingPageIsMet(t, op, id, k);
    LeavingPageIsReleased(t.transactions[id], Apply(t, op).transactions[id], k);
  }

  lemma {:induction false} LeavingPageIsReleased(before: Transaction, after: Transaction, k: nat)
    requires TransactionInv(before) && TransactionInv(after) && Advances(before, after)
    requires before.status != Owned && (before.work.phase == InFlight || before.work.phase == Unavailable)
    requires |after.work.pages| <= k < |before.work.pages|
    ensures Outcome(after.work.phase, before.work.pages[k]).fate == Release
  {
    LeavingPageIsRecorded(before, after, k);
  }

  lemma {:induction false} PhaseResolves(tables: Tables, w: Work, phase: Phase)
    requires Decided(phase) && AllCurrent(tables, w) && DistinctKeys(w.pages)
    ensures Resolve(tables, w.(phase := phase)).ok
  {
    var v := w.(phase := phase);
    assert AllCurrent(tables, v) by {
      forall i | 0 <= i < |v.pages| ensures Current(tables, v, v.pages[i]) {
        assert Current(tables, w, w.pages[i]);
      }
    }
    ResolveCompletes(tables, v);
  }

  /** An attempt that finds every entry of an abandoned work current completes it, in every phase. */
  lemma {:induction false} ProgressCompletes(tables: Tables, w: Work)
    requires WorkInv(w, false) && AllCurrent(tables, w)
    ensures Progress(tables, w, true).ok
  {
    PagesAreDistinct(w, false);
    assert w == w.(phase := w.phase);
    PhaseResolves(tables, w, if Decided(w.phase) then w.phase else if w.phase == InFlight then Unavailable else Published);
    hide AllCurrent, Resolve, DistinctKeys;
  }

  /** Once every entry is ours again and the lock is free, one pass finishes a queued transaction. */
  lemma {:induction false} CleanupCompletes(s: State, id: nat)
    requires Inv(s) && id in s.transactions && s.transactions[id].status == Queued
    requires AllCurrent(s.tables, s.transactions[id].work)
    ensures Apply(s, Cleanup(id, false, true)).transactions[id].status == Done
  {
    ProgressCompletes(s.tables, s.transactions[id].work);
  }

  // ---------------------------------------------------------------- cancellation

  lemma {:induction false} ResolveIgnoresHistory(tables: Tables, v: Work, w: Work)
    requires v.pages == w.pages && v.spans == w.spans && v.phase == w.phase
    ensures Resolve(tables, v).tables == Resolve(tables, w).tables && Resolve(tables, v).ok == Resolve(tables, w).ok
    decreases |v.pages|
  {
    if Decided(v.phase) && v.pages != [] && Current(tables, v, v.pages[|v.pages| - 1]) {
      ResolveIgnoresHistory(ResolvePage(tables, v.phase, v.pages[|v.pages| - 1]), PopPage(v), PopPage(w));
    }
  }

  lemma {:induction false} SuspendedPageResolves(tables: Tables, w: Work, page: Page)
    requires w.phase == Prepared && page.record.key in tables.entries && page.record.original == tables.entries[page.record.key]
    requires Contains(w.spans, page.record.key, page.record.key.address + 4096)
    ensures var w' := w.(pages := w.pages + [page], suspended := w.suspended + [page]);
      var tables' := Suspended(tables, page.record.key);
      && Resolve(tables', w').tables == Resolve(tables, w).tables && Resolve(tables', w').ok == Resolve(tables, w).ok
  {
    var w' := w.(pages := w.pages + [page], suspended := w.suspended + [page]);
    var tables' := Suspended(tables, page.record.key);
    SuspendRestoreRoundTrip(tables, page.record.key);
    assert Resolve(tables', w') == Resolve(tables, PopPage(w')) by {
      assert w'.pages[|w'.pages| - 1] == page && Current(tables', w', page);
      assert ResolvePage(tables', Prepared, page) == tables;
    }
    ResolveIgnoresHistory(tables, PopPage(w'), w);
  }

  /** Resolving a prepared work undoes its suspensions one by one, wherever preparation stopped. */
  lemma {:induction false} CancelUndoesSuspension(tables: Tables, w: Work, locations: seq<Location>)
    requires w.phase == Prepared
    requires forall i :: 0 <= i < |locations| ==> Contains(w.spans, locations[i].key, locations[i].key.address + 4096)
    ensures var r := SuspendAll(tables, w, locations);
      && Resolve(r.tables, r.work).tables == Resolve(tables, w).tables
      && Resolve(r.tables, r.work).ok == Resolve(tables, w).ok
    decreases |locations|
  {
    if locations != [] && locations[0].suspends {
      var at := locations[0];
      if at.key !in tables.entries {
        CancelUndoesSuspension(tables, w, locations[1..]);
      } else {
        var zero := if at.affected && at.addressable then at.boundary else None;
        var page := Page(Record(at.key, tables.entries[at.key]), zero, at.affected);
        var w' := w.(pages := w.pages + [page], suspended := w.suspended + [page]);
        var tables' := Suspended(tables, at.key);
        SuspendedPageResolves(tables, w, page);
        hide Resolve;
        CancelUndoesSuspension(tables', w', locations[1..]);
      }
    }
  }

  lemma {:induction false} SuspendAllStaysPrepared(tables: Tables, w: Work, locations: seq<Location>)
    ensures SuspendAll(tables, w, locations).work.phase == w.phase
    decreases |locations|
  {
    if locations != [] && locations[0].suspends {
      var at := locations[0];
      if at.key !in tables.entries {
        SuspendAllStaysPrepared(tables, w, locations[1..]);
      } else {
        var zero := if at.affected && at.addressable then at.boundary else None;
        var page := Page(Record(at.key, tables.entries[at.key]), zero, at.affected);
        SuspendAllStaysPrepared(Suspended(tables, at.key),
          w.(pages := w.pages + [page], suspended := w.suspended + [page]), locations[1..]);
      }
    }
  }

  /** A preparation that failed anywhere, or whose owner let go, leaves the page tables as they were. */
  lemma CancelledPreparationChangesNothing(tables: Tables, external: bool, refresh: bool, spans: seq<Span>,
                                           locations: seq<Location>, acknowledges: bool, preflight: bool, cache: bool)
    requires forall i :: 0 <= i < |locations| ==> Contains(spans, locations[i].key, locations[i].key.address + 4096)
    ensures var r := Prepare(tables, external, refresh, spans, locations, acknowledges, preflight);
      Progress(r.tables, r.work, cache).ok && Progress(r.tables, r.work, cache).tables == tables
  {
    var w := Work([], spans, Prepared, external && !refresh, refresh, [], [], false);
    CancelUndoesSuspension(tables, w, locations);
    var r := SuspendAll(tables, w, locations);
    SuspendAllStaysPrepared(tables, w, locations);
    ResolveIgnoresHistory(r.tables, r.work, Prepare(tables, external, refresh, spans, locations, acknowledges, preflight).work);
  }
}
