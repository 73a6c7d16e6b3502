/**
 The page cache of one provider object: loaders that read the lower store outside every
 lock, gated writes, staged writes, eviction and flushes, in every interleaving.
 */
module PageCache {
  import opened Common
  import opened PageBytes

  datatype Range = Clean | Dirty(lo: nat, hi: nat) {
    predicate Covers(i: int) { Dirty? && lo <= i < hi }

    /** The smallest range that holds this one and a piece. */
    function Extended(piece: Piece): Range {
      var end := piece.start + |piece.bytes|;
      if Clean? then Dirty(piece.start, end)
      else Dirty(if lo < piece.start then lo else piece.start, if hi < end then end else hi)
    }
  }

  datatype Entry = Entry(bytes: Page, dirty: Range, version: nat)

  /** What a flush copied out of a dirty entry. */
  datatype Snapshot = Snapshot(bytes: Page, lo: nat, hi: nat, version: nat) {
    predicate Covers(i: int) { lo <= i < hi }
  }

  /** The holder of the object's I/O gate. */
  datatype Io =
    | Idle
    | Writing(pieces: map<nat, Piece>)
    | Flushing(snaps: map<nat, Snapshot>, left: set<nat>, synced: bool)

  datatype Phase =
    | Begun
    | Missed
    | Captured(epoch: nat, read: Option<Page>)
    | Held(bytes: Page)

  /** A caller that wants one page; `outer` is the epoch it saw before it began. */
  datatype Loader = Loader(page: nat, outer: nat, phase: Phase)

  /** The stores, the cache and the gate. */
  datatype Memory = Memory(
    lower: map<nat, Page>,
    durable: map<nat, Page>,
    cache: map<nat, Entry>,
    epoch: nat,
    io: Io)

  datatype State = State(m: Memory, loaders: map<nat, Loader>)

  datatype Op =
    | Begin(id: nat, page: nat)
    | Lookup(id: nat)
    | Capture(id: nat)
    | Read(id: nat)
    | Install(id: nat, room: bool)
    | Push(id: nat)
    | Finish(id: nat)
    | Evict(page: nat)
    | Stage(page: nat, piece: Piece)
    | WriteLower(pieces: map<nat, Piece>)
    | WriteDone
    | FlushBegin(pages: set<nat>)
    | FlushPage(page: nat)
    | FlushSync
    | FlushDone
    | FlushFail

  const Init := State(Memory(map[], map[], map[], 1, Idle), map[])

  /** The lower store, zero beyond its end. */
  function At(store: map<nat, Page>, page: nat): Page {
    if page in store then store[page] else Zeros()
  }

  // ------------------------------------------------------------------- loaders

  /** A clean page enters the cache. */
  function Inserted(m: Memory, page: nat, bytes: Page): Memory {
    m.(cache := m.cache[page := Entry(bytes, Clean, 0)])
  }

  function LookupStep(m: Memory, loader: Loader): Loader {
    loader.(phase := if loader.page in m.cache then Held(m.cache[loader.page].bytes) else Missed)
  }

  /** The second half of a load: an existing entry wins, a moved epoch retries, a full cache bypasses. */
  function InstallStep(m: Memory, loader: Loader, room: bool): (Memory, Loader)
    requires loader.phase.Captured? && loader.phase.read.Some?
  {
    var bytes := loader.phase.read.value;
    if loader.page in m.cache then (m, loader.(phase := Held(m.cache[loader.page].bytes)))
    else if m.epoch != loader.phase.epoch then (m, loader.(phase := Begun))
    else (if room then Inserted(m, loader.page, bytes) else m, loader.(phase := Held(bytes)))
  }

  /** A stager or frame preparer puts its page back if it vanished and nothing has moved meanwhile. */
  function PushStep(m: Memory, loader: Loader): (Memory, Loader)
    requires loader.phase.Held?
  {
    if loader.page in m.cache then (m, loader)
    else if m.epoch != loader.outer then (m, Loader(loader.page, m.epoch, Begun))
    else (Inserted(m, loader.page, loader.phase.bytes), loader)
  }

  /** The next step of one caller. */
  function LoaderStep(m: Memory, loader: Loader, op: Op): (Memory, Loader) {
    match loader.phase
    case Begun => if op.Lookup? then (m, LookupStep(m, loader)) else (m, loader)
    case Missed => if op.Capture? then (m, loader.(phase := Captured(m.epoch, None))) else (m, loader)
    case Captured(epoch, read) =>
      if op.Read? then (m, loader.(phase := Captured(epoch, Some(At(m.lower, loader.page)))))
      else if op.Install? && read.Some? then InstallStep(m, loader, op.room)
      else (m, loader)
    case Held(_) => if op.Push? then PushStep(m, loader) else (m, loader)
  }

  // ------------------------------------------------------------------ mutation

  function Staged(entry: Entry, piece: Piece): Entry
    requires piece.Fits()
  {
    Entry(Overlay(entry.bytes, piece), entry.dirty.Extended(piece), entry.version + 1)
  }

  predicate AllFit(pieces: map<nat, Piece>) {
    forall p :: p in pieces ==> pieces[p].Fits()
  }

  function Written(store: map<nat, Page>, pieces: map<nat, Piece>): map<nat, Page>
    requires AllFit(pieces)
  {
    map p | p in store.Keys + pieces.Keys :: if p in pieces then Overlay(At(store, p), pieces[p]) else store[p]
  }

  /** After a gated write every resident page takes its piece, dirty or not. */
  function Refreshed(cache: map<nat, Entry>, pieces: map<nat, Piece>): map<nat, Entry>
    requires AllFit(pieces)
  {
    map p | p in cache ::
      if p in pieces then Entry(Overlay(cache[p].bytes, pieces[p]), cache[p].dirty, cache[p].version + 1) else cache[p]
  }

  function Snapshots(cache: map<nat, Entry>, pages: set<nat>): map<nat, Snapshot> {
    map p | p in cache && p in pages && cache[p].dirty.Dirty? ::
      Snapshot(cache[p].bytes, cache[p].dirty.lo, cache[p].dirty.hi, cache[p].version)
  }

  function SnapshotPiece(snap: Snapshot): Piece
    requires snap.lo <= snap.hi <= PAGE
  {
    Piece(snap.lo, snap.bytes[snap.lo..snap.hi])
  }

  /** Entries nobody staged into since the snapshot become clean. */
  function Cleaned(cache: map<nat, Entry>, snaps: map<nat, Snapshot>): map<nat, Entry> {
    map p | p in cache ::
      if p in snaps && cache[p].version == snaps[p].version then cache[p].(dirty := Clean) else cache[p]
  }

  function FlushPageStep(m: Memory, page: nat): Memory {
    if m.io.Flushing? && page in m.io.left && page in m.io.snaps && m.io.snaps[page].lo <= m.io.snaps[page].hi <= PAGE
    then m.(lower := m.lower[page := Overlay(At(m.lower, page), SnapshotPiece(m.io.snaps[page]))],
            io := Flushing(m.io.snaps, m.io.left - {page}, false))
    else m
  }

  function MemoryStep(m: Memory, op: Op): Memory {
    match op
    case Evict(page) => if page in m.cache && m.cache[page].dirty.Clean? then m.(cache := m.cache - {page}) else m
    case Stage(page, piece) =>
      if page in m.cache && piece.Fits() && piece.bytes != []
      then m.(cache := m.cache[page := Staged(m.cache[page], piece)], epoch := m.epoch + 1) else m
    case WriteLower(pieces) =>
      if m.io.Idle? && AllFit(pieces) then m.(lower := Written(m.lower, pieces), io := Writing(pieces)) else m
    case WriteDone =>
      if m.io.Writing? && AllFit(m.io.pieces)
      then m.(cache := Refreshed(m.cache, m.io.pieces), epoch := m.epoch + 1, io := Idle) else m
    case FlushBegin(pages) =>
      if m.io.Idle? then m.(io := Flushing(Snapshots(m.cache, pages), Snapshots(m.cache, pages).Keys, false)) else m
    case FlushPage(page) => FlushPageStep(m, page)
    case FlushSync =>
      if m.io.Flushing? && m.io.left == {} then m.(durable := m.lower, io := Flushing(m.io.snaps, {}, true)) else m
    case FlushDone =>
      if m.io.Flushing? && m.io.left == {} && m.io.synced then m.(cache := Cleaned(m.cache, m.io.snaps), io := Idle) else m
    case FlushFail => if m.io.Flushing? then m.(io := Idle) else m
    case _ => m
  }

  predicate IsLoaderOp(op: Op) {
    op.Lookup? || op.Capture? || op.Read? || op.Install? || op.Push?
  }

  function Apply(s: State, op: Op): State {
    if op.Begin? then (if op.id in s.loaders then s else s.(loaders := s.loaders[op.id := Loader(op.page, s.m.epoch, Begun)]))
    else if op.Finish? then s.(loaders := s.loaders - {op.id})
    else if IsLoaderOp(op) then
      if op.id in s.loaders then
        var (m, loader) := LoaderStep(s.m, s.loaders[op.id], op);
        State(m, s.loaders[op.id := loader])
      else s
    else s.(m := MemoryStep(s.m, op))
  }

  // ---------------------------------------------------------------- agreement

  /** The gated write in flight owns this byte. */
  predicate InFlight(m: Memory, page: nat, i: int) {
    m.io.Writing? && page in m.io.pieces && m.io.pieces[page].Covers(i)
  }

  ghost predicate Same(m: Memory, page: nat, a: Page, b: Page) {
    forall i :: 0 <= i < PAGE && !InFlight(m, page, i) ==> a[i] == b[i]
  }

  /** A resident page equals the lower store outside its dirty range and the write in flight. */
  ghost predicate PageAgrees(m: Memory, page: nat)
    requires page in m.cache
  {
    forall i :: 0 <= i < PAGE && !InFlight(m, page, i) && !m.cache[page].dirty.Covers(i) ==>
      m.cache[page].bytes[i] == At(m.lower, page)[i]
  }

  ghost predicate Agreement(m: Memory) {
    forall page :: page in m.cache ==> PageAgrees(m, page)
  }

  predicate InRange(range: Range) {
    range.Dirty? ==> range.lo <= range.hi <= PAGE
  }

  /** The lower store has accepted this piece of the write in flight. */
  ghost predicate Landed(m: Memory, page: nat, piece: Piece) {
    forall i :: 0 <= i < PAGE && piece.Covers(i) ==> At(m.lower, page)[i] == piece.bytes[i - piece.start]
  }

  ghost predicate WellFormed(m: Memory) {
    && (forall page :: page in m.cache ==> InRange(m.cache[page].dirty))
    && (m.io.Writing? ==> AllFit(m.io.pieces) && forall page :: page in m.io.pieces ==> Landed(m, page, m.io.pieces[page]))
  }

  /** The page carries the snapshot's dirty bytes. */
  ghost predicate Holds(bytes: Page, snap: Snapshot) {
    forall i :: 0 <= i < PAGE && snap.Covers(i) ==> bytes[i] == snap.bytes[i]
  }

  /** A snapshot in flight: its entry is still dirty around it, and equal to it unless staged into since. */
  ghost predicate SnapshotHolds(m: Memory, page: nat, snap: Snapshot)
    requires m.io.Flushing?
  {
    && snap.lo <= snap.hi <= PAGE
    && page in m.cache && m.cache[page].dirty.Dirty?
    && m.cache[page].dirty.lo <= snap.lo && snap.hi <= m.cache[page].dirty.hi
    && snap.version <= m.cache[page].version
    && (snap.version == m.cache[page].version ==>
          m.cache[page].bytes == snap.bytes && m.cache[page].dirty == Dirty(snap.lo, snap.hi))
    && (page !in m.io.left ==> Holds(At(m.lower, page), snap))
    && (m.io.synced ==> page !in m.io.left && Holds(At(m.durable, page), snap))
  }

  ghost predicate FlushHolds(m: Memory) {
    m.io.Flushing? ==> m.io.left <= m.io.snaps.Keys && forall page :: page in m.io.snaps ==> SnapshotHolds(m, page, m.io.snaps[page])
  }

  /** Nothing that may still reach the lower store without moving the epoch would change this page. */
  ghost predicate Settled(m: Memory, page: nat) {
    && (page in m.cache ==> Same(m, page, m.cache[page].bytes, At(m.lower, page)))
    && (m.io.Flushing? && page in m.io.left && page in m.io.snaps ==> Holds(At(m.lower, page), m.io.snaps[page]))
  }

  /** A page is safe to load: settled, or its dirty entry cannot leave before the epoch moves. */
  ghost predicate Safe(m: Memory, page: nat) {
    Settled(m, page) || (m.io.Writing? && page in m.cache && m.cache[page].dirty.Dirty?)
  }

  ghost predicate LoaderHolds(m: Memory, loader: Loader) {
    match loader.phase
    case Begun => loader.outer <= m.epoch
    case Missed => loader.outer <= m.epoch
    case Captured(epoch, read) =>
      && loader.outer <= epoch <= m.epoch
      && (epoch == m.epoch ==> Safe(m, loader.page))
      && (epoch == m.epoch && Settled(m, loader.page) && read.Some? ==> Same(m, loader.page, read.value, At(m.lower, loader.page)))
    case Held(bytes) =>
      && loader.outer <= m.epoch
      && (loader.outer == m.epoch ==>
            if loader.page in m.cache then Same(m, loader.page, bytes, m.cache[loader.page].bytes)
            else Same(m, loader.page, bytes, At(m.lower, loader.page)))
  }

  ghost predicate Sound(m: Memory) {
    Agreement(m) && WellFormed(m) && FlushHolds(m)
  }

  ghost predicate Inv(s: State) {
    Sound(s.m) && forall id :: id in s.loaders ==> LoaderHolds(s.m, s.loaders[id])
  }

  /** The condition a caller can check before it captures the epoch for a load. */
  ghost predicate Careful(s: State, op: Op) {
    op.Capture? && op.id in s.loaders && s.loaders[op.id].phase.Missed? ==> Safe(s.m, s.loaders[op.id].page)
  }

  // ------------------------------------------------------ what each step keeps

  lemma {:induction false} InsertKeeps(m: Memory, page: nat, bytes: Page)
    requires Sound(m) && page !in m.cache && Same(m, page, bytes, At(m.lower, page))
    ensures Sound(Inserted(m, page, bytes))
  {
  }

  lemma {:induction false} InsertLoader(m: Memory, page: nat, bytes: Page, loader: Loader)
    requires Sound(m) && page !in m.cache && Same(m, page, bytes, At(m.lower, page)) && LoaderHolds(m, loader)
    ensures LoaderHolds(Inserted(m, page, bytes), loader)
  {
  }

  lemma {:induction false} EvictKeeps(m: Memory, page: nat)
    requires Sound(m)
    ensures Sound(MemoryStep(m, Evict(page)))
  {
  }

  lemma {:induction false} EvictLoader(m: Memory, page: nat, loader: Loader)
    requires Sound(m) && LoaderHolds(m, loader)
    ensures LoaderHolds(MemoryStep(m, Evict(page)), loader)
  {
  }

  lemma {:induction false} StageKeeps(m: Memory, page: nat, piece: Piece)
    requires Sound(m)
    ensures Sound(MemoryStep(m, Stage(page, piece)))
  {
  }

  lemma {:induction false} StageLoader(m: Memory, page: nat, piece: Piece, loader: Loader)
    requires Sound(m) && LoaderHolds(m, loader)
    ensures LoaderHolds(MemoryStep(m, Stage(page, piece)), loader)
  {
  }

  lemma {:induction false} WriteLowerKeeps(m: Memory, pieces: map<nat, Piece>)
    requires Sound(m)
    ensures Sound(MemoryStep(m, WriteLower(pieces)))
  {
  }

  lemma {:induction false} WriteLowerLoader(m: Memory, pieces: map<nat, Piece>, loader: Loader)
    requires Sound(m) && LoaderHolds(m, loader)
    ensures LoaderHolds(MemoryStep(m, WriteLower(pieces)), loader)
  {
  }

  lemma {:induction false} WriteDoneKeeps(m: Memory)
    requires Sound(m) && m.io.Writing?
    ensures Sound(MemoryStep(m, WriteDone))
  {
  }

  lemma {:induction false} WriteDoneLoader(m: Memory, loader: Loader)
    requires Sound(m) && LoaderHolds(m, loader)
    ensures LoaderHolds(MemoryStep(m, WriteDone), loader)
  {
  }

  lemma {:induction false} FlushBeginKeeps(m: Memory, pages: set<nat>)
    requires Sound(m)
    ensures Sound(MemoryStep(m, FlushBegin(pages)))
  {
  }

  lemma {:induction false} FlushBeginLoader(m: Memory, pages: set<nat>, loader: Loader)
    requires Sound(m) && LoaderHolds(m, loader)
    ensures LoaderHolds(MemoryStep(m, FlushBegin(pages)), loader)
  {
  }

  lemma {:induction false} FlushPageKeeps(m: Memory, page: nat)
    requires Sound(m)
    ensures Sound(FlushPageStep(m, page))
  {
  }

  lemma {:induction false} FlushPageLoader(m: Memory, page: nat, loader: Loader)
    requires Sound(m) && LoaderHolds(m, loader)
    ensures LoaderHolds(FlushPageStep(m, page), loader)
  {
  }

  lemma {:induction false} FlushEndKeeps(m: Memory, op: Op)
    requires Sound(m) && (op.FlushSync? || op.FlushDone? || op.FlushFail?)
    ensures Sound(MemoryStep(m, op))
  {
  }

  lemma {:induction false} FlushEndLoader(m: Memory, op: Op, loader: Loader)
    requires Sound(m) && LoaderHolds(m, loader) && (op.FlushSync? || op.FlushDone? || op.FlushFail?)
    ensures LoaderHolds(MemoryStep(m, op), loader)
  {
  }

  lemma {:induction false} MemoryKeeps(m: Memory, op: Op)
    requires Sound(m)
    ensures Sound(MemoryStep(m, op))
  {
    hide Sound;
    match op
    case Evict(page) => EvictKeeps(m, page);
    case Stage(page, piece) => StageKeeps(m, page, piece);
    case WriteLower(pieces) => WriteLowerKeeps(m, pieces);
    case WriteDone => if m.io.Writing? { WriteDoneKeeps(m); }
    case FlushBegin(pages) => FlushBeginKeeps(m, pages);
    case FlushPage(page) => FlushPageKeeps(m, page);
    case FlushSync => FlushEndKeeps(m, op);
    case FlushDone => FlushEndKeeps(m, op);
    case FlushFail => FlushEndKeeps(m, op);
    case _ =>
  }

  lemma {:induction false} MemoryLoader(m: Memory, op: Op, loader: Loader)
    requires Sound(m) && LoaderHolds(m, loader)
    ensures LoaderHolds(MemoryStep(m, op), loader)
  {
    hide Sound, LoaderHolds;
    match op
    case Evict(page) => EvictLoader(m, page, loader);
    case Stage(page, piece) => StageLoader(m, page, piece, loader);
    case WriteLower(pieces) => WriteLowerLoader(m, pieces, loader);
    case WriteDone => WriteDoneLoader(m, loader);
    case FlushBegin(pages) => FlushBeginLoader(m, pages, loader);
    case FlushPage(page) => FlushPageLoader(m, page, loader);
    case FlushSync => FlushEndLoader(m, op, loader);
    case FlushDone => FlushEndLoader(m, op, loader);
    case FlushFail => FlushEndLoader(m, op, loader);
    case _ =>
  }

  /** A caller's own step: the cache gains a page only where it equals the lower store. */
  lemma {:induction false} LoaderKeeps(m: Memory, loader: Loader, op: Op)
    requires Sound(m) && LoaderHolds(m, loader)
    requires op.Capture? && loader.phase.Missed? ==> Safe(m, loader.page)
    ensures var (n, next) := LoaderStep(m, loader, op);
      LoaderHolds(n, next) && (n == m || (loader.page !in m.cache
        && exists bytes :: n == Inserted(m, loader.page, bytes) && Same(m, loader.page, bytes, At(m.lower, loader.page))))
  {
    var (n, next) := LoaderStep(m, loader, op);
    if op.Install? && loader.phase.Captured? && loader.phase.read.Some? {
      assert n == m || n == Inserted(m, loader.page, loader.phase.read.value);
    } else if op.Push? && loader.phase.Held? {
      assert n == m || n == Inserted(m, loader.page, loader.phase.bytes);
    }
  }

  lemma {:induction false} ApplyKeeps(s: State, op: Op)
    requires Inv(s) && Careful(s, op)
    ensures Inv(Apply(s, op))
  {
    hide LoaderHolds, Sound, LoaderStep, MemoryStep, Safe;
    if op.Begin? {
      BegunHolds(s.m, op.page);
    } else if op.Finish? {
    } else if IsLoaderOp(op) {
      if op.id in s.loaders {
        var (m, loader) := LoaderStep(s.m, s.loaders[op.id], op);
        LoaderKeeps(s.m, s.loaders[op.id], op);
        if m != s.m {
          var page := s.loaders[op.id].page;
          var bytes :| m == Inserted(s.m, page, bytes) && Same(s.m, page, bytes, At(s.m.lower, page));
          InsertKeeps(s.m, page, bytes);
          forall id | id in s.loaders ensures LoaderHolds(m, s.loaders[id]) {
            InsertLoader(s.m, page, bytes, s.loaders[id]);
          }
        }
      }
    } else {
      MemoryKeeps(s.m, op);
      forall id | id in s.loaders ensures LoaderHolds(MemoryStep(s.m, op), s.loaders[id]) {
        MemoryLoader(s.m, op, s.loaders[id]);
      }
    }
  }

  lemma BegunHolds(m: Memory, page: nat)
    ensures LoaderHolds(m, Loader(page, m.epoch, Begun))
  {
  }

  function Run(s: State, ops: seq<Op>): State
    decreases |ops|
  {
    if ops == [] then s else Run(Apply(s, ops[0]), ops[1..])
  }

  /** Every epoch capture of the run finds its page safe. */
  ghost predicate AllCareful(s: State, ops: seq<Op>)
    decreases |ops|
  {
    ops != [] ==> Careful(s, ops[0]) && AllCareful(Apply(s, ops[0]), ops[1..])
  }

  /** Clean-cache agreement over every run whose loads capture their epoch on safe pages. */
  lemma {:induction false} CarefulRunsAgree(s: State, ops: seq<Op>)
    requires Inv(s) && AllCareful(s, ops)
    ensures Inv(Run(s, ops)) && Agreement(Run(s, ops).m)
    decreases |ops|
  {
    if ops != [] {
      ApplyKeeps(s, ops[0]);
      hide Inv;
      CarefulRunsAgree(Apply(s, ops[0]), ops[1..]);
    }
  }

  lemma {:induction false} CarefulRunsAgreeFromStart(ops: seq<Op>)
    requires AllCareful(Init, ops)
    ensures Agreement(Run(Init, ops).m)
  {
    CarefulRunsAgree(Init, ops);
  }

  // ---------------------------------------------------- when agreement is lost

  lemma {:induction false} RunCons(s: State, op: Op, ops: seq<Op>)
    ensures Run(s, [op] + ops) == Run(Apply(s, op), ops)
  {
    assert ([op] + ops)[1..] == ops;
  }

  /** Flush the page, evict it, and let the waiting loader install what it read before. */
  function StaleTail(id: nat, page: nat): seq<Op> {
    [FlushFail] + ([FlushBegin({page})] + ([FlushPage(page)] + ([FlushSync] + ([FlushDone] + ([Evict(page)] + [Install(id, true)])))))
  }

  /** The flush of one idle dirty page leaves it clean and the lower store equal to it. */
  lemma {:induction false} FlushOne(m: Memory, page: nat) returns (n: Memory)
    requires Sound(m) && m.io.Idle? && page in m.cache && m.cache[page].dirty.Dirty?
    ensures n == MemoryStep(MemoryStep(MemoryStep(MemoryStep(m, FlushBegin({page})), FlushPage(page)), FlushSync), FlushDone)
    ensures Sound(n) && n.epoch == m.epoch && n.io.Idle? && page in n.cache
    ensures n.cache[page] == m.cache[page].(dirty := Clean)
  {
    var a := MemoryStep(m, FlushBegin({page}));
    var b := MemoryStep(a, FlushPage(page));
    var c := MemoryStep(b, FlushSync);
    n := MemoryStep(c, FlushDone);
    FlushBeginKeeps(m, {page});
    FlushPageKeeps(a, page);
    FlushEndKeeps(b, FlushSync);
    FlushEndKeeps(c, FlushDone);
    assert a.io.snaps.Keys == {page};
    assert b.io.left == {};
  }

  lemma {:induction false} StaleTailDisagrees(s: State, id: nat, page: nat, i: nat)
    requires Sound(s.m) && !s.m.io.Writing? && page in s.m.cache
    requires id in s.loaders && s.loaders[id].page == page && s.loaders[id].phase.Captured?
    requires s.loaders[id].phase.epoch == s.m.epoch && s.loaders[id].phase.read.Some?
    requires i < PAGE && s.m.cache[page].dirty.Covers(i)
    requires s.loaders[id].phase.read.value[i] != s.m.cache[page].bytes[i]
    ensures !Agreement(Run(s, StaleTail(id, page)).m)
  {
    StaleTailRuns(s, id, page);
    hide Run, StaleTail;
    var m := MemoryStep(s.m, FlushFail);
    FlushEndKeeps(s.m, FlushFail);
    var n := FlushOne(m, page);
    var e := MemoryStep(n, Evict(page));
    StaleInstallDisagrees(n, s.loaders[id], i);
    assert Apply(State(e, s.loaders), Install(id, true)).m == LoaderStep(e, s.loaders[id], Install(id, true)).0;
  }

  /** A clean page is evicted and a load that read other bytes under the same epoch puts it back. */
  lemma {:induction false} StaleInstallDisagrees(m: Memory, loader: Loader, i: nat)
    requires Sound(m) && m.io.Idle? && loader.page in m.cache && m.cache[loader.page].dirty.Clean?
    requires loader.phase.Captured? && loader.phase.epoch == m.epoch && loader.phase.read.Some?
    requires i < PAGE && loader.phase.read.value[i] != m.cache[loader.page].bytes[i]
    ensures var e := MemoryStep(m, Evict(loader.page));
      forall id :: !Agreement(LoaderStep(e, loader, Install(id, true)).0)
  {
    assert PageAgrees(m, loader.page);
    var f := Inserted(MemoryStep(m, Evict(loader.page)), loader.page, loader.phase.read.value);
    assert !InFlight(f, loader.page, i) && f.cache[loader.page].bytes[i] != At(f.lower, loader.page)[i];
    assert !PageAgrees(f, loader.page);
  }

  lemma {:induction false} StaleTailRuns(s: State, id: nat, page: nat)
    ensures Run(s, StaleTail(id, page)) ==
      var m := MemoryStep(MemoryStep(MemoryStep(MemoryStep(MemoryStep(MemoryStep(s.m, FlushFail),
        FlushBegin({page})), FlushPage(page)), FlushSync), FlushDone), Evict(page));
      Apply(State(m, s.loaders), Install(id, true))
  {
    hide MemoryStep, LoaderStep;
    var a := Apply(s, FlushFail);
    var b := Apply(a, FlushBegin({page}));
    var c := Apply(b, FlushPage(page));
    var d := Apply(c, FlushSync);
    var e := Apply(d, FlushDone);
    var f := Apply(e, Evict(page));
    RunCons(f, Install(id, true), []);
    assert [Install(id, true)] + [] == [Install(id, true)];
    RunCons(e, Evict(page), [Install(id, true)]);
    RunCons(d, FlushDone, [Evict(page)] + [Install(id, true)]);
    RunCons(c, FlushSync, [FlushDone] + ([Evict(page)] + [Install(id, true)]));
    RunCons(b, FlushPage(page), [FlushSync] + ([FlushDone] + ([Evict(page)] + [Install(id, true)])));
    RunCons(a, FlushBegin({page}), [FlushPage(page)] + ([FlushSync] + ([FlushDone] + ([Evict(page)] + [Install(id, true)]))));
    RunCons(s, FlushFail,
      [FlushBegin({page})] + ([FlushPage(page)] + ([FlushSync] + ([FlushDone] + ([Evict(page)] + [Install(id, true)])))));
  }

  /** The page is dirty with other bytes than the lower store: read, flush, evict, install. */
  lemma {:induction false} DirtyLoadGoesWrong(s: State, id: nat, i: nat)
    requires Sound(s.m) && !s.m.io.Writing? && id in s.loaders && s.loaders[id].page in s.m.cache
    requires s.loaders[id].phase == Captured(s.m.epoch, None)
    requires i < PAGE && s.m.cache[s.loaders[id].page].dirty.Covers(i)
    requires s.m.cache[s.loaders[id].page].bytes[i] != At(s.m.lower, s.loaders[id].page)[i]
    ensures !Agreement(Run(s, [Read(id)] + StaleTail(id, s.loaders[id].page)).m)
  {
    var page := s.loaders[id].page;
    RunCons(s, Read(id), StaleTail(id, page));
    StaleTailDisagrees(Apply(s, Read(id)), id, page, i);
  }

  /** An older snapshot is about to pass through the lower store: let it, read it, then flush the page. */
  lemma {:induction false} OldSnapshotGoesWrong(s: State, id: nat, i: nat)
    requires Sound(s.m) && s.m.io.Flushing? && id in s.loaders && s.loaders[id].page in s.m.cache
    requires s.loaders[id].phase == Captured(s.m.epoch, None)
    requires i < PAGE && Unsettled(s.m, s.loaders[id].page, i)
    requires s.m.cache[s.loaders[id].page].bytes[i] == At(s.m.lower, s.loaders[id].page)[i]
    ensures var page := s.loaders[id].page;
      !Agreement(Run(s, [FlushPage(page)] + ([Read(id)] + StaleTail(id, page))).m)
  {
    var page := s.loaders[id].page;
    var u := Apply(s, FlushPage(page));
    FlushPageKeeps(s.m, page);
    assert At(u.m.lower, page)[i] == s.m.io.snaps[page].bytes[i];
    RunCons(s, FlushPage(page), [Read(id)] + StaleTail(id, page));
    RunCons(u, Read(id), StaleTail(id, page));
    StaleTailDisagrees(Apply(u, Read(id)), id, page, i);
  }

  /** From any reachable state an unsafe capture can be driven to a resident page that disagrees. */
  lemma {:induction false} UnsafeCaptureGoesWrong(s: State, id: nat) returns (ops: seq<Op>)
    requires Inv(s) && id in s.loaders && s.loaders[id].phase.Missed? && !Safe(s.m, s.loaders[id].page)
    ensures AllCareful(Apply(s, Capture(id)), ops)
    ensures !Agreement(Run(Apply(s, Capture(id)), ops).m)
  {
    var page := s.loaders[id].page;
    var t := Apply(s, Capture(id));
    var i := FindUnsettled(s.m, page);
    StaleTailCapturesNothing(id, page);
    hide Run, Sound, Safe, StaleTail;
    if s.m.cache[page].bytes[i] != At(s.m.lower, page)[i] {
      ops := [Read(id)] + StaleTail(id, page);
      DirtyLoadGoesWrong(t, id, i);
    } else {
      ops := [FlushPage(page)] + ([Read(id)] + StaleTail(id, page));
      OldSnapshotGoesWrong(t, id, i);
    }
    NoCaptureIsCareful(t, ops);
  }

  predicate Unsettled(m: Memory, page: nat, i: nat)
    requires i < PAGE && page in m.cache
  {
    && !m.io.Writing? && m.cache[page].dirty.Covers(i)
    && (|| m.cache[page].bytes[i] != At(m.lower, page)[i]
        || (m.io.Flushing? && page in m.io.left && page in m.io.snaps && m.io.snaps[page].Covers(i)
            && m.io.snaps[page].bytes[i] != At(m.lower, page)[i]))
  }

  lemma {:induction false} FindUnsettled(m: Memory, page: nat) returns (i: nat)
    requires Sound(m) && !Safe(m, page)
    ensures i < PAGE && page in m.cache && Unsettled(m, page, i)
  {
    if page in m.cache && !Same(m, page, m.cache[page].bytes, At(m.lower, page)) {
      assert PageAgrees(m, page);
      i :| 0 <= i < PAGE && !InFlight(m, page, i) && m.cache[page].bytes[i] != At(m.lower, page)[i];
    } else {
      var snap := m.io.snaps[page];
      assert SnapshotHolds(m, page, snap);
      i :| 0 <= i < PAGE && snap.Covers(i) && At(m.lower, page)[i] != snap.bytes[i];
    }
  }

  lemma {:induction false} StaleTailCapturesNothing(id: nat, page: nat)
    ensures forall op :: op in StaleTail(id, page) ==> !op.Capture?
  {
    assert StaleTail(id, page) == [FlushFail, FlushBegin({page}), FlushPage(page), FlushSync, FlushDone, Evict(page), Install(id, true)];
  }

  lemma {:induction false} NoCaptureIsCareful(s: State, ops: seq<Op>)
    requires forall op :: op in ops ==> !op.Capture?
    ensures AllCareful(s, ops)
    decreases |ops|
  {
    if ops != [] {
      NoCaptureIsCareful(Apply(s, ops[0]), ops[1..]);
    }
  }

  /** Agreement survives every continuation of a load exactly when its page was safe at the epoch capture. */
  lemma {:induction false} LoadIsHarmlessIff(s: State, id: nat)
    requires Inv(s) && id in s.loaders && s.loaders[id].phase.Missed?
    ensures var t := Apply(s, Capture(id));
      Safe(s.m, s.loaders[id].page) <==> forall ops :: AllCareful(t, ops) ==> Agreement(Run(t, ops).m)
  {
    var t := Apply(s, Capture(id));
    if Safe(s.m, s.loaders[id].page) {
      ApplyKeeps(s, Capture(id));
      forall ops | AllCareful(t, ops) ensures Agreement(Run(t, ops).m) {
        CarefulRunsAgree(t, ops);
      }
    } else {
      var ops := UnsafeCaptureGoesWrong(s, id);
    }
  }

  /** Caller 1 misses page 0; caller 2 loads it and one byte is staged before caller 1 goes on. */
  function MissThenStage(): seq<Op> {
    [Begin(1, 0), Lookup(1), Begin(2, 0), Lookup(2), Capture(2), Read(2), Install(2, true), Stage(0, Piece(0, [1]))]
  }

  /** Agreement fails on a run of two callers: the code checks the cache before it captures the epoch. */
  lemma {:induction false} StaleLoadIsReachable() returns (ops: seq<Op>)
    ensures ops == MissThenStage() + ([Capture(1)] + ([Read(1)] + StaleTail(1, 0)))
    ensures !Agreement(Run(Init, ops).m)
  {
    var s1 := Apply(Init, Begin(1, 0));
    var s2 := Apply(s1, Lookup(1));
    var s3 := Apply(s2, Begin(2, 0));
    var s4 := Apply(s3, Lookup(2));
    var s5 := Apply(s4, Capture(2));
    var s6 := Apply(s5, Read(2));
    var s7 := Apply(s6, Install(2, true));
    var s8 := Apply(s7, Stage(0, Piece(0, [1])));
    var s9 := Apply(s8, Capture(1));
    assert s7.m == Inserted(Init.m, 0, Zeros());
    InsertKeeps(Init.m, 0, Zeros());
    StageKeeps(s7.m, 0, Piece(0, [1]));
    DirtyLoadGoesWrong(s9, 1, 0);
    var tail := [Read(1)] + StaleTail(1, 0);
    ops := MissThenStage() + ([Capture(1)] + tail);
    hide Apply, StaleTail;
    assert ops[8..] == [Capture(1)] + tail;
    RunCons(s8, Capture(1), tail);
    RunDrops(Init, ops);
    RunDrops(s1, ops[1..]);
    RunDrops(s2, ops[2..]);
    RunDrops(s3, ops[3..]);
    RunDrops(s4, ops[4..]);
    RunDrops(s5, ops[5..]);
    RunDrops(s6, ops[6..]);
    RunDrops(s7, ops[7..]);
  }

  lemma {:induction false} RunDrops(s: State, ops: seq<Op>)
    requires ops != []
    ensures Run(s, ops) == Run(Apply(s, ops[0]), ops[1..])
  {
  }

  // ------------------------------------------------------------------ flushing

  /** A page that turns clean had its dirty bytes written and synced first. */
  lemma {:induction false} SyncedBeforeClean(m: Memory, op: Op, page: nat)
    requires Sound(m) && page in m.cache && m.cache[page].dirty.Dirty?
    requires var n := MemoryStep(m, op); page !in n.cache || n.cache[page].dirty.Clean?
    ensures op.FlushDone?
    ensures forall i :: 0 <= i < PAGE && m.cache[page].dirty.Covers(i) ==>
      At(m.durable, page)[i] == m.cache[page].bytes[i] && At(m.lower, page)[i] == m.cache[page].bytes[i]
  {
    var n := MemoryStep(m, op);
    if op.FlushDone? {
      assert SnapshotHolds(m, page, m.io.snaps[page]);
    }
  }

  /** Staged since the running flush took its snapshot, if it took one. */
  ghost predicate StagedSince(m: Memory, page: nat, i: int) {
    && page in m.cache && m.cache[page].dirty.Covers(i)
    && (m.io.Flushing? && page in m.io.snaps ==> m.io.snaps[page].version < m.cache[page].version)
  }

  lemma {:induction false} StagingOutrunsSnapshots(m: Memory, page: nat, piece: Piece, i: int)
    requires Sound(m) && page in m.cache && piece.Fits() && piece.Covers(i)
    ensures StagedSince(MemoryStep(m, Stage(page, piece)), page, i)
  {
    if m.io.Flushing? && page in m.io.snaps {
      assert SnapshotHolds(m, page, m.io.snaps[page]);
    }
  }

  /** Bytes staged during a flush stay dirty through its end, until a later flush begins. */
  lemma {:induction false} StagedStaysDirty(s: State, ops: seq<Op>, page: nat, i: int)
    requires StagedSince(s.m, page, i) && forall op :: op in ops ==> !op.FlushBegin?
    ensures StagedSince(Run(s, ops).m, page, i)
    decreases |ops|
  {
    if ops != [] {
      StagedStep(s, ops[0], page, i);
      hide StagedSince, Apply;
      StagedStaysDirty(Apply(s, ops[0]), ops[1..], page, i);
    }
  }

  lemma {:induction false} StagedStep(s: State, op: Op, page: nat, i: int)
    requires StagedSince(s.m, page, i) && !op.FlushBegin?
    ensures StagedSince(Apply(s, op).m, page, i)
  {
  }
}
