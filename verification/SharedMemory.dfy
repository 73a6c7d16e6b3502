/**
 A resizable memory object: frames behind page indices, stores through mappings that may
 reach past the length, and resizes that zero, revoke and drop. Refines a flat byte array.
 */
module SharedPages {
  import opened Common
  import opened PageBytes
  import opened ByteExtent

  /** The page ledger and the frames it owns. */
  datatype Store = Store(length: nat, pages: map<nat, nat>, memory: map<nat, Page>)

  ghost predicate WellFormed(s: Store) {
    && (forall i :: i in s.pages ==> i < PageCount(s.length, PAGE) && s.pages[i] in s.memory)
    && (forall i, j :: i in s.pages && j in s.pages && s.pages[i] == s.pages[j] ==> i == j)
  }

  /** An absent page reads as zeros. */
  function PageAt(s: Store, index: nat): Page {
    if index in s.pages && s.pages[index] in s.memory then s.memory[s.pages[index]] else Zeros()
  }

  /** What the object is to its users. */
  function Flat(s: Store): seq<Byte> {
    seq(s.length, a requires 0 <= a < s.length => PageAt(s, a / PAGE)[a % PAGE])
  }

  // ---------------------------------------------------------------- operations

  /** A zeroed frame is put behind an absent page. */
  function Populated(s: Store, index: nat, frame: nat): Store {
    s.(pages := s.pages[index := frame], memory := s.memory[frame := Zeros()])
  }

  /** A store into a present page, by the kernel or through a mapping, possibly past the length. */
  function Poked(s: Store, index: nat, piece: Piece): Store
    requires index in s.pages && piece.Fits()
  {
    s.(memory := s.memory[s.pages[index] := Overlay(PageAt(s, index), piece)])
  }

  /** The span lies in one page and ends with it. */
  predicate OnePage(span: Option<Span>) {
    span.Some? ==> span.value.start < span.value.end && span.value.start % PAGE + (span.value.end - span.value.start) == PAGE
  }

  /** Zeroing of the boundary page, if there is one and it is present. */
  function Zeroed(s: Store, span: Option<Span>): Store
    requires OnePage(span)
  {
    if span.Some? && span.value.start / PAGE in s.pages
    then Poked(s, span.value.start / PAGE, Piece(span.value.start % PAGE, seq(span.value.end - span.value.start, _ => 0)))
    else s
  }

  /** The commit of a resize: zero the boundary, drop whole pages beyond the new extent, publish the length. */
  function Resized(s: Store, plan: ResizePlan): Store
    requires OnePage(plan.zero)
  {
    var z := Zeroed(s, plan.zero);
    Store(plan.length, if plan.length < s.length then map i | i in z.pages && i < plan.capacity / PAGE :: z.pages[i] else z.pages,
          z.memory)
  }

  /** The boundary page needs preparation only when it is present; revocation only when the plan asks for it. */
  predicate Commits(s: Store, plan: ResizePlan, prepared: bool, revoked: bool) {
    && (plan.zero.Some? && plan.zero.value.start / PAGE in s.pages ==> prepared)
    && (plan.invalidate.Some? ==> revoked)
  }

  // ------------------------------------------------------------ the flat array

  /** A store into a flat array, cut off at its end. */
  function Stored(flat: seq<Byte>, offset: nat, bytes: seq<Byte>): seq<Byte> {
    seq(|flat|, a requires 0 <= a < |flat| => if offset <= a < offset + |bytes| then bytes[a - offset] else flat[a])
  }

  /** Shrinking truncates, growing appends zeros. */
  function Sized(flat: seq<Byte>, length: nat): seq<Byte> {
    if length <= |flat| then flat[..length] else flat + seq(length - |flat|, _ => 0)
  }

  lemma {:induction false} StoredNothing(flat: seq<Byte>, offset: nat)
    ensures Stored(flat, offset, []) == flat
  {
  }

  lemma {:induction false} PopulateRefines(s: Store, index: nat, frame: nat)
    requires WellFormed(s) && index !in s.pages && index < PageCount(s.length, PAGE)
    requires frame !in s.pages.Values
    ensures WellFormed(Populated(s, index, frame)) && Flat(Populated(s, index, frame)) == Flat(s)
  {
    var t := Populated(s, index, frame);
    assert forall i :: i in s.pages ==> s.pages[i] != frame;
    assert forall i :: PageAt(t, i) == PageAt(s, i);
  }

  lemma {:induction false} PokeRefines(s: Store, index: nat, piece: Piece)
    requires WellFormed(s) && index in s.pages && piece.Fits()
    ensures WellFormed(Poked(s, index, piece))
    ensures Flat(Poked(s, index, piece)) == Stored(Flat(s), index * PAGE + piece.start, piece.bytes)
  {
    var t := Poked(s, index, piece);
    assert forall i :: PageAt(t, i) == if i == index then Overlay(PageAt(s, index), piece) else PageAt(s, i);
    assert WellFormed(t);
    hide WellFormed, Poked, PageAt, Overlay;
    var flat, stored := Flat(t), Stored(Flat(s), index * PAGE + piece.start, piece.bytes);
    forall a | 0 <= a < s.length ensures flat[a] == stored[a] {
      var i, j := a / PAGE, a % PAGE;
      assert a == i * PAGE + j && flat[a] == PageAt(t, i)[j] && Flat(s)[a] == PageAt(s, i)[j];
    }
  }

  lemma {:induction false} PlanFits(oldLength: nat, length: nat, maximumPages: nat)
    requires Plan(oldLength, length, PAGE, maximumPages).Ok?
    ensures OnePage(Plan(oldLength, length, PAGE, maximumPages).value.zero)
  {
    PlanGeometry(oldLength, length, PAGE, maximumPages);
  }

  lemma {:induction false} ZeroRefines(s: Store, span: Option<Span>)
    requires WellFormed(s) && OnePage(span)
    ensures WellFormed(Zeroed(s, span)) && Zeroed(s, span).pages == s.pages && Zeroed(s, span).length == s.length
    ensures span.None? ==> Zeroed(s, span) == s
    ensures forall i, j :: 0 <= i && 0 <= j < PAGE ==>
      PageAt(Zeroed(s, span), i)[j] ==
      if span.Some? && span.value.start <= i * PAGE + j < span.value.end then 0 else PageAt(s, i)[j]
  {
    if span.Some? && span.value.start / PAGE in s.pages {
      var piece := Piece(span.value.start % PAGE, seq(span.value.end - span.value.start, _ => 0));
      PokeRefines(s, span.value.start / PAGE, piece);
    }
  }

  lemma {:induction false} ResizeKeepsForm(s: Store, length: nat, maximumPages: nat)
    requires WellFormed(s) && Plan(s.length, length, PAGE, maximumPages).Ok?
    requires OnePage(Plan(s.length, length, PAGE, maximumPages).value.zero)
    ensures WellFormed(Resized(s, Plan(s.length, length, PAGE, maximumPages).value))
  {
    var plan := Plan(s.length, length, PAGE, maximumPages).value;
    ZeroRefines(s, plan.zero);
    CapacityArithmetic(length, PAGE);
    CapacityArithmetic(s.length, PAGE);
    if s.length <= length {
      CapacityIsCeiling(s.length, PAGE, PageCount(length, PAGE));
    }
    hide PageCount, Zeroed;
  }

  lemma {:induction false} ResizedByte(s: Store, length: nat, maximumPages: nat, a: nat)
    requires WellFormed(s) && Plan(s.length, length, PAGE, maximumPages).Ok? && a < length
    requires OnePage(Plan(s.length, length, PAGE, maximumPages).value.zero)
    ensures PageAt(Resized(s, Plan(s.length, length, PAGE, maximumPages).value), a / PAGE)[a % PAGE] ==
      if a < s.length then PageAt(s, a / PAGE)[a % PAGE] else 0
  {
    var plan := Plan(s.length, length, PAGE, maximumPages).value;
    var z := Zeroed(s, plan.zero);
    var index, within := a / PAGE, a % PAGE;
    ZeroRefines(s, plan.zero);
    CapacityArithmetic(length, PAGE);
    CapacityArithmetic(s.length, PAGE);
    assert a == index * PAGE + within;
    hide Zeroed;
    assert PageAt(Resized(s, plan), index) == PageAt(z, index);
    if PageCount(s.length, PAGE) * PAGE <= a {
      assert index !in s.pages;
    }
  }

  /** Surviving bytes survive, newly exposed bytes are zero, and no page outlives the extent. */
  lemma {:induction false} ResizeRefines(s: Store, length: nat, maximumPages: nat)
    requires WellFormed(s) && Plan(s.length, length, PAGE, maximumPages).Ok?
    ensures OnePage(Plan(s.length, length, PAGE, maximumPages).value.zero)
    ensures var t := Resized(s, Plan(s.length, length, PAGE, maximumPages).value);
      WellFormed(t) && Flat(t) == Sized(Flat(s), length)
  {
    PlanFits(s.length, length, maximumPages);
    ResizeKeepsForm(s, length, maximumPages);
    var t := Resized(s, Plan(s.length, length, PAGE, maximumPages).value);
    assert t.length == length;
    hide Resized, WellFormed, PageAt;
    forall a | 0 <= a < length ensures Flat(t)[a] == Sized(Flat(s), length)[a] {
      ResizedByte(s, length, maximumPages, a);
    }
  }
}

/** Every history of a memory object: population, stores, resizes, and pages prepared for mapping. */
module SharedMemoryRuns {
  import opened Common
  import opened PageBytes
  import opened ByteExtent
  import opened SharedPages

  /** A page prepared for installation outside the object's lock. */
  datatype Token = Token(index: nat, frame: nat, generation: nat)

  datatype State = State(store: Store, maximumPages: nat, generation: nat, tokens: map<nat, Token>)

  datatype Op =
    | Populate(index: nat, frame: nat)
    | Poke(index: nat, piece: Piece)
    | Resize(length: nat, prepared: bool, revoked: bool)
    | Prepare(id: nat, index: nat, frame: nat)
    | Drop(id: nat)

  /** The allocator never hands out a frame the object or a prepared page still holds. */
  predicate Free(s: State, frame: nat) {
    frame !in s.store.pages.Values && forall id :: id in s.tokens ==> s.tokens[id].frame != frame
  }

  function PopulateStep(s: State, index: nat, frame: nat): State {
    if index < PageCount(s.store.length, PAGE) && index !in s.store.pages && Free(s, frame)
    then s.(store := Populated(s.store, index, frame)) else s
  }

  function PrepareStep(s: State, id: nat, index: nat, frame: nat): State {
    var p := PopulateStep(s, index, frame);
    if index in p.store.pages && id !in p.tokens
    then p.(tokens := p.tokens[id := Token(index, p.store.pages[index], p.generation)]) else p
  }

  predicate Resizes(s: State, length: nat, prepared: bool, revoked: bool) {
    var plan := Plan(s.store.length, length, PAGE, s.maximumPages);
    && length != s.store.length && s.generation < MAX_U64
    && plan.Ok? && Commits(s.store, plan.value, prepared, revoked) && OnePage(plan.value.zero)
  }

  function ResizeStep(s: State, length: nat, prepared: bool, revoked: bool): State {
    if Resizes(s, length, prepared, revoked)
    then s.(store := Resized(s.store, Plan(s.store.length, length, PAGE, s.maximumPages).value), generation := s.generation + 1)
    else s
  }

  function Apply(s: State, op: Op): State {
    match op
    case Populate(index, frame) => PopulateStep(s, index, frame)
    case Poke(index, piece) => if index in s.store.pages && piece.Fits() then s.(store := Poked(s.store, index, piece)) else s
    case Resize(length, prepared, revoked) => ResizeStep(s, length, prepared, revoked)
    case Prepare(id, index, frame) => PrepareStep(s, id, index, frame)
    case Drop(id) => s.(tokens := s.tokens - {id})
  }

  function Run(s: State, ops: seq<Op>): State
    decreases |ops|
  {
    if ops == [] then s else Run(Apply(s, ops[0]), ops[1..])
  }

  /** What an operation does to the flat array. */
  function Effect(s: State, op: Op, flat: seq<Byte>): seq<Byte> {
    match op
    case Poke(index, piece) =>
      if index in s.store.pages && piece.Fits() then Stored(flat, index * PAGE + piece.start, piece.bytes) else flat
    case Resize(length, prepared, revoked) => if Resizes(s, length, prepared, revoked) then Sized(flat, length) else flat
    case _ => flat
  }

  function Effects(s: State, ops: seq<Op>, flat: seq<Byte>): seq<Byte>
    decreases |ops|
  {
    if ops == [] then flat else Effects(Apply(s, ops[0]), ops[1..], Effect(s, ops[0], flat))
  }

  /** A token of the current generation names the page's current frame. */
  ghost predicate TokensHold(s: State) {
    forall id :: id in s.tokens ==>
      && s.tokens[id].generation <= s.generation
      && (s.tokens[id].generation == s.generation ==>
            s.tokens[id].index in s.store.pages && s.store.pages[s.tokens[id].index] == s.tokens[id].frame)
  }

  ghost predicate Inv(s: State) {
    WellFormed(s.store) && TokensHold(s)
  }

  lemma {:induction false} ApplyRefines(s: State, op: Op)
    requires Inv(s)
    ensures Inv(Apply(s, op))
    ensures Flat(Apply(s, op).store) == Effect(s, op, Flat(s.store))
  {
    hide WellFormed, Flat, Populated, Poked, Resized, PageCount;
    match op
    case Populate(index, frame) => PopulateKeeps(s, index, frame);
    case Poke(index, piece) =>
      if index in s.store.pages && piece.Fits() { PokeKeeps(s, index, piece); }
    case Resize(length, prepared, revoked) =>
      if Resizes(s, length, prepared, revoked) { ResizeRefines(s.store, length, s.maximumPages); }
    case Prepare(id, index, frame) => PopulateKeeps(s, index, frame);
    case Drop(id) =>
  }

  lemma {:induction false} PopulateKeeps(s: State, index: nat, frame: nat)
    requires Inv(s)
    ensures Inv(PopulateStep(s, index, frame)) && Flat(PopulateStep(s, index, frame).store) == Flat(s.store)
    ensures PopulateStep(s, index, frame).tokens == s.tokens && PopulateStep(s, index, frame).generation == s.generation
  {
    if PopulateStep(s, index, frame) != s {
      PopulateRefines(s.store, index, frame);
    }
  }

  lemma {:induction false} PokeKeeps(s: State, index: nat, piece: Piece)
    requires Inv(s) && index in s.store.pages && piece.Fits()
    ensures Inv(s.(store := Poked(s.store, index, piece)))
    ensures Flat(Poked(s.store, index, piece)) == Stored(Flat(s.store), index * PAGE + piece.start, piece.bytes)
  {
    PokeRefines(s.store, index, piece);
  }

  /** After any history the object is what the flat array became under the same effects. */
  lemma {:induction false} RunRefines(s: State, ops: seq<Op>)
    requires Inv(s)
    ensures Inv(Run(s, ops)) && Flat(Run(s, ops).store) == Effects(s, ops, Flat(s.store))
    decreases |ops|
  {
    if ops != [] {
      ApplyRefines(s, ops[0]);
      hide Inv, Apply, Effect, Flat;
      RunRefines(Apply(s, ops[0]), ops[1..]);
    }
  }

  /** A prepared page whose generation still matches is the page's current frame, whatever happened meanwhile. */
  lemma {:induction false} InstalledIsCurrent(s: State, ops: seq<Op>, id: nat)
    requires Inv(s)
    ensures var t := Run(s, ops); id in t.tokens && t.tokens[id].generation == t.generation ==>
      t.tokens[id].index in t.store.pages && t.store.pages[t.tokens[id].index] == t.tokens[id].frame
  {
    RunRefines(s, ops);
  }

  /** The generation moves exactly with the length, one step at a time. */
  lemma {:induction false} GenerationMovesWithLength(s: State, op: Op)
    requires Inv(s)
    ensures Apply(s, op).generation == s.generation + (if Apply(s, op).store.length != s.store.length then 1 else 0)
    ensures Apply(s, op).store.length == s.store.length ==> forall i :: i in s.store.pages ==>
      i in Apply(s, op).store.pages && Apply(s, op).store.pages[i] == s.store.pages[i]
  {
  }
}

/** The memory object itself, with its chunked copies and its removal loop. */
module SharedMemory {
  import opened Common
  import opened PageBytes
  import opened ByteExtent
  import opened SharedPages

  datatype Error = InvalidArgument | ResourceUnavailable | BackingFailure

  datatype Reply<T> = Done(value: T) | Failed(error: Error)

  lemma {:induction false} LastKey(pages: map<nat, nat>) returns (last: nat)
    requires pages != map[]
    ensures last in pages && forall i :: i in pages ==> i <= last
    decreases |pages|
  {
    last :| last in pages;
    var rest := pages - {last};
    assert rest.Keys == pages.Keys - {last};
    assert forall i :: i in pages ==> i == last || i in rest;
    if rest != map[] {
      var other := LastKey(rest);
      if last < other {
        last := other;
      }
    }
  }

  /** A whole store is the store of its first part and then of the rest. */
  lemma {:induction false} StoredInParts(flat: seq<Byte>, offset: nat, bytes: seq<Byte>, done: nat, count: nat)
    requires done + count <= |bytes|
    ensures Stored(Stored(flat, offset, bytes[..done]), offset + done, bytes[done..done + count]) ==
      Stored(flat, offset, bytes[..done + count])
  {
  }

  lemma FlatLength(s: Store)
    ensures |Flat(s)| == s.length
  {
  }

  lemma SizedSame(flat: seq<Byte>)
    ensures Sized(flat, |flat|) == flat
  {
  }

  lemma {:induction false} FewerPagesKeep(s: Store, pages: map<nat, nat>)
    requires WellFormed(s) && forall i :: i in pages ==> i in s.pages && pages[i] == s.pages[i]
    ensures WellFormed(s.(pages := pages))
  {
  }

  lemma {:induction false} FlatChunk(s: Store, index: nat, within: nat, count: nat)
    requires within + count <= PAGE && index * PAGE + within + count <= s.length
    ensures PageAt(s, index)[within..within + count] == Flat(s)[index * PAGE + within..index * PAGE + within + count]
  {
    var page, flat, base := PageAt(s, index), Flat(s), index * PAGE;
    forall k | within <= k < within + count ensures page[k] == flat[base + k] {
      QuotientIs(base + k, PAGE, index, k);
    }
    var left, right := page[within..within + count], flat[base + within..base + within + count];
    assert forall i :: 0 <= i < count ==> left[i] == page[within + i];
    assert forall i :: 0 <= i < count ==> right[i] == flat[base + (within + i)];
  }

  lemma SlicesJoin(s: seq<Byte>, low: nat, middle: nat, high: nat)
    requires low <= middle <= high <= |s|
    ensures s[low..middle] + s[middle..high] == s[low..high]
  {}

  lemma PageBelowLength(current: nat, length: nat)
    requires current < length
    ensures current / PAGE < PageCount(length, PAGE)
  {
    CapacityArithmetic(length, PAGE);
  }

  class MemoryObject {
    const maximumPages: nat
    var length: nat
    var generation: nat
    var pages: map<nat, nat>
    var memory: map<nat, Page>
    // Frames the allocator can still hand out; it fails when none is left.
    var free: seq<nat>

    ghost function View(): Store
      reads this
    {
      Store(length, pages, memory)
    }

    ghost function Contents(): seq<Byte>
      reads this
    {
      Flat(View())
    }

    ghost predicate Valid()
      reads this
    {
      && WellFormed(View())
      && (forall i :: i in pages ==> pages[i] !in free)
      && (forall i, j :: 0 <= i < j < |free| ==> free[i] != free[j])
    }

    constructor (bytes: nat, limit: nat, frames: seq<nat>)
      requires Plan(0, bytes, PAGE, limit).Ok? && forall i, j :: 0 <= i < j < |frames| ==> frames[i] != frames[j]
      ensures Valid() && length == bytes && generation == 0 && Contents() == seq(bytes, _ => 0) && maximumPages == limit
    {
      maximumPages, length, generation, pages, memory, free := limit, bytes, 0, map[], map[], frames;
    }

    /** The page's frame, populated with a zeroed one if absent; the contents never change. */
    method PageOrTryInsert(index: nat) returns (r: Reply<nat>)
      requires Valid()
      modifies this`pages, this`memory, this`free
      ensures Valid() && Contents() == old(Contents())
      ensures r.Done? ==> index in pages && pages[index] == r.value
      ensures r == Failed(InvalidArgument) <==> index >= PageCount(length, PAGE)
      ensures r == Failed(ResourceUnavailable) <==> index < PageCount(length, PAGE) && index !in old(pages) && old(free) == []
      ensures forall i :: i in old(pages) ==> i in pages && pages[i] == old(pages)[i]
      ensures r.Failed? ==> unchanged(this) && r.error != BackingFailure
    {
      if index >= PageCount(length, PAGE) {
        return Failed(InvalidArgument);
      }
      if index in pages {
        return Done(pages[index]);
      }
      if free == [] {
        return Failed(ResourceUnavailable);
      }
      var frame := free[0];
      assert frame !in pages.Values;
      PopulateRefines(View(), index, frame);
      pages := pages[index := frame];
      memory := memory[frame := Zeros()];
      free := free[1..];
      return Done(frame);
    }

    /** One chunk of a copy: the part of the transfer that falls into one page. */
    method StoreChunk(index: nat, piece: Piece)
      requires Valid() && index in pages && piece.Fits()
      modifies this`memory
      ensures Valid() && Contents() == Stored(old(Contents()), index * PAGE + piece.start, piece.bytes)
    {
      PokeRefines(View(), index, piece);
      memory := memory[pages[index] := Overlay(memory[pages[index]], piece)];
    }

    /** Stores from here to the end of the page or of the input; nothing when no frame is left. */
    method WriteChunk(current: nat, input: seq<Byte>) returns (count: nat)
      requires Valid() && input != [] && current + |input| <= length
      modifies this`pages, this`memory, this`free
      ensures Valid() && count <= |input|
      ensures count == 0 ==> Contents() == old(Contents()) && free == [] && current / PAGE !in pages
      ensures Contents() == Stored(old(Contents()), current, input[..count])
    {
      var index, within := current / PAGE, current % PAGE;
      PageBelowLength(current, length);
      var page := PageOrTryInsert(index);
      if page.Failed? {
        StoredNothing(Contents(), current);
        return 0;
      }
      count := if |input| < PAGE - within then |input| else PAGE - within;
      StoreChunk(index, Piece(within, input[..count]));
    }

    /** The bytes from here to the end of the page or of the request. */
    method ReadChunk(current: nat, left: nat) returns (r: Reply<seq<Byte>>)
      requires Valid() && left > 0 && current + left <= length
      modifies this`pages, this`memory, this`free
      ensures Valid() && Contents() == old(Contents()) && |Contents()| == length
      ensures r.Done? ==> 0 < |r.value| <= left && r.value == Contents()[current..current + |r.value|]
      ensures r.Failed? ==> free == [] && current / PAGE !in pages
    {
      var index, within := current / PAGE, current % PAGE;
      PageBelowLength(current, length);
      var page := PageOrTryInsert(index);
      FlatLength(View());
      if page.Failed? {
        return Failed(page.error);
      }
      var count := if left < PAGE - within then left else PAGE - within;
      FlatChunk(View(), index, within, count);
      r := Done(memory[page.value][within..within + count]);
    }

    /** All of the input, or after a failed allocation a prefix of it. */
    method WriteAt(offset: nat, input: seq<Byte>) returns (r: Reply<nat>)
      requires Valid()
      modifies this`pages, this`memory, this`free
      ensures Valid()
      ensures r == Failed(InvalidArgument) <==> offset + |input| > length
      ensures r == Failed(InvalidArgument) ==> Contents() == old(Contents())
      ensures r.Done? ==> r.value == |input| && Contents() == Stored(old(Contents()), offset, input)
      ensures r == Failed(ResourceUnavailable) ==> free == []
      ensures r == Failed(ResourceUnavailable) ==>
        exists done :: 0 <= done < |input| && (offset + done) / PAGE !in pages && Contents() == Stored(old(Contents()), offset, input[..done])
      ensures r.Failed? ==> r.error != BackingFailure
    {
      if offset + |input| > length {
        return Failed(InvalidArgument);
      }
      hide WellFormed, Flat, PageCount, Stored;
      ghost var before := Contents();
      StoredNothing(before, offset);
      var done := 0;
      while done < |input|
        invariant done <= |input| && Valid()
        invariant Contents() == Stored(before, offset, input[..done])
      {
        var count := WriteChunk(offset + done, input[done..]);
        if count == 0 {
          return Failed(ResourceUnavailable);
        }
        assert input[done..][..count] == input[done..done + count];
        StoredInParts(before, offset, input, done, count);
        done := done + count;
      }
      assert input[..done] == input;
      return Done(|input|);
    }

    /** A read returns the bytes below the length, and cuts off at it. */
    method ReadAt(offset: nat, count: nat) returns (r: Reply<seq<Byte>>)
      requires Valid()
      modifies this`pages, this`memory, this`free
      ensures Valid() && Contents() == old(Contents())
      ensures r == Failed(InvalidArgument) <==> offset > length
      ensures r == Failed(ResourceUnavailable) ==>
        free == [] && exists at :: offset <= at < offset + count && at < length && at / PAGE !in pages
      ensures r.Done? ==> offset <= length
      ensures r.Done? ==> r.value == old(Contents())[offset..if offset + count < length then offset + count else length]
      ensures r.Failed? ==> r.error != BackingFailure
    {
      if offset > length {
        return Failed(InvalidArgument);
      }
      FlatLength(View());
      hide WellFormed, Flat, PageCount;
      r := ReadAll(offset, if count < length - offset then count else length - offset);
    }

    /** The chunk loop of a read that lies below the length. */
    method ReadAll(offset: nat, wanted: nat) returns (r: Reply<seq<Byte>>)
      requires Valid() && offset + wanted <= length
      modifies this`pages, this`memory, this`free
      ensures Valid() && Contents() == old(Contents()) && |Contents()| == length
      ensures r.Done? ==> r.value == Contents()[offset..offset + wanted]
      ensures r.Failed? ==> r.error == ResourceUnavailable && free == []
      ensures r.Failed? ==> exists at :: offset <= at < offset + wanted && at / PAGE !in pages
    {
      FlatLength(View());
      hide WellFormed, Flat, PageCount;
      ghost var contents := Contents();
      var output: seq<Byte> := [];
      while |output| < wanted
        invariant |output| <= wanted && Valid() && Contents() == contents && |contents| == length
        invariant output == contents[offset..offset + |output|]
      {
        var at := offset + |output|;
        var chunk := ReadChunk(at, wanted - |output|);
        if chunk.Failed? {
          return Failed(ResourceUnavailable);
        }
        SlicesJoin(contents, offset, at, at + |chunk.value|);
        output := output + chunk.value;
      }
      return Done(output);
    }

    /** The generation can still move, the limits hold, and every callback the plan needs succeeds. */
    ghost predicate Permits(newLength: nat, prepared: bool, revoked: bool)
      reads this
    {
      var plan := Plan(length, newLength, PAGE, maximumPages);
      generation < MAX_U64 && plan.Ok? && Commits(View(), plan.value, prepared, revoked)
    }

    /** A resize either keeps every surviving byte and exposes only zeros, or changes nothing at all. */
    method Resize(newLength: nat, prepared: bool, revoked: bool) returns (r: Reply<()>)
      requires Valid()
      modifies this`length, this`generation, this`pages, this`memory
      ensures Valid()
      ensures r.Done? ==> Contents() == Sized(old(Contents()), newLength)
      ensures r.Done? ==> generation == old(generation) + (if newLength == old(length) then 0 else 1)
      ensures r.Failed? ==> View() == old(View()) && generation == old(generation)
      ensures r.Done? <==> newLength == old(length) || old(Permits(newLength, prepared, revoked))
    {
      hide WellFormed, Flat, Plan, PageCount, Resized;
      if newLength == length {
        FlatLength(View());
        SizedSame(Contents());
        return Done(());
      }
      if generation >= MAX_U64 {
        return Failed(ResourceUnavailable);
      }
      var planned := Plan(length, newLength, PAGE, maximumPages);
      if planned.Err? {
        return Failed(if planned.error.Invalid? then InvalidArgument else ResourceUnavailable);
      }
      var plan := planned.value;
      ResizeRefines(View(), newLength, maximumPages);
      var boundary := plan.zero.Some? && plan.zero.value.start / PAGE in pages;
      if (boundary && !prepared) || (plan.invalidate.Some? && !revoked) {
        return Failed(BackingFailure);
      }
      Commit(plan);
      generation := generation + 1;
      return Done(());
    }

    /** The infallible action after every mapping of the affected span is revoked. */
    method Commit(plan: ResizePlan)
      requires Valid() && OnePage(plan.zero)
      requires WellFormed(Resized(View(), plan))
      modifies this`length, this`pages, this`memory
      ensures Valid() && View() == Resized(old(View()), plan)
    {
      hide WellFormed, Flat;
      if plan.zero.Some? && plan.zero.value.start / PAGE in pages {
        ZeroBoundary(plan.zero.value.start / PAGE, plan.zero.value.start % PAGE, plan.zero.value.end - plan.zero.value.start);
      }
      if plan.length < length {
        RemovePages(plan.capacity / PAGE);
      }
      length := plan.length;
    }

    /** Byte by byte, as the boundary of a live mapping must be cleared. */
    method ZeroBoundary(index: nat, start: nat, count: nat)
      requires Valid() && index in pages && start + count <= PAGE
      modifies this`memory
      ensures Valid() && View() == Poked(old(View()), index, Piece(start, seq(count, _ => 0)))
    {
      var frame := pages[index];
      ghost var page := memory[frame];
      ghost var before := memory;
      var n := 0;
      while n < count
        invariant n <= count && frame in memory && memory == before[frame := memory[frame]]
        invariant forall i :: 0 <= i < PAGE ==> memory[frame][i] == if start <= i < start + n then 0 else page[i]
      {
        memory := memory[frame := memory[frame][start + n := 0]];
        n := n + 1;
      }
      assert memory[frame] == Overlay(page, Piece(start, seq(count, _ => 0)));
    }

    method Last() returns (last: nat)
      requires pages != map[]
      ensures last in pages && forall i :: i in pages ==> i <= last
    {
      ghost var top := LastKey(pages);
      last :| last in pages && forall i :: i in pages ==> i <= last;
    }

    /** Pops last pages until none is left at or beyond the first removed one. */
    method RemovePages(first: nat)
      requires Valid()
      modifies this`pages
      ensures Valid() && pages == map i | i in old(pages) && i < first :: old(pages)[i]
    {
      hide WellFormed, Flat;
      var last := 0;
      if pages != map[] {
        last := Last();
      }
      while pages != map[] && last >= first
        invariant forall i :: i in pages ==> i in old(pages) && pages[i] == old(pages)[i]
        invariant forall i :: i in old(pages) && i < first ==> i in pages
        invariant pages != map[] ==> last in pages && forall i :: i in pages ==> i <= last
        decreases |pages.Keys|
      {
        assert (pages - {last}).Keys == pages.Keys - {last};
        pages := pages - {last};
        if pages != map[] {
          last := Last();
        }
      }
      FewerPagesKeep(old(View()), pages);
    }
  }

  /** A new object of zeros, refused exactly when the byte geometry refuses its length. */
  method Create(bytes: nat, limit: nat, frames: seq<nat>) returns (r: Reply<MemoryObject>)
    requires forall i, j :: 0 <= i < j < |frames| ==> frames[i] != frames[j]
    ensures r.Done? <==> Plan(0, bytes, PAGE, limit).Ok?
    ensures r.Done? ==> r.value.Valid() && r.value.Contents() == seq(bytes, _ => 0) && r.value.maximumPages == limit
    ensures r.Failed? ==> r.error == if Plan(0, bytes, PAGE, limit).error.Invalid? then InvalidArgument else ResourceUnavailable
  {
    var plan := Plan(0, bytes, PAGE, limit);
    if plan.Err? {
      return Failed(if plan.error.Invalid? then InvalidArgument else ResourceUnavailable);
    }
    var created := new MemoryObject(bytes, limit, frames);
    return Done(created);
  }
}
