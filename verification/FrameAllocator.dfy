/**
 The physical frame allocator: a bump cursor over the memory map, a quarantine of freed
 frames, and a free list whose links and cookies live inside the freed frames.
 */
module FrameAllocator {
  import opened Common

  const FRAME: nat := 4096
  const MAX_U64: nat := 0xffff_ffff_ffff_ffff
  const FIRST_FRAME: nat := 0x100
  const QUARANTINE_CAP: nat := 32

  datatype Region = Region(start: nat, len: nat, usable: bool)

  /** The first sixteen bytes of a frame: a link and a cookie while it is free, user data otherwise. */
  datatype Meta = Meta(next: nat, cookie: nat)

  /** Where a frame that was handed out stands; `serial` and `depth` count quarantine entries and list depth. */
  datatype Role = Outstanding | Quarantined(serial: nat) | Free(depth: nat)

  datatype State = State(
    regions: seq<Region>,
    nextFrame: nat,
    nextRegion: nat,
    head: nat,
    quarantine: seq<nat>,
    ready: bool,
    meta: map<nat, Meta>,
    // History: what became of every frame ever handed out, the free frames from the oldest
    // to the head of the list, and how many frames have left the quarantine.
    role: map<nat, Role>,
    free: seq<nat>,
    released: nat)

  function MetaAt(s: State, a: nat): Meta {
    if a in s.meta then s.meta[a] else Meta(0, 0)
  }

  function Min(a: nat, b: nat): nat { if a < b then a else b }

  function AlignedStart(r: Region): nat { Min(r.start + (FRAME - 1), MAX_U64) / FRAME * FRAME }

  function AlignedEnd(r: Region): nat { Min(r.start + r.len, MAX_U64) / FRAME * FRAME }

  /** The address lies in a usable region. */
  predicate Usable(regions: seq<Region>, a: nat) {
    exists i :: 0 <= i < |regions| && regions[i].usable && regions[i].start <= a < regions[i].start + regions[i].len
  }

  /** The whole frame lies in one usable region. */
  ghost predicate Inside(regions: seq<Region>, a: nat) {
    exists i :: 0 <= i < |regions| && regions[i].usable && regions[i].start <= a && a + FRAME <= regions[i].start + regions[i].len
  }

  // ----------------------------------------------------------------- free list

  function PushFree(s: State, cookie: nat -> nat, a: nat): State {
    s.(meta := if s.ready then s.meta[a := Meta(s.head, cookie(a))] else s.meta, head := a,
       free := s.free + [a], role := s.role[a := Free(|s.free|)])
  }

  function ReleaseOldest(s: State, cookie: nat -> nat): State {
    if s.quarantine == [] then s
    else PushFree(s.(quarantine := s.quarantine[1..], released := s.released + 1), cookie, s.quarantine[0])
  }

  function Quarantine(s: State, cookie: nat -> nat, a: nat): State {
    s.(quarantine := s.quarantine + [a], meta := if s.ready then s.meta[a := Meta(0, cookie(a))] else s.meta,
       role := s.role[a := Quarantined(s.released + |s.quarantine|)])
  }

  function QuarantinePush(s: State, cookie: nat -> nat, a: nat): State {
    Quarantine(if |s.quarantine| >= QUARANTINE_CAP then ReleaseOldest(s, cookie) else s, cookie, a)
  }

  /** A frame is taken back unless it is not ours to manage or carries its own free cookie. */
  function Deallocate(s: State, cookie: nat -> nat, a: nat): (State, bool) {
    if a % FRAME != 0 || !Usable(s.regions, a) || !s.ready || MetaAt(s, a).cookie == cookie(a) then (s, false)
    else (QuarantinePush(s, cookie, a), true)
  }

  /** Follows the head of the list, checking what the frame says about itself. */
  function TakeFree(s: State, cookie: nat -> nat): (State, Option<nat>)
    requires s.head != 0
  {
    var a, m := s.head, MetaAt(s, s.head);
    if a % FRAME != 0 || !Usable(s.regions, a) || !s.ready || m.cookie != cookie(a) then (s.(head := 0), None)
    else
      var next := if m.next != 0 && m.next % FRAME == 0 && Usable(s.regions, m.next) then m.next else 0;
      (s.(head := next, meta := s.meta[a := Meta(0, 0)], role := s.role[a := Outstanding],
          free := if s.free == [] then [] else s.free[..|s.free| - 1]), Some(a))
  }

  // -------------------------------------------------------------------- cursor

  datatype Hit = Hit(address: nat, region: nat)

  /** The scan for a new frame: the first region not behind the cursor, and where the next scan starts. */
  function Scan(regions: seq<Region>, index: nat, minimum: nat, nextRegion: nat): (Option<Hit>, nat)
    decreases |regions| - index
  {
    if index >= |regions| then (None, nextRegion)
    else
      var r := regions[index];
      var start, end := AlignedStart(r), AlignedEnd(r);
      var a := if start < minimum then minimum else start;
      if !r.usable || r.len < FRAME || end <= start then Scan(regions, index + 1, minimum, nextRegion)
      else if a >= end then Scan(regions, index + 1, minimum, index + 1)
      else (Some(Hit(a, index)), nextRegion)
  }

  function Bump(s: State): (State, Option<nat>) {
    var (hit, skipped) := Scan(s.regions, s.nextRegion, Min(s.nextFrame * FRAME, MAX_U64), s.nextRegion);
    if hit.None? then (s.(nextRegion := skipped), None)
    else
      var a := hit.value.address;
      (s.(nextRegion := hit.value.region, nextFrame := a / FRAME + 1, role := s.role[a := Outstanding]), Some(a))
  }

  function Allocate(s: State, cookie: nat -> nat): (State, Option<nat>) {
    var r := if s.head == 0 && s.quarantine != [] then ReleaseOldest(s, cookie) else s;
    if r.head == 0 then Bump(r)
    else
      var (t, got) := TakeFree(r, cookie);
      if got.Some? then (t, got) else Bump(t)
  }

  /** The scan for a contiguous run; an overflowing request stops it. */
  function ScanRun(regions: seq<Region>, index: nat, minimum: nat, bytes: nat): Option<Hit>
    decreases |regions| - index
  {
    if index >= |regions| then None
    else
      var r := regions[index];
      var start, end := AlignedStart(r), AlignedEnd(r);
      var a := if start < minimum then minimum else start;
      if !r.usable || r.len < bytes || end <= start then ScanRun(regions, index + 1, minimum, bytes)
      else if a + bytes > MAX_U64 then None
      else if a + bytes > end then ScanRun(regions, index + 1, minimum, bytes)
      else Some(Hit(a, index))
  }

  function Frames(a: nat, count: nat): set<nat> {
    set k | 0 <= k < count :: a + k * FRAME
  }

  /** These frames are outstanding now. */
  function Taken(role: map<nat, Role>, frames: set<nat>): map<nat, Role> {
    role + map f | f in frames :: Outstanding
  }

  function Reserve(s: State, count: nat): (State, Option<nat>) {
    if count == 0 then (s, None)
    else
      var bytes := Min(count * FRAME, MAX_U64);
      var hit := ScanRun(s.regions, s.nextRegion, Min(s.nextFrame * FRAME, MAX_U64), bytes);
      if hit.None? then (s, None)
      else
        var a := hit.value.address;
        (s.(nextRegion := hit.value.region, nextFrame := (a + bytes) / FRAME, 
            role := Taken(s.role, Frames(a, count))),
         Some(a))
  }

  // ---------------------------------------------------------------- invariants

  /** Taken over by the cursor: a whole usable frame below it. */
  ghost predicate Managed(s: State, a: nat) {
    a % FRAME == 0 && 0 < a < s.nextFrame * FRAME && Inside(s.regions, a)
  }

  ghost predicate AllManaged(s: State) {
    forall a :: a in s.role ==> Managed(s, a)
  }

  /** The quarantine holds exactly the quarantined frames, each at the place its serial gives. */
  ghost predicate QuarantineHolds(s: State, cookie: nat -> nat) {
    && (forall i :: 0 <= i < |s.quarantine| ==>
          s.quarantine[i] in s.role && s.role[s.quarantine[i]] == Quarantined(s.released + i))
    && (forall a :: a in s.role && s.role[a].Quarantined? ==>
          IsQuarantined(s, a, s.role[a].serial) && MetaAt(s, a).cookie == cookie(a))
  }

  predicate IsQuarantined(s: State, a: nat, serial: nat) {
    s.released <= serial < s.released + |s.quarantine| && s.quarantine[serial - s.released] == a
  }

  /** The links inside the free frames lead through all of them once, downwards, and end. */
  ghost predicate ListHolds(s: State, cookie: nat -> nat) {
    && s.head == Below(s.free, |s.free|)
    && (forall d :: 0 <= d < |s.free| ==> s.free[d] in s.role && s.role[s.free[d]] == Free(d))
    && (forall a :: a in s.role && s.role[a].Free? ==> IsFree(s, cookie, a, s.role[a].depth))
  }

  predicate IsFree(s: State, cookie: nat -> nat, a: nat, depth: nat) {
    depth < |s.free| && s.free[depth] == a && MetaAt(s, a) == Meta(Below(s.free, depth), cookie(a))
  }

  /** The frame one further down the list, or the end. */
  function Below(free: seq<nat>, depth: nat): nat
    requires depth <= |free|
  {
    if depth == 0 then 0 else free[depth - 1]
  }

  ghost predicate Inv(s: State, cookie: nat -> nat) {
    && AllManaged(s) && QuarantineHolds(s, cookie) && ListHolds(s, cookie)
    && FIRST_FRAME <= s.nextFrame <= MAX_U64 / FRAME && |s.quarantine| <= QUARANTINE_CAP
    && (!s.ready ==> s.quarantine == [] && s.free == [])
  }

  // -------------------------------------------------------------------- scans

  /** Whatever the order of the map, a scan only finds whole frames at or beyond the cursor. */
  lemma {:induction false} ScanFinds(regions: seq<Region>, index: nat, minimum: nat, nextRegion: nat)
    requires minimum % FRAME == 0
    ensures var hit := Scan(regions, index, minimum, nextRegion).0;
      hit.Some? ==> var a := hit.value.address;
        minimum <= a && a % FRAME == 0 && a + FRAME <= MAX_U64 && Inside(regions, a)
    decreases |regions| - index
  {
    if index < |regions| {
      ScanFinds(regions, index + 1, minimum, nextRegion);
      ScanFinds(regions, index + 1, minimum, index + 1);
      RegionHolds(regions[index], minimum, FRAME);
    }
  }

  lemma {:induction false} RegionHolds(r: Region, minimum: nat, bytes: nat)
    requires minimum % FRAME == 0 && bytes % FRAME == 0 && bytes > 0
    ensures var a := if AlignedStart(r) < minimum then minimum else AlignedStart(r);
      AlignedStart(r) < AlignedEnd(r) && (a + bytes <= AlignedEnd(r) || (bytes == FRAME && a < AlignedEnd(r))) ==>
        minimum <= a && a % FRAME == 0 && r.start <= a && a + bytes <= r.start + r.len && a + bytes <= AlignedEnd(r) <= MAX_U64
  {
  }

  lemma {:induction false} ScanRunFinds(regions: seq<Region>, index: nat, minimum: nat, bytes: nat)
    requires minimum % FRAME == 0 && bytes % FRAME == 0 && bytes > 0
    ensures var hit := ScanRun(regions, index, minimum, bytes);
      hit.Some? ==> var a := hit.value.address;
        && minimum <= a && a % FRAME == 0 && a + bytes <= MAX_U64
        && exists i :: 0 <= i < |regions| && regions[i].usable && regions[i].start <= a && a + bytes <= regions[i].start + regions[i].len
    decreases |regions| - index
  {
    if index < |regions| {
      ScanRunFinds(regions, index + 1, minimum, bytes);
      RegionHolds(regions[index], minimum, bytes);
    }
  }

  /** The region has room for `bytes` at the aligned address, at or beyond the minimum. */
  predicate Offers(r: Region, minimum: nat, bytes: nat, a: nat) {
    r.usable && a % FRAME == 0 && minimum <= a && r.start <= a && a + bytes <= Min(r.start + r.len, MAX_U64)
  }

  ghost predicate NothingOffered(regions: seq<Region>, index: nat, minimum: nat, bytes: nat) {
    forall i, a: nat :: index <= i < |regions| ==> !Offers(regions[i], minimum, bytes, a)
  }

  lemma AlignedBounds(r: Region)
    ensures AlignedStart(r) % FRAME == 0 && AlignedStart(r) <= r.start + (FRAME - 1)
    ensures AlignedStart(r) < r.start ==> r.start + (FRAME - 1) > MAX_U64 && AlignedEnd(r) <= AlignedStart(r)
    ensures AlignedEnd(r) % FRAME == 0 && AlignedEnd(r) <= Min(r.start + r.len, MAX_U64) < AlignedEnd(r) + FRAME
  {}

  lemma AlignedOrder(x: nat, y: nat)
    requires x % FRAME == 0
    ensures y % FRAME == 0 && x < y + FRAME ==> x <= y
  {}

  /** The first aligned address of a region is where it offers room, if it does at all. */
  lemma {:induction false} OffersFirst(r: Region, minimum: nat, bytes: nat, a: nat)
    requires minimum % FRAME == 0 && bytes % FRAME == 0 && bytes > 0
    ensures var first := if AlignedStart(r) < minimum then minimum else AlignedStart(r);
      && (Offers(r, minimum, bytes, a) ==> first <= a && r.len >= bytes && first + bytes <= AlignedEnd(r))
      && (r.usable && AlignedStart(r) < AlignedEnd(r) && first + bytes <= AlignedEnd(r) ==> Offers(r, minimum, bytes, first))
  {
    AlignedBounds(r);
    AlignedOrder(AlignedStart(r), a);
    hide AlignedStart, AlignedEnd, Min;
  }

  /** A frame scan comes back empty exactly when no remaining region has a whole usable frame at or beyond the cursor. */
  lemma {:induction false} ScanMissesIff(regions: seq<Region>, index: nat, minimum: nat, nextRegion: nat)
    requires minimum % FRAME == 0
    ensures Scan(regions, index, minimum, nextRegion).0.None? <==> NothingOffered(regions, index, minimum, FRAME)
    decreases |regions| - index
  {
    if index < |regions| {
      var r := regions[index];
      var first := if AlignedStart(r) < minimum then minimum else AlignedStart(r);
      ScanMissesIff(regions, index + 1, minimum, nextRegion);
      ScanMissesIff(regions, index + 1, minimum, index + 1);
      OffersFirst(r, minimum, FRAME, first);
      forall a: nat ensures Offers(r, minimum, FRAME, a) ==> first <= a && r.len >= FRAME && first + FRAME <= AlignedEnd(r) {
        OffersFirst(r, minimum, FRAME, a);
      }
      FirstFits(r, minimum);
      hide Offers, AlignedStart, AlignedEnd;
    }
  }

  lemma FirstFits(r: Region, minimum: nat)
    requires minimum % FRAME == 0
    ensures var first := if AlignedStart(r) < minimum then minimum else AlignedStart(r);
      first + FRAME <= AlignedEnd(r) <==> first < AlignedEnd(r)
  {}

  /** A run that would start here would pass the end of the address space, and the scan gives up. */
  predicate Stops(r: Region, minimum: nat, bytes: nat) {
    var first := if AlignedStart(r) < minimum then minimum else AlignedStart(r);
    r.usable && r.len >= bytes && AlignedStart(r) < AlignedEnd(r) && first + bytes > MAX_U64
  }

  /** No remaining region in front of the first one that stops the scan has room. */
  ghost predicate NothingBeforeStop(regions: seq<Region>, index: nat, minimum: nat, bytes: nat) {
    forall i, a: nat :: index <= i < |regions| && Offers(regions[i], minimum, bytes, a) ==>
      exists j :: index <= j < i && Stops(regions[j], minimum, bytes)
  }

  /** A run scan comes back empty exactly when no remaining region it gets to has room at or beyond the cursor. */
  lemma {:induction false} ScanRunMissesIff(regions: seq<Region>, index: nat, minimum: nat, bytes: nat)
    requires minimum % FRAME == 0 && bytes % FRAME == 0 && bytes > 0
    ensures ScanRun(regions, index, minimum, bytes).None? <==> NothingBeforeStop(regions, index, minimum, bytes)
    decreases |regions| - index
  {
    if index < |regions| {
      var r := regions[index];
      var first := if AlignedStart(r) < minimum then minimum else AlignedStart(r);
      OffersFirst(r, minimum, bytes, first);
      forall a: nat ensures Offers(r, minimum, bytes, a) ==> r.len >= bytes && first + bytes <= AlignedEnd(r) {
        OffersFirst(r, minimum, bytes, a);
      }
      assert AlignedEnd(r) <= MAX_U64;
      hide Offers, AlignedStart, AlignedEnd;
      ScanRunMissesIff(regions, index + 1, minimum, bytes);
      if !Stops(r, minimum, bytes) && forall a: nat :: !Offers(r, minimum, bytes, a) {
        NothingHere(regions, index, minimum, bytes);
      }
    }
  }

  lemma {:induction false} NothingHere(regions: seq<Region>, index: nat, minimum: nat, bytes: nat)
    requires index < |regions| && !Stops(regions[index], minimum, bytes)
    requires forall a: nat :: !Offers(regions[index], minimum, bytes, a)
    ensures NothingBeforeStop(regions, index, minimum, bytes) <==> NothingBeforeStop(regions, index + 1, minimum, bytes)
  {
    hide Offers, Stops;
  }

  lemma {:induction false} HugeRunRefused(regions: seq<Region>, index: nat, minimum: nat)
    requires minimum > 0
    ensures ScanRun(regions, index, minimum, MAX_U64).None?
    decreases |regions| - index
  {
    if index < |regions| {
      HugeRunRefused(regions, index + 1, minimum);
    }
  }

  // ------------------------------------------------------- what each step keeps

  lemma {:induction false} ReleaseKeepsQuarantine(s: State, cookie: nat -> nat)
    requires s.ready && QuarantineHolds(s, cookie) && s.quarantine != []
    ensures QuarantineHolds(ReleaseOldest(s, cookie), cookie)
  {
    var t, a := ReleaseOldest(s, cookie), s.quarantine[0];
    assert t.quarantine == s.quarantine[1..] && t.released == s.released + 1;
    assert forall x :: x != a ==> MetaAt(t, x) == MetaAt(s, x);
    forall x | x in t.role && t.role[x].Quarantined?
      ensures IsQuarantined(t, x, t.role[x].serial) && MetaAt(t, x).cookie == cookie(x)
    {
      assert x != a && IsQuarantined(s, x, s.role[x].serial);
    }
  }

  lemma {:induction false} ReleaseKeepsList(s: State, cookie: nat -> nat)
    requires s.ready && ListHolds(s, cookie) && s.quarantine != []
    requires s.quarantine[0] in s.role && !s.role[s.quarantine[0]].Free?
    ensures ListHolds(ReleaseOldest(s, cookie), cookie)
  {
    var t, a := ReleaseOldest(s, cookie), s.quarantine[0];
    assert t.free == s.free + [a] && t.role == s.role[a := Free(|s.free|)];
    assert MetaAt(t, a) == Meta(s.head, cookie(a));
    assert forall x :: x != a ==> MetaAt(t, x) == MetaAt(s, x);
    assert t.head == a;
    hide ReleaseOldest, MetaAt;
    forall x | x in t.role && t.role[x].Free? ensures IsFree(t, cookie, x, t.role[x].depth) {
      if x != a {
        assert IsFree(s, cookie, x, s.role[x].depth);
      }
    }
  }

  lemma {:induction false} ReleaseKeeps(s: State, cookie: nat -> nat)
    requires Inv(s, cookie) && s.quarantine != []
    ensures Inv(ReleaseOldest(s, cookie), cookie)
    ensures ReleaseOldest(s, cookie).role.Keys == s.role.Keys && ReleaseOldest(s, cookie).head != 0
    ensures |ReleaseOldest(s, cookie).quarantine| == |s.quarantine| - 1
    ensures forall a :: a in s.role && s.role[a].Outstanding? <==>
      a in ReleaseOldest(s, cookie).role && ReleaseOldest(s, cookie).role[a].Outstanding?
  {
    var t := ReleaseOldest(s, cookie);
    assert s.role[s.quarantine[0]] == Quarantined(s.released);
    ReleaseKeepsQuarantine(s, cookie);
    ReleaseKeepsList(s, cookie);
    hide QuarantineHolds, ListHolds;
    assert AllManaged(t) by { hide Inside; }
  }

  predicate IsOutstanding(s: State, a: nat) {
    a in s.role && s.role[a].Outstanding?
  }

  lemma {:induction false} QuarantineKeepsQuarantine(s: State, cookie: nat -> nat, a: nat)
    requires s.ready && QuarantineHolds(s, cookie) && IsOutstanding(s, a)
    ensures QuarantineHolds(Quarantine(s, cookie, a), cookie)
  {
    var t := Quarantine(s, cookie, a);
    assert t.quarantine == s.quarantine + [a] && t.released == s.released;
    assert MetaAt(t, a).cookie == cookie(a);
    forall x | x in t.role && t.role[x].Quarantined?
      ensures IsQuarantined(t, x, t.role[x].serial) && MetaAt(t, x).cookie == cookie(x)
    {
      if x != a {
        assert IsQuarantined(s, x, s.role[x].serial);
      }
    }
  }

  lemma {:induction false} OutsideKeepsList(s: State, cookie: nat -> nat, a: nat, t: State)
    requires ListHolds(s, cookie) && a in s.role && !s.role[a].Free?
    requires t.head == s.head && t.free == s.free
    requires a in t.role && !t.role[a].Free? && t.role == s.role[a := t.role[a]]
    requires forall x :: x != a ==> MetaAt(t, x) == MetaAt(s, x)
    ensures ListHolds(t, cookie)
  {
    forall x | x in t.role && t.role[x].Free? ensures IsFree(t, cookie, x, t.role[x].depth) {
      assert IsFree(s, cookie, x, s.role[x].depth);
    }
  }

  lemma {:induction false} QuarantineKeeps(s: State, cookie: nat -> nat, a: nat)
    requires Inv(s, cookie) && s.ready && IsOutstanding(s, a) && |s.quarantine| < QUARANTINE_CAP
    ensures Inv(Quarantine(s, cookie, a), cookie)
  {
    var t := Quarantine(s, cookie, a);
    QuarantineKeepsQuarantine(s, cookie, a);
    OutsideKeepsList(s, cookie, a, t);
    hide QuarantineHolds, ListHolds;
    assert AllManaged(t) by { hide Inside; }
  }

  /** A frame that comes back is quarantined, unless it already came back: a second free is refused. */
  lemma {:induction false} DeallocateKeeps(s: State, cookie: nat -> nat, a: nat)
    requires Inv(s, cookie) && a in s.role
    ensures var (t, ok) := Deallocate(s, cookie, a);
      && Inv(t, cookie) && t.role.Keys == s.role.Keys
      && (ok <==> s.ready && IsOutstanding(s, a) && MetaAt(s, a).cookie != cookie(a))
      && (ok ==> t.role[a].Quarantined?) && (!ok ==> t == s)
  {
    assert Managed(s, a) && Usable(s.regions, a);
    assert s.role[a].Free? ==> IsFree(s, cookie, a, s.role[a].depth);
    if Deallocate(s, cookie, a).1 {
      if |s.quarantine| >= QUARANTINE_CAP {
        ReleaseKeeps(s, cookie);
      }
      var r := if |s.quarantine| >= QUARANTINE_CAP then ReleaseOldest(s, cookie) else s;
      assert r.ready && IsOutstanding(r, a);
      hide ReleaseOldest, Inv;
      QuarantineKeeps(r, cookie, a);
    }
  }

  lemma {:induction false} TakeFreeKeeps(s: State, cookie: nat -> nat)
    requires Inv(s, cookie) && s.head != 0
    ensures var (t, got) := TakeFree(s, cookie);
      && Inv(t, cookie) && got == Some(s.head) && t.role.Keys == s.role.Keys
      && s.head in s.role && s.role[s.head].Free? && t.role == s.role[s.head := Outstanding]
  {
    var a, n := s.head, |s.free|;
    assert a == s.free[n - 1] && s.role[a] == Free(n - 1);
    assert IsFree(s, cookie, a, n - 1) && Managed(s, a) && Usable(s.regions, a);
    var next := MetaAt(s, a).next;
    if n > 1 {
      assert next == s.free[n - 2] && Managed(s, next) && Usable(s.regions, next);
    }
    var t := TakeFree(s, cookie).0;
    assert t.head == next && t.free == s.free[..n - 1];
    assert forall x :: x != a ==> MetaAt(t, x) == MetaAt(s, x);
    hide TakeFree, Usable, Inside, MetaAt;
    assert AllManaged(t);
    assert QuarantineHolds(t, cookie) by { hide ListHolds; TakeFreeKeepsQuarantine(s, cookie, t); }
    assert ListHolds(t, cookie) by { hide QuarantineHolds; TakeFreeKeepsList(s, cookie, t); }
  }

  lemma {:induction false} TakeFreeKeepsQuarantine(s: State, cookie: nat -> nat, t: State)
    requires QuarantineHolds(s, cookie) && s.head in s.role && s.role[s.head].Free?
    requires t.quarantine == s.quarantine && t.released == s.released && t.role == s.role[s.head := Outstanding]
    requires forall x :: x != s.head ==> MetaAt(t, x) == MetaAt(s, x)
    ensures QuarantineHolds(t, cookie)
  {
    forall x | x in t.role && t.role[x].Quarantined?
      ensures IsQuarantined(t, x, t.role[x].serial) && MetaAt(t, x).cookie == cookie(x)
    {
      assert IsQuarantined(s, x, s.role[x].serial);
    }
  }

  lemma {:induction false} TakeFreeKeepsList(s: State, cookie: nat -> nat, t: State)
    requires ListHolds(s, cookie) && s.free != [] && s.head in s.role && IsFree(s, cookie, s.head, |s.free| - 1)
    requires t.free == s.free[..|s.free| - 1] && t.head == MetaAt(s, s.head).next && t.role == s.role[s.head := Outstanding]
    requires forall x :: x != s.head ==> MetaAt(t, x) == MetaAt(s, x)
    ensures ListHolds(t, cookie)
  {
    var n := |s.free| - 1;
    assert s.role[s.free[n]] == Free(n);
    forall d | 0 <= d < n ensures t.free[d] in t.role && t.role[t.free[d]] == Free(d) {
      assert t.free[d] == s.free[d] && s.role[s.free[d]] == Free(d);
    }
    forall x | x in t.role && t.role[x].Free? ensures IsFree(t, cookie, x, t.role[x].depth) {
      assert x != s.head && IsFree(s, cookie, x, s.role[x].depth);
      ShorterListKeeps(s, cookie, t, x, s.role[x].depth);
    }
    assert t.head == Below(t.free, n);
  }

  lemma {:induction false} ShorterListKeeps(s: State, cookie: nat -> nat, t: State, x: nat, depth: nat)
    requires s.free != [] && t.free == s.free[..|s.free| - 1] && s.free[|s.free| - 1] != x
    requires IsFree(s, cookie, x, depth) && MetaAt(t, x) == MetaAt(s, x)
    ensures IsFree(t, cookie, x, depth)
  {
    assert Below(t.free, depth) == Below(s.free, depth);
  }

  /** Frames the cursor has not reached, and frames it passes now. */
  lemma {:induction false} CursorKeeps(s: State, cookie: nat -> nat, t: State, passed: set<nat>)
    requires Inv(s, cookie) && s.nextFrame <= t.nextFrame <= MAX_U64 / FRAME
    requires t == s.(nextFrame := t.nextFrame, nextRegion := t.nextRegion, role := t.role)
    requires t.role == Taken(s.role, passed)
    requires forall f :: f in passed ==> s.nextFrame * FRAME <= f && Managed(t, f)
    ensures Inv(t, cookie) && passed !! s.role.Keys
  {
    forall x | x in s.role ensures x !in passed && t.role[x] == s.role[x] && Managed(t, x) {
      assert Managed(s, x);
    }
    forall x | x in t.role ensures Managed(t, x) && (x !in s.role ==> t.role[x].Outstanding?) {
    }
    MoreOutstanding(s, cookie, t);
    hide QuarantineHolds, ListHolds, Managed;
  }

  lemma {:induction false} MoreOutstanding(s: State, cookie: nat -> nat, t: State)
    requires QuarantineHolds(s, cookie) && ListHolds(s, cookie)
    requires t == s.(nextFrame := t.nextFrame, nextRegion := t.nextRegion, role := t.role)
    requires forall x :: x in s.role ==> x in t.role && t.role[x] == s.role[x]
    requires forall x :: x in t.role && x !in s.role ==> t.role[x].Outstanding?
    ensures QuarantineHolds(t, cookie) && ListHolds(t, cookie)
  {
    forall x | x in t.role && t.role[x].Quarantined? ensures IsQuarantined(t, x, t.role[x].serial) {
      assert IsQuarantined(s, x, s.role[x].serial);
    }
    forall x | x in t.role && t.role[x].Free? ensures IsFree(t, cookie, x, t.role[x].depth) {
      assert IsFree(s, cookie, x, s.role[x].depth);
    }
  }

  lemma {:induction false} BumpKeeps(s: State, cookie: nat -> nat)
    requires Inv(s, cookie)
    ensures var (t, got) := Bump(s);
      && Inv(t, cookie) && (got.None? ==> t.role == s.role)
      && (got.Some? ==> got.value !in s.role && t.role == s.role[got.value := Outstanding])
  {
    var (t, got) := Bump(s);
    ScanFinds(s.regions, s.nextRegion, s.nextFrame * FRAME, s.nextRegion);
    hide QuarantineHolds, ListHolds, AllManaged, Scan;
    var passed := if got.Some? then {got.value} else {};
    if got.Some? {
      assert Managed(t, got.value);
    }
    assert t.role == Taken(s.role, passed);
    CursorKeeps(s, cookie, t, passed);
  }

  lemma {:induction false} RunIsManaged(s: State, t: State, a: nat, count: nat, i: nat)
    requires i < |s.regions| && s.regions[i].usable && t.regions == s.regions
    requires s.regions[i].start <= a && a + count * FRAME <= s.regions[i].start + s.regions[i].len
    requires 0 < s.nextFrame * FRAME <= a && a % FRAME == 0 && t.nextFrame == (a + count * FRAME) / FRAME
    ensures forall f :: f in Frames(a, count) ==> s.nextFrame * FRAME <= f && Managed(t, f)
  {
    forall f | f in Frames(a, count) ensures s.nextFrame * FRAME <= f && Managed(t, f) {
      var k :| 0 <= k < count && f == a + k * FRAME;
      assert f + FRAME <= a + count * FRAME;
    }
  }

  lemma {:induction false} ReserveKeeps(s: State, cookie: nat -> nat, count: nat)
    requires Inv(s, cookie)
    ensures var (t, got) := Reserve(s, count);
      && Inv(t, cookie) && (got.None? ==> t == s)
      && (got.Some? ==> Frames(got.value, count) !! s.role.Keys && t.role == Taken(s.role, Frames(got.value, count)))
  {
    hide QuarantineHolds, ListHolds, AllManaged, ScanRun;
    var (t, got) := Reserve(s, count);
    var minimum := s.nextFrame * FRAME;
    if count * FRAME > MAX_U64 {
      HugeRunRefused(s.regions, s.nextRegion, minimum);
    } else if got.Some? {
      ScanRunFinds(s.regions, s.nextRegion, minimum, count * FRAME);
      var a := got.value;
      var i :| 0 <= i < |s.regions| && s.regions[i].usable && s.regions[i].start <= a && a + count * FRAME <= s.regions[i].start + s.regions[i].len;
      RunIsManaged(s, t, a, count, i);
      CursorKeeps(s, cookie, t, Frames(a, count));
    }
  }

  /** An allocation hands out a frame that was not outstanding: recycled or new, and never loses one. */
  lemma {:induction false} AllocateKeeps(s: State, cookie: nat -> nat)
    requires Inv(s, cookie)
    ensures var (t, got) := Allocate(s, cookie);
      && Inv(t, cookie)
      && t.role.Keys == s.role.Keys + (if got.Some? then {got.value} else {})
      && (got.Some? ==> !IsOutstanding(s, got.value) && IsOutstanding(t, got.value))
      && (forall a :: a in s.role && got != Some(a) ==> (IsOutstanding(t, a) <==> IsOutstanding(s, a)))
  {
    hide Inv, ReleaseOldest, Bump, TakeFree;
    var r := if s.head == 0 && s.quarantine != [] then ReleaseOldest(s, cookie) else s;
    if s.head == 0 && s.quarantine != [] {
      ReleaseKeeps(s, cookie);
    }
    assert r.role.Keys == s.role.Keys;
    assert forall a :: a in s.role ==> (IsOutstanding(r, a) <==> IsOutstanding(s, a));
    if r.head == 0 {
      BumpKeeps(r, cookie);
      var (t, got) := Bump(r);
      assert got.Some? ==> t.role.Keys == r.role.Keys + {got.value} && got.value !in s.role;
    } else {
      TakeFreeKeeps(r, cookie);
      assert r.head in s.role && !IsOutstanding(r, r.head);
    }
  }

  /** An empty list head means that no frame is free. */
  lemma {:induction false} HeadIsFree(s: State, cookie: nat -> nat)
    requires Inv(s, cookie)
    ensures s.head == 0 <==> s.free == []
  {
    if s.free != [] {
      assert Managed(s, s.free[|s.free| - 1]);
    }
  }

  /** The allocator is out of frames exactly when none is free or quarantined and none is left beyond the cursor. */
  lemma {:induction false} AllocateRefusesIff(s: State, cookie: nat -> nat)
    requires Inv(s, cookie)
    ensures Allocate(s, cookie).1.None? <==>
      s.free == [] && s.quarantine == [] && NothingOffered(s.regions, s.nextRegion, s.nextFrame * FRAME, FRAME)
  {
    HeadIsFree(s, cookie);
    ScanMissesIff(s.regions, s.nextRegion, s.nextFrame * FRAME, s.nextRegion);
    if s.head == 0 && s.quarantine != [] {
      var r := ReleaseOldest(s, cookie);
      ReleaseKeeps(s, cookie);
      HeadIsFree(r, cookie);
      TakeFreeKeeps(r, cookie);
      hide Inv, TakeFree, NothingOffered, Scan;
    } else if s.head != 0 {
      TakeFreeKeeps(s, cookie);
      hide Inv, TakeFree, NothingOffered, Scan;
    } else {
      hide NothingOffered, Scan, AllManaged, QuarantineHolds, ListHolds;
    }
  }

  /** A contiguous run is refused exactly for a zero or unrepresentable count, or when the run scan finds no room. */
  lemma {:induction false} ReserveRefusesIff(s: State, cookie: nat -> nat, count: nat)
    requires Inv(s, cookie)
    ensures Reserve(s, count).1.None? <==>
      count == 0 || count * FRAME > MAX_U64 || NothingBeforeStop(s.regions, s.nextRegion, s.nextFrame * FRAME, count * FRAME)
  {
    hide AllManaged, QuarantineHolds, ListHolds;
    if count * FRAME > MAX_U64 {
      HugeRunRefused(s.regions, s.nextRegion, s.nextFrame * FRAME);
    } else if count > 0 {
      ScanRunMissesIff(s.regions, s.nextRegion, s.nextFrame * FRAME, count * FRAME);
    }
    hide ScanRun, NothingBeforeStop;
  }

  /** Where every region ends a page below the top of the address space, a stopped scan has missed nothing. */
  lemma {:induction false} LowRegionsNeverStop(regions: seq<Region>, index: nat, minimum: nat, bytes: nat)
    requires minimum % FRAME == 0 && bytes % FRAME == 0 && bytes > 0
    requires forall i :: 0 <= i < |regions| ==> regions[i].start + regions[i].len + FRAME <= MAX_U64
    ensures NothingBeforeStop(regions, index, minimum, bytes) <==> NothingOffered(regions, index, minimum, bytes)
  {
    forall i, j, a: nat | 0 <= i < |regions| && 0 <= j < |regions| && Stops(regions[j], minimum, bytes)
      ensures !Offers(regions[i], minimum, bytes, a)
    {
      StopIsPastTheTop(regions[j], minimum, bytes);
    }
    hide Offers, Stops;
  }

  lemma StopIsPastTheTop(r: Region, minimum: nat, bytes: nat)
    requires Stops(r, minimum, bytes) && r.start + r.len + FRAME <= MAX_U64
    ensures minimum + bytes > MAX_U64
  {
    AlignedBounds(r);
  }

  /** A region at the very top of the address space hides the regions listed after it from a run request. */
  lemma {:induction false} TopRegionHidesTheRest()
    ensures var regions := [Region(MAX_U64 - 3 * FRAME + 2, 2 * FRAME, true), Region(0x20_0000, 16 * FRAME, true)];
      && ScanRun(regions, 0, FIRST_FRAME * FRAME, 2 * FRAME).None?
      && Offers(regions[1], FIRST_FRAME * FRAME, 2 * FRAME, 0x20_0000)
  {
  }

  // --------------------------------------------------------------------- runs

  datatype Op =
    | Alloc
    | AllocRun(count: nat)
    | GiveBack(a: nat)
    | Scribble(a: nat, m: Meta)
    | MapPhysical

  function Init(regions: seq<Region>): State {
    State(regions, FIRST_FRAME, 0, 0, [], false, map[], map[], [], 0)
  }

  /** Callers give back only frames they were once handed, and write only into frames they own. */
  function Apply(s: State, cookie: nat -> nat, op: Op): State {
    match op
    case Alloc => Allocate(s, cookie).0
    case AllocRun(count) => Reserve(s, count).0
    case GiveBack(a) => if a in s.role then Deallocate(s, cookie, a).0 else s
    case Scribble(a, m) => if IsOutstanding(s, a) then s.(meta := s.meta[a := m]) else s
    case MapPhysical => s.(ready := true)
  }

  function Run(s: State, cookie: nat -> nat, ops: seq<Op>): State
    decreases |ops|
  {
    if ops == [] then s else Run(Apply(s, cookie, ops[0]), cookie, ops[1..])
  }

  lemma {:induction false} ScribbleKeeps(s: State, cookie: nat -> nat, a: nat, m: Meta)
    requires Inv(s, cookie) && IsOutstanding(s, a)
    ensures Inv(s.(meta := s.meta[a := m]), cookie)
  {
    var t := s.(meta := s.meta[a := m]);
    assert forall x :: x != a ==> MetaAt(t, x) == MetaAt(s, x);
    OutsideKeepsList(s, cookie, a, t);
    assert QuarantineHolds(t, cookie) by {
      hide ListHolds;
      forall x | x in t.role && t.role[x].Quarantined?
        ensures IsQuarantined(t, x, t.role[x].serial) && MetaAt(t, x).cookie == cookie(x)
      {
        assert IsQuarantined(s, x, s.role[x].serial);
      }
    }
    hide QuarantineHolds, ListHolds;
    assert AllManaged(t) by { hide Inside; }
  }

  lemma {:induction false} ReadyKeeps(s: State, cookie: nat -> nat)
    requires Inv(s, cookie)
    ensures Inv(s.(ready := true), cookie)
  {
    var t := s.(ready := true);
    assert AllManaged(t) by { hide Inside; }
    MoreOutstanding(s, cookie, s);
    assert QuarantineHolds(t, cookie) && ListHolds(t, cookie);
  }

  lemma {:induction false} ApplyKeeps(s: State, cookie: nat -> nat, op: Op)
    requires Inv(s, cookie)
    ensures Inv(Apply(s, cookie, op), cookie) && s.role.Keys <= Apply(s, cookie, op).role.Keys
  {
    hide Inv, Allocate, Reserve, Deallocate, Frames;
    match op
    case Alloc => AllocateKeeps(s, cookie);
    case AllocRun(count) => ReserveKeeps(s, cookie, count);
    case GiveBack(a) => if a in s.role { DeallocateKeeps(s, cookie, a); }
    case Scribble(a, m) => if IsOutstanding(s, a) { ScribbleKeeps(s, cookie, a, m); }
    case MapPhysical => ReadyKeeps(s, cookie);
  }

  /** Over every run, for any map and any cookie function, ownership stays exact and no frame is lost. */
  lemma {:induction false} RunKeeps(s: State, cookie: nat -> nat, ops: seq<Op>)
    requires Inv(s, cookie)
    ensures Inv(Run(s, cookie, ops), cookie) && s.role.Keys <= Run(s, cookie, ops).role.Keys
    decreases |ops|
  {
    if ops != [] {
      ApplyKeeps(s, cookie, ops[0]);
      hide Inv, Apply;
      RunKeeps(Apply(s, cookie, ops[0]), cookie, ops[1..]);
    }
  }

  lemma {:induction false} RegionsStay(s: State, cookie: nat -> nat, ops: seq<Op>)
    ensures Run(s, cookie, ops).regions == s.regions
    decreases |ops|
  {
    if ops != [] {
      assert Apply(s, cookie, ops[0]).regions == s.regions;
      hide Apply;
      RegionsStay(Apply(s, cookie, ops[0]), cookie, ops[1..]);
    }
  }

  // ----------------------------------------------------------------- theorems

  /** The four places a frame can be. */
  ghost function Places(s: State, a: nat): seq<bool> {
    [IsOutstanding(s, a), a in s.quarantine, a in s.free, a >= s.nextFrame * FRAME]
  }

  /** No frame is ever in two of these: outstanding, quarantined, free-listed, not yet reached by the cursor. */
  lemma {:induction false} OnePlaceOnly(regions: seq<Region>, cookie: nat -> nat, ops: seq<Op>, a: nat, i: nat, j: nat)
    requires i < j < 4
    ensures var places := Places(Run(Init(regions), cookie, ops), a); !(places[i] && places[j])
  {
    RunKeeps(Init(regions), cookie, ops);
    PlaceIsRole(Run(Init(regions), cookie, ops), cookie, a);
    hide Inv;
  }

  lemma {:induction false} PlaceIsRole(s: State, cookie: nat -> nat, a: nat)
    requires Inv(s, cookie)
    ensures a in s.quarantine ==> a in s.role && s.role[a].Quarantined?
    ensures a in s.free ==> a in s.role && s.role[a].Free?
    ensures a in s.role ==> a < s.nextFrame * FRAME
  {
    if a in s.quarantine {
      var k :| 0 <= k < |s.quarantine| && s.quarantine[k] == a;
      assert s.role[a] == Quarantined(s.released + k);
    }
    if a in s.free {
      var k :| 0 <= k < |s.free| && s.free[k] == a;
      assert s.role[a] == Free(k);
    }
    assert a in s.role ==> Managed(s, a);
  }

  /** Neither quarantine nor free list holds a frame twice. */
  lemma {:induction false} NoFrameTwice(s: State, cookie: nat -> nat, i: nat, j: nat)
    requires Inv(s, cookie)
    ensures i < j < |s.quarantine| ==> s.quarantine[i] != s.quarantine[j]
    ensures i < j < |s.free| ==> s.free[i] != s.free[j]
  {
    if i < j < |s.quarantine| {
      assert s.role[s.quarantine[i]] == Quarantined(s.released + i);
    }
    if i < j < |s.free| {
      assert s.role[s.free[i]] == Free(i);
    }
  }

  /** Following the links stored in the frames. */
  function Follow(s: State, a: nat, links: nat): nat {
    if links == 0 then a else MetaAt(s, Follow(s, a, links - 1)).next
  }

  /** From the head, the links visit every free frame exactly once, deepest last, and then end. */
  lemma {:induction false} LinksVisitTheFreeList(s: State, cookie: nat -> nat, links: nat)
    requires Inv(s, cookie) && links <= |s.free|
    ensures Follow(s, s.head, links) == Below(s.free, |s.free| - links)
  {
    if links > 0 {
      LinkLeadsDown(s, cookie, |s.free| - links);
      hide Inv;
      LinksVisitTheFreeList(s, cookie, links - 1);
    } else {
      hide QuarantineHolds, AllManaged;
    }
  }

  lemma {:induction false} LinkLeadsDown(s: State, cookie: nat -> nat, depth: nat)
    requires Inv(s, cookie) && depth < |s.free|
    ensures MetaAt(s, s.free[depth]).next == Below(s.free, depth)
  {
    hide QuarantineHolds, AllManaged;
    assert s.role[s.free[depth]] == Free(depth);
    assert IsFree(s, cookie, s.free[depth], depth);
  }

  /** Every frame handed out lies wholly inside a usable region, even of an unsorted map. */
  lemma {:induction false} HandedOutIsUsable(regions: seq<Region>, cookie: nat -> nat, ops: seq<Op>, a: nat)
    requires a in Run(Init(regions), cookie, ops).role
    ensures Inside(regions, a) && a % FRAME == 0
  {
    RunKeeps(Init(regions), cookie, ops);
    RegionsStay(Init(regions), cookie, ops);
    assert Managed(Run(Init(regions), cookie, ops), a);
  }
}

/** The allocator object: a ring buffer for the quarantine and loops over the memory map. */
module FrameTable {
  import opened Common
  import opened FrameAllocator

  /** What a ring of slots holds, oldest first. */
  function Ring(slots: seq<nat>, head: nat, len: nat): seq<nat>
    requires |slots| == QUARANTINE_CAP
  {
    seq(len, i requires 0 <= i => slots[(head + i) % QUARANTINE_CAP])
  }

  lemma RingLength(slots: seq<nat>, head: nat, len: nat)
    requires |slots| == QUARANTINE_CAP
    ensures |Ring(slots, head, len)| == len
  {
  }

  lemma ReleasedLength(s: State, cookie: nat -> nat)
    ensures s.quarantine != [] ==> |ReleaseOldest(s, cookie).quarantine| == |s.quarantine| - 1
  {
  }

  lemma {:induction false} RingPop(slots: seq<nat>, head: nat, len: nat)
    requires |slots| == QUARANTINE_CAP && head < QUARANTINE_CAP && 0 < len <= QUARANTINE_CAP
    ensures Ring(slots, head, len)[0] == slots[head]
    ensures Ring(slots[head := 0], (head + 1) % QUARANTINE_CAP, len - 1) == Ring(slots, head, len)[1..]
  {
    var after, next := slots[head := 0], (head + 1) % QUARANTINE_CAP;
    var left, right := Ring(after, next, len - 1), Ring(slots, head, len)[1..];
    forall i | 0 <= i < len - 1 ensures left[i] == right[i] {
      assert right[i] == Ring(slots, head, len)[i + 1];
      assert (next + i) % QUARANTINE_CAP == (head + (i + 1)) % QUARANTINE_CAP != head;
    }
  }

  lemma {:induction false} RingPush(slots: seq<nat>, head: nat, len: nat, a: nat)
    requires |slots| == QUARANTINE_CAP && head < QUARANTINE_CAP && len < QUARANTINE_CAP
    ensures Ring(slots[(head + len) % QUARANTINE_CAP := a], head, len + 1) == Ring(slots, head, len) + [a]
  {
    var at := (head + len) % QUARANTINE_CAP;
    forall i | 0 <= i < len ensures Ring(slots[at := a], head, len + 1)[i] == Ring(slots, head, len)[i] {
      assert (head + i) % QUARANTINE_CAP != at;
    }
  }

  class MnuFrameAllocator {
    const regions: seq<Region>
    const cookie: nat -> nat
    const ring: array<nat>
    var nextFrame: nat
    var nextRegion: nat
    var freeListHead: nat
    var quarantineHead: nat
    var quarantineLen: nat
    var ready: bool
    // The first words of every frame, as the physical mapping shows them.
    var meta: map<nat, Meta>
    ghost var role: map<nat, Role>
    ghost var free: seq<nat>
    ghost var released: nat

    ghost function Quarantined(): seq<nat>
      requires ring.Length == QUARANTINE_CAP
      reads this, ring
    {
      Ring(ring[..], quarantineHead, quarantineLen)
    }

    ghost function View(): State
      requires ring.Length == QUARANTINE_CAP
      reads this, ring
    {
      State(regions, nextFrame, nextRegion, freeListHead, Quarantined(), ready, meta, role, free, released)
    }

    ghost predicate Valid()
      reads this, ring
    {
      ring.Length == QUARANTINE_CAP && quarantineHead < QUARANTINE_CAP && quarantineLen <= QUARANTINE_CAP
    }

    constructor (map_: seq<Region>, seed: nat -> nat)
      ensures Valid() && View() == Init(map_) && cookie == seed && fresh(ring)
    {
      regions, cookie := map_, seed;
      ring := new nat[QUARANTINE_CAP](_ => 0);
      nextFrame, nextRegion, freeListHead := FIRST_FRAME, 0, 0;
      quarantineHead, quarantineLen, ready, meta := 0, 0, false, map[];
      role, free, released := map[], [], 0;
    }

    method SetPhysOffset()
      requires Valid()
      modifies this`ready
      ensures Valid() && View() == old(View()).(ready := true)
    {
      ready := true;
    }

    method PushFreeList(a: nat)
      requires Valid()
      modifies this`meta, this`freeListHead, this`free, this`role
      ensures Valid() && View() == PushFree(old(View()), cookie, a)
    {
      if ready {
        meta := meta[a := Meta(freeListHead, cookie(a))];
      }
      freeListHead := a;
      role := role[a := Free(|free|)];
      free := free + [a];
    }

    method ReleaseQuarantineOldest()
      requires Valid()
      modifies this, ring
      ensures Valid() && View() == ReleaseOldest(old(View()), cookie)
    {
      if quarantineLen == 0 {
        return;
      }
      var a := ring[quarantineHead];
      RingPop(ring[..], quarantineHead, quarantineLen);
      ring[quarantineHead] := 0;
      quarantineHead := (quarantineHead + 1) % QUARANTINE_CAP;
      quarantineLen := quarantineLen - 1;
      released := released + 1;
      assert ring[..] == old(ring[..])[old(quarantineHead) := 0];
      PushFreeList(a);
    }

    method QuarantinePushFrame(a: nat)
      requires Valid()
      modifies this, ring
      ensures Valid() && View() == QuarantinePush(old(View()), cookie, a)
    {
      hide Ring, Quarantine, ReleaseOldest;
      if quarantineLen >= QUARANTINE_CAP {
        RingLength(ring[..], quarantineHead, quarantineLen);
        ReleaseQuarantineOldest();
        RingLength(ring[..], quarantineHead, quarantineLen);
        ReleasedLength(old(View()), cookie);
      } else {
        RingLength(ring[..], quarantineHead, quarantineLen);
      }
      QuarantineInsert(a);
    }

    method QuarantineInsert(a: nat)
      requires Valid() && quarantineLen < QUARANTINE_CAP
      modifies this`role, this`quarantineLen, this`meta, ring
      ensures Valid() && View() == Quarantine(old(View()), cookie, a)
    {
      ghost var before := ring[..];
      RingPush(before, quarantineHead, quarantineLen, a);
      ring[(quarantineHead + quarantineLen) % QUARANTINE_CAP] := a;
      role := role[a := Role.Quarantined(released + quarantineLen)];
      quarantineLen := quarantineLen + 1;
      assert ring[..] == before[(quarantineHead + quarantineLen - 1) % QUARANTINE_CAP := a];
      if ready {
        meta := meta[a := Meta(0, cookie(a))];
      }
    }

    method IsUsable(a: nat) returns (yes: bool)
      ensures yes == Usable(regions, a)
    {
      var i := 0;
      while i < |regions|
        invariant i <= |regions|
        invariant forall j :: 0 <= j < i ==> !(regions[j].usable && regions[j].start <= a < regions[j].start + regions[j].len)
      {
        if regions[i].usable && regions[i].start <= a < regions[i].start + regions[i].len {
          return true;
        }
        i := i + 1;
      }
      return false;
    }

    method DeallocateFrame(a: nat) returns (ok: bool)
      requires Valid()
      modifies this, ring
      ensures Valid() && (View(), ok) == Deallocate(old(View()), cookie, a)
    {
      var usable := IsUsable(a);
      if a % FRAME != 0 || !usable || !ready {
        return false;
      }
      var m := if a in meta then meta[a] else Meta(0, 0);
      if m.cookie == cookie(a) {
        return false;
      }
      QuarantinePushFrame(a);
      return true;
    }

    /** The head of the free list, if it says of itself that it is free. */
    method TakeFreeFrame() returns (got: Option<nat>)
      requires Valid() && freeListHead != 0
      modifies this`freeListHead, this`meta, this`role, this`free
      ensures Valid() && (View(), got) == TakeFree(old(View()), cookie)
    {
      var a: nat := freeListHead;
      var usable := IsUsable(a);
      var m := if a in meta then meta[a] else Meta(0, 0);
      if a % FRAME != 0 || !usable || !ready || m.cookie != cookie(a) {
        freeListHead := 0;
        return None;
      }
      var linked := false;
      if m.next != 0 && m.next % FRAME == 0 {
        linked := IsUsable(m.next);
      }
      freeListHead := if linked then m.next else 0;
      meta := meta[a := Meta(0, 0)];
      role := role[a := Outstanding];
      free := if free == [] then [] else free[..|free| - 1];
      return Some(a);
    }

    method BumpFrame() returns (got: Option<nat>)
      requires Valid()
      modifies this`nextFrame, this`nextRegion, this`role
      ensures Valid() && (View(), got) == Bump(old(View()))
    {
      var minimum := Min(nextFrame * FRAME, MAX_U64);
      var index := nextRegion;
      while index < |regions|
        invariant nextFrame == old(nextFrame) && role == old(role)
        invariant Scan(regions, old(nextRegion), minimum, old(nextRegion)) == Scan(regions, index, minimum, nextRegion)
        decreases |regions| - index
      {
        var r := regions[index];
        var start, end := AlignedStart(r), AlignedEnd(r);
        if r.usable && r.len >= FRAME && start < end {
          var a := if start < minimum then minimum else start;
          if a < end {
            nextRegion := index;
            nextFrame := a / FRAME + 1;
            role := role[a := Outstanding];
            return Some(a);
          }
          nextRegion := index + 1;
        }
        index := index + 1;
      }
      return None;
    }

    method AllocateFrame() returns (got: Option<nat>)
      requires Valid()
      modifies this, ring
      ensures Valid() && (View(), got) == Allocate(old(View()), cookie)
    {
      if freeListHead == 0 && quarantineLen != 0 {
        ReleaseQuarantineOldest();
      }
      if freeListHead != 0 {
        got := TakeFreeFrame();
        if got.Some? {
          return;
        }
      }
      got := BumpFrame();
    }

    method ReserveContiguousRegion(count: nat) returns (got: Option<nat>)
      requires Valid()
      modifies this`nextFrame, this`nextRegion, this`role
      ensures Valid() && (View(), got) == Reserve(old(View()), count)
    {
      if count == 0 {
        return None;
      }
      var minimum, bytes := Min(nextFrame * FRAME, MAX_U64), Min(count * FRAME, MAX_U64);
      var index := nextRegion;
      while index < |regions|
        invariant nextFrame == old(nextFrame) && nextRegion == old(nextRegion) && role == old(role)
        invariant ScanRun(regions, nextRegion, minimum, bytes) == ScanRun(regions, index, minimum, bytes)
        decreases |regions| - index
      {
        var r := regions[index];
        var start, end := AlignedStart(r), AlignedEnd(r);
        if r.usable && r.len >= bytes && start < end {
          var a := if start < minimum then minimum else start;
          if a + bytes > MAX_U64 {
            return None;
          }
          if a + bytes <= end {
            nextRegion := index;
            nextFrame := (a + bytes) / FRAME;
            role := Taken(role, Frames(a, count));
            return Some(a);
          }
        }
        index := index + 1;
      }
      return None;
    }
  }
}
