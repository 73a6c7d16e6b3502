/**
 Copy-on-write over the reference ledger. Leaves of every address space live in one
 map; frames are shared after a fork and separated by faults. `Eager` is the
 reference: a fork that copies every private page at once and aliases every shared one.
 */
module CopyOnWrite {
  import opened Common
  import opened FrameRefs

  const PAGE: nat := 4096

  type Page = seq<nat>

  /** Named bits of a user leaf. */
  datatype Flags = Flags(present: bool, writable: bool, noExecute: bool, copyOnWrite: bool, writeDisabled: bool)

  datatype Leaf = Leaf(frame: nat, flags: Flags)

  datatype Loc = Loc(space: nat, page: nat)

  // ---------------------------------------------------------------- leaf access words

  predicate MayResolve(flags: Flags) {
    flags.present && flags.copyOnWrite && !flags.writeDisabled && !flags.writable
  }

  function WithWriteAccess(flags: Flags, writable: bool): Flags {
    flags.(writeDisabled := flags.copyOnWrite && !writable)
  }

  function ClonePrivate(flags: Flags, authorized: bool): Flags {
    WithWriteAccess(flags.(copyOnWrite := true, writable := false),
                    authorized || flags.writable || MayResolve(flags))
  }

  /** Cloning never grants hardware write access, and keeps write permission exactly when it existed. */
  lemma ClonePrivateKeepsAuthority(flags: Flags, authorized: bool)
    ensures var f := ClonePrivate(flags, authorized);
      && f.copyOnWrite && !f.writable && f.present == flags.present && f.noExecute == flags.noExecute
      && (f.writeDisabled <==> !(authorized || flags.writable || MayResolve(flags)))
      && ClonePrivate(f, false) == if flags.present then f else f.(writeDisabled := true)
  {}

  // ---------------------------------------------------------------- state

  /** A frame serves one private leaf, or copy-on-write leaves only, or a shared object. */
  datatype Role = Exclusive(owner: Loc) | Split | Object

  /**
   `memory` holds the allocated frames; `pins` counts owners that are not leaves
   (page cache entries and prepared pages); `shared` are the leaves of shared regions.
   */
  datatype State = State(
    leaves: map<Loc, Leaf>,
    memory: map<nat, Page>,
    counts: Counts,
    pins: map<nat, nat>,
    shared: set<Loc>,
    // History: how each frame is used.
    roles: map<nat, Role>)

  function Mappers(leaves: map<Loc, Leaf>, frame: nat): set<Loc> {
    set l | l in leaves && leaves[l].frame == frame
  }

  function Pins(pins: map<nat, nat>, frame: nat): nat {
    if frame in pins then pins[frame] else 0
  }

  /** The ledger never counts fewer owners than there are. */
  ghost predicate Counted(leaves: map<Loc, Leaf>, frames: set<nat>, counts: Counts, pins: map<nat, nat>) {
    && WellFormed(counts) && counts.Keys <= frames
    && forall f :: f in frames ==> |Mappers(leaves, f)| + Pins(pins, f) <= Owners(counts, f)
  }

  ghost predicate Backed(s: State) {
    && (forall l :: l in s.leaves ==> s.leaves[l].frame in s.memory)
    && (forall f :: f in s.pins ==> f in s.memory && s.pins[f] > 0)
    && (forall f :: f in s.memory ==> |s.memory[f]| == PAGE)
  }

  predicate Fits(role: Role, l: Loc, shared: bool, flags: Flags) {
    match role
    case Exclusive(owner) => owner == l && !shared && (flags.copyOnWrite ==> !flags.writable)
    case Split => !shared && flags.copyOnWrite && !flags.writable
    case Object => shared && !flags.copyOnWrite
  }

  /** Every leaf uses its frame as the frame's role allows. */
  ghost predicate Separated(s: State) {
    && s.shared <= s.leaves.Keys
    && (forall l :: l in s.leaves ==>
          s.leaves[l].frame in s.roles && Fits(s.roles[s.leaves[l].frame], l, l in s.shared, s.leaves[l].flags))
    && (forall f :: f in s.pins ==> f in s.roles && s.roles[f] == Object)
  }

  ghost predicate Inv(s: State) {
    Counted(s.leaves, s.memory.Keys, s.counts, s.pins) && Backed(s) && Separated(s)
  }

  // ---------------------------------------------------------------- the reference

  datatype Eager = Eager(private: map<Loc, Page>, aliases: map<Loc, nat>, objects: map<nat, Page>)

  /** Effects an address space can observe. */
  datatype Action =
    | Nothing
    | NewPrivate(loc: Loc, page: Page)
    | NewObject(frame: nat, page: Page)
    | NewAlias(loc: Loc, frame: nat)
    | Fork(from: Loc, to: Loc)
    | StoreAt(loc: Loc, offset: nat, bytes: Page)
    | StoreObject(frame: nat, page: Page)
    | Remove(loc: Loc)

  function Overwrite(page: Page, offset: nat, bytes: Page): (r: Page)
    requires offset + |bytes| <= |page|
    ensures |r| == |page|
    ensures forall i :: 0 <= i < |page| ==> r[i] == if offset <= i < offset + |bytes| then bytes[i - offset] else page[i]
  {
    page[..offset] + bytes + page[offset + |bytes|..]
  }

  function EagerApply(e: Eager, a: Action): Eager {
    match a
    case Nothing => e
    case NewPrivate(l, page) => e.(private := e.private[l := page])
    case NewObject(f, page) => e.(objects := e.objects[f := page])
    case NewAlias(l, f) => e.(aliases := e.aliases[l := f])
    case Fork(from, to) =>
      if from in e.private then e.(private := e.private[to := e.private[from]])
      else if from in e.aliases then e.(aliases := e.aliases[to := e.aliases[from]])
      else e
    case StoreAt(l, offset, bytes) =>
      if l in e.private && offset + |bytes| <= |e.private[l]|
        then e.(private := e.private[l := Overwrite(e.private[l], offset, bytes)])
      else if l in e.aliases && e.aliases[l] in e.objects && offset + |bytes| <= |e.objects[e.aliases[l]]|
        then e.(objects := e.objects[e.aliases[l] := Overwrite(e.objects[e.aliases[l]], offset, bytes)])
      else e
    case StoreObject(f, page) => e.(objects := e.objects[f := page])
    case Remove(l) => e.(private := e.private - {l}, aliases := e.aliases - {l})
  }

  /** What an address space reads at a location, had every fork copied eagerly. */
  function EagerRead(e: Eager, l: Loc): Option<Page> {
    if l in e.private then Some(e.private[l])
    else if l in e.aliases && e.aliases[l] in e.objects then Some(e.objects[e.aliases[l]])
    else None
  }

  function Read(s: State, l: Loc): Option<Page> {
    if l in s.leaves && s.leaves[l].frame in s.memory then Some(s.memory[s.leaves[l].frame]) else None
  }

  ghost predicate Agree(s: State, e: Eager) {
    && e.private.Keys == s.leaves.Keys - s.shared
    && e.aliases.Keys == s.shared
    && (forall l :: l in e.private ==> l in s.leaves && s.leaves[l].frame in s.memory && e.private[l] == s.memory[s.leaves[l].frame])
    && (forall l :: l in e.aliases ==>
          && l in s.leaves && e.aliases[l] == s.leaves[l].frame && s.leaves[l].frame in s.memory
          && s.leaves[l].frame in e.objects && e.objects[s.leaves[l].frame] == s.memory[s.leaves[l].frame])
    && (forall f :: f in s.pins ==> f in s.memory && f in e.objects && e.objects[f] == s.memory[f])
  }

  ghost predicate Sim(s: State, e: Eager) {
    Inv(s) && Agree(s, e)
  }

  lemma LeavesAreBacked(s: State, e: Eager, l: Loc)
    requires Sim(s, e) && l in s.leaves
    ensures s.leaves[l].frame in s.roles && s.leaves[l].frame in s.memory && |s.memory[s.leaves[l].frame]| == PAGE
  {}

  // ---------------------------------------------------------------- counting mappers

  lemma MappersUpdate(leaves: map<Loc, Leaf>, l: Loc, leaf: Leaf, f: nat)
    ensures Mappers(leaves[l := leaf], f) ==
      if leaf.frame == f then Mappers(leaves, f) + {l} else Mappers(leaves, f) - {l}
    ensures |Mappers(leaves[l := leaf], f)| ==
      |Mappers(leaves, f)| + One(leaf.frame == f) - One(l in leaves && leaves[l].frame == f)
  {
    assert Mappers(leaves[l := leaf], f) ==
      if leaf.frame == f then Mappers(leaves, f) + {l} else Mappers(leaves, f) - {l};
    if leaf.frame == f && l !in Mappers(leaves, f) {
      assert |Mappers(leaves, f) + {l}| == |Mappers(leaves, f)| + 1;
    } else if leaf.frame == f {
      assert Mappers(leaves, f) + {l} == Mappers(leaves, f);
    }
  }

  lemma MappersRemove(leaves: map<Loc, Leaf>, l: Loc, f: nat)
    ensures |Mappers(leaves - {l}, f)| == |Mappers(leaves, f)| - One(l in leaves && leaves[l].frame == f)
  {
    assert Mappers(leaves - {l}, f) == Mappers(leaves, f) - {l};
  }

  /** The ledger says the frame has one owner, so this leaf is the only one. */
  lemma LastOwnerIsAlone(s: State, l: Loc)
    requires Inv(s) && l in s.leaves && LastOwner(s.counts, s.leaves[l].frame)
    ensures s.leaves[l].frame !in s.pins
    ensures forall l' :: l' in s.leaves && l' != l ==> s.leaves[l'].frame != s.leaves[l].frame
  {
    var mappers := Mappers(s.leaves, s.leaves[l].frame);
    assert |mappers - {l}| == 0;
    forall l' | l' in s.leaves && l' != l ensures s.leaves[l'].frame != s.leaves[l].frame {
      assert l' !in mappers - {l};
    }
  }

  lemma {:induction false} CountedRewrite(leaves: map<Loc, Leaf>, frames: set<nat>, counts: Counts, pins: map<nat, nat>, l: Loc, leaf: Leaf)
    requires Counted(leaves, frames, counts, pins) && l in leaves && leaf.frame == leaves[l].frame
    ensures Counted(leaves[l := leaf], frames, counts, pins)
  {
    forall f | f in frames ensures |Mappers(leaves[l := leaf], f)| + Pins(pins, f) <= Owners(counts, f) {
      MappersUpdate(leaves, l, leaf, f);
    }
  }

  lemma {:induction false} CountedForget(leaves: map<Loc, Leaf>, frames: set<nat>, counts: Counts, pins: map<nat, nat>, l: Loc)
    requires Counted(leaves, frames, counts, pins)
    ensures Counted(leaves - {l}, frames, counts, pins)
  {
    forall f | f in frames ensures |Mappers(leaves - {l}, f)| + Pins(pins, f) <= Owners(counts, f) {
      MappersRemove(leaves, l, f);
    }
  }

  lemma {:induction false} CountedMove(leaves: map<Loc, Leaf>, frames: set<nat>, counts: Counts, pins: map<nat, nat>, l: Loc, leaf: Leaf)
    requires Counted(leaves, frames, counts, pins)
    requires leaf.frame !in frames && leaf.frame !in pins
    requires forall m :: m in leaves ==> leaves[m].frame in frames
    ensures Counted(leaves[l := leaf], frames + {leaf.frame}, counts, pins)
  {
    assert Mappers(leaves, leaf.frame) == {};
    forall g | g in frames + {leaf.frame}
      ensures |Mappers(leaves[l := leaf], g)| + Pins(pins, g) <= Owners(counts, g)
    {
      MappersUpdate(leaves, l, leaf, g);
    }
  }

  lemma {:induction false} CountedAdd(leaves: map<Loc, Leaf>, frames: set<nat>, counts: Counts, pins: map<nat, nat>, l: Loc, leaf: Leaf)
    requires Counted(leaves, frames, counts, pins) && l !in leaves && leaf.frame in frames
    requires |Mappers(leaves, leaf.frame)| + Pins(pins, leaf.frame) < Owners(counts, leaf.frame)
    ensures Counted(leaves[l := leaf], frames, counts, pins)
  {
    forall g | g in frames ensures |Mappers(leaves[l := leaf], g)| + Pins(pins, g) <= Owners(counts, g) {
      MappersUpdate(leaves, l, leaf, g);
    }
  }

  // ---------------------------------------------------------------- elementary edits

  /** Rewrites a leaf's flags, and the role of its frame with them. */
  function SetFlags(s: State, l: Loc, flags: Flags, role: Role): State
    requires l in s.leaves
  {
    s.(leaves := s.leaves[l := s.leaves[l].(flags := flags)], roles := s.roles[s.leaves[l].frame := role])
  }

  /** No other leaf maps this leaf's frame. */
  ghost predicate Alone(s: State, l: Loc)
    requires l in s.leaves
  {
    forall l' :: l' in s.leaves && l' != l ==> s.leaves[l'].frame != s.leaves[l].frame
  }

  lemma {:induction false} SetFlagsKeeps(s: State, l: Loc, flags: Flags, role: Role)
    requires Inv(s)
    requires l in s.leaves && Fits(role, l, l in s.shared, flags)
    requires role == s.roles[s.leaves[l].frame] || (Alone(s, l) && s.leaves[l].frame !in s.pins)
    ensures Inv(SetFlags(s, l, flags, role))
  {
    CountedRewrite(s.leaves, s.memory.Keys, s.counts, s.pins, l, s.leaves[l].(flags := flags));
    hide Counted;
    assert Backed(SetFlags(s, l, flags, role)) by { hide Separated; }
    hide Backed;
    SetFlagsSeparated(s, l, flags, role);
    hide Separated;
  }

  lemma {:induction false} SetFlagsSeparated(s: State, l: Loc, flags: Flags, role: Role)
    requires Separated(s)
    requires l in s.leaves && Fits(role, l, l in s.shared, flags)
    requires role == s.roles[s.leaves[l].frame] || (Alone(s, l) && s.leaves[l].frame !in s.pins)
    ensures Separated(SetFlags(s, l, flags, role))
  {
  }

  lemma {:induction false} SetFlagsAgrees(s: State, e: Eager, l: Loc, flags: Flags, role: Role)
    requires Sim(s, e)
    requires l in s.leaves && Fits(role, l, l in s.shared, flags)
    requires role == s.roles[s.leaves[l].frame] || (Alone(s, l) && s.leaves[l].frame !in s.pins)
    ensures Agree(SetFlags(s, l, flags, role), e)
  {
    hide Counted;
  }

  /** Drops one reference; the last one frees the frame. */
  function Release(s: State, f: nat): State {
    s.(counts := Released(s.counts, f), memory := if LastOwner(s.counts, f) then s.memory - {f} else s.memory)
  }

  /** One counted owner is neither a leaf nor a pin. */
  ghost predicate Surplus(s: State, f: nat) {
    f in s.memory && |Mappers(s.leaves, f)| + Pins(s.pins, f) < Owners(s.counts, f)
  }

  lemma {:induction false} ReleaseKeeps(s: State, f: nat)
    requires Inv(s) && Surplus(s, f)
    ensures Inv(Release(s, f))
  {
    if LastOwner(s.counts, f) {
      assert Mappers(s.leaves, f) == {};
      assert forall l :: l in s.leaves ==> l in Mappers(s.leaves, s.leaves[l].frame);
    }
  }

  lemma {:induction false} ReleaseAgrees(s: State, e: Eager, f: nat)
    requires Sim(s, e) && Surplus(s, f)
    ensures Agree(Release(s, f), e)
  {
    hide Counted, Separated;
    if LastOwner(s.counts, f) {
      LastOwnerIsUnmapped(s, f);
    }
    hide Backed, Released, Owners, LastOwner, Mappers;
  }

  /** The last counted owner is not a leaf: nothing refers to the frame any more. */
  lemma {:induction false} LastOwnerIsUnmapped(s: State, f: nat)
    requires Surplus(s, f) && LastOwner(s.counts, f)
    ensures f !in s.pins || s.pins[f] == 0
    ensures forall l :: l in s.leaves ==> s.leaves[l].frame != f
  {
    assert Mappers(s.leaves, f) == {};
    assert forall l :: l in s.leaves ==> l in Mappers(s.leaves, s.leaves[l].frame);
  }

  /** Removes a leaf and keeps its reference, as a destroyed table does with one that is not present. */
  function ForgetLeaf(s: State, l: Loc): State {
    s.(leaves := s.leaves - {l}, shared := s.shared - {l})
  }

  lemma {:induction false} ForgetLeafKeeps(s: State, l: Loc)
    requires Inv(s)
    ensures Inv(ForgetLeaf(s, l))
    ensures l in s.leaves ==> Surplus(ForgetLeaf(s, l), s.leaves[l].frame)
  {
    CountedForget(s.leaves, s.memory.Keys, s.counts, s.pins, l);
    if l in s.leaves { MappersRemove(s.leaves, l, s.leaves[l].frame); }
  }

  lemma {:induction false} ForgetLeafAgrees(s: State, e: Eager, l: Loc)
    requires Sim(s, e)
    ensures Agree(ForgetLeaf(s, l), EagerApply(e, Remove(l)))
  {
    hide Counted, Separated;
  }

  /** Unmaps a leaf and releases its reference. */
  function DropLeaf(s: State, l: Loc): State
    requires l in s.leaves
  {
    Release(ForgetLeaf(s, l), s.leaves[l].frame)
  }

  lemma DropFreesLast(s: State, l: Loc)
    requires Inv(s) && l in s.leaves
    ensures s.leaves[l].frame !in DropLeaf(s, l).memory <==> Owners(s.counts, s.leaves[l].frame) == 1
  {}

  lemma DropLeafSimulates(s: State, e: Eager, l: Loc)
    requires Sim(s, e) && l in s.leaves
    ensures Sim(DropLeaf(s, l), EagerApply(e, Remove(l)))
    ensures s.leaves[l].frame !in DropLeaf(s, l).memory <==> Owners(s.counts, s.leaves[l].frame) == 1
  {
    DropFreesLast(s, l);
    ForgetLeafKeeps(s, l);
    ForgetLeafAgrees(s, e, l);
    ReleaseKeeps(ForgetLeaf(s, l), s.leaves[l].frame);
    ReleaseAgrees(ForgetLeaf(s, l), EagerApply(e, Remove(l)), s.leaves[l].frame);
    hide Inv, Agree, Release, ForgetLeaf;
  }

  /** Points a leaf at its own copy of the frame. */
  function MoveLeaf(s: State, l: Loc, copy: nat, flags: Flags): State
    requires l in s.leaves && s.leaves[l].frame in s.memory
  {
    s.(leaves := s.leaves[l := Leaf(copy, flags)],
       memory := s.memory[copy := s.memory[s.leaves[l].frame]],
       roles := s.roles[copy := Exclusive(l)])
  }

  lemma {:induction false} MoveLeafKeeps(s: State, l: Loc, copy: nat, flags: Flags)
    requires Inv(s) && l in s.leaves && l !in s.shared && copy !in s.memory && !flags.copyOnWrite
    ensures Inv(MoveLeaf(s, l, copy, flags)) && Surplus(MoveLeaf(s, l, copy, flags), s.leaves[l].frame)
  {
    CountedMove(s.leaves, s.memory.Keys, s.counts, s.pins, l, Leaf(copy, flags));
    assert MoveLeaf(s, l, copy, flags).memory.Keys == s.memory.Keys + {copy};
    MappersUpdate(s.leaves, l, Leaf(copy, flags), s.leaves[l].frame);
  }

  lemma {:induction false} MoveLeafAgrees(s: State, e: Eager, l: Loc, copy: nat, flags: Flags)
    requires Sim(s, e) && l in s.leaves && l !in s.shared && copy !in s.memory
    ensures Agree(MoveLeaf(s, l, copy, flags), e)
  {
    hide Counted, Separated;
  }

  function Separate(s: State, l: Loc, copy: nat, flags: Flags): State
    requires l in s.leaves && s.leaves[l].frame in s.memory
  {
    Release(MoveLeaf(s, l, copy, flags), s.leaves[l].frame)
  }

  lemma SeparateSimulates(s: State, e: Eager, l: Loc, copy: nat, flags: Flags)
    requires Sim(s, e) && l in s.leaves && l !in s.shared && copy !in s.memory && !flags.copyOnWrite
    ensures Sim(Separate(s, l, copy, flags), e)
  {
    MoveLeafKeeps(s, l, copy, flags);
    MoveLeafAgrees(s, e, l, copy, flags);
    ReleaseKeeps(MoveLeaf(s, l, copy, flags), s.leaves[l].frame);
    ReleaseAgrees(MoveLeaf(s, l, copy, flags), e, s.leaves[l].frame);
    hide Inv, Agree, Release, MoveLeaf;
  }

  function Retain(s: State, f: nat): State {
    s.(counts := Retained(s.counts, f))
  }

  lemma {:induction false} RetainKeeps(s: State, f: nat)
    requires Inv(s) && f in s.memory && Owners(s.counts, f) < MAX_REFS
    ensures Inv(Retain(s, f)) && Surplus(Retain(s, f), f)
  {}

  function AddLeaf(s: State, l: Loc, leaf: Leaf, shared: bool): State {
    s.(leaves := s.leaves[l := leaf], shared := if shared then s.shared + {l} else s.shared)
  }

  lemma {:induction false} AddLeafKeeps(s: State, l: Loc, leaf: Leaf, shared: bool)
    requires Inv(s) && l !in s.leaves && Surplus(s, leaf.frame)
    requires leaf.frame in s.roles && Fits(s.roles[leaf.frame], l, shared, leaf.flags)
    ensures Inv(AddLeaf(s, l, leaf, shared))
  {
    CountedAdd(s.leaves, s.memory.Keys, s.counts, s.pins, l, leaf);
    hide Counted;
  }

  /** Maps the frame of `from` at `to` as well. */
  function Share(s: State, from: Loc, to: Loc): State
    requires from in s.leaves
  {
    AddLeaf(Retain(s, s.leaves[from].frame), to, s.leaves[from], from in s.shared)
  }

  lemma {:induction false} ShareAgrees(s: State, e: Eager, from: Loc, to: Loc)
    requires Sim(s, e) && from in s.leaves && to !in s.leaves
    ensures Agree(Share(s, from, to), EagerApply(e, Fork(from, to)))
  {
    hide Counted, Separated;
  }

  lemma ShareSimulates(s: State, e: Eager, from: Loc, to: Loc)
    requires Sim(s, e) && from in s.leaves && to !in s.leaves
    requires s.roles[s.leaves[from].frame] == if from in s.shared then Object else Split
    requires Owners(s.counts, s.leaves[from].frame) < MAX_REFS
    ensures Sim(Share(s, from, to), EagerApply(e, Fork(from, to)))
  {
    ShareAgrees(s, e, from, to);
    RetainKeeps(s, s.leaves[from].frame);
    AddLeafKeeps(Retain(s, s.leaves[from].frame), to, s.leaves[from], from in s.shared);
    hide Agree, Counted, Backed;
  }

  function StoreBytes(s: State, l: Loc, offset: nat, bytes: Page): State
    requires l in s.leaves && s.leaves[l].frame in s.memory
    requires offset + |bytes| <= |s.memory[s.leaves[l].frame]|
  {
    s.(memory := s.memory[s.leaves[l].frame := Overwrite(s.memory[s.leaves[l].frame], offset, bytes)])
  }

  lemma {:induction false} StoreBytesKeeps(s: State, l: Loc, offset: nat, bytes: Page)
    requires Inv(s) && l in s.leaves && offset + |bytes| <= PAGE
    ensures Inv(StoreBytes(s, l, offset, bytes))
  {}

  /** A store through a writable leaf is seen by its aliases and by nobody else. */
  lemma {:induction false} StoreBytesAgrees(s: State, e: Eager, l: Loc, offset: nat, bytes: Page)
    requires Sim(s, e) && l in s.leaves && s.leaves[l].flags.writable && offset + |bytes| <= PAGE
    ensures Agree(StoreBytes(s, l, offset, bytes), EagerApply(e, StoreAt(l, offset, bytes)))
  {
    hide Counted;
  }

  // ---------------------------------------------------------------- resolving a fault

  datatype Outcome = Done(changed: bool) | Denied | OutOfMemory

  function Granted(flags: Flags): Flags {
    flags.(writable := true, copyOnWrite := false, writeDisabled := false)
  }

  /** Under the ledger lock: `seen` is the frame seen before locking, `copy` the spare frame. */
  function ResolveLocked(s: State, l: Loc, seen: nat, copy: nat): (r: (State, bool))
    ensures r.0.leaves.Keys == s.leaves.Keys && r.0.shared == s.shared
  {
    if l !in s.leaves || s.leaves[l].frame !in s.memory || copy in s.memory then (s, false)
    else
      var leaf := s.leaves[l];
      if leaf.flags.writable && !leaf.flags.copyOnWrite then (s, true)
      else if leaf.frame != seen || !MayResolve(leaf.flags) then (s, false)
      else if LastOwner(s.counts, seen) then (SetFlags(s, l, Granted(leaf.flags), Exclusive(l)), true)
      else (Separate(s, l, copy, Granted(leaf.flags)), true)
  }

  function ResolveCopyOnWrite(s: State, l: Loc, copy: nat): (r: (State, Outcome))
    ensures r.0.leaves.Keys == s.leaves.Keys && r.0.shared == s.shared
  {
    if l !in s.leaves || !MayResolve(s.leaves[l].flags) then (s, Done(false))
    else if copy in s.memory then (s, OutOfMemory)
    else
      var (t, resolved) := ResolveLocked(s, l, s.leaves[l].frame, copy);
      (t, Done(resolved))
  }

  lemma ResolveLockedSimulates(s: State, e: Eager, l: Loc, seen: nat, copy: nat)
    requires Sim(s, e)
    ensures Sim(ResolveLocked(s, l, seen, copy).0, e)
  {
    if l in s.leaves && copy !in s.memory && s.leaves[l].frame == seen && MayResolve(s.leaves[l].flags) {
      var flags := Granted(s.leaves[l].flags);
      if LastOwner(s.counts, seen) {
        LastOwnerIsAlone(s, l);
        SetFlagsKeeps(s, l, flags, Exclusive(l));
        SetFlagsAgrees(s, e, l, flags, Exclusive(l));
      } else {
        SeparateSimulates(s, e, l, copy, flags);
      }
      hide Agree, Counted, Backed, SetFlags, Separate;
    }
  }

  /** A successful resolution leaves the page writable with the bytes it had, on a frame nobody else refers to. */
  lemma ResolveGrantsWrite(s: State, l: Loc, copy: nat)
    requires Inv(s) && l in s.leaves && MayResolve(s.leaves[l].flags) && copy !in s.memory
    ensures var (t, outcome) := ResolveCopyOnWrite(s, l, copy);
      && outcome == Done(true)
      && l in t.leaves && t.leaves[l].flags == Granted(s.leaves[l].flags)
      && Read(t, l) == Read(s, l)
      && t.shared == s.shared
      && (t.leaves[l].frame == s.leaves[l].frame <==> Owners(s.counts, s.leaves[l].frame) == 1)
      && Alone(t, l) && t.leaves[l].frame !in t.pins
  {
    if LastOwner(s.counts, s.leaves[l].frame) {
      LastOwnerIsAlone(s, l);
    }
    hide Separated, Mappers;
  }

  // ---------------------------------------------------------------- changing protection

  function Protected(flags: Flags, present: bool, writable: bool, executable: bool): Flags {
    WithWriteAccess(
      flags.(present := present, writable := present && writable, noExecute := !present || !executable), writable)
  }

  function KeepRole(s: State, l: Loc, flags: Flags): State
    requires l in s.leaves && s.leaves[l].frame in s.roles
  {
    SetFlags(s, l, flags, s.roles[s.leaves[l].frame])
  }

  function ProtectPage(s: State, l: Loc, present: bool, writable: bool, executable: bool, copy: nat): (State, Outcome) {
    if present && writable && executable then (s, Denied)
    else if l !in s.leaves || s.leaves[l].frame !in s.roles then (s, Done(false))
    else
      var before := s.leaves[l].flags;
      if writable && before.copyOnWrite then
        var armed := KeepRole(s, l, before.(present := true, noExecute := true, writable := false, writeDisabled := false));
        var (t, outcome) := ResolveCopyOnWrite(armed, l, copy);
        if l !in t.leaves || t.leaves[l].frame !in t.roles then (t, Denied)
        else if outcome != Done(true) then (KeepRole(t, l, before), if outcome.OutOfMemory? then OutOfMemory else Denied)
        else (KeepRole(t, l, Protected(t.leaves[l].flags, present, writable, executable)), Done(true))
      else (KeepRole(s, l, Protected(before, present, writable, executable)), Done(true))
  }

  lemma KeepRoleSimulates(s: State, e: Eager, l: Loc, flags: Flags)
    requires Sim(s, e) && l in s.leaves
    requires if l in s.shared then !flags.copyOnWrite
      else flags.copyOnWrite == s.leaves[l].flags.copyOnWrite && (flags.copyOnWrite ==> !flags.writable)
    ensures Sim(KeepRole(s, l, flags), e)
  {
    SetFlagsKeeps(s, l, flags, s.roles[s.leaves[l].frame]);
    SetFlagsAgrees(s, e, l, flags, s.roles[s.leaves[l].frame]);
    hide Agree, Counted, Backed, SetFlags;
  }

  lemma ProtectSimulates(s: State, e: Eager, l: Loc, present: bool, writable: bool, executable: bool, copy: nat)
    requires Sim(s, e)
    ensures Sim(ProtectPage(s, l, present, writable, executable, copy).0, e)
  {
    hide Agree, Counted, Backed;
    if l in s.leaves && !(present && writable && executable) {
      var before := s.leaves[l].flags;
      if writable && before.copyOnWrite {
        var flags := before.(present := true, noExecute := true, writable := false, writeDisabled := false);
        var armed := KeepRole(s, l, flags);
        KeepRoleSimulates(s, e, l, flags);
        assert armed.leaves[l] == Leaf(s.leaves[l].frame, flags) && armed.memory == s.memory && armed.shared == s.shared;
        hide ResolveLocked, SetFlags;
        if copy in s.memory {
          KeepRoleSimulates(armed, e, l, before);
        } else {
          var t := ResolveCopyOnWrite(armed, l, copy).0;
          ResolveLockedSimulates(armed, e, l, armed.leaves[l].frame, copy);
          ResolveGrantsWrite(armed, l, copy);
          KeepRoleSimulates(t, e, l, Protected(t.leaves[l].flags, present, writable, executable));
        }
      } else {
        KeepRoleSimulates(s, e, l, Protected(before, present, writable, executable));
      }
    }
  }

  // ---------------------------------------------------------------- storing from the kernel

  predicate Storable(s: State, l: Loc, offset: nat, bytes: Page) {
    && l in s.leaves && s.leaves[l].flags.present && s.leaves[l].flags.writable
    && s.leaves[l].frame in s.memory && offset + |bytes| <= |s.memory[s.leaves[l].frame]|
  }

  /** One page of a copy to user memory: break copy-on-write, then demand a writable leaf. */
  function CopyChunk(s: State, l: Loc, offset: nat, bytes: Page, copy: nat): (State, Outcome) {
    var (t, outcome) :=
      if l in s.leaves && s.leaves[l].flags.present && s.leaves[l].flags.copyOnWrite
      then ResolveCopyOnWrite(s, l, copy) else (s, Done(false));
    if outcome.OutOfMemory? then (t, OutOfMemory)
    else if !Storable(t, l, offset, bytes) then (t, Denied)
    else (StoreBytes(t, l, offset, bytes), Done(true))
  }

  function StoreAction(stored: bool, l: Loc, offset: nat, bytes: Page): Action {
    if stored then StoreAt(l, offset, bytes) else Nothing
  }

  lemma StoreSimulates(s: State, e: Eager, l: Loc, offset: nat, bytes: Page)
    requires Sim(s, e) && Storable(s, l, offset, bytes)
    ensures Sim(StoreBytes(s, l, offset, bytes), EagerApply(e, StoreAt(l, offset, bytes)))
  {
    assert offset + |bytes| <= PAGE;
    StoreBytesKeeps(s, l, offset, bytes);
    StoreBytesAgrees(s, e, l, offset, bytes);
    hide Agree, Counted, Backed, Separated, StoreBytes;
  }

  lemma CopyChunkSimulates(s: State, e: Eager, l: Loc, offset: nat, bytes: Page, copy: nat)
    requires Sim(s, e)
    ensures var (t, outcome) := CopyChunk(s, l, offset, bytes, copy);
      Sim(t, EagerApply(e, StoreAction(outcome == Done(true), l, offset, bytes)))
  {
    hide Agree, Counted, Backed, Separated, ResolveLocked;
    var t := s;
    if l in s.leaves && s.leaves[l].flags.present && s.leaves[l].flags.copyOnWrite {
      ResolveLockedSimulates(s, e, l, s.leaves[l].frame, copy);
      t := ResolveCopyOnWrite(s, l, copy).0;
    }
    if Storable(t, l, offset, bytes) { StoreSimulates(t, e, l, offset, bytes); }
  }

  /** The kernel may write the page, at most after breaking copy-on-write. */
  predicate Grantable(s: State, l: Loc) {
    l in s.leaves && s.leaves[l].flags.present && (s.leaves[l].flags.writable || MayResolve(s.leaves[l].flags))
  }

  /** A chunk is refused for exactly two reasons, and a refusal changes nothing. */
  lemma {:induction false} CopyChunkRefusesIff(s: State, l: Loc, offset: nat, bytes: Page, copy: nat)
    requires Inv(s) && offset + |bytes| <= PAGE
    ensures var (t, outcome) := CopyChunk(s, l, offset, bytes, copy);
      && (outcome == OutOfMemory <==> Grantable(s, l) && !s.leaves[l].flags.writable && copy in s.memory)
      && (outcome == Denied <==> !Grantable(s, l))
      && (outcome != OutOfMemory && outcome != Denied ==> outcome == Done(true))
      && (outcome != Done(true) ==> t == s)
  {
    hide Counted, ResolveLocked;
    if l in s.leaves && MayResolve(s.leaves[l].flags) && copy !in s.memory {
      ResolveGrantsWrite(s, l, copy);
    }
  }

  // ---------------------------------------------------------------- forking

  datatype Policy = Exclude | Shared | Private | PrivateWritable

  /** The fork policy of a page follows the kind of its region. */
  predicate Consistent(s: State, l: Loc, policy: Policy) {
    policy == Exclude || (policy == Shared <==> l in s.shared)
  }

  /** The source leaf of a private page loses write access before it is shared. */
  function Armed(s: State, from: Loc, policy: Policy): State
    requires from in s.leaves
  {
    if policy == Shared then s
    else SetFlags(s, from, ClonePrivate(s.leaves[from].flags, policy == PrivateWritable), Split)
  }

  /** One leaf of a fork; `room` says whether table and ledger memory sufficed. */
  function CloneLeaf(s: State, from: Loc, to: Loc, policy: Policy, room: bool): (State, bool) {
    if from !in s.leaves || policy == Exclude then (s, true)
    else
      var t := Armed(s, from, policy);
      if !room || to in s.leaves || Owners(s.counts, s.leaves[from].frame) >= MAX_REFS then (t, false)
      else (Share(t, from, to), true)
  }

  function CloneAction(s: State, from: Loc, to: Loc, policy: Policy, room: bool): Action {
    if from in s.leaves && policy != Exclude && CloneLeaf(s, from, to, policy, room).1 then Fork(from, to) else Nothing
  }

  lemma ArmedSimulates(s: State, e: Eager, from: Loc, policy: Policy)
    requires Sim(s, e) && from in s.leaves && policy != Exclude && Consistent(s, from, policy)
    ensures Sim(Armed(s, from, policy), e)
    ensures Armed(s, from, policy).roles[s.leaves[from].frame] == if from in s.shared then Object else Split
  {
    if policy != Shared {
      var flags := ClonePrivate(s.leaves[from].flags, policy == PrivateWritable);
      assert s.roles[s.leaves[from].frame] == Split || Alone(s, from);
      SetFlagsKeeps(s, from, flags, Split);
      SetFlagsAgrees(s, e, from, flags, Split);
    }
    hide Agree, Counted, Backed;
  }

  lemma CloneLeafSimulates(s: State, e: Eager, from: Loc, to: Loc, policy: Policy, room: bool)
    requires Sim(s, e) && Consistent(s, from, policy)
    ensures Sim(CloneLeaf(s, from, to, policy, room).0, EagerApply(e, CloneAction(s, from, to, policy, room)))
  {
    hide Agree, Counted, Backed;
    if from in s.leaves && policy != Exclude {
      ArmedSimulates(s, e, from, policy);
      var t := Armed(s, from, policy);
      if room && to !in s.leaves && Owners(s.counts, s.leaves[from].frame) < MAX_REFS {
        ShareSimulates(t, e, from, to);
      }
    }
  }

  // ---------------------------------------------------------------- objects and fresh pages

  function MapPrivate(s: State, l: Loc, frame: nat, page: Page, flags: Flags): State {
    if l in s.leaves || frame in s.memory || |page| != PAGE || (flags.copyOnWrite && flags.writable) then s
    else s.(leaves := s.leaves[l := Leaf(frame, flags)], memory := s.memory[frame := page],
            roles := s.roles[frame := Exclusive(l)])
  }

  lemma {:induction false} MapPrivateKeeps(s: State, l: Loc, frame: nat, page: Page, flags: Flags)
    requires Inv(s) && l !in s.leaves && frame !in s.memory && !(flags.copyOnWrite && flags.writable) && |page| == PAGE
    ensures Inv(MapPrivate(s, l, frame, page, flags))
  {
    hide Counted;
    MapPrivateCounted(s, l, frame, page, flags);
    MapPrivateSeparated(s, l, frame, page, flags);
    hide Separated;
  }

  lemma {:induction false} MapPrivateCounted(s: State, l: Loc, frame: nat, page: Page, flags: Flags)
    requires Inv(s) && l !in s.leaves && frame !in s.memory && !(flags.copyOnWrite && flags.writable) && |page| == PAGE
    ensures var t := MapPrivate(s, l, frame, page, flags); Counted(t.leaves, t.memory.Keys, t.counts, t.pins)
  {
    CountedMove(s.leaves, s.memory.Keys, s.counts, s.pins, l, Leaf(frame, flags));
    assert MapPrivate(s, l, frame, page, flags).memory.Keys == s.memory.Keys + {frame};
    hide Counted, Separated;
  }

  lemma {:induction false} MapPrivateSeparated(s: State, l: Loc, frame: nat, page: Page, flags: Flags)
    requires Backed(s) && Separated(s) && l !in s.leaves && frame !in s.memory && !(flags.copyOnWrite && flags.writable) && |page| == PAGE
    ensures Separated(MapPrivate(s, l, frame, page, flags))
  {
  }

  lemma {:induction false} MapPrivateAgrees(s: State, e: Eager, l: Loc, frame: nat, page: Page, flags: Flags)
    requires Sim(s, e) && l !in s.leaves && frame !in s.memory && !(flags.copyOnWrite && flags.writable) && |page| == PAGE
    ensures Agree(MapPrivate(s, l, frame, page, flags), EagerApply(e, NewPrivate(l, page)))
  {
    hide Counted, Separated;
  }

  /** A cache or memory object takes a fresh frame. */
  function AllocateObject(s: State, frame: nat, page: Page): State {
    if frame in s.memory || |page| != PAGE then s
    else s.(memory := s.memory[frame := page], pins := s.pins[frame := 1], roles := s.roles[frame := Object])
  }

  lemma {:induction false} AllocateObjectKeeps(s: State, frame: nat, page: Page)
    requires Inv(s)
    ensures Inv(AllocateObject(s, frame, page))
  {
    if frame !in s.memory { assert Mappers(s.leaves, frame) == {}; }
  }

  lemma {:induction false} AllocateObjectAgrees(s: State, e: Eager, frame: nat, page: Page)
    requires Sim(s, e) && frame !in s.memory && |page| == PAGE
    ensures Agree(AllocateObject(s, frame, page), EagerApply(e, NewObject(frame, page)))
  {
    hide Counted, Separated;
  }

  function PinObject(s: State, frame: nat): State {
    if frame !in s.pins || Owners(s.counts, frame) >= MAX_REFS then s
    else Retain(s, frame).(pins := s.pins[frame := s.pins[frame] + 1])
  }

  lemma {:induction false} PinObjectSimulates(s: State, e: Eager, frame: nat)
    requires Sim(s, e)
    ensures Sim(PinObject(s, frame), e)
  {}

  function Unpinned(s: State, frame: nat): State
    requires frame in s.pins
  {
    s.(pins := if s.pins[frame] <= 1 then s.pins - {frame} else s.pins[frame := s.pins[frame] - 1])
  }

  function UnpinObject(s: State, frame: nat): State {
    if frame !in s.pins then s else Release(Unpinned(s, frame), frame)
  }

  lemma {:induction false} UnpinnedKeeps(s: State, e: Eager, frame: nat)
    requires Sim(s, e) && frame in s.pins
    ensures Sim(Unpinned(s, frame), e) && Surplus(Unpinned(s, frame), frame)
  {}

  lemma UnpinObjectSimulates(s: State, e: Eager, frame: nat)
    requires Sim(s, e)
    ensures Sim(UnpinObject(s, frame), e)
  {
    if frame in s.pins {
      UnpinnedKeeps(s, e, frame);
      ReleaseKeeps(Unpinned(s, frame), frame);
      ReleaseAgrees(Unpinned(s, frame), e, frame);
      hide Agree, Counted, Backed, Separated, Release;
    }
  }

  function WriteObject(s: State, frame: nat, page: Page): State {
    if frame !in s.pins || |page| != PAGE then s else s.(memory := s.memory[frame := page])
  }

  lemma {:induction false} WriteObjectSimulates(s: State, e: Eager, frame: nat, page: Page)
    requires Sim(s, e) && frame in s.pins && |page| == PAGE
    ensures Sim(WriteObject(s, frame, page), EagerApply(e, StoreObject(frame, page)))
  {
    assert WriteObject(s, frame, page).memory.Keys == s.memory.Keys;
    hide Counted;
  }

  /** A shared mapping of an object's frame counts as one more owner; a taken page rolls the count back. */
  function MapShared(s: State, l: Loc, frame: nat, writable: bool, executable: bool): (State, bool) {
    if (writable && executable) || frame !in s.pins || Owners(s.counts, frame) >= MAX_REFS then (s, false)
    else if l in s.leaves then (Release(Retain(s, frame), frame), false)
    else (AddLeaf(Retain(s, frame), l, Leaf(frame, Flags(true, writable, !executable, false, false)), true), true)
  }

  function MapSharedAction(s: State, l: Loc, frame: nat, writable: bool, executable: bool): Action {
    if MapShared(s, l, frame, writable, executable).1 then NewAlias(l, frame) else Nothing
  }

  lemma {:induction false} AddAliasAgrees(s: State, e: Eager, l: Loc, leaf: Leaf)
    requires Sim(s, e) && l !in s.leaves && leaf.frame in s.pins
    ensures Agree(AddLeaf(Retain(s, leaf.frame), l, leaf, true), EagerApply(e, NewAlias(l, leaf.frame)))
  {
    hide Counted, Separated;
  }

  lemma MapSharedSimulates(s: State, e: Eager, l: Loc, frame: nat, writable: bool, executable: bool)
    requires Sim(s, e)
    ensures Sim(MapShared(s, l, frame, writable, executable).0,
                EagerApply(e, MapSharedAction(s, l, frame, writable, executable)))
  {
    if !(writable && executable) && frame in s.pins && Owners(s.counts, frame) < MAX_REFS {
      RetainKeeps(s, frame);
      if l in s.leaves {
        RetainReleaseRoundTrip(s.counts, frame);
        assert Release(Retain(s, frame), frame) == s;
      } else {
        var leaf := Leaf(frame, Flags(true, writable, !executable, false, false));
        AddLeafKeeps(Retain(s, frame), l, leaf, true);
        AddAliasAgrees(s, e, l, leaf);
        hide Agree, Counted, Backed, Separated;
      }
    }
  }

  // ---------------------------------------------------------------- every run

  /** Loops over pages (fork, destruction, long copies) are runs of these steps. */
  datatype Op =
    | MapPrivatePage(l: Loc, frame: nat, page: Page, flags: Flags)
    | NewObjectFrame(frame: nat, page: Page)
    | PinFrame(frame: nat)
    | UnpinFrame(frame: nat)
    | WriteFrame(frame: nat, page: Page)
    | MapSharedPage(l: Loc, frame: nat, writable: bool, executable: bool)
    | Resolve(l: Loc, seen: nat, copy: nat)
    | Protect(l: Loc, present: bool, writable: bool, executable: bool, copy: nat)
    | UserStore(l: Loc, offset: nat, bytes: Page)
    | KernelStore(l: Loc, offset: nat, bytes: Page, copy: nat)
    | ForkPage(l: Loc, to: Loc, policy: Policy, room: bool)
    | Unmap(l: Loc)
    | Destroy(l: Loc)

  function DestroyLeaf(s: State, l: Loc): State
    requires l in s.leaves
  {
    if s.leaves[l].flags.present then DropLeaf(s, l) else ForgetLeaf(s, l)
  }

  function Apply(s: State, op: Op): State {
    match op
    case MapPrivatePage(l, frame, page, flags) => MapPrivate(s, l, frame, page, flags)
    case NewObjectFrame(frame, page) => AllocateObject(s, frame, page)
    case PinFrame(frame) => PinObject(s, frame)
    case UnpinFrame(frame) => UnpinObject(s, frame)
    case WriteFrame(frame, page) => WriteObject(s, frame, page)
    case MapSharedPage(l, frame, writable, executable) => MapShared(s, l, frame, writable, executable).0
    case Resolve(l, seen, copy) => ResolveLocked(s, l, seen, copy).0
    case Protect(l, present, writable, executable, copy) => ProtectPage(s, l, present, writable, executable, copy).0
    case UserStore(l, offset, bytes) => if Storable(s, l, offset, bytes) then StoreBytes(s, l, offset, bytes) else s
    case KernelStore(l, offset, bytes, copy) => CopyChunk(s, l, offset, bytes, copy).0
    case ForkPage(l, to, policy, room) => if Consistent(s, l, policy) then CloneLeaf(s, l, to, policy, room).0 else s
    case Unmap(l) => if l in s.leaves then DropLeaf(s, l) else s
    case Destroy(l) => if l in s.leaves then DestroyLeaf(s, l) else s
  }

  /** What the step does to the reference. */
  function ActionOf(s: State, op: Op): Action {
    match op
    case MapPrivatePage(l, frame, page, flags) =>
      if l in s.leaves || frame in s.memory || |page| != PAGE || (flags.copyOnWrite && flags.writable) then Nothing
      else NewPrivate(l, page)
    case NewObjectFrame(frame, page) => if frame in s.memory || |page| != PAGE then Nothing else NewObject(frame, page)
    case PinFrame(_) => Nothing
    case UnpinFrame(_) => Nothing
    case WriteFrame(frame, page) => if frame in s.pins && |page| == PAGE then StoreObject(frame, page) else Nothing
    case MapSharedPage(l, frame, writable, executable) => MapSharedAction(s, l, frame, writable, executable)
    case Resolve(_, _, _) => Nothing
    case Protect(_, _, _, _, _) => Nothing
    case UserStore(l, offset, bytes) => StoreAction(Storable(s, l, offset, bytes), l, offset, bytes)
    case KernelStore(l, offset, bytes, copy) =>
      StoreAction(CopyChunk(s, l, offset, bytes, copy).1 == Done(true), l, offset, bytes)
    case ForkPage(l, to, policy, room) => if Consistent(s, l, policy) then CloneAction(s, l, to, policy, room) else Nothing
    case Unmap(l) => Remove(l)
    case Destroy(l) => Remove(l)
  }

  lemma RemoveAbsent(s: State, e: Eager, l: Loc)
    requires Sim(s, e) && l !in s.leaves
    ensures EagerApply(e, Remove(l)) == e
  {
    hide Counted, Separated, Backed;
    assert e.private - {l} == e.private && e.aliases - {l} == e.aliases;
  }

  lemma StepSimulates(s: State, e: Eager, op: Op)
    requires Sim(s, e)
    ensures Sim(Apply(s, op), EagerApply(e, ActionOf(s, op)))
  {
    hide Counted, Backed, Separated, Agree, CopyChunk, ProtectPage, ResolveLocked, CloneLeaf, CloneAction, MapShared,
      MapSharedAction, UnpinObject, PinObject, DropLeaf, ForgetLeaf;
    match op
    case MapPrivatePage(l, frame, page, flags) =>
      if l !in s.leaves && frame !in s.memory && |page| == PAGE && !(flags.copyOnWrite && flags.writable) {
        MapPrivateKeeps(s, l, frame, page, flags);
        MapPrivateAgrees(s, e, l, frame, page, flags);
      }
    case NewObjectFrame(frame, page) =>
      AllocateObjectKeeps(s, frame, page);
      if frame !in s.memory && |page| == PAGE { AllocateObjectAgrees(s, e, frame, page); }
    case PinFrame(frame) => PinObjectSimulates(s, e, frame);
    case UnpinFrame(frame) => UnpinObjectSimulates(s, e, frame);
    case WriteFrame(frame, page) => if frame in s.pins && |page| == PAGE { WriteObjectSimulates(s, e, frame, page); }
    case MapSharedPage(l, frame, writable, executable) => MapSharedSimulates(s, e, l, frame, writable, executable);
    case Resolve(l, seen, copy) => ResolveLockedSimulates(s, e, l, seen, copy);
    case Protect(l, present, writable, executable, copy) => ProtectSimulates(s, e, l, present, writable, executable, copy);
    case UserStore(l, offset, bytes) => if Storable(s, l, offset, bytes) { StoreSimulates(s, e, l, offset, bytes); }
    case KernelStore(l, offset, bytes, copy) => CopyChunkSimulates(s, e, l, offset, bytes, copy);
    case ForkPage(l, to, policy, room) =>
      if Consistent(s, l, policy) { CloneLeafSimulates(s, e, l, to, policy, room); }
    case Unmap(l) => if l in s.leaves { DropLeafSimulates(s, e, l); } else { RemoveAbsent(s, e, l); }
    case Destroy(l) =>
      if l !in s.leaves { RemoveAbsent(s, e, l); }
      else if s.leaves[l].flags.present { DropLeafSimulates(s, e, l); }
      else { ForgetLeafKeeps(s, l); ForgetLeafAgrees(s, e, l); }
  }

  function Run(s: State, ops: seq<Op>): State
    decreases |ops|
  {
    if ops == [] then s else Run(Apply(s, ops[0]), ops[1..])
  }

  function EagerRun(s: State, e: Eager, ops: seq<Op>): Eager
    decreases |ops|
  {
    if ops == [] then e else EagerRun(Apply(s, ops[0]), EagerApply(e, ActionOf(s, ops[0])), ops[1..])
  }

  const Empty := State(map[], map[], map[], map[], {}, map[])
  const EmptyEager := Eager(map[], map[], map[])

  lemma {:induction false} RunSimulates(s: State, e: Eager, ops: seq<Op>)
    requires Sim(s, e)
    ensures Sim(Run(s, ops), EagerRun(s, e, ops))
    decreases |ops|
  {
    hide Sim, Apply, EagerApply, ActionOf;
    if ops != [] {
      StepSimulates(s, e, ops[0]);
      RunSimulates(Apply(s, ops[0]), EagerApply(e, ActionOf(s, ops[0])), ops[1..]);
    }
  }

  lemma {:induction false} RunSound(ops: seq<Op>)
    ensures Sim(Run(Empty, ops), EagerRun(Empty, EmptyEager, ops))
  {
    RunSimulates(Empty, EmptyEager, ops);
  }

  /** After any run, every address space reads what it would read had forks copied eagerly. */
  lemma ReadsAreEager(ops: seq<Op>, l: Loc)
    ensures Read(Run(Empty, ops), l) == EagerRead(EagerRun(Empty, EmptyEager, ops), l)
  {
    hide Counted, Separated, Run, EagerRun;
    RunSound(ops);
  }

  /** After any run, a frame mapped by a private writable leaf has no other mapper and no pin. */
  lemma WritablePrivateFrameIsUnshared(ops: seq<Op>, l: Loc, other: Loc)
    ensures var s := Run(Empty, ops);
      l in s.leaves && l !in s.shared && s.leaves[l].flags.writable ==>
        && s.leaves[l].frame !in s.pins
        && (other in s.leaves && s.leaves[other].frame == s.leaves[l].frame ==> other == l)
  {
    hide Counted, Agree, Run, EagerRun;
    RunSound(ops);
  }

  /** After any run, no leaf and no pin refers to a frame the allocator may hand out. */
  lemma FreedFramesAreUnreferenced(ops: seq<Op>, frame: nat)
    ensures var s := Run(Empty, ops);
      frame !in s.memory ==> Mappers(s.leaves, frame) == {} && frame !in s.pins && Owners(s.counts, frame) == 1
  {
    hide Agree, Separated, Run, EagerRun;
    RunSound(ops);
  }

  // ---------------------------------------------------------------- a whole fork

  /** Forking every listed page in turn. */
  function ForkAll(e: Eager, src: nat, dst: nat, pages: seq<nat>): Eager {
    if pages == [] then e
    else EagerApply(ForkAll(e, src, dst, pages[..|pages| - 1]),
                    Fork(Loc(src, pages[|pages| - 1]), Loc(dst, pages[|pages| - 1])))
  }

  /** Where a location's page came from. */
  function Origin(l: Loc, src: nat, dst: nat, pages: seq<nat>): Loc {
    if l.space == dst && l.page in pages then Loc(src, l.page) else l
  }

  predicate FreshSpace(e: Eager, space: nat) {
    && (forall l :: l in e.private ==> l.space != space)
    && (forall l :: l in e.aliases ==> l.space != space)
  }

  /** ... is copying all private pages at once and aliasing all shared ones. */
  lemma {:induction false} ForkAllCopiesAtOnce(e: Eager, src: nat, dst: nat, pages: seq<nat>, l: Loc)
    requires src != dst && FreshSpace(e, dst) && e.private.Keys !! e.aliases.Keys
    ensures var r, from := ForkAll(e, src, dst, pages), Origin(l, src, dst, pages);
      && r.objects == e.objects
      && (l in r.private <==> from in e.private) && (l in r.private ==> r.private[l] == e.private[from])
      && (l in r.aliases <==> from in e.aliases) && (l in r.aliases ==> r.aliases[l] == e.aliases[from])
      && EagerRead(r, l) == EagerRead(e, from)
  {
    if pages != [] {
      var rest, last := pages[..|pages| - 1], pages[|pages| - 1];
      assert pages == rest + [last];
      ForkAllCopiesAtOnce(e, src, dst, rest, l);
      ForkAllCopiesAtOnce(e, src, dst, rest, Loc(src, last));
    }
  }

  function RemoveSpace(e: Eager, space: nat): Eager {
    Eager(map l | l in e.private && l.space != space :: e.private[l],
          map l | l in e.aliases && l.space != space :: e.aliases[l], e.objects)
  }

  /** Destroying the destination of an interrupted fork restores the reference. */
  lemma {:induction false} RemoveUndoesFork(e: Eager, src: nat, dst: nat, pages: seq<nat>)
    requires src != dst && FreshSpace(e, dst) && e.private.Keys !! e.aliases.Keys
    ensures RemoveSpace(ForkAll(e, src, dst, pages), dst) == e
  {
    var r := ForkAll(e, src, dst, pages);
    var back := RemoveSpace(r, dst);
    forall l ensures (l in back.private <==> l in e.private) && (l in back.aliases <==> l in e.aliases) {
      ForkAllCopiesAtOnce(e, src, dst, pages, l);
    }
    forall l | l in e.private ensures back.private[l] == e.private[l] { ForkAllCopiesAtOnce(e, src, dst, pages, l); }
    forall l | l in e.aliases ensures back.aliases[l] == e.aliases[l] { ForkAllCopiesAtOnce(e, src, dst, pages, l); }
    ForkAllCopiesAtOnce(e, src, dst, pages, Loc(dst, 0));
    assert back.private == e.private && back.aliases == e.aliases;
  }
}
