/**
 Exact ownership over runs of copy-on-write. The ledger counts the leaves, the pins and
 the references that a destroyed table forgot with leaves that were not present; so a
 frame stays allocated exactly as long as something refers to it or a reference was forgotten.
 */
module FrameLedger {
  import opened CopyOnWrite
  import FrameRefs

  /** Every counted owner is a leaf, a pin, or one of the `loose` references. */
  ghost predicate Exact(leaves: map<Loc, Leaf>, frames: set<nat>, counts: FrameRefs.Counts, pins: map<nat, nat>, loose: multiset<nat>) {
    && (forall f :: f in frames ==> |Mappers(leaves, f)| + Pins(pins, f) + loose[f] == FrameRefs.Owners(counts, f))
    && (forall f :: f in loose ==> f in frames)
  }

  ghost predicate Ledger(s: State, loose: multiset<nat>) {
    Exact(s.leaves, s.memory.Keys, s.counts, s.pins, loose)
  }

  /** Nothing but allocated frames is counted, pinned or mapped. */
  ghost predicate Backing(s: State) {
    && FrameRefs.WellFormed(s.counts) && s.counts.Keys <= s.memory.Keys && s.pins.Keys <= s.memory.Keys
    && (forall l :: l in s.leaves ==> s.leaves[l].frame in s.memory)
  }

  lemma InvBacks(s: State)
    requires Inv(s)
    ensures Backing(s)
  {}

  // ---------------------------------------------------------------- elementary edits

  lemma {:induction false} RewriteIsExact(leaves: map<Loc, Leaf>, frames: set<nat>, counts: FrameRefs.Counts, pins: map<nat, nat>,
                                          loose: multiset<nat>, l: Loc, leaf: Leaf)
    requires Exact(leaves, frames, counts, pins, loose) && l in leaves && leaf.frame == leaves[l].frame
    ensures Exact(leaves[l := leaf], frames, counts, pins, loose)
  {
    forall f | f in frames ensures |Mappers(leaves[l := leaf], f)| == |Mappers(leaves, f)| {
      MappersUpdate(leaves, l, leaf, f);
    }
  }

  /** A removed leaf leaves its reference behind. */
  lemma {:induction false} ForgetIsExact(leaves: map<Loc, Leaf>, frames: set<nat>, counts: FrameRefs.Counts, pins: map<nat, nat>,
                                         loose: multiset<nat>, l: Loc)
    requires Exact(leaves, frames, counts, pins, loose) && l in leaves && leaves[l].frame in frames
    ensures Exact(leaves - {l}, frames, counts, pins, loose + multiset{leaves[l].frame})
  {
    forall f | f in frames ensures |Mappers(leaves - {l}, f)| == |Mappers(leaves, f)| - FrameRefs.One(leaves[l].frame == f) {
      MappersRemove(leaves, l, f);
    }
  }

  /** A new leaf takes a reference over. */
  lemma {:induction false} AddIsExact(leaves: map<Loc, Leaf>, frames: set<nat>, counts: FrameRefs.Counts, pins: map<nat, nat>,
                                      loose: multiset<nat>, l: Loc, leaf: Leaf)
    requires Exact(leaves, frames, counts, pins, loose + multiset{leaf.frame}) && l !in leaves
    ensures Exact(leaves[l := leaf], frames, counts, pins, loose)
  {
    forall f | f in frames ensures |Mappers(leaves[l := leaf], f)| == |Mappers(leaves, f)| + FrameRefs.One(leaf.frame == f) {
      MappersUpdate(leaves, l, leaf, f);
    }
    assert forall f :: f in loose ==> f in loose + multiset{leaf.frame};
  }

  /** A frame nobody counted before is taken by one leaf, which may leave another frame behind. */
  lemma {:induction false} FreshIsExact(leaves: map<Loc, Leaf>, frames: set<nat>, counts: FrameRefs.Counts, pins: map<nat, nat>,
                                        loose: multiset<nat>, l: Loc, leaf: Leaf)
    requires Exact(leaves, frames, counts, pins, loose) && l !in leaves
    requires leaf.frame !in frames && leaf.frame !in counts && leaf.frame !in pins
    requires forall m :: m in leaves ==> leaves[m].frame in frames
    ensures Exact(leaves[l := leaf], frames + {leaf.frame}, counts, pins, loose)
  {
    assert Mappers(leaves, leaf.frame) == {};
    assert loose[leaf.frame] == 0;
    forall f | f in frames + {leaf.frame}
      ensures |Mappers(leaves[l := leaf], f)| == |Mappers(leaves, f)| + FrameRefs.One(leaf.frame == f)
    {
      MappersUpdate(leaves, l, leaf, f);
    }
  }

  lemma OneMore(loose: multiset<nat>, f: nat)
    ensures forall g :: (loose + multiset{f})[g] == loose[g] + FrameRefs.One(g == f)
    ensures forall g :: g in loose ==> g in loose + multiset{f}
  {}

  lemma {:induction false} LastIsExact(leaves: map<Loc, Leaf>, frames: set<nat>, counts: FrameRefs.Counts, pins: map<nat, nat>,
                                       loose: multiset<nat>, f: nat)
    requires Exact(leaves, frames, counts, pins, loose + multiset{f}) && f !in counts
    ensures Exact(leaves, frames - {f}, counts, pins, loose)
  {
    OneMore(loose, f);
    hide Mappers;
    assert f in loose + multiset{f};
    assert loose[f] == 0;
  }

  lemma {:induction false} OneFewerIsExact(leaves: map<Loc, Leaf>, frames: set<nat>, counts: FrameRefs.Counts, pins: map<nat, nat>,
                                           loose: multiset<nat>, f: nat)
    requires Exact(leaves, frames, counts, pins, loose + multiset{f}) && f in counts && counts[f] >= 2
    ensures Exact(leaves, frames, FrameRefs.Released(counts, f), pins, loose)
  {
    OneMore(loose, f);
    assert forall g :: FrameRefs.Owners(FrameRefs.Released(counts, f), g) == FrameRefs.Owners(counts, g) - FrameRefs.One(g == f);
    hide Mappers, FrameRefs.Released, FrameRefs.Owners;
  }

  /** Dropping a loose reference, the last of which frees the frame. */
  lemma {:induction false} ReleaseIsExact(s: State, loose: multiset<nat>, f: nat)
    requires Backing(s) && Ledger(s, loose + multiset{f})
    ensures Ledger(Release(s, f), loose)
  {
    if FrameRefs.LastOwner(s.counts, f) {
      LastIsExact(s.leaves, s.memory.Keys, s.counts, s.pins, loose, f);
      assert (s.memory - {f}).Keys == s.memory.Keys - {f};
    } else {
      OneFewerIsExact(s.leaves, s.memory.Keys, s.counts, s.pins, loose, f);
    }
    hide Exact;
  }

  lemma {:induction false} RetainIsExact(s: State, loose: multiset<nat>, f: nat)
    requires Ledger(s, loose) && f in s.memory
    ensures Ledger(Retain(s, f), loose + multiset{f})
  {
    OneMore(loose, f);
    hide Mappers;
  }

  lemma {:induction false} SetFlagsIsExact(s: State, loose: multiset<nat>, l: Loc, flags: Flags, role: Role)
    requires Ledger(s, loose) && l in s.leaves
    ensures Ledger(SetFlags(s, l, flags, role), loose)
  {
    RewriteIsExact(s.leaves, s.memory.Keys, s.counts, s.pins, loose, l, s.leaves[l].(flags := flags));
  }

  lemma {:induction false} ForgetLeafIsExact(s: State, loose: multiset<nat>, l: Loc)
    requires Backing(s) && Ledger(s, loose) && l in s.leaves
    ensures Ledger(ForgetLeaf(s, l), loose + multiset{s.leaves[l].frame}) && Backing(ForgetLeaf(s, l))
  {
    ForgetIsExact(s.leaves, s.memory.Keys, s.counts, s.pins, loose, l);
  }

  lemma {:induction false} DropLeafIsExact(s: State, loose: multiset<nat>, l: Loc)
    requires Backing(s) && Ledger(s, loose) && l in s.leaves
    ensures Ledger(DropLeaf(s, l), loose)
  {
    ForgetLeafIsExact(s, loose, l);
    ReleaseIsExact(ForgetLeaf(s, l), loose, s.leaves[l].frame);
    hide Ledger, Backing, Release, ForgetLeaf;
  }

  lemma {:induction false} MoveLeafIsExact(s: State, loose: multiset<nat>, l: Loc, copy: nat, flags: Flags)
    requires Backing(s) && Ledger(s, loose) && l in s.leaves && copy !in s.memory
    ensures var t := MoveLeaf(s, l, copy, flags); Ledger(t, loose + multiset{s.leaves[l].frame}) && Backing(t)
  {
    var leaf, t := Leaf(copy, flags), MoveLeaf(s, l, copy, flags);
    assert t.memory.Keys == s.memory.Keys + {copy};
    assert Backing(t);
    ForgetIsExact(s.leaves, s.memory.Keys, s.counts, s.pins, loose, l);
    FreshIsExact(s.leaves - {l}, s.memory.Keys, s.counts, s.pins, loose + multiset{s.leaves[l].frame}, l, leaf);
    assert (s.leaves - {l})[l := leaf] == t.leaves;
    hide Exact, Backing;
  }

  lemma {:induction false} SeparateIsExact(s: State, loose: multiset<nat>, l: Loc, copy: nat, flags: Flags)
    requires Backing(s) && Ledger(s, loose) && l in s.leaves && copy !in s.memory
    ensures Ledger(Separate(s, l, copy, flags), loose)
  {
    MoveLeafIsExact(s, loose, l, copy, flags);
    ReleaseIsExact(MoveLeaf(s, l, copy, flags), loose, s.leaves[l].frame);
    hide Ledger, Backing, Release, MoveLeaf;
  }

  lemma {:induction false} ShareIsExact(s: State, loose: multiset<nat>, l: Loc, leaf: Leaf, shared: bool)
    requires Ledger(s, loose) && l !in s.leaves && leaf.frame in s.memory
    ensures Ledger(AddLeaf(Retain(s, leaf.frame), l, leaf, shared), loose)
  {
    RetainIsExact(s, loose, leaf.frame);
    AddIsExact(s.leaves, s.memory.Keys, Retain(s, leaf.frame).counts, s.pins, loose, l, leaf);
    hide Exact;
  }

  // ---------------------------------------------------------------- operations

  lemma {:induction false} ResolveIsExact(s: State, loose: multiset<nat>, l: Loc, seen: nat, copy: nat)
    requires Backing(s) && Ledger(s, loose)
    ensures Ledger(ResolveLocked(s, l, seen, copy).0, loose)
  {
    if l in s.leaves && copy !in s.memory && s.leaves[l].frame == seen && MayResolve(s.leaves[l].flags) {
      var flags := Granted(s.leaves[l].flags);
      SetFlagsIsExact(s, loose, l, flags, Exclusive(l));
      SeparateIsExact(s, loose, l, copy, flags);
    }
    hide Ledger, Backing, SetFlags, Separate;
  }

  lemma {:induction false} ResolveCopyOnWriteIsExact(s: State, loose: multiset<nat>, l: Loc, copy: nat)
    requires Backing(s) && Ledger(s, loose)
    ensures Ledger(ResolveCopyOnWrite(s, l, copy).0, loose)
  {
    if l in s.leaves {
      ResolveIsExact(s, loose, l, s.leaves[l].frame, copy);
    }
    hide Ledger, Backing, ResolveLocked;
  }

  lemma {:induction false} ProtectIsExact(s: State, loose: multiset<nat>, l: Loc, present: bool, writable: bool, executable: bool, copy: nat)
    requires Backing(s) && Ledger(s, loose)
    ensures Ledger(ProtectPage(s, l, present, writable, executable, copy).0, loose)
  {
    if !(present && writable && executable) && l in s.leaves && s.leaves[l].frame in s.roles {
      var before := s.leaves[l].flags;
      if writable && before.copyOnWrite {
        var flags := before.(present := true, noExecute := true, writable := false, writeDisabled := false);
        var armed := KeepRole(s, l, flags);
        SetFlagsIsExact(s, loose, l, flags, s.roles[s.leaves[l].frame]);
        assert Backing(armed);
        ResolveCopyOnWriteIsExact(armed, loose, l, copy);
        var t := ResolveCopyOnWrite(armed, l, copy).0;
        hide Ledger, Backing, ResolveCopyOnWrite, SetFlags;
        if l in t.leaves && t.leaves[l].frame in t.roles {
          SetFlagsIsExact(t, loose, l, before, t.roles[t.leaves[l].frame]);
          SetFlagsIsExact(t, loose, l, Protected(t.leaves[l].flags, present, writable, executable), t.roles[t.leaves[l].frame]);
        }
      } else {
        SetFlagsIsExact(s, loose, l, Protected(before, present, writable, executable), s.roles[s.leaves[l].frame]);
        hide Ledger, Backing, SetFlags;
      }
    }
  }

  lemma {:induction false} StoreIsExact(s: State, loose: multiset<nat>, l: Loc, offset: nat, bytes: Page)
    requires Ledger(s, loose) && Storable(s, l, offset, bytes)
    ensures Ledger(StoreBytes(s, l, offset, bytes), loose)
  {
    assert StoreBytes(s, l, offset, bytes).memory.Keys == s.memory.Keys;
    hide Exact;
  }

  lemma {:induction false} CopyChunkIsExact(s: State, loose: multiset<nat>, l: Loc, offset: nat, bytes: Page, copy: nat)
    requires Backing(s) && Ledger(s, loose)
    ensures Ledger(CopyChunk(s, l, offset, bytes, copy).0, loose)
  {
    var t := s;
    if l in s.leaves && s.leaves[l].flags.present && s.leaves[l].flags.copyOnWrite {
      ResolveCopyOnWriteIsExact(s, loose, l, copy);
      t := ResolveCopyOnWrite(s, l, copy).0;
    }
    if Storable(t, l, offset, bytes) {
      StoreIsExact(t, loose, l, offset, bytes);
    }
    hide Ledger, Backing, ResolveCopyOnWrite, StoreBytes;
  }

  lemma {:induction false} CloneLeafIsExact(s: State, loose: multiset<nat>, from: Loc, to: Loc, policy: Policy, room: bool)
    requires Backing(s) && Ledger(s, loose)
    ensures Ledger(CloneLeaf(s, from, to, policy, room).0, loose)
  {
    if from in s.leaves && policy != Exclude {
      var t := Armed(s, from, policy);
      SetFlagsIsExact(s, loose, from, ClonePrivate(s.leaves[from].flags, policy == PrivateWritable), Split);
      assert t.leaves[from].frame in t.memory && t.leaves.Keys == s.leaves.Keys;
      if to !in s.leaves {
        ShareIsExact(t, loose, to, t.leaves[from], from in t.shared);
      }
      hide Ledger, Backing, SetFlags, Retain, AddLeaf;
    }
  }

  lemma {:induction false} MapPrivateIsExact(s: State, loose: multiset<nat>, l: Loc, frame: nat, page: Page, flags: Flags)
    requires Backing(s) && Ledger(s, loose)
    ensures Ledger(MapPrivate(s, l, frame, page, flags), loose)
  {
    if l !in s.leaves && frame !in s.memory && |page| == PAGE && !(flags.copyOnWrite && flags.writable) {
      FreshIsExact(s.leaves, s.memory.Keys, s.counts, s.pins, loose, l, Leaf(frame, flags));
      assert s.memory[frame := page].Keys == s.memory.Keys + {frame};
    }
    hide Exact;
  }

  lemma {:induction false} AllocateObjectIsExact(s: State, loose: multiset<nat>, frame: nat, page: Page)
    requires Backing(s) && Ledger(s, loose)
    ensures Ledger(AllocateObject(s, frame, page), loose)
  {
    if frame !in s.memory && |page| == PAGE {
      assert Mappers(s.leaves, frame) == {};
      assert loose[frame] == 0;
      assert s.memory[frame := page].Keys == s.memory.Keys + {frame};
    }
    hide Mappers;
  }

  lemma {:induction false} PinIsExact(s: State, loose: multiset<nat>, frame: nat)
    requires Backing(s) && Ledger(s, loose)
    ensures Ledger(PinObject(s, frame), loose)
  {
    hide Mappers;
  }

  lemma {:induction false} UnpinIsExact(s: State, loose: multiset<nat>, frame: nat)
    requires Inv(s) && Ledger(s, loose)
    ensures Ledger(UnpinObject(s, frame), loose)
  {
    if frame in s.pins {
      var t := Unpinned(s, frame);
      UnpinnedIsExact(s, loose, frame);
      ReleaseIsExact(t, loose, frame);
      hide Ledger, Backing, Release, Inv;
    }
  }

  lemma {:induction false} UnpinnedIsExact(s: State, loose: multiset<nat>, frame: nat)
    requires Inv(s) && Ledger(s, loose) && frame in s.pins
    ensures Ledger(Unpinned(s, frame), loose + multiset{frame}) && Backing(Unpinned(s, frame))
  {
    InvBacks(s);
    OneMore(loose, frame);
    assert s.pins[frame] > 0 && frame in s.memory;
    assert forall g :: Pins(Unpinned(s, frame).pins, g) == Pins(s.pins, g) - FrameRefs.One(g == frame);
    hide Inv, Mappers, Pins;
  }

  lemma {:induction false} MapSharedIsExact(s: State, loose: multiset<nat>, l: Loc, frame: nat, writable: bool, executable: bool)
    requires Backing(s) && Ledger(s, loose)
    ensures Ledger(MapShared(s, l, frame, writable, executable).0, loose)
  {
    if !(writable && executable) && frame in s.pins && FrameRefs.Owners(s.counts, frame) < FrameRefs.MAX_REFS {
      if l in s.leaves {
        FrameRefs.RetainReleaseRoundTrip(s.counts, frame);
        assert Release(Retain(s, frame), frame) == s;
      } else {
        ShareIsExact(s, loose, l, Leaf(frame, Flags(true, writable, !executable, false, false)), true);
      }
    }
    hide Ledger, Backing, Release, Retain, AddLeaf;
  }

  // ---------------------------------------------------------------- every run

  /** The reference that goes out of sight with a destroyed leaf that is not present. */
  function Forgotten(s: State, op: Op): multiset<nat> {
    if op.Destroy? && op.l in s.leaves && !s.leaves[op.l].flags.present then multiset{s.leaves[op.l].frame} else multiset{}
  }

  lemma {:induction false} WriteIsExact(s: State, loose: multiset<nat>, frame: nat, page: Page)
    requires Backing(s) && Ledger(s, loose)
    ensures Ledger(WriteObject(s, frame, page), loose)
  {
    if frame in s.pins {
      assert s.memory[frame := page].Keys == s.memory.Keys;
    }
    hide Exact;
  }

  predicate IsMapping(op: Op) {
    op.MapPrivatePage? || op.NewObjectFrame? || op.PinFrame? || op.UnpinFrame? || op.WriteFrame? || op.MapSharedPage?
  }

  lemma {:induction false} MappingIsExact(s: State, op: Op, loose: multiset<nat>)
    requires Inv(s) && Backing(s) && Ledger(s, loose) && IsMapping(op)
    ensures Ledger(Apply(s, op), loose)
  {
    hide Inv, Backing, Ledger, MapShared, UnpinObject, PinObject, MapPrivate, AllocateObject, WriteObject;
    match op
    case MapPrivatePage(l, frame, page, flags) => MapPrivateIsExact(s, loose, l, frame, page, flags);
    case NewObjectFrame(frame, page) => AllocateObjectIsExact(s, loose, frame, page);
    case PinFrame(frame) => PinIsExact(s, loose, frame);
    case UnpinFrame(frame) => UnpinIsExact(s, loose, frame);
    case WriteFrame(frame, page) => WriteIsExact(s, loose, frame, page);
    case MapSharedPage(l, frame, writable, executable) => MapSharedIsExact(s, loose, l, frame, writable, executable);
  }

  lemma {:induction false} EditIsExact(s: State, op: Op, loose: multiset<nat>)
    requires Backing(s) && Ledger(s, loose) && !IsMapping(op) && !op.Destroy?
    ensures Ledger(Apply(s, op), loose)
  {
    hide Backing, Ledger, CopyChunk, ProtectPage, ResolveLocked, CloneLeaf, DropLeaf, StoreBytes;
    match op
    case Resolve(l, seen, copy) => ResolveIsExact(s, loose, l, seen, copy);
    case Protect(l, present, writable, executable, copy) => ProtectIsExact(s, loose, l, present, writable, executable, copy);
    case UserStore(l, offset, bytes) => if Storable(s, l, offset, bytes) { StoreIsExact(s, loose, l, offset, bytes); }
    case KernelStore(l, offset, bytes, copy) => CopyChunkIsExact(s, loose, l, offset, bytes, copy);
    case ForkPage(l, to, policy, room) => CloneLeafIsExact(s, loose, l, to, policy, room);
    case Unmap(l) => if l in s.leaves { DropLeafIsExact(s, loose, l); }
  }

  lemma {:induction false} StepIsExact(s: State, op: Op, loose: multiset<nat>)
    requires Inv(s) && Ledger(s, loose)
    ensures Ledger(Apply(s, op), loose + Forgotten(s, op))
  {
    InvBacks(s);
    assert loose + multiset{} == loose;
    hide Inv, Backing, Ledger;
    if op.Destroy? {
      if op.l in s.leaves {
        DropLeafIsExact(s, loose, op.l);
        ForgetLeafIsExact(s, loose, op.l);
      }
      hide DropLeaf, ForgetLeaf;
    } else if IsMapping(op) {
      MappingIsExact(s, op, loose);
      hide Apply;
    } else {
      EditIsExact(s, op, loose);
      hide Apply;
    }
  }

  /** All references forgotten along a run. */
  function ForgottenBy(s: State, ops: seq<Op>): multiset<nat>
    decreases |ops|
  {
    if ops == [] then multiset{} else Forgotten(s, ops[0]) + ForgottenBy(Apply(s, ops[0]), ops[1..])
  }

  lemma {:induction false} RunIsExact(s: State, e: Eager, ops: seq<Op>, loose: multiset<nat>)
    requires Sim(s, e) && Ledger(s, loose)
    ensures Ledger(Run(s, ops), loose + ForgottenBy(s, ops))
    decreases |ops|
  {
    hide Inv, Agree, Apply, EagerApply, ActionOf, Ledger, Forgotten;
    if ops == [] {
      assert loose + multiset{} == loose;
    } else {
      StepIsExact(s, ops[0], loose);
      StepSimulates(s, e, ops[0]);
      var next, now, rest := Apply(s, ops[0]), Forgotten(s, ops[0]), ForgottenBy(Apply(s, ops[0]), ops[1..]);
      RunIsExact(next, EagerApply(e, ActionOf(s, ops[0])), ops[1..], loose + now);
      assert (loose + now) + rest == loose + (now + rest);
    }
  }

  /** After any run the owner count of a frame is its leaves, its pins and the references forgotten with it. */
  lemma {:induction false} OwnersAreExact(ops: seq<Op>, frame: nat)
    ensures var s := Run(Empty, ops);
      frame in s.memory ==>
        FrameRefs.Owners(s.counts, frame) == |Mappers(s.leaves, frame)| + Pins(s.pins, frame) + ForgottenBy(Empty, ops)[frame]
  {
    EmptyIsExact();
    RunIsExact(Empty, EmptyEager, ops, multiset{});
    assert multiset{} + ForgottenBy(Empty, ops) == ForgottenBy(Empty, ops);
    hide Run, ForgottenBy, Mappers, Inv, Agree;
  }

  lemma EmptyIsExact()
    ensures Sim(Empty, EmptyEager) && Ledger(Empty, multiset{})
  {}

  /** A frame is allocated exactly as long as a leaf or a pin refers to it, or a destroyed table forgot it. */
  lemma {:induction false} AllocatedIffReferenced(ops: seq<Op>, frame: nat)
    ensures var s := Run(Empty, ops);
      frame in s.memory <==> Mappers(s.leaves, frame) != {} || frame in s.pins || frame in ForgottenBy(Empty, ops)
  {
    OwnersAreExact(ops, frame);
    RunSound(ops);
    EmptyIsExact();
    RunIsExact(Empty, EmptyEager, ops, multiset{});
    assert multiset{} + ForgottenBy(Empty, ops) == ForgottenBy(Empty, ops);
    hide Run, ForgottenBy, Agree, Separated, Counted, EagerRun;
  }
}
