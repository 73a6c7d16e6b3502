/**
 The page-table operations as they edit leaves in place, each proved against the
 step functions of `CopyOnWrite` and, through them, against eager copying.
 */
module AddressSpaces {
  import opened CopyOnWrite
  import FrameRefs

  const USER_SPACE_END: nat := 0x7fff_ffff_ffff

  datatype CopyOutcome = Copied | BadAddress | Refused(outcome: Outcome)

  /** Bytes of a copy that fit in the page where it stands. */
  function Chunk(address: nat, length: nat): (chunk: nat)
    requires length > 0
    ensures 0 < chunk <= length && address % PAGE + chunk <= PAGE
    ensures chunk == length || (address + chunk) % PAGE == 0
  {
    var room := PAGE - address % PAGE;
    if room < length then room else length
  }

  /** Where the last page-sized piece of the first `n` bytes begins. */
  function LastPiece(address: nat, n: nat): (start: nat)
    requires n > 0
    ensures start < n
  {
    var page := (address + n - 1) / PAGE * PAGE;
    if page <= address then 0 else page - address
  }

  /** Storing the first `n` bytes at `address`, page by page, in the reference. */
  function StoreRange(e: Eager, space: nat, address: nat, bytes: Page, n: nat): Eager
    requires n <= |bytes|
  {
    if n == 0 then e
    else
      var start := LastPiece(address, n);
      EagerApply(StoreRange(e, space, address, bytes, start),
                 StoreAt(Loc(space, (address + start) / PAGE), (address + start) % PAGE, bytes[start..n]))
  }

  /** The last piece lies in one page. */
  lemma {:induction false} LastPieceIsInPage(address: nat, n: nat)
    requires n > 0
    ensures var at := address + LastPiece(address, n);
      at / PAGE * PAGE + at % PAGE == at && address + n <= at / PAGE * PAGE + PAGE
  {
    var last := address + n - 1;
    assert last / PAGE * PAGE <= last < last / PAGE * PAGE + PAGE;
  }

  lemma {:induction false} StoreAtWrites(e: Eager, to: Loc, offset: nat, bytes: Page, l: Loc, i: nat)
    requires l in e.private && |e.private[l]| == PAGE && i < PAGE && offset + |bytes| <= PAGE
    ensures var r := EagerApply(e, StoreAt(to, offset, bytes));
      && l in r.private && |r.private[l]| == PAGE
      && r.private[l][i] == if l == to && offset <= i < offset + |bytes| then bytes[i - offset] else e.private[l][i]
  {
  }

  lemma StoreRangeStep(e: Eager, space: nat, address: nat, bytes: Page, n: nat)
    requires 0 < n <= |bytes|
    ensures var start := LastPiece(address, n);
      StoreRange(e, space, address, bytes, n) == EagerApply(
        StoreRange(e, space, address, bytes, start),
        StoreAt(Loc(space, (address + start) / PAGE), (address + start) % PAGE, bytes[start..n]))
  {}

  lemma InPiece(q: nat, r: nat, length: nat, page: nat, i: nat)
    requires r + length <= PAGE && i < PAGE
    ensures page == q && r <= i < r + length <==> q * PAGE + r <= page * PAGE + i < q * PAGE + r + length
  {}

  /** Byte by byte: the range and nothing else, in this space and in no other, on every private page. */
  lemma {:induction false} StoreRangeWrites(e: Eager, space: nat, address: nat, bytes: Page, n: nat, l: Loc, i: nat)
    requires n <= |bytes| && l in e.private && |e.private[l]| == PAGE && i < PAGE
    ensures var r, at := StoreRange(e, space, address, bytes, n), l.page * PAGE + i;
      && l in r.private && |r.private[l]| == PAGE
      && r.private[l][i] == if l.space == space && address <= at < address + n then bytes[at - address] else e.private[l][i]
    decreases n
  {
    if n > 0 {
      var start := LastPiece(address, n);
      StoreRangeWrites(e, space, address, bytes, start, l, i);
      LastPieceIsInPage(address, n);
      var before, piece := StoreRange(e, space, address, bytes, start), bytes[start..n];
      var q, r := (address + start) / PAGE, (address + start) % PAGE;
      StoreRangeStep(e, space, address, bytes, n);
      hide LastPiece, EagerApply, StoreRange;
      StoreAtWrites(before, Loc(space, q), r, piece, l, i);
      InPiece(q, r, n - start, l.page, i);
      if l == Loc(space, q) && r <= i < r + |piece| {
        assert piece[i - r] == bytes[start + (i - r)];
      }
    }
  }

  lemma ChunkIsLastPiece(address: nat, length: nat, copied: nat)
    requires copied < length && (copied == 0 || (address + copied) % PAGE == 0)
    ensures LastPiece(address, copied + Chunk(address + copied, length - copied)) == copied
  {}

  /** The only reasons to refuse a page of a copy: no write access, or no spare frame to break copy-on-write with. */
  predicate RefusedAt(s: State, l: Loc, copy: nat, outcome: Outcome) {
    match outcome
    case Done(_) => false
    case Denied => !Grantable(s, l)
    case OutOfMemory => Grantable(s, l) && !s.leaves[l].flags.writable && copy in s.memory
  }

  lemma CopyChunkIsRefused(s: State, e: Eager, l: Loc, offset: nat, bytes: Page, copy: nat)
    requires Sim(s, e) && offset + |bytes| <= PAGE
    ensures var (t, outcome) := CopyChunk(s, l, offset, bytes, copy);
      outcome == Done(true) || RefusedAt(t, l, copy, outcome)
  {
    CopyChunkRefusesIff(s, l, offset, bytes, copy);
    hide CopyChunk, Inv, Agree;
  }

  function Forked(pages: seq<nat>, policy: nat -> Policy): seq<nat> {
    if pages == [] then []
    else
      var rest := Forked(pages[..|pages| - 1], policy);
      if policy(pages[|pages| - 1]) == Exclude then rest else rest + [pages[|pages| - 1]]
  }

  /** The reference without the listed pages of one space. */
  function RemovePages(e: Eager, space: nat, pages: seq<nat>): Eager {
    Eager(map l | l in e.private && !(l.space == space && l.page in pages) :: e.private[l],
          map l | l in e.aliases && !(l.space == space && l.page in pages) :: e.aliases[l], e.objects)
  }

  lemma RemoveNoPages(e: Eager, space: nat)
    ensures RemovePages(e, space, []) == e
  {
    var r := RemovePages(e, space, []);
    assert r.private == e.private && r.aliases == e.aliases;
  }

  lemma RemoveOneMore(e: Eager, space: nat, pages: seq<nat>, page: nat)
    ensures RemovePages(e, space, pages + [page]) == EagerApply(RemovePages(e, space, pages), Remove(Loc(space, page)))
  {
    var l := Loc(space, page);
    var a, b := RemovePages(e, space, pages + [page]), RemovePages(e, space, pages);
    assert forall p :: p in pages + [page] <==> p in pages || p == page;
    assert a.private == b.private - {l};
    assert a.aliases == b.aliases - {l};
  }

  /** Removing every page of a space removes the space. */
  lemma RemoveAllPages(s: State, e: Eager, space: nat, pages: seq<nat>)
    requires Sim(s, e) && forall l :: l in s.leaves && l.space == space ==> l.page in pages
    ensures RemovePages(e, space, pages) == RemoveSpace(e, space)
  {
    hide Counted, Separated, Backed;
    assert RemovePages(e, space, pages).private == RemoveSpace(e, space).private;
    assert RemovePages(e, space, pages).aliases == RemoveSpace(e, space).aliases;
  }

  lemma UnmappedSpaceIsFresh(s: State, e: Eager, space: nat)
    requires Sim(s, e) && forall l :: l in s.leaves ==> l.space != space
    ensures FreshSpace(e, space) && e.private.Keys !! e.aliases.Keys
  {
    hide Counted, Separated, Backed;
  }

  /** The only reasons for a fork to fail at a page: no room, a page listed twice, or a count that could fill up. */
  predicate MayFail(s: State, src: nat, pages: seq<nat>, policy: nat -> Policy, room: nat -> bool, i: nat)
    requires i < |pages|
  {
    var p := pages[i];
    && Loc(src, p) in s.leaves && policy(p) != Exclude
    && (!room(p) || p in pages[..i] || FrameRefs.Owners(s.counts, s.leaves[Loc(src, p)].frame) + i >= FrameRefs.MAX_REFS)
  }

  /** Since `s`, the source kept its frames and no frame gained more than `n` owners. */
  ghost predicate Charged(s: State, t: State, src: nat, n: nat) {
    && (forall p :: Loc(src, p) in t.leaves <==> Loc(src, p) in s.leaves)
    && (forall p :: Loc(src, p) in s.leaves ==> t.leaves[Loc(src, p)].frame == s.leaves[Loc(src, p)].frame)
    && (forall f :: FrameRefs.Owners(t.counts, f) <= FrameRefs.Owners(s.counts, f) + n)
  }

  lemma NothingCharged(s: State, src: nat)
    ensures Charged(s, s, src, 0)
  {}

  lemma ArmedCharges(base: State, s: State, from: Loc, policy: Policy, n: nat)
    requires from in s.leaves && Charged(base, s, from.space, n)
    ensures Charged(base, Armed(s, from, policy), from.space, n)
  {
    hide ClonePrivate;
  }

  lemma ShareCharges(base: State, s: State, from: Loc, to: Loc, n: nat)
    requires from in s.leaves && to.space != from.space && Charged(base, s, from.space, n)
    ensures Charged(base, Share(s, from, to), from.space, n + 1)
  {
  }

  lemma CloneLeafCharges(base: State, s: State, from: Loc, to: Loc, policy: Policy, room: bool, n: nat)
    requires to.space != from.space && Charged(base, s, from.space, n)
    ensures Charged(base, CloneLeaf(s, from, to, policy, room).0, from.space, n + 1)
  {
    if from in s.leaves && policy != Exclude {
      ArmedCharges(base, s, from, policy, n);
      var t := Armed(s, from, policy);
      ChargedMore(base, t, from.space, n);
      assert from in t.leaves;
      ShareCharges(base, t, from, to, n);
    } else {
      ChargedMore(base, s, from.space, n);
    }
    hide Charged, Share, Armed;
  }

  lemma ChargedMore(s: State, t: State, src: nat, n: nat)
    requires Charged(s, t, src, n)
    ensures Charged(s, t, src, n + 1)
  {}

  lemma CloneLeafMayFail(base: State, s: State, src: nat, dst: nat, pages: seq<nat>, policy: nat -> Policy, room: nat -> bool, i: nat)
    requires i < |pages| && Charged(base, s, src, i) && src != dst
    requires forall l :: l in s.leaves && l.space == dst ==> l.page in pages[..i]
    ensures !CloneLeaf(s, Loc(src, pages[i]), Loc(dst, pages[i]), policy(pages[i]), room(pages[i])).1 ==>
      MayFail(base, src, pages, policy, room, i)
  {
    hide Share, Armed;
  }

  class AddressSpaces {
    var leaves: map<Loc, Leaf>
    var memory: map<nat, Page>
    var counts: FrameRefs.Counts
    var pins: map<nat, nat>
    var shared: set<Loc>
    ghost var roles: map<nat, Role>
    /** What eager copying would have produced. */
    ghost var eager: Eager

    ghost function View(): State reads this { State(leaves, memory, counts, pins, shared, roles) }

    ghost predicate Valid() reads this { Sim(View(), eager) }

    constructor ()
      ensures Valid() && View() == Empty && eager == EmptyEager
    {
      leaves, memory, counts, pins, shared := map[], map[], map[], map[], {};
      roles, eager := map[], EmptyEager;
    }

    /** Breaks copy-on-write at one page: in place for the last owner, into `copy` otherwise. */
    method ResolveCopyOnWrite(l: Loc, copy: nat) returns (outcome: Outcome)
      requires Valid()
      modifies this
      ensures Valid() && eager == old(eager)
      ensures (View(), outcome) == CopyOnWrite.ResolveCopyOnWrite(old(View()), l, copy)
    {
      hide Sim;
      if l !in leaves || !MayResolve(leaves[l].flags) { return Done(false); }
      if copy in memory { return OutOfMemory; }
      ResolveLockedSimulates(View(), eager, l, leaves[l].frame, copy);
      LeavesAreBacked(View(), eager, l);
      var frame := leaves[l].frame;
      var flags := Granted(leaves[l].flags);
      if frame !in counts {
        leaves := leaves[l := Leaf(frame, flags)];
        roles := roles[frame := Exclusive(l)];
        assert View() == SetFlags(old(View()), l, flags, Exclusive(l));
      } else {
        counts := FrameRefs.Released(counts, frame);
        memory := memory[copy := memory[frame]];
        leaves := leaves[l := Leaf(copy, flags)];
        roles := roles[copy := Exclusive(l)];
        assert View() == Separate(old(View()), l, copy, flags);
      }
      return Done(true);
    }

    /** Rewrites one leaf's flags without changing what its frame may be used for. */
    method SetLeafFlags(l: Loc, flags: Flags)
      requires l in leaves && leaves[l].frame in roles
      modifies this`leaves
      ensures View() == KeepRole(old(View()), l, flags)
    {
      leaves := leaves[l := leaves[l].(flags := flags)];
      assert roles[leaves[l].frame := roles[leaves[l].frame]] == roles;
    }

    method ProtectUserPage(l: Loc, present: bool, writable: bool, executable: bool, copy: nat) returns (outcome: Outcome)
      requires Valid()
      modifies this
      ensures Valid() && eager == old(eager)
      ensures (View(), outcome) == ProtectPage(old(View()), l, present, writable, executable, copy)
    {
      if present && writable && executable { return Denied; }
      if l !in leaves { return Done(false); }
      LeavesAreBacked(View(), eager, l);
      ProtectSimulates(View(), eager, l, present, writable, executable, copy);
      var before := leaves[l].flags;
      if writable && before.copyOnWrite {
        var armed := before.(present := true, noExecute := true, writable := false, writeDisabled := false);
        KeepRoleSimulates(View(), eager, l, armed);
        hide Counted, Separated, Agree, Backed, KeepRole;
        SetLeafFlags(l, armed);
        outcome := ResolveCopyOnWrite(l, copy);
        LeavesAreBacked(View(), eager, l);
        if outcome != Done(true) {
          SetLeafFlags(l, before);
          return if outcome.OutOfMemory? then OutOfMemory else Denied;
        }
      }
      hide Counted, Separated, Agree, Backed, KeepRole;
      SetLeafFlags(l, Protected(leaves[l].flags, present, writable, executable));
      return Done(true);
    }

    /** Stores the bytes page by page; a refusal leaves exactly the pages before it stored. */
    method CopyToUser(space: nat, address: nat, bytes: Page, spare: nat -> nat) returns (outcome: CopyOutcome, ghost copied: nat)
      requires Valid()
      modifies this
      ensures Valid() && copied <= |bytes|
      ensures eager == StoreRange(old(eager), space, address, bytes, copied)
      ensures outcome == Copied <==> copied == |bytes|
      ensures outcome == BadAddress <==>
        bytes != [] && (address == 0 || address + |bytes| - 1 > USER_SPACE_END)
      ensures outcome == BadAddress ==> View() == old(View())
      ensures outcome.Refused? ==> RefusedAt(View(), Loc(space, (address + copied) / PAGE), spare(copied), outcome.outcome)
    {
      hide Sim, EagerApply, CopyChunk, RefusedAt, LastPiece;
      copied := 0;
      if bytes == [] { return Copied, 0; }
      if address == 0 || address + |bytes| - 1 > USER_SPACE_END { return BadAddress, 0; }
      var done := 0;
      while done < |bytes|
        invariant Valid() && done <= |bytes| && copied == done
        invariant done == |bytes| || done == 0 || (address + done) % PAGE == 0
        invariant eager == StoreRange(old(eager), space, address, bytes, done)
      {
        var at := address + done;
        var chunk := Chunk(at, |bytes| - done);
        var l := Loc(space, at / PAGE);
        CopyChunkIsRefused(View(), eager, l, at % PAGE, bytes[done..done + chunk], spare(done));
        var piece := CopyPage(l, at % PAGE, bytes[done..done + chunk], spare(done));
        if piece != Done(true) { return Refused(piece), copied; }
        ChunkIsLastPiece(address, |bytes|, done);
        done := done + chunk;
        copied := done;
      }
      return Copied, copied;
    }

    method CopyPage(l: Loc, offset: nat, bytes: Page, copy: nat) returns (outcome: Outcome)
      requires Valid() && offset + |bytes| <= PAGE
      modifies this
      ensures Valid()
      ensures eager == if outcome == Done(true) then EagerApply(old(eager), StoreAt(l, offset, bytes)) else old(eager)
      ensures (View(), outcome) == CopyChunk(old(View()), l, offset, bytes, copy)
    {
      hide Sim, EagerApply, CopyOnWrite.ResolveCopyOnWrite, StoreBytes;
      outcome := Done(false);
      if l in leaves && leaves[l].flags.present && leaves[l].flags.copyOnWrite {
        outcome := ResolveCopyOnWrite(l, copy);
        if outcome.OutOfMemory? { return; }
      }
      outcome := StorePage(l, offset, bytes);
    }

    /** Demands a present writable leaf and stores through it. */
    method StorePage(l: Loc, offset: nat, bytes: Page) returns (outcome: Outcome)
      requires Valid() && offset + |bytes| <= PAGE
      modifies this
      ensures Valid()
      ensures eager == if outcome == Done(true) then EagerApply(old(eager), StoreAt(l, offset, bytes)) else old(eager)
      ensures outcome == if Storable(old(View()), l, offset, bytes) then Done(true) else Denied
      ensures View() == if outcome == Done(true) then StoreBytes(old(View()), l, offset, bytes) else old(View())
    {
      if l !in leaves || !leaves[l].flags.present || !leaves[l].flags.writable { return Denied; }
      LeavesAreBacked(View(), eager, l);
      StoreSimulates(View(), eager, l, offset, bytes);
      hide Sim, EagerApply;
      var frame := leaves[l].frame;
      memory := memory[frame := Overwrite(memory[frame], offset, bytes)];
      eager := EagerApply(eager, StoreAt(l, offset, bytes));
      return Done(true);
    }

    /** One page of a fork: the source loses write access before the frame is shared. */
    method ClonePage(from: Loc, to: Loc, policy: Policy, room: bool) returns (ok: bool)
      requires Valid() && Consistent(View(), from, policy)
      modifies this
      ensures Valid()
      ensures (View(), ok) == CloneLeaf(old(View()), from, to, policy, room)
      ensures eager == EagerApply(old(eager), CloneAction(old(View()), from, to, policy, room))
      ensures !ok ==> eager == old(eager) && leaves.Keys == old(leaves.Keys)
      ensures leaves.Keys <= old(leaves.Keys) + {to} && old(shared) <= shared <= old(shared) + {to}
    {
      hide Sim;
      CloneLeafFrame(View(), from, to, policy, room);
      CloneLeafSimulates(View(), eager, from, to, policy, room);
      if from !in leaves || policy == Exclude { return true; }
      LeavesAreBacked(View(), eager, from);
      if policy != Shared {
        var flags := ClonePrivate(leaves[from].flags, policy == PrivateWritable);
        leaves := leaves[from := leaves[from].(flags := flags)];
        roles := roles[leaves[from].frame := Split];
      }
      assert View() == Armed(old(View()), from, policy);
      if !room || to in leaves || FrameRefs.Owners(counts, leaves[from].frame) >= FrameRefs.MAX_REFS { return false; }
      counts := FrameRefs.Retained(counts, leaves[from].frame);
      leaves := leaves[to := leaves[from]];
      if from in shared { shared := shared + {to}; }
      assert View() == Share(Armed(old(View()), from, policy), from, to);
      eager := EagerApply(eager, Fork(from, to));
      return true;
    }

    /** A fork copies the reference eagerly, or fails and changes nothing any space can read. */
    method CloneUserPageTable(src: nat, dst: nat, pages: seq<nat>, policy: nat -> Policy, room: nat -> bool) returns (ok: bool)
      requires Valid() && src != dst
      requires forall l :: l in leaves ==> l.space != dst
      requires forall p :: p in pages ==> Consistent(View(), Loc(src, p), policy(p))
      modifies this
      ensures Valid()
      ensures ok ==> eager == ForkAll(old(eager), src, dst, Forked(pages, policy))
      ensures !ok ==> eager == old(eager) && forall l :: l in leaves ==> l.space != dst
      ensures !ok ==> exists i :: 0 <= i < |pages| && MayFail(old(View()), src, pages, policy, room, i)
    {
      hide Sim, CloneLeaf, CloneAction, EagerApply, Charged, MayFail;
      NothingCharged(View(), src);
      UnmappedSpaceIsFresh(View(), eager, dst);
      var i := 0;
      while i < |pages|
        invariant Valid() && i <= |pages|
        invariant forall l :: l in leaves && l.space == dst ==> l.page in pages[..i]
        invariant Charged(old(View()), View(), src, i)
        invariant forall p :: p in pages ==> Consistent(View(), Loc(src, p), policy(p))
        invariant eager == ForkAll(old(eager), src, dst, Forked(pages[..i], policy))
      {
        var p := pages[i];
        ghost var before, viewed := eager, View();
        assert Consistent(View(), Loc(src, p), policy(p));
        ok := ClonePage(Loc(src, p), Loc(dst, p), policy(p), room(p));
        assert pages[..i + 1] == pages[..i] + [p];
        CloneLeafCharges(old(View()), viewed, Loc(src, p), Loc(dst, p), policy(p), room(p), i);
        CloneLeafMayFail(old(View()), viewed, src, dst, pages, policy, room, i);
        if !ok {
          DestroyUserPageTable(dst, pages[..i]);
          RemoveUndoesFork(old(eager), src, dst, Forked(pages[..i], policy));
          return;
        }
        ForkStep(viewed, before, old(eager), src, dst, pages[..i], p, policy, room(p));
        i := i + 1;
      }
      assert pages[..i] == pages;
      return true;
    }

    /** Releases every present leaf of a table and forgets the others. */
    method DestroyUserPageTable(space: nat, pages: seq<nat>)
      requires Valid()
      requires forall l :: l in leaves && l.space == space ==> l.page in pages
      modifies this
      ensures Valid() && eager == RemoveSpace(old(eager), space)
      ensures forall l :: l in leaves ==> l.space != space
      ensures forall l :: l in old(leaves) && l.space != space ==> l in leaves && leaves[l] == old(leaves)[l]
    {
      hide Sim, RemovePages, RemoveSpace, EagerApply, CopyOnWrite.Apply;
      RemoveAllPages(View(), eager, space, pages);
      RemoveNoPages(eager, space);
      var i := 0;
      while i < |pages|
        invariant Valid() && i <= |pages|
        invariant eager == RemovePages(old(eager), space, pages[..i])
        invariant forall l :: l in leaves && l.space == space ==> l.page in pages[i..]
        invariant forall l :: l in old(leaves) && l.space != space ==> l in leaves && leaves[l] == old(leaves)[l]
      {
        RemoveOneMore(old(eager), space, pages[..i], pages[i]);
        assert pages[..i + 1] == pages[..i] + [pages[i]] && pages[i..] == [pages[i]] + pages[i + 1..];
        DestroyPage(Loc(space, pages[i]));
        i := i + 1;
      }
      assert pages[..i] == pages;
    }

    method DestroyPage(l: Loc)
      requires Valid()
      modifies this
      ensures Valid() && eager == EagerApply(old(eager), Remove(l))
      ensures View() == CopyOnWrite.Apply(old(View()), Destroy(l))
      ensures leaves == old(leaves) - {l}
    {
      hide Sim;
      StepSimulates(View(), eager, Destroy(l));
      eager := EagerApply(eager, Remove(l));
      if l !in leaves { return; }
      var leaf := leaves[l];
      leaves, shared := leaves - {l}, shared - {l};
      if leaf.flags.present {
        if leaf.frame !in counts { memory := memory - {leaf.frame}; }
        counts := FrameRefs.Released(counts, leaf.frame);
      }
    }
  }

  /** A forked page adds at most its destination and changes no region's kind. */
  lemma CloneLeafFrame(s: State, from: Loc, to: Loc, policy: Policy, room: bool)
    ensures var (t, ok) := CloneLeaf(s, from, to, policy, room);
      && t.leaves.Keys <= s.leaves.Keys + {to} && t.shared <= s.shared + {to} && s.shared <= t.shared
      && (!ok ==> t.leaves.Keys == s.leaves.Keys)
  {}

  lemma ForkStep(s: State, e: Eager, base: Eager, src: nat, dst: nat, pages: seq<nat>, p: nat, policy: nat -> Policy, room: bool)
    requires Sim(s, e) && e == ForkAll(base, src, dst, Forked(pages, policy))
    requires CloneLeaf(s, Loc(src, p), Loc(dst, p), policy(p), room).1
    ensures EagerApply(e, CloneAction(s, Loc(src, p), Loc(dst, p), policy(p), room))
         == ForkAll(base, src, dst, Forked(pages + [p], policy))
  {
    hide Sim, CloneLeaf, EagerApply;
    assert (pages + [p])[..|pages|] == pages;
    var done := Forked(pages, policy);
    assert (done + [p])[..|done|] == done;
    NothingIsNothing(e);
    if Loc(src, p) !in s.leaves {
      NothingToFork(s, e, Loc(src, p), Loc(dst, p));
    }
  }

  lemma NothingIsNothing(e: Eager)
    ensures EagerApply(e, Nothing) == e
  {
  }

  lemma {:induction false} NothingToFork(s: State, e: Eager, from: Loc, to: Loc)
    requires Sim(s, e) && from !in s.leaves
    ensures EagerApply(e, Fork(from, to)) == e
  {
    hide Counted, Separated, Backed;
  }
}
