/**
 The generation ledger of the TLB shootdown. Each atomic operation of the ledger
 is one step function here; `FrameReuse` interleaves the steps of any number of
 publishers and reentrant services.
 */
module TlbRendezvous {

  const MAX_SEQUENCE: nat := 0xffff_ffff_ffff_ffff

  function Max(a: nat, b: nat): nat { if a < b then b else a }

  datatype Ledger = Ledger(sequence: nat, requested: seq<nat>, completed: seq<nat>) {

    ghost predicate Valid(cpus: nat) {
      |requested| == cpus && |completed| == cpus && sequence <= MAX_SEQUENCE
    }

    /** `sequence.fetch_update(checked_add 1)`; the generation handed out is the new value. */
    function Advance(): Ledger { this.(sequence := sequence + 1) }

    /** `requested[cpu].fetch_max(generation)` */
    function Request(cpu: nat, generation: nat): Ledger
      requires cpu < |requested|
    {
      this.(requested := requested[cpu := Max(requested[cpu], generation)])
    }

    /** `completed[cpu].fetch_max(generation)` */
    function Acknowledge(cpu: nat, generation: nat): Ledger
      requires cpu < |completed|
    {
      this.(completed := completed[cpu := Max(completed[cpu], generation)])
    }

    ghost predicate Complete(targets: set<nat>, generation: nat) {
      forall cpu :: 0 <= cpu < |completed| && cpu in targets ==> completed[cpu] >= generation
    }
  }

  /** Requests after the store loop of a publication ran alone up to `next`. */
  function Requested(ledger: Ledger, targets: set<nat>, generation: nat, next: nat): Ledger
    requires next <= |ledger.requested|
  {
    ledger.(requested := seq(|ledger.requested|, cpu requires 0 <= cpu < |ledger.requested| =>
      if cpu < next && cpu in targets then Max(ledger.requested[cpu], generation) else ledger.requested[cpu]))
  }

  /** One more iteration of the store loop is one more atomic request. */
  lemma RequestedStep(ledger: Ledger, targets: set<nat>, generation: nat, next: nat)
    requires next < |ledger.requested|
    ensures Requested(ledger, targets, generation, next + 1)
      == if next in targets then Requested(ledger, targets, generation, next).Request(next, generation)
         else Requested(ledger, targets, generation, next)
  {
    assert Requested(ledger, targets, generation, next + 1).requested
      == if next in targets then Requested(ledger, targets, generation, next).Request(next, generation).requested
         else Requested(ledger, targets, generation, next).requested;
  }

  datatype PublishError = InvalidCpu | Exhausted
  datatype PublishResult = Published(generation: nat) | Refused(error: PublishError)
  datatype ServiceResult = Flushed | Idle | UnknownCpu | FlushFailed

  class Rendezvous {
    var sequence: nat
    var requested: seq<nat>
    var completed: seq<nat>
    const cpus: nat

    ghost function View(): Ledger reads this { Ledger(sequence, requested, completed) }

    ghost predicate Valid() reads this { 0 < cpus <= 64 && View().Valid(cpus) }

    constructor (cpus: nat)
      requires 0 < cpus <= 64
      ensures Valid() && this.cpus == cpus
      ensures sequence == 0 && forall c :: 0 <= c < cpus ==> requested[c] == completed[c] == 0
    {
      this.cpus := cpus;
      sequence := 0;
      requested := seq(cpus, _ => 0);
      completed := seq(cpus, _ => 0);
    }

    /** A refused publication leaves the ledger alone; no targets means generation zero. */
    method Publish(targets: set<nat>) returns (result: PublishResult)
      requires Valid()
      modifies this
      ensures Valid()
      ensures result == Refused(InvalidCpu) <==> exists c :: c in targets && c >= cpus
      ensures result == Refused(Exhausted) <==>
        (forall c :: c in targets ==> c < cpus) && targets != {} && old(sequence) == MAX_SEQUENCE
      ensures result.Refused? ==> View() == old(View())
      ensures result.Published? ==>
        && result.generation == (if targets == {} then 0 else old(sequence) + 1)
        && View() == Requested(if targets == {} then old(View()) else old(View()).Advance(), targets, result.generation, cpus)
    {
      if exists c :: c in targets && c >= cpus { return Refused(InvalidCpu); }
      var generation := 0;
      if targets != {} {
        if sequence == MAX_SEQUENCE { return Refused(Exhausted); }
        sequence := sequence + 1;
        generation := sequence;
      }
      ghost var base := View();
      assert Requested(base, targets, generation, 0).requested == base.requested;
      for cpu := 0 to cpus
        invariant View() == Requested(base, targets, generation, cpu)
        invariant |requested| == cpus
      {
        RequestedStep(base, targets, generation, cpu);
        if cpu in targets {
          requested := requested[cpu := Max(requested[cpu], generation)];
        }
      }
      result := Published(generation);
    }

    /** Acknowledges what was requested before the flush, never a request that arrives during it. */
    method Service(cpu: nat, flushes: bool) returns (result: ServiceResult)
      requires Valid()
      modifies this`completed
      ensures Valid()
      ensures result == UnknownCpu <==> cpu >= cpus
      ensures cpu < cpus ==> (result == Idle <==> old(completed)[cpu] >= requested[cpu])
      ensures cpu < cpus && result != Idle ==> result == if flushes then Flushed else FlushFailed
      ensures View() == if result == Flushed then old(View()).Acknowledge(cpu, requested[cpu]) else old(View())
    {
      if cpu >= cpus { return UnknownCpu; }
      var generation := requested[cpu];
      if completed[cpu] >= generation { return Idle; }
      if !flushes { return FlushFailed; }
      completed := completed[cpu := Max(completed[cpu], generation)];
      return Flushed;
    }

    method Complete(targets: set<nat>, generation: nat) returns (done: bool)
      requires Valid()
      ensures done <==> View().Complete(targets, generation)
    {
      for cpu := 0 to cpus
        invariant forall c :: 0 <= c < cpu && c in targets ==> completed[c] >= generation
      {
        if cpu in targets && completed[cpu] < generation { return false; }
      }
      return true;
    }
  }
}

/**
 When a frame may be reused. Page-table leaves are suspended by revocation
 journals, CPUs fill their TLBs from present leaves at any moment, come online at
 any moment, and run reentrant flush services; every atomic ledger operation is a
 step of its own, in any interleaving.
 */
module FrameReuse {
  import opened TlbRendezvous

  type Key = nat

  datatype Leaf = Leaf(frame: nat, present: bool)

  /** Where a translation is cached. */
  datatype Slot = Slot(cpu: nat, key: Key)

  datatype Phase =
    | Suspending
    | Snapshotted(targets: set<nat>)
    | Storing(generation: nat, targets: set<nat>, next: nat)
    | Waiting(generation: nat, targets: set<nat>, next: nat)
    | Acknowledged
    | RollingBack

  /** A suspended leaf: the journal that owns it and the PRESENT bit it had. */
  datatype Hold = Hold(journal: nat, wasPresent: bool)

  datatype Stage = Loaded | Checked | Finished

  datatype Service = Service(stage: Stage, cpu: nat, generation: nat)

  datatype State = State(
    leaves: map<Key, Leaf>,
    cpus: nat,
    tlb: map<Slot, nat>,
    online: set<nat>,
    ledger: Ledger,
    services: map<nat, Service>,
    journals: map<nat, Phase>,
    held: map<Key, Hold>,
    // History: the sequence when each CPU last began a full flush, and when each leaf was suspended.
    flushedAt: seq<nat>,
    suspendedAt: map<Key, nat>)

  datatype Op =
    | MapLeaf(key: Key, leaf: Leaf)
    | Refill(cpu: nat, key: Key)
    | EvictTranslation(cpu: nat, key: Key)
    | GoOnline(cpu: nat)
    | ServiceLoad(id: nat, cpu: nat)
    | ServiceCheck(id: nat)
    | ServiceFlush(id: nat, succeeds: bool)
    | ServiceAcknowledge(id: nat)
    | Begin(id: nat)
    | Suspend(id: nat, key: Key)
    | LoadOnline(id: nat)
    | FetchSequence(id: nat)
    | StoreRequest(id: nat)
    | Poll(id: nat)
    | Fail(id: nat)
    | Release(id: nat, key: Key)
    | Restore(id: nat, key: Key)
    | Finish(id: nat)

  function Init(cpus: nat): State {
    State(map[], cpus, map[], {}, Ledger(0, seq(cpus, _ => 0), seq(cpus, _ => 0)),
          map[], map[], map[], seq(cpus, _ => 0), map[])
  }

  predicate Wellformed(s: State) {
    && s.cpus == |s.flushedAt| == |s.ledger.requested| == |s.ledger.completed|
    && (forall id :: id in s.services ==> s.services[id].cpu < s.cpus)
    && (forall id :: id in s.journals && s.journals[id].Storing? ==> s.journals[id].next <= s.cpus)
    && (forall id :: id in s.journals && s.journals[id].Waiting? ==> s.journals[id].next <= s.cpus)
  }

  /** What every step keeps: the shape, the CPUs, and a ledger that never moves backward. */
  ghost predicate Follows(s: State, t: State)
    requires Wellformed(s)
  {
    && Wellformed(t) && t.cpus == s.cpus && s.ledger.sequence <= t.ledger.sequence
    && (forall c :: 0 <= c < s.cpus ==>
          s.ledger.requested[c] <= t.ledger.requested[c] && s.ledger.completed[c] <= t.ledger.completed[c])
  }

  function SetPhase(s: State, id: nat, phase: Phase): (t: State)
    requires Wellformed(s)
    requires (phase.Storing? || phase.Waiting?) ==> phase.next <= s.cpus
    ensures Follows(s, t) && t.leaves == s.leaves && t.held == s.held
  {
    s.(journals := s.journals[id := phase])
  }

  function SetLedger(s: State, ledger: Ledger): (t: State)
    requires Wellformed(s) && |ledger.requested| == |ledger.completed| == s.cpus
    ensures Wellformed(t) && t.leaves == s.leaves && t.held == s.held
  {
    s.(ledger := ledger)
  }

  // ------------------------------------------------ memory and CPUs

  function MapNew(s: State, key: Key, leaf: Leaf): (t: State)
    requires Wellformed(s)
    ensures Follows(s, t) && s.leaves.Keys <= t.leaves.Keys
  {
    if key in s.leaves then s else s.(leaves := s.leaves[key := leaf])
  }

  function FillTlb(s: State, cpu: nat, key: Key): (t: State)
    requires Wellformed(s)
    ensures Follows(s, t) && s.leaves.Keys <= t.leaves.Keys
  {
    if cpu < s.cpus && cpu in s.online && key in s.leaves && s.leaves[key].present
    then s.(tlb := s.tlb[Slot(cpu, key) := s.leaves[key].frame]) else s
  }

  function DropTlb(s: State, cpu: nat, key: Key): (t: State)
    requires Wellformed(s)
    ensures Follows(s, t) && s.leaves.Keys <= t.leaves.Keys
  {
    s.(tlb := s.tlb - {Slot(cpu, key)})
  }

  function JoinOnline(s: State, cpu: nat): (t: State)
    requires Wellformed(s)
    ensures Follows(s, t) && s.leaves.Keys <= t.leaves.Keys
  {
    if cpu < s.cpus then s.(online := s.online + {cpu}) else s
  }

  function BeginJournal(s: State, id: nat): (t: State)
    requires Wellformed(s)
    ensures Follows(s, t) && s.leaves.Keys <= t.leaves.Keys
  {
    if id in s.journals then s else SetPhase(s, id, Suspending)
  }

  // ------------------------------------------------ a service, on its own CPU

  function LoadRequest(s: State, id: nat, cpu: nat): (t: State)
    requires Wellformed(s)
    ensures Follows(s, t) && s.leaves.Keys <= t.leaves.Keys
  {
    if id in s.services || cpu >= s.cpus then s
    else s.(services := s.services[id := Service(Loaded, cpu, s.ledger.requested[cpu])])
  }

  function CheckCompleted(s: State, id: nat): (t: State)
    requires Wellformed(s)
    ensures Follows(s, t) && s.leaves.Keys <= t.leaves.Keys
  {
    if id !in s.services || s.services[id].stage != Loaded then s
    else if s.ledger.completed[s.services[id].cpu] >= s.services[id].generation then s.(services := s.services - {id})
    else s.(services := s.services[id := s.services[id].(stage := Checked)])
  }

  function Flush(s: State, id: nat, succeeds: bool): (t: State)
    requires Wellformed(s)
    ensures Follows(s, t) && s.leaves.Keys <= t.leaves.Keys
  {
    if id !in s.services || s.services[id].stage != Checked then s
    else if !succeeds then s.(services := s.services - {id})
    else
      var r := s.services[id];
      s.(tlb := map e | e in s.tlb && e.cpu != r.cpu :: s.tlb[e],
         flushedAt := s.flushedAt[r.cpu := s.ledger.sequence],
         services := s.services[id := r.(stage := Finished)])
  }

  function AcknowledgeRequest(s: State, id: nat): (t: State)
    requires Wellformed(s)
    ensures Follows(s, t) && s.leaves.Keys <= t.leaves.Keys
  {
    if id !in s.services || s.services[id].stage != Finished then s
    else
      var r := s.services[id];
      s.(ledger := s.ledger.Acknowledge(r.cpu, r.generation), services := s.services - {id})
  }

  // ------------------------------------------------ a publication

  function DrawGeneration(s: State, id: nat, targets: set<nat>): (t: State)
    requires Wellformed(s)
    ensures Follows(s, t) && t.leaves == s.leaves && t.held == s.held
  {
    if targets == {} then SetPhase(s, id, Storing(0, {}, 0))
    else if s.ledger.sequence >= MAX_SEQUENCE then SetPhase(s, id, RollingBack)
    else SetPhase(SetLedger(s, s.ledger.Advance()), id, Storing(s.ledger.sequence + 1, targets, 0))
  }

  function StoreNext(s: State, id: nat, generation: nat, targets: set<nat>, next: nat): (t: State)
    requires Wellformed(s) && next <= s.cpus
    ensures Follows(s, t) && t.leaves == s.leaves && t.held == s.held
  {
    if next == s.cpus then SetPhase(s, id, Waiting(generation, targets, 0))
    else if next in targets
      then SetPhase(SetLedger(s, s.ledger.Request(next, generation)), id, Storing(generation, targets, next + 1))
    else SetPhase(s, id, Storing(generation, targets, next + 1))
  }

  /** One read of the completion scan; a missing acknowledgement restarts it. */
  function PollNext(s: State, id: nat, generation: nat, targets: set<nat>, next: nat): (t: State)
    requires Wellformed(s) && next <= s.cpus
    ensures Follows(s, t) && t.leaves == s.leaves && t.held == s.held
  {
    if next == s.cpus then SetPhase(s, id, Acknowledged)
    else if next in targets && s.ledger.completed[next] < generation then SetPhase(s, id, Waiting(generation, targets, 0))
    else SetPhase(s, id, Waiting(generation, targets, next + 1))
  }

  // ------------------------------------------------ the journal's edits

  function SuspendLeaf(s: State, id: nat, key: Key): (t: State)
    requires Wellformed(s)
    ensures Follows(s, t) && s.leaves.Keys <= t.leaves.Keys
  {
    if key !in s.leaves || key in s.held then s
    else s.(leaves := s.leaves[key := s.leaves[key].(present := false)],
            held := s.held[key := Hold(id, s.leaves[key].present)],
            suspendedAt := s.suspendedAt[key := s.ledger.sequence])
  }

  function ReleaseLeaf(s: State, id: nat, key: Key): (t: State)
    requires Wellformed(s)
    ensures Follows(s, t)
  {
    if key !in s.held || s.held[key].journal != id then s
    else s.(leaves := s.leaves - {key}, held := s.held - {key})
  }

  function RestoreLeaf(s: State, id: nat, key: Key): (t: State)
    requires Wellformed(s)
    ensures Follows(s, t) && s.leaves.Keys <= t.leaves.Keys
  {
    if key !in s.held || s.held[key].journal != id || key !in s.leaves then s
    else s.(leaves := s.leaves[key := s.leaves[key].(present := s.held[key].wasPresent)], held := s.held - {key})
  }

  function FinishJournal(s: State, id: nat): (t: State)
    requires Wellformed(s)
    ensures Follows(s, t) && s.leaves.Keys <= t.leaves.Keys
  {
    if exists key :: key in s.held && s.held[key].journal == id then s else s.(journals := s.journals - {id})
  }

  function JournalStep(s: State, op: Op, phase: Phase): (t: State)
    requires Wellformed(s)
    requires (phase.Storing? || phase.Waiting?) ==> phase.next <= s.cpus
    ensures Follows(s, t)
    ensures s.leaves.Keys <= t.leaves.Keys || (op.Release? && phase.Acknowledged? && t == ReleaseLeaf(s, op.id, op.key))
  {
    match (op, phase)
    case (Suspend(id, key), Suspending) => SuspendLeaf(s, id, key)
    case (LoadOnline(id), Suspending) => SetPhase(s, id, Snapshotted(s.online))
    case (FetchSequence(id), Snapshotted(targets)) => DrawGeneration(s, id, targets)
    case (StoreRequest(id), Storing(generation, targets, next)) => StoreNext(s, id, generation, targets, next)
    case (Poll(id), Waiting(generation, targets, next)) => PollNext(s, id, generation, targets, next)
    case (Fail(id), _) => if phase.Storing? then s else SetPhase(s, id, RollingBack)
    case (Release(id, key), Acknowledged) => ReleaseLeaf(s, id, key)
    case (Restore(id, key), RollingBack) => RestoreLeaf(s, id, key)
    case (Finish(id), _) => FinishJournal(s, id)
    case _ => s
  }

  function Apply(s: State, op: Op): (t: State)
    requires Wellformed(s)
    ensures Follows(s, t)
    ensures s.leaves.Keys <= t.leaves.Keys
      || (op.Release? && op.id in s.journals && s.journals[op.id].Acknowledged? && t == ReleaseLeaf(s, op.id, op.key))
  {
    match op
    case MapLeaf(key, leaf) => MapNew(s, key, leaf)
    case Refill(cpu, key) => FillTlb(s, cpu, key)
    case EvictTranslation(cpu, key) => DropTlb(s, cpu, key)
    case GoOnline(cpu) => JoinOnline(s, cpu)
    case Begin(id) => BeginJournal(s, id)
    case ServiceLoad(id, cpu) => LoadRequest(s, id, cpu)
    case ServiceCheck(id) => CheckCompleted(s, id)
    case ServiceFlush(id, succeeds) => Flush(s, id, succeeds)
    case ServiceAcknowledge(id) => AcknowledgeRequest(s, id)
    case _ => if op.id in s.journals then JournalStep(s, op, s.journals[op.id]) else s
  }

  // ---------------------------------------------------------------- invariant

  /** Acknowledgements trail the flushes that justify them, and requests trail the sequence. */
  ghost predicate LedgerInv(s: State) {
    && Wellformed(s)
    && (forall c :: 0 <= c < s.cpus ==>
          s.ledger.completed[c] <= s.flushedAt[c] <= s.ledger.sequence && s.ledger.requested[c] <= s.ledger.sequence)
    && (forall id :: id in s.services ==>
          s.services[id].generation <= if s.services[id].stage == Finished then s.flushedAt[s.services[id].cpu] else s.ledger.sequence)
    && (forall id :: id in s.journals && (s.journals[id].Storing? || s.journals[id].Waiting?) ==> s.journals[id].generation <= s.ledger.sequence)
  }

  /** A cached translation belongs to a retained leaf; if that leaf is suspended, no flush came since. */
  ghost predicate CacheInv(s: State)
    requires Wellformed(s)
  {
    forall e :: e in s.tlb ==>
      && e.cpu < s.cpus && e.cpu in s.online && e.key in s.leaves && s.tlb[e] == s.leaves[e.key].frame
      && (!s.leaves[e.key].present ==> e.key in s.suspendedAt && s.flushedAt[e.cpu] <= s.suspendedAt[e.key])
  }

  /** In this phase the journal knows that `c` caches none of its leaves. */
  predicate Clears(phase: Phase, c: nat) {
    match phase
    case Suspending => false
    case Snapshotted(targets) => c !in targets
    case Storing(_, targets, _) => c !in targets
    case Waiting(_, targets, _) => c !in targets
    case Acknowledged => true
    case RollingBack => false
  }

  /** The generation was drawn after the leaf was suspended. */
  ghost predicate Announced(phase: Phase, suspendedAt: nat) {
    (phase.Storing? || phase.Waiting?) && phase.targets != {} ==> suspendedAt < phase.generation
  }

  ghost predicate HoldInv(s: State) {
    forall key :: key in s.held ==>
      && key in s.leaves && !s.leaves[key].present
      && key in s.suspendedAt && s.suspendedAt[key] <= s.ledger.sequence
      && s.held[key].journal in s.journals && Announced(s.journals[s.held[key].journal], s.suspendedAt[key])
  }

  ghost predicate ClearedInv(s: State)
    requires HoldInv(s)
  {
    forall e :: e in s.tlb && e.key in s.held ==> !Clears(s.journals[s.held[e.key].journal], e.cpu)
  }

  /** The completion scan saw every target below `next` acknowledged. */
  ghost predicate ScanInv(s: State)
    requires Wellformed(s)
  {
    forall id, c :: id in s.journals && s.journals[id].Waiting? && 0 <= c < s.journals[id].next ==>
      (c in s.journals[id].targets ==> s.ledger.completed[c] >= s.journals[id].generation)
  }

  ghost predicate JournalInv(s: State)
    requires Wellformed(s)
  {
    HoldInv(s) && ClearedInv(s) && ScanInv(s)
  }

  ghost predicate Inv(s: State) {
    Wellformed(s) && LedgerInv(s) && CacheInv(s) && JournalInv(s)
  }

  /** A leaf as it was before its suspension, if it is suspended. */
  function Whole(s: State, key: Key): Leaf
    requires key in s.leaves
  {
    if key in s.held then s.leaves[key].(present := s.held[key].wasPresent) else s.leaves[key]
  }

  function Run(s: State, ops: seq<Op>): (t: State)
    requires Wellformed(s)
    ensures Follows(s, t)
    decreases |ops|
  {
    if ops == [] then s else Run(Apply(s, ops[0]), ops[1..])
  }

  // ---------------------------------------------------------------- every step

  lemma {:induction false} MapKeeps(s: State, key: Key, leaf: Leaf)
    requires Inv(s)
    ensures Inv(MapNew(s, key, leaf))
  {}

  lemma {:induction false} FillKeeps(s: State, cpu: nat, key: Key)
    requires Inv(s)
    ensures Inv(FillTlb(s, cpu, key))
  {}

  lemma {:induction false} DropKeeps(s: State, cpu: nat, key: Key)
    requires Inv(s)
    ensures Inv(DropTlb(s, cpu, key))
  {}

  lemma {:induction false} OnlineKeeps(s: State, cpu: nat)
    requires Inv(s)
    ensures Inv(JoinOnline(s, cpu))
  {}

  lemma {:induction false} BeginKeeps(s: State, id: nat)
    requires Inv(s)
    ensures Inv(BeginJournal(s, id))
  {
    if id !in s.journals { PhaseChangeKeeps(s, id, Suspending); }
  }

  lemma {:induction false} LoadKeeps(s: State, id: nat, cpu: nat)
    requires Inv(s)
    ensures Inv(LoadRequest(s, id, cpu))
  {}

  lemma {:induction false} ServicesKeep(s: State, services: map<nat, Service>)
    requires Inv(s) && Wellformed(s.(services := services)) && LedgerInv(s.(services := services))
    ensures Inv(s.(services := services))
  {
    hide LedgerInv;
  }

  lemma {:induction false} CheckKeeps(s: State, id: nat)
    requires Inv(s)
    ensures Inv(CheckCompleted(s, id))
  {
    hide CacheInv, JournalInv;
    ServicesKeep(s, CheckCompleted(s, id).services);
  }

  lemma {:induction false} FlushKeeps(s: State, id: nat, succeeds: bool)
    requires Inv(s)
    ensures Inv(Flush(s, id, succeeds))
  {
    var t := Flush(s, id, succeeds);
    assert LedgerInv(t) by { hide CacheInv; hide JournalInv; }
    assert CacheInv(t) by { hide JournalInv; }
    assert JournalInv(t);
  }

  lemma {:induction false} AcknowledgeKeeps(s: State, id: nat)
    requires Inv(s)
    ensures Inv(AcknowledgeRequest(s, id))
  {}

  /** What a journal must have established to enter a phase. */
  lemma {:induction false} PhaseChangeKeeps(s: State, id: nat, phase: Phase)
    requires Inv(s)
    requires (phase.Storing? || phase.Waiting?) ==> phase.next <= s.cpus && phase.generation <= s.ledger.sequence
    requires phase.Waiting? ==>
      forall c :: 0 <= c < phase.next && c in phase.targets ==> s.ledger.completed[c] >= phase.generation
    requires forall key :: key in s.held && s.held[key].journal == id ==> Announced(phase, s.suspendedAt[key])
    requires forall e :: e in s.tlb && e.key in s.held && s.held[e.key].journal == id ==> !Clears(phase, e.cpu)
    ensures Inv(SetPhase(s, id, phase))
  {
    var t := SetPhase(s, id, phase);
    assert LedgerInv(t) by { hide CacheInv; hide JournalInv; }
    assert CacheInv(t) by { hide JournalInv; }
    assert HoldInv(t) by { hide CacheInv; hide ClearedInv; hide ScanInv; }
    assert ClearedInv(t) by { hide CacheInv; hide ScanInv; }
    assert ScanInv(t) by { hide CacheInv; hide ClearedInv; }
  }

  lemma {:induction false} LedgerKeeps(s: State, ledger: Ledger)
    requires Inv(s)
    requires |ledger.requested| == |ledger.completed| == s.cpus && ledger.completed == s.ledger.completed
    requires s.ledger.sequence <= ledger.sequence
    requires forall c :: 0 <= c < s.cpus ==> ledger.requested[c] <= ledger.sequence
    ensures Inv(SetLedger(s, ledger))
  {}

  lemma {:induction false} DrawKeeps(s: State, id: nat)
    requires Inv(s) && id in s.journals && s.journals[id].Snapshotted?
    ensures Inv(DrawGeneration(s, id, s.journals[id].targets))
  {
    hide CacheInv, ScanInv;
    var targets := s.journals[id].targets;
    if targets == {} {
      PhaseChangeKeeps(s, id, Storing(0, {}, 0));
    } else if s.ledger.sequence >= MAX_SEQUENCE {
      PhaseChangeKeeps(s, id, RollingBack);
    } else {
      LedgerKeeps(s, s.ledger.Advance());
      PhaseChangeKeeps(SetLedger(s, s.ledger.Advance()), id, Storing(s.ledger.sequence + 1, targets, 0));
    }
  }

  lemma {:induction false} StoreKeeps(s: State, id: nat)
    requires Inv(s) && id in s.journals && s.journals[id].Storing?
    ensures var phase := s.journals[id]; Inv(StoreNext(s, id, phase.generation, phase.targets, phase.next))
  {
    hide CacheInv, ScanInv;
    var phase := s.journals[id];
    if phase.next == s.cpus {
      PhaseChangeKeeps(s, id, Waiting(phase.generation, phase.targets, 0));
    } else if phase.next in phase.targets {
      var ledger := s.ledger.Request(phase.next, phase.generation);
      LedgerKeeps(s, ledger);
      PhaseChangeKeeps(SetLedger(s, ledger), id, Storing(phase.generation, phase.targets, phase.next + 1));
    } else {
      PhaseChangeKeeps(s, id, Storing(phase.generation, phase.targets, phase.next + 1));
    }
  }

  /** A completed publication: no CPU, target or not, can still hold a leaf suspended before it. */
  lemma {:induction false} CompleteIsUncached(s: State, id: nat)
    requires Inv(s) && id in s.journals && s.journals[id].Waiting?
    requires s.ledger.Complete(s.journals[id].targets, s.journals[id].generation)
    ensures forall e :: e in s.tlb && e.key in s.held ==> s.held[e.key].journal != id
  {}

  lemma {:induction false} PollKeeps(s: State, id: nat)
    requires Inv(s) && id in s.journals && s.journals[id].Waiting?
    ensures var phase := s.journals[id]; Inv(PollNext(s, id, phase.generation, phase.targets, phase.next))
  {
    hide CacheInv;
    var phase := s.journals[id];
    if phase.next == s.cpus {
      CompleteIsUncached(s, id);
      PhaseChangeKeeps(s, id, Acknowledged);
    } else if phase.next in phase.targets && s.ledger.completed[phase.next] < phase.generation {
      PhaseChangeKeeps(s, id, Waiting(phase.generation, phase.targets, 0));
    } else {
      PhaseChangeKeeps(s, id, Waiting(phase.generation, phase.targets, phase.next + 1));
    }
  }

  lemma {:induction false} SuspendKeeps(s: State, id: nat, key: Key)
    requires Inv(s) && id in s.journals && s.journals[id].Suspending?
    ensures Inv(SuspendLeaf(s, id, key))
  {}

  lemma {:induction false} ReleaseKeeps(s: State, id: nat, key: Key)
    requires Inv(s) && id in s.journals && s.journals[id].Acknowledged?
    ensures Inv(ReleaseLeaf(s, id, key))
  {}

  lemma {:induction false} RestoreKeeps(s: State, id: nat, key: Key)
    requires Inv(s) && id in s.journals && s.journals[id].RollingBack?
    ensures Inv(RestoreLeaf(s, id, key))
    ensures key in s.held && s.held[key].journal == id ==>
      var t := RestoreLeaf(s, id, key); key !in t.held && key in t.leaves && t.leaves[key] == Whole(s, key)
  {}

  lemma {:induction false} FinishKeeps(s: State, id: nat)
    requires Inv(s)
    ensures Inv(FinishJournal(s, id))
  {}

  lemma JournalStepKeeps(s: State, op: Op, id: nat)
    requires Inv(s) && id in s.journals
    requires !op.MapLeaf? && !op.Refill? && !op.EvictTranslation? && !op.GoOnline? && !op.Begin?
    requires !op.ServiceLoad? && !op.ServiceCheck? && !op.ServiceFlush? && !op.ServiceAcknowledge? && op.id == id
    ensures Inv(JournalStep(s, op, s.journals[id]))
  {
    match (op, s.journals[id])
    case (Suspend(_, key), Suspending) => SuspendKeeps(s, id, key);
    case (LoadOnline(_), Suspending) => PhaseChangeKeeps(s, id, Snapshotted(s.online));
    case (FetchSequence(_), Snapshotted(_)) => DrawKeeps(s, id);
    case (StoreRequest(_), Storing(_, _, _)) => StoreKeeps(s, id);
    case (Poll(_), Waiting(_, _, _)) => PollKeeps(s, id);
    case (Fail(_), _) => PhaseChangeKeeps(s, id, RollingBack);
    case (Release(_, key), Acknowledged) => ReleaseKeeps(s, id, key);
    case (Restore(_, key), RollingBack) => RestoreKeeps(s, id, key);
    case (Finish(_), _) => FinishKeeps(s, id);
    case _ =>
  }

  lemma StepKeeps(s: State, op: Op)
    requires Inv(s)
    ensures Inv(Apply(s, op))
  {
    hide JournalStep, MapNew, FillTlb, DropTlb, JoinOnline, BeginJournal, LoadRequest, CheckCompleted, Flush,
      AcknowledgeRequest, LedgerInv, CacheInv, JournalInv;
    match op
    case MapLeaf(key, leaf) => MapKeeps(s, key, leaf);
    case Refill(cpu, key) => FillKeeps(s, cpu, key);
    case EvictTranslation(cpu, key) => DropKeeps(s, cpu, key);
    case GoOnline(cpu) => OnlineKeeps(s, cpu);
    case Begin(id) => BeginKeeps(s, id);
    case ServiceLoad(id, cpu) => LoadKeeps(s, id, cpu);
    case ServiceCheck(id) => CheckKeeps(s, id);
    case ServiceFlush(id, succeeds) => FlushKeeps(s, id, succeeds);
    case ServiceAcknowledge(id) => AcknowledgeKeeps(s, id);
    case _ => if op.id in s.journals { JournalStepKeeps(s, op, op.id); }
  }

  // ---------------------------------------------------------------- every run

  lemma {:induction false} RunKeeps(s: State, ops: seq<Op>)
    requires Inv(s)
    ensures Inv(Run(s, ops))
    decreases |ops|
  {
    hide LedgerInv, CacheInv, JournalInv, Apply;
    if ops != [] {
      StepKeeps(s, ops[0]);
      RunKeeps(Apply(s, ops[0]), ops[1..]);
    }
  }

  predicate Spares(s: State, t: State, key: Key) {
    key in s.leaves && key in t.leaves && Whole(t, key) == Whole(s, key)
  }

  /** Nothing but its own release changes what a leaf will be restored to. */
  lemma {:induction false} StepSpares(s: State, op: Op, key: Key)
    requires Wellformed(s) && HoldInv(s) && key in s.leaves && !(op.Release? && op.key == key)
    ensures Spares(s, Apply(s, op), key)
  {
    hide Follows, JournalStep;
    if !op.MapLeaf? && !op.Refill? && !op.EvictTranslation? && !op.GoOnline? && !op.Begin?
      && !op.ServiceLoad? && !op.ServiceCheck? && !op.ServiceFlush? && !op.ServiceAcknowledge?
    {
      if op.id in s.journals {
        JournalSpares(s, op, s.journals[op.id], key);
      }
      hide HoldInv;
    } else {
      hide HoldInv, Flush, LoadRequest, CheckCompleted, AcknowledgeRequest, Whole;
      ServicesSpare(s, op, key);
    }
  }

  lemma {:induction false} ServicesSpare(s: State, op: Op, key: Key)
    requires Wellformed(s) && key in s.leaves
    ensures op.ServiceLoad? ==> Spares(s, LoadRequest(s, op.id, op.cpu), key)
    ensures op.ServiceCheck? ==> Spares(s, CheckCompleted(s, op.id), key)
    ensures op.ServiceFlush? ==> Spares(s, Flush(s, op.id, op.succeeds), key)
    ensures op.ServiceAcknowledge? ==> Spares(s, AcknowledgeRequest(s, op.id), key)
  {
    hide Follows;
  }

  lemma {:induction false} EditsSpare(s: State, id: nat, at: Key, key: Key)
    requires Wellformed(s) && HoldInv(s) && key in s.leaves
    ensures Spares(s, SuspendLeaf(s, id, at), key) && Spares(s, RestoreLeaf(s, id, at), key)
    ensures at != key ==> Spares(s, ReleaseLeaf(s, id, at), key)
  {
    hide Follows;
  }

  lemma {:induction false} JournalSpares(s: State, op: Op, phase: Phase, key: Key)
    requires Wellformed(s) && HoldInv(s) && key in s.leaves && !(op.Release? && op.key == key)
    requires (phase.Storing? || phase.Waiting?) ==> phase.next <= s.cpus
    ensures Spares(s, JournalStep(s, op, phase), key)
  {
    hide Follows, DrawGeneration, StoreNext, PollNext, SuspendLeaf, ReleaseLeaf, RestoreLeaf;
    match (op, phase)
    case (Suspend(id, at), _) => EditsSpare(s, id, at, key);
    case (Release(id, at), _) => EditsSpare(s, id, at, key);
    case (Restore(id, at), _) => EditsSpare(s, id, at, key);
    case _ =>
  }

  lemma {:induction false} RunSpares(s: State, ops: seq<Op>, key: Key)
    requires Inv(s) && key in s.leaves && forall i :: 0 <= i < |ops| && ops[i].Release? ==> ops[i].key != key
    ensures Spares(s, Run(s, ops), key)
    decreases |ops|
  {
    if ops != [] {
      StepKeeps(s, ops[0]);
      StepSpares(s, ops[0], key);
      hide LedgerInv, CacheInv, JournalInv, Apply, Whole;
      RunSpares(Apply(s, ops[0]), ops[1..], key);
    }
  }

  /**
   Over any run that does not release it, a leaf is either suspended, with its frame and its
   PRESENT bit kept for the rollback, or exactly what it was before anybody suspended it.
   */
  lemma {:induction false} SuspensionRollsBack(s: State, ops: seq<Op>, key: Key)
    requires Inv(s) && key in s.leaves && key !in s.held
    requires forall i :: 0 <= i < |ops| && ops[i].Release? ==> ops[i].key != key
    ensures var t := Run(s, ops);
      && key in t.leaves
      && (key !in t.held ==> t.leaves[key] == s.leaves[key])
      && (key in t.held ==> t.leaves[key] == s.leaves[key].(present := false) && t.held[key].wasPresent == s.leaves[key].present)
  {
    RunSpares(s, ops, key);
    RunKeeps(s, ops);
    hide Run, LedgerInv, CacheInv;
  }

  lemma InitHolds(cpus: nat)
    ensures Inv(Init(cpus))
  {}

  /** A frame no leaf retains is in no CPU's TLB, after any interleaving. */
  lemma FreeFrameIsUncached(cpus: nat, ops: seq<Op>, frame: nat)
    ensures var s := Run(Init(cpus), ops);
      (forall key :: key in s.leaves ==> s.leaves[key].frame != frame) ==>
        frame !in s.tlb.Values
  {
    hide Apply, LedgerInv, JournalInv;
    InitHolds(cpus);
    RunKeeps(Init(cpus), ops);
  }

  /** An acknowledgement of `generation` means a full flush of that CPU began with the sequence already there. */
  lemma AcknowledgementMeansFlush(cpus: nat, ops: seq<Op>, c: nat, generation: nat)
    requires c < cpus
    ensures var s := Run(Init(cpus), ops);
      s.ledger.completed[c] >= generation ==> generation <= s.flushedAt[c] <= s.ledger.sequence
  {
    hide Apply, CacheInv, JournalInv;
    InitHolds(cpus);
    RunKeeps(Init(cpus), ops);
  }

  /** A leaf disappears only by a release, after every CPU dropped its translation. */
  lemma ReleaseFollowsCompletion(s: State, op: Op, key: Key)
    requires Inv(s) && key in s.leaves && key !in Apply(s, op).leaves
    ensures op.Release? && op.key == key && op.id in s.journals && s.journals[op.id].Acknowledged?
    ensures key in s.held && s.held[key].journal == op.id
    ensures forall e :: e in s.tlb ==> e.key != key
  {
    hide Apply, JournalStep, LedgerInv, ScanInv;
    assert !(s.leaves.Keys <= Apply(s, op).leaves.Keys);
  }
}
