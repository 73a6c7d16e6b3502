/**
 The admission gate of a backing object: one guard at a time, first-come intents
 ahead of ordinary callers, and waiters drained whenever an intent may become ready.
 */
module ObjectIo {
  import opened WaiterList

  const MAX_TICKET: nat := 0xffff_ffff_ffff_ffff

  /** What the admission spinlock protects. */
  datatype Admission = Admission(locked: bool, next: nat, waiting: seq<nat>, waiters: seq<nat>) {

    /** An ordinary caller enters only an idle gate nobody waits for. */
    function Enter(): (Admission, bool) {
      if locked || waiting != [] then (this, false) else (this.(locked := true), true)
    }

    /** A dropped guard opens the gate and wakes everybody. */
    function Leave(): Admission {
      this.(locked := false, waiters := [])
    }

    predicate CanEnqueue(memory: bool) {
      next < MAX_TICKET && memory
    }

    function Enqueue(): Admission {
      this.(waiting := waiting + [next], next := next + 1)
    }

    predicate Front(ticket: nat) {
      !locked && waiting != [] && waiting[0] == ticket
    }

    /** The front intent takes the gate; the next intent's owner is told to look again. */
    function TakeFront(): Admission
      requires waiting != []
    {
      this.(locked := true, waiting := waiting[1..], waiters := [])
    }

    function Cancel(ticket: nat): Admission {
      this.(waiting := Removed(waiting, ticket), waiters := [])
    }

    function Register(waiter: nat): Admission {
      if waiter in waiters then this else this.(waiters := waiters + [waiter])
    }

    function Unregister(waiter: nat): Admission {
      this.(waiters := Kept(waiters, waiter))
    }
  }

  /** The queue without one position. */
  function Removed(queue: seq<nat>, ticket: nat): (r: seq<nat>)
    ensures |r| <= |queue|
  {
    if queue == [] then []
    else if queue[0] == ticket then queue[1..]
    else [queue[0]] + Removed(queue[1..], ticket)
  }

  ghost predicate Increasing(queue: seq<nat>) {
    forall i, j :: 0 <= i < j < |queue| ==> queue[i] < queue[j]
  }

  lemma AppendedKeepsOrder(queue: seq<nat>, ticket: nat)
    requires Increasing(queue) && forall t :: t in queue ==> t < ticket
    ensures Increasing(queue + [ticket])
  {
    assert forall i :: 0 <= i < |queue| ==> queue[i] in queue;
  }

  lemma {:induction false} RemovedMembers(queue: seq<nat>, ticket: nat)
    requires Increasing(queue)
    ensures forall t :: t in Removed(queue, ticket) <==> t in queue && t != ticket
  {
    if queue != [] {
      var rest := queue[1..];
      RemovedMembers(rest, ticket);
      assert forall t :: t in queue <==> t == queue[0] || t in rest by {
        assert queue == [queue[0]] + rest;
      }
      assert forall t :: t in rest ==> queue[0] < t;
    }
  }

  /** Cancellation anywhere keeps the other positions and their order. */
  lemma {:induction false} RemovedKeepsOrder(queue: seq<nat>, ticket: nat)
    requires Increasing(queue)
    ensures Increasing(Removed(queue, ticket))
    ensures forall t :: t in Removed(queue, ticket) <==> t in queue && t != ticket
  {
    RemovedMembers(queue, ticket);
    if queue != [] && queue[0] != ticket {
      var rest := queue[1..];
      var kept := Removed(rest, ticket);
      RemovedKeepsOrder(rest, ticket);
      forall i | 0 <= i < |kept| ensures queue[0] < kept[i] {
        assert kept[i] in rest;
      }
      assert Removed(queue, ticket) == [queue[0]] + kept;
    }
  }

  lemma {:induction false} RemovedAt(queue: seq<nat>, index: nat)
    requires index < |queue| && queue[index] !in queue[..index]
    ensures Removed(queue, queue[index]) == queue[..index] + queue[index + 1..]
  {
    if index > 0 {
      assert queue[1..][..index - 1] == queue[..index][1..];
      RemovedAt(queue[1..], index - 1);
    }
  }

  lemma {:induction false} RemovedAbsent(queue: seq<nat>, ticket: nat)
    requires ticket !in queue
    ensures Removed(queue, ticket) == queue
  {
    if queue != [] {
      RemovedAbsent(queue[1..], ticket);
    }
  }

  datatype Reply<T> = Granted(value: T) | Busy | Unavailable | NoMemory | Exhausted

  /** One backing's gate. `woken` records the calls made to the wake callback. */
  class Gate {
    var locked: bool
    var next: nat
    var waiting: seq<nat>
    var waiters: seq<nat>
    var reserved: bool
    var unavailable: bool
    var generation: bv64
    var woken: seq<nat>

    function View(): Admission
      reads this
    {
      Admission(locked, next, waiting, waiters)
    }

    constructor ()
      ensures View() == Admission(false, 0, [], []) && !reserved && !unavailable && generation == 1 && woken == []
    {
      locked, next, waiting, waiters := false, 0, [], [];
      reserved, unavailable, generation, woken := false, false, 1, [];
    }

    /** Takes the waiter list and calls back each member in order. */
    method Wake()
      modifies this`waiters, this`woken
      ensures View() == old(View()).(waiters := []) && woken == old(woken) + old(waiters)
    {
      var taken := waiters;
      waiters := [];
      var i := 0;
      while i < |taken|
        modifies this`woken
        invariant i <= |taken| && woken == old(woken) + taken[..i]
      {
        woken := woken + [taken[i]];
        i := i + 1;
      }
    }

    method TryLock() returns (r: Reply<()>)
      modifies this`locked
      ensures r == Granted(()) <==> !unavailable && !old(locked) && old(waiting) == []
      ensures r == Unavailable <==> unavailable
      ensures View() == if unavailable then old(View()) else old(View()).Enter().0
      ensures locked == (old(locked) || r == Granted(()))
    {
      if unavailable {
        return Unavailable;
      }
      if locked || waiting != [] {
        return Busy;
      }
      locked := true;
      return Granted(());
    }

    method Leave()
      modifies this`locked, this`waiters, this`woken
      ensures View() == old(View()).Leave() && woken == old(woken) + old(waiters)
      ensures !locked && waiters == [] && waiting == old(waiting)
    {
      locked := false;
      Wake();
    }

    method Intent(memory: bool) returns (r: Reply<nat>)
      modifies this`waiting, this`next
      ensures r.Granted? <==> !unavailable && old(View()).CanEnqueue(memory)
      ensures r.Granted? ==> r.value == old(next) && View() == old(View()).Enqueue()
      ensures r.Granted? ==> waiting == old(waiting) + [r.value] && next == r.value + 1
      ensures !r.Granted? ==> View() == old(View())
    {
      if unavailable {
        return Unavailable;
      }
      if next >= MAX_TICKET {
        return Exhausted;
      }
      if !memory {
        return NoMemory;
      }
      waiting := waiting + [next];
      next := next + 1;
      return Granted(next - 1);
    }

    method Acquire(ticket: nat) returns (r: Reply<()>)
      modifies this`locked, this`waiting, this`waiters, this`woken
      ensures r == Granted(()) <==> !unavailable && old(View()).Front(ticket)
      ensures r.Granted? ==>
        old(waiting) != [] && View() == old(View()).TakeFront() && woken == old(woken) + old(waiters)
      ensures r.Granted? ==> old(waiting) == [ticket] + waiting && locked && !old(locked) && waiters == []
      ensures !r.Granted? ==> View() == old(View()) && woken == old(woken)
    {
      if unavailable {
        return Unavailable;
      }
      if locked || waiting == [] || waiting[0] != ticket {
        return Busy;
      }
      waiting := waiting[1..];
      locked := true;
      Wake();
      return Granted(());
    }

    /** Dropping an intent searches its position wherever it stands in the queue. */
    method CancelIntent(ticket: nat)
      modifies this`waiting, this`waiters, this`woken
      ensures View() == old(View()).Cancel(ticket) && woken == old(woken) + old(waiters)
      ensures Increasing(old(waiting)) ==> Increasing(waiting) && forall t :: t in waiting <==> t in old(waiting) && t != ticket
    {
      if Increasing(waiting) {
        RemovedKeepsOrder(waiting, ticket);
      }
      var index := 0;
      while index < |waiting| && waiting[index] != ticket
        modifies {}
        invariant index <= |waiting| && ticket !in waiting[..index]
      {
        index := index + 1;
      }
      if index < |waiting| {
        RemovedAt(waiting, index);
        waiting := waiting[..index] + waiting[index + 1..];
      } else {
        assert waiting[..index] == waiting;
        RemovedAbsent(waiting, ticket);
      }
      Wake();
    }

    method RegisterWaiter(waiter: nat, maximum: nat, memory: bool) returns (r: Reply<()>)
      modifies this`waiters
      ensures r == Granted(()) <==> old(waiter in waiters || (|waiters| < maximum && memory))
      ensures View() == if r.Granted? then old(View()).Register(waiter) else old(View())
      ensures r.Granted? ==> waiter in waiters && |waiters| <= if maximum < |old(waiters)| then |old(waiters)| else maximum
    {
      if waiter in waiters {
        return Granted(());
      }
      if |waiters| >= maximum {
        return Exhausted;
      }
      if !memory {
        return NoMemory;
      }
      waiters := waiters + [waiter];
      return Granted(());
    }

    method RemoveWaiter(waiter: nat)
      modifies this`waiters
      ensures View() == old(View()).Unregister(waiter)
      ensures forall w :: w in waiters <==> w in old(waiters) && w != waiter
    {
      var kept: seq<nat> := [];
      var i := 0;
      while i < |waiters|
        modifies {}
        invariant i <= |waiters| && kept == Kept(waiters[..i], waiter)
      {
        KeptStep(waiters, waiter, i);
        if waiters[i] != waiter {
          kept := kept + [waiters[i]];
        }
        i := i + 1;
      }
      assert waiters[..i] == waiters;
      forall w ensures w in kept <==> w in waiters && w != waiter {
        KeptMembers(waiters, waiter, w);
      }
      waiters := kept;
    }

    method Reserve()
      modifies this`reserved, this`generation
      ensures reserved && generation == old(generation) + 1
    {
      reserved := true;
      generation := generation + 1;
    }

    method MarkUnavailable()
      modifies this`unavailable, this`generation, this`waiters, this`woken
      ensures unavailable
      ensures old(unavailable) ==> generation == old(generation) && View() == old(View()) && woken == old(woken)
      ensures !old(unavailable) ==> generation == old(generation) + 1
      ensures !old(unavailable) ==> View() == old(View()).(waiters := []) && woken == old(woken) + old(waiters)
    {
      if !unavailable {
        unavailable := true;
        generation := generation + 1;
        Wake();
      }
    }

    method DropReservation()
      modifies this`reserved, this`locked, this`waiters, this`woken
      ensures !reserved && View() == old(View()).Leave() && woken == old(woken) + old(waiters)
    {
      reserved := false;
      Leave();
    }
  }
}

/**
 Every interleaving of callers of one gate. Atomic flags are read and written in
 steps of their own; a critical section that reads one holds the spinlock between steps.
 */
module GateRuns {
  import opened Common
  import opened WaiterList
  import opened ObjectIo

  const WORD: nat := 0x1_0000_0000_0000_0000

  /** Where a caller stands. */
  datatype Pc =
    | TryCheck | TryEnter | TryRecheck(got: bool)
    | Guard | DropGuard
    | ReserveStored | Reservation | LatchSwapped | LatchBumped | Unreserved
    | IntentCheck | IntentEnter | IntentLocked
    | Intent(ticket: nat) | AcquireCheck(ticket: nat) | AcquireEnter(ticket: nat) | AcquireLocked(ticket: nat)

  datatype State = State(
    admission: Admission,
    spin: Option<nat>,
    reserved: bool,
    unavailable: bool,
    generation: nat,
    actors: map<nat, Pc>,
    // History: who holds the gate, how often the generation moved, whose intent a ticket is,
    // and whom the gate woke.
    holder: Option<nat>,
    bumps: nat,
    owner: map<nat, nat>,
    woken: seq<nat>)

  datatype Op =
    | CallTryLock(id: nat)
    | CallIntent(id: nat)
    | CallAcquire(id: nat)
    | CancelIntent(id: nat)
    | Reserve(id: nat)
    | ReleaseGuard(id: nat)
    | Latch(id: nat)
    | DropReservation(id: nat)
    | Step(id: nat, memory: bool)
    | RegisterWaiter(id: nat, waiter: nat, maximum: nat)
    | RemoveWaiter(waiter: nat)
    | AdvanceGeneration

  const Init := State(Admission(false, 0, [], []), None, false, false, 1, map[], None, 0, map[], [])

  /** The caller owns the gate. */
  predicate Holding(pc: Pc) {
    pc == TryRecheck(true) || pc == Guard || pc == DropGuard || Reserving(pc) || pc == Unreserved
  }

  predicate Reserving(pc: Pc) {
    pc == ReserveStored || pc == Reservation || pc == LatchSwapped || pc == LatchBumped
  }

  predicate Queued(pc: Pc) {
    pc.Intent? || pc.AcquireCheck? || pc.AcquireEnter? || pc.AcquireLocked?
  }

  /** What a caller's position means to everybody else. */
  datatype Standing = Standing(holding: bool, reserving: bool, healthy: bool, inside: bool, ticket: Option<nat>)

  function StandingOf(actors: map<nat, Pc>, id: nat): Standing {
    if id !in actors then Standing(false, false, false, false, None)
    else
      var pc := actors[id];
      Standing(Holding(pc), Reserving(pc), pc.Guard? || pc.ReserveStored?, pc.IntentLocked? || pc.AcquireLocked?,
               if Queued(pc) then Some(pc.ticket) else None)
  }

  /** Only one caller's standing may have changed. */
  ghost predicate OnlyMoved(before: map<nat, Pc>, after: map<nat, Pc>, id: nat) {
    forall other: nat :: other != id ==> StandingOf(after, other) == StandingOf(before, other)
  }

  function Goto(s: State, id: nat, pc: Pc): (t: State)
    ensures t == s.(actors := t.actors) && OnlyMoved(s.actors, t.actors, id)
  {
    s.(actors := s.actors[id := pc])
  }

  function Gone(s: State, id: nat): (t: State)
    ensures t == s.(actors := t.actors) && OnlyMoved(s.actors, t.actors, id)
  {
    s.(actors := s.actors - {id})
  }

  function Bump(s: State): State { s.(generation := (s.generation + 1) % WORD, bumps := s.bumps + 1) }

  /** Takes the waiter list and wakes its members. */
  function Woken(s: State, admission: Admission): State {
    s.(admission := admission, woken := s.woken + s.admission.waiters)
  }

  // ------------------------------------------------ one step of each caller

  function EnterStep(s: State, id: nat): State {
    var (admission, got) := s.admission.Enter();
    Goto(s.(admission := admission, holder := if got then Some(id) else s.holder), id, TryRecheck(got))
  }

  function RecheckStep(s: State, id: nat, got: bool): State {
    if s.unavailable then (if got then Goto(s, id, DropGuard) else Gone(s, id))
    else if got then Goto(s, id, Guard)
    else Gone(s, id)
  }

  function LeaveStep(s: State, id: nat): State {
    Gone(Woken(s, s.admission.Leave()).(holder := None), id)
  }

  function EnqueueStep(s: State, id: nat, memory: bool): State {
    var ticket := s.admission.next;
    if !s.admission.CanEnqueue(memory) then Gone(s.(spin := None), id)
    else Goto(s.(spin := None, admission := s.admission.Enqueue(), owner := s.owner[ticket := id]), id, Intent(ticket))
  }

  function TakeStep(s: State, id: nat, ticket: nat): State {
    if !s.admission.Front(ticket) then Goto(s.(spin := None), id, Intent(ticket))
    else Goto(Woken(s, s.admission.TakeFront()).(spin := None, holder := Some(id)), id, Guard)
  }

  function CancelStep(s: State, id: nat, ticket: nat): State {
    Gone(Woken(s, s.admission.Cancel(ticket)), id)
  }

  /** Enters a critical section that re-reads the failure flag. */
  function LockStep(s: State, id: nat, inside: Pc): State {
    Goto(s.(spin := Some(id)), id, inside)
  }

  function TryStep(s: State, id: nat, pc: Pc): State {
    match pc
    case TryCheck => if s.unavailable then Gone(s, id) else Goto(s, id, TryEnter)
    case TryEnter => if s.spin.Some? then s else EnterStep(s, id)
    case TryRecheck(got) => RecheckStep(s, id, got)
    case DropGuard => if s.spin.Some? then s else LeaveStep(s, id)
    case _ => s
  }

  function ReserveStep(s: State, id: nat, pc: Pc): State {
    match pc
    case ReserveStored => Goto(Bump(s), id, Reservation)
    case LatchSwapped => Goto(Bump(s), id, LatchBumped)
    case LatchBumped =>
      if s.spin.Some? then s else Goto(Woken(s, s.admission.(waiters := [])), id, Reservation)
    case Unreserved => if s.spin.Some? then s else LeaveStep(s, id)
    case _ => s
  }

  function IntentStep(s: State, id: nat, pc: Pc, memory: bool): State {
    match pc
    case IntentCheck => if s.unavailable then Gone(s, id) else Goto(s, id, IntentEnter)
    case IntentEnter =>
      if s.spin.Some? then s else if s.unavailable then Gone(s, id) else LockStep(s, id, IntentLocked)
    case IntentLocked => EnqueueStep(s, id, memory)
    case AcquireCheck(t) => Goto(s, id, if s.unavailable then Intent(t) else AcquireEnter(t))
    case AcquireEnter(t) =>
      if s.spin.Some? then s else if s.unavailable then Goto(s, id, Intent(t)) else LockStep(s, id, AcquireLocked(t))
    case AcquireLocked(t) => TakeStep(s, id, t)
    case _ => s
  }

  function ActorStep(s: State, id: nat, memory: bool): State
    requires id in s.actors
  {
    var pc := s.actors[id];
    if pc.TryCheck? || pc.TryEnter? || pc.TryRecheck? || pc.DropGuard? then TryStep(s, id, pc)
    else if Reserving(pc) || pc.Unreserved? then ReserveStep(s, id, pc)
    else IntentStep(s, id, pc, memory)
  }

  function Call(s: State, op: Op): State {
    match op
    case CallTryLock(id) => if id in s.actors then s else Goto(s, id, TryCheck)
    case CallIntent(id) => if id in s.actors then s else Goto(s, id, IntentCheck)
    case CallAcquire(id) =>
      if id in s.actors && s.actors[id].Intent? then Goto(s, id, AcquireCheck(s.actors[id].ticket)) else s
    case CancelIntent(id) =>
      if id in s.actors && s.actors[id].Intent? && s.spin.None? then CancelStep(s, id, s.actors[id].ticket) else s
    case Reserve(id) => if id in s.actors && s.actors[id] == Guard then Goto(s.(reserved := true), id, ReserveStored) else s
    case ReleaseGuard(id) => if id in s.actors && s.actors[id] == Guard then Goto(s, id, DropGuard) else s
    case Latch(id) =>
      if id in s.actors && s.actors[id] == Reservation && !s.unavailable
      then Goto(s.(unavailable := true), id, LatchSwapped) else s
    case DropReservation(id) =>
      if id in s.actors && s.actors[id] == Reservation then Goto(s.(reserved := false), id, Unreserved) else s
    case RegisterWaiter(id, waiter, maximum) =>
      if id in s.actors && s.actors[id].Intent? && s.spin.None? && (waiter in s.admission.waiters || |s.admission.waiters| < maximum)
      then s.(admission := s.admission.Register(waiter)) else s
    case RemoveWaiter(waiter) => if s.spin.None? then s.(admission := s.admission.Unregister(waiter)) else s
    case AdvanceGeneration => Bump(s)
    case Step(_, _) => s
  }

  function Apply(s: State, op: Op): State {
    if op.Step? then (if op.id in s.actors then ActorStep(s, op.id, op.memory) else s) else Call(s, op)
  }

  // ---------------------------------------------------------------- invariant

  /** The gate is locked exactly while one caller holds it. */
  ghost predicate OneHolder(s: State) {
    && s.admission.locked == s.holder.Some?
    && (s.holder.Some? ==> StandingOf(s.actors, s.holder.value).holding)
    && (forall id: nat :: StandingOf(s.actors, id).holding ==> s.holder == Some(id))
  }

  /** The flags agree with the holder, and no healthy guard exists once failure is latched. */
  ghost predicate Flags(s: State) {
    && (s.reserved <==> s.holder.Some? && StandingOf(s.actors, s.holder.value).reserving)
    && (forall id: nat :: StandingOf(s.actors, id).healthy ==> !s.unavailable)
  }

  /** The spinlock's owner is inside its critical section, and an idle gate cannot fail meanwhile. */
  ghost predicate Spin(s: State) {
    && (s.spin.Some? ==> StandingOf(s.actors, s.spin.value).inside)
    && (forall id: nat :: StandingOf(s.actors, id).inside ==> s.spin == Some(id))
    && (s.spin.Some? && !s.admission.locked ==> !s.unavailable)
  }

  /** Queue positions belong to live intents, in the order they were handed out. */
  ghost predicate Queue(s: State) {
    && Increasing(s.admission.waiting)
    && (forall t :: t in s.admission.waiting ==>
          t < s.admission.next && t in s.owner && StandingOf(s.actors, s.owner[t]).ticket == Some(t))
    && (forall id: nat :: StandingOf(s.actors, id).ticket.Some? ==>
          var t := StandingOf(s.actors, id).ticket.value; t in s.admission.waiting && t in s.owner && s.owner[t] == id)
  }

  ghost predicate Generation(s: State) {
    s.generation == (1 + s.bumps) % WORD
  }

  ghost predicate Sound(s: State) {
    OneHolder(s) && Flags(s) && Spin(s) && Queue(s)
  }

  ghost predicate Inv(s: State) {
    Sound(s) && Generation(s)
  }

  // ------------------------------------------------------- every step keeps it

  /** A step that changes neither the gate nor the meaning of its caller's position. */
  ghost predicate Quiet(s: State, t: State, id: nat) {
    && OnlyMoved(s.actors, t.actors, id)
    && StandingOf(t.actors, id).(healthy := false) == StandingOf(s.actors, id).(healthy := false)
    && (StandingOf(t.actors, id).healthy ==> StandingOf(s.actors, id).healthy || !s.unavailable)
    && t.admission.(waiters := []) == s.admission.(waiters := [])
    && t.spin == s.spin && t.reserved == s.reserved && t.unavailable == s.unavailable
    && t.holder == s.holder && t.owner == s.owner
  }

  lemma {:induction false} QuietKeeps(s: State, t: State, id: nat)
    requires Quiet(s, t, id)
    requires Sound(s)
    ensures Sound(t)
  {
    assert forall other :: StandingOf(t.actors, other).(healthy := false) == StandingOf(s.actors, other).(healthy := false);
  }

  lemma {:induction false} EnterKeeps(s: State, id: nat)
    requires Sound(s) && s.spin.None? && id in s.actors && s.actors[id].TryEnter?
    ensures Sound(EnterStep(s, id))
  {
    var t := EnterStep(s, id);
    assert OnlyMoved(s.actors, t.actors, id);
    assert StandingOf(s.actors, id) == Standing(false, false, false, false, None);
    assert StandingOf(t.actors, id) == Standing(s.admission.Enter().1, false, false, false, None);
    hide StandingOf, Goto, Gone;
  }

  lemma {:induction false} LeaveKeeps(s: State, id: nat)
    requires Sound(s) && s.spin.None? && id in s.actors && (s.actors[id].DropGuard? || s.actors[id].Unreserved?)
    ensures Sound(LeaveStep(s, id))
  {
    var t := LeaveStep(s, id);
    assert OnlyMoved(s.actors, t.actors, id);
    assert StandingOf(s.actors, id) == Standing(true, false, false, false, None);
    assert StandingOf(t.actors, id) == Standing(false, false, false, false, None);
    hide StandingOf, Goto, Gone;
  }

  lemma {:induction false} LockForIntentKeeps(s: State, id: nat)
    requires Sound(s) && s.spin.None? && !s.unavailable && id in s.actors && s.actors[id].IntentEnter?
    ensures Sound(LockStep(s, id, IntentLocked))
  {
    var t := LockStep(s, id, IntentLocked);
    assert OnlyMoved(s.actors, t.actors, id);
    assert StandingOf(s.actors, id) == Standing(false, false, false, false, None);
    assert StandingOf(t.actors, id) == Standing(false, false, false, true, None);
    hide StandingOf, Goto, Gone;
  }

  lemma {:induction false} LockForAcquireKeeps(s: State, id: nat)
    requires Sound(s) && s.spin.None? && !s.unavailable && id in s.actors && s.actors[id].AcquireEnter?
    ensures Sound(LockStep(s, id, AcquireLocked(s.actors[id].ticket)))
  {
    var t := LockStep(s, id, AcquireLocked(s.actors[id].ticket));
    assert OnlyMoved(s.actors, t.actors, id);
    assert StandingOf(s.actors, id) == Standing(false, false, false, false, Some(s.actors[id].ticket));
    assert StandingOf(t.actors, id) == Standing(false, false, false, true, Some(s.actors[id].ticket));
    hide StandingOf, Goto, Gone;
  }

  lemma {:induction false} EnqueueKeeps(s: State, id: nat)
    requires Sound(s) && id in s.actors && s.actors[id].IntentLocked? && s.admission.CanEnqueue(true)
    ensures Sound(EnqueueStep(s, id, true))
  {
    var t := EnqueueStep(s, id, true);
    assert OnlyMoved(s.actors, t.actors, id);
    assert StandingOf(s.actors, id) == Standing(false, false, false, true, None);
    assert StandingOf(t.actors, id) == Standing(false, false, false, false, Some(s.admission.next));
    hide StandingOf, Goto, Gone;
    var next, before, after := s.admission.next, s.admission.waiting, t.admission.waiting;
    assert after == before + [next];
    assert forall x :: x in after <==> x in before || x == next;
    AppendedKeepsOrder(before, next);
    hide Increasing;
    assert Queue(t) by { hide OneHolder, Flags, Spin; }
    hide Queue;
  }

  lemma {:induction false} TakeKeeps(s: State, id: nat)
    requires Sound(s) && id in s.actors && s.actors[id].AcquireLocked? && s.admission.Front(s.actors[id].ticket)
    ensures Sound(TakeStep(s, id, s.actors[id].ticket))
  {
    var t := TakeStep(s, id, s.actors[id].ticket);
    assert OnlyMoved(s.actors, t.actors, id);
    assert StandingOf(s.actors, id) == Standing(false, false, false, true, Some(s.actors[id].ticket));
    assert StandingOf(t.actors, id) == Standing(true, false, true, false, None);
    hide StandingOf, Goto, Gone;
    assert forall x :: x in s.admission.waiting <==> x == s.admission.waiting[0] || x in t.admission.waiting;
    assert s.admission.waiting[0] !in t.admission.waiting;
    assert Queue(t) by { hide OneHolder, Flags, Spin; }
  }

  lemma {:induction false} CancelKeeps(s: State, id: nat)
    requires Sound(s) && s.spin.None? && id in s.actors && s.actors[id].Intent?
    ensures Sound(CancelStep(s, id, s.actors[id].ticket))
  {
    var t := CancelStep(s, id, s.actors[id].ticket);
    assert OnlyMoved(s.actors, t.actors, id);
    assert StandingOf(s.actors, id) == Standing(false, false, false, false, Some(s.actors[id].ticket));
    assert StandingOf(t.actors, id) == Standing(false, false, false, false, None);
    RemovedKeepsOrder(s.admission.waiting, s.actors[id].ticket);
    hide StandingOf, Goto, Gone;
  }

  lemma {:induction false} ReserveKeeps(s: State, id: nat)
    requires Sound(s) && id in s.actors && s.actors[id].Guard?
    ensures Sound(Goto(s.(reserved := true), id, ReserveStored))
  {
    var t := Goto(s.(reserved := true), id, ReserveStored);
    assert OnlyMoved(s.actors, t.actors, id);
    assert StandingOf(s.actors, id) == Standing(true, false, true, false, None);
    assert StandingOf(t.actors, id) == Standing(true, true, true, false, None);
    hide StandingOf, Goto, Gone;
  }

  lemma {:induction false} LatchKeeps(s: State, id: nat)
    requires Sound(s) && id in s.actors && s.actors[id].Reservation?
    ensures Sound(Goto(s.(unavailable := true), id, LatchSwapped))
  {
    var t := Goto(s.(unavailable := true), id, LatchSwapped);
    assert OnlyMoved(s.actors, t.actors, id);
    assert StandingOf(s.actors, id) == Standing(true, true, false, false, None);
    assert StandingOf(t.actors, id) == Standing(true, true, false, false, None);
    hide StandingOf, Goto, Gone;
  }

  lemma {:induction false} UnreserveKeeps(s: State, id: nat)
    requires Sound(s) && id in s.actors && s.actors[id].Reservation?
    ensures Sound(Goto(s.(reserved := false), id, Unreserved))
  {
    var t := Goto(s.(reserved := false), id, Unreserved);
    assert OnlyMoved(s.actors, t.actors, id);
    assert StandingOf(s.actors, id) == Standing(true, true, false, false, None);
    assert StandingOf(t.actors, id) == Standing(true, false, false, false, None);
    hide StandingOf, Goto, Gone;
  }

  /** Leaving a critical section without effect. */
  lemma {:induction false} UnlockKeeps(s: State, id: nat, t: State)
    requires Sound(s) && StandingOf(s.actors, id).inside
    requires t == s.(spin := None, actors := t.actors) && OnlyMoved(s.actors, t.actors, id)
    requires StandingOf(t.actors, id) == StandingOf(s.actors, id).(inside := false)
    ensures Sound(t)
  {
    hide StandingOf;
  }

  lemma {:induction false} TryKeeps(s: State, id: nat)
    requires Sound(s) && id in s.actors
    ensures Sound(TryStep(s, id, s.actors[id]))
  {
    hide Sound;
    var pc := s.actors[id];
    match pc
    case TryEnter => if s.spin.None? { EnterKeeps(s, id); }
    case DropGuard => if s.spin.None? { LeaveKeeps(s, id); }
    case _ => QuietKeeps(s, TryStep(s, id, pc), id);
  }

  lemma {:induction false} ReservationKeeps(s: State, id: nat)
    requires Sound(s) && id in s.actors
    ensures Sound(ReserveStep(s, id, s.actors[id]))
  {
    hide Sound;
    var pc := s.actors[id];
    match pc
    case Unreserved => if s.spin.None? { LeaveKeeps(s, id); }
    case _ => QuietKeeps(s, ReserveStep(s, id, pc), id);
  }

  lemma {:induction false} IntentKeeps(s: State, id: nat, memory: bool)
    requires Sound(s) && id in s.actors
    ensures Sound(IntentStep(s, id, s.actors[id], memory))
  {
    hide Sound;
    match s.actors[id]
    case IntentCheck => RefusedOrGoesOn(s, id, IntentEnter);
    case IntentEnter =>
      RefusedOrGoesOn(s, id, IntentEnter);
      if s.spin.None? && !s.unavailable { LockForIntentKeeps(s, id); }
    case IntentLocked =>
      if s.admission.CanEnqueue(memory) { EnqueueKeeps(s, id); } else { UnlockKeeps(s, id, EnqueueStep(s, id, memory)); }
    case AcquireCheck(t) => WaitsOn(s, id, Intent(t)); WaitsOn(s, id, AcquireEnter(t));
    case AcquireEnter(t) =>
      WaitsOn(s, id, Intent(t));
      if s.spin.None? && !s.unavailable { LockForAcquireKeeps(s, id); }
    case AcquireLocked(t) =>
      if s.admission.Front(t) { TakeKeeps(s, id); } else { UnlockKeeps(s, id, TakeStep(s, id, t)); }
    case _ =>
  }

  /** A caller that stands for nothing yet stops or goes on. */
  lemma {:induction false} RefusedOrGoesOn(s: State, id: nat, pc: Pc)
    requires Sound(s) && StandingOf(s.actors, id) == Standing(false, false, false, false, None)
    requires pc.TryCheck? || pc.TryEnter? || pc.IntentCheck? || pc.IntentEnter?
    ensures Sound(Goto(s, id, pc)) && Sound(Gone(s, id))
  {
    QuietKeeps(s, Goto(s, id, pc), id);
    QuietKeeps(s, Gone(s, id), id);
  }

  /** An intent polls without giving up its position. */
  lemma {:induction false} WaitsOn(s: State, id: nat, pc: Pc)
    requires Sound(s) && id in s.actors && Queued(s.actors[id]) && !s.actors[id].AcquireLocked?
    requires Queued(pc) && !pc.AcquireLocked? && pc.ticket == s.actors[id].ticket
    ensures Sound(Goto(s, id, pc))
  {
    QuietKeeps(s, Goto(s, id, pc), id);
  }

  lemma {:induction false} CallKeeps(s: State, op: Op)
    requires Sound(s)
    ensures Sound(Call(s, op))
  {
    hide Sound;
    match op
    case CallTryLock(id) => if id !in s.actors { RefusedOrGoesOn(s, id, TryCheck); }
    case CallIntent(id) => if id !in s.actors { RefusedOrGoesOn(s, id, IntentCheck); }
    case CallAcquire(id) =>
      if id in s.actors && s.actors[id].Intent? { WaitsOn(s, id, AcquireCheck(s.actors[id].ticket)); }
    case CancelIntent(id) => if id in s.actors && s.actors[id].Intent? && s.spin.None? { CancelKeeps(s, id); }
    case Reserve(id) => if id in s.actors && s.actors[id] == Guard { ReserveKeeps(s, id); }
    case ReleaseGuard(id) => QuietKeeps(s, Call(s, op), id);
    case Latch(id) => if id in s.actors && s.actors[id] == Reservation { LatchKeeps(s, id); }
    case DropReservation(id) => if id in s.actors && s.actors[id] == Reservation { UnreserveKeeps(s, id); }
    case RegisterWaiter(_, _, _) => QuietKeeps(s, Call(s, op), 0);
    case RemoveWaiter(_) => QuietKeeps(s, Call(s, op), 0);
    case AdvanceGeneration => QuietKeeps(s, Call(s, op), 0);
    case Step(_, _) =>
  }

  /** What one operation may do to the shared state: one critical section, or one flag. */
  ghost predicate Section(s: State, op: Op, t: State) {
    && (s.unavailable ==> t.unavailable)
    && (t == Bump(s).(actors := t.actors) || (t.generation == s.generation && t.bumps == s.bumps))
    && (|| (t.admission == s.admission && t.woken == s.woken && t.holder == s.holder)
        || (Entered(s, t) && t.woken == s.woken)
        || Enqueued(s, t)
        || (Taken(s, t) && Drained(s, t))
        || (t.admission == s.admission.Leave() && t.holder == None && Drained(s, t))
        || (t.admission == s.admission.(waiters := []) && t.holder == s.holder && Drained(s, t))
        || (Cancelled(s, op, t) && Drained(s, t))
        || (Registered(s, op, t) && t.woken == s.woken && t.holder == s.holder))
  }

  ghost predicate Drained(s: State, t: State) {
    t.admission.waiters == [] && t.woken == s.woken + s.admission.waiters
  }

  ghost predicate Entered(s: State, t: State) {
    && !s.admission.locked && s.admission.waiting == []
    && t.admission == s.admission.(locked := true) && t.holder.Some?
  }

  ghost predicate Enqueued(s: State, t: State) {
    t.admission == s.admission.Enqueue() && t.woken == s.woken && t.holder == s.holder
  }

  ghost predicate Taken(s: State, t: State) {
    && !s.admission.locked && s.admission.waiting != [] && t.admission == s.admission.TakeFront()
    && t.holder.Some? && t.holder.value in s.actors
    && s.actors[t.holder.value] == AcquireLocked(s.admission.waiting[0])
  }

  ghost predicate Cancelled(s: State, op: Op, t: State) {
    && op.CancelIntent? && op.id in s.actors && s.actors[op.id].Intent?
    && t.admission == s.admission.Cancel(s.actors[op.id].ticket) && t.holder == s.holder
  }

  ghost predicate Registered(s: State, op: Op, t: State) {
    || (op.RegisterWaiter? && t.admission == s.admission.Register(op.waiter))
    || (op.RemoveWaiter? && t.admission == s.admission.Unregister(op.waiter))
  }

  lemma {:induction false} TrySection(s: State, op: Op, id: nat, pc: Pc)
    ensures Section(s, op, TryStep(s, id, pc))
  {
    hide Goto, Gone, OnlyMoved;
  }

  lemma {:induction false} ReserveSection(s: State, op: Op, id: nat, pc: Pc)
    ensures Section(s, op, ReserveStep(s, id, pc))
  {
    hide Goto, Gone, OnlyMoved;
  }

  lemma {:induction false} NothingSection(s: State, op: Op, t: State)
    requires t == s.(actors := t.actors, spin := t.spin)
    ensures Section(s, op, t)
  {
  }

  lemma {:induction false} EnqueueSection(s: State, op: Op, id: nat, memory: bool)
    ensures Section(s, op, EnqueueStep(s, id, memory))
  {
    hide Goto, Gone, OnlyMoved;
    if s.admission.CanEnqueue(memory) {
      assert Enqueued(s, EnqueueStep(s, id, memory));
    }
  }

  lemma {:induction false} TakeSection(s: State, op: Op, id: nat)
    requires id in s.actors && s.actors[id].AcquireLocked?
    ensures Section(s, op, TakeStep(s, id, s.actors[id].ticket))
  {
    hide Goto, Gone, OnlyMoved;
    if s.admission.Front(s.actors[id].ticket) {
      assert Taken(s, TakeStep(s, id, s.actors[id].ticket));
    }
  }

  lemma {:induction false} IntentSection(s: State, op: Op, id: nat, memory: bool)
    requires id in s.actors
    ensures Section(s, op, IntentStep(s, id, s.actors[id], memory))
  {
    hide Goto, Gone, OnlyMoved, EnqueueStep, TakeStep, Section;
    match s.actors[id]
    case IntentLocked => EnqueueSection(s, op, id, memory);
    case AcquireLocked(_) => TakeSection(s, op, id);
    case _ => NothingSection(s, op, IntentStep(s, id, s.actors[id], memory));
  }

  lemma {:induction false} CallSection(s: State, op: Op)
    ensures Section(s, op, Call(s, op))
  {
    hide Goto, Gone, OnlyMoved;
  }

  /** Every operation is one of the gate's critical sections. */
  lemma {:induction false} ApplySection(s: State, op: Op)
    ensures Section(s, op, Apply(s, op))
  {
    NothingSection(s, op, s);
    hide Section, TryStep, ReserveStep, IntentStep, Call;
    if op.Step? {
      if op.id in s.actors {
        TrySection(s, op, op.id, s.actors[op.id]);
        ReserveSection(s, op, op.id, s.actors[op.id]);
        IntentSection(s, op, op.id, op.memory);
      }
    } else {
      CallSection(s, op);
    }
  }

  lemma {:induction false} GenerationKeeps(s: State, op: Op)
    requires Generation(s)
    ensures Generation(Apply(s, op)) && s.bumps <= Apply(s, op).bumps
  {
    ApplySection(s, op);
    hide Apply;
  }

  lemma {:induction false} ApplyKeeps(s: State, op: Op)
    requires Inv(s)
    ensures Inv(Apply(s, op))
  {
    GenerationKeeps(s, op);
    hide Sound, Generation;
    if op.Step? {
      if op.id in s.actors {
        TryKeeps(s, op.id);
        ReservationKeeps(s, op.id);
        IntentKeeps(s, op.id, op.memory);
      }
    } else {
      CallKeeps(s, op);
    }
  }

  function Run(s: State, ops: seq<Op>): State
    decreases |ops|
  {
    if ops == [] then s else Run(Apply(s, ops[0]), ops[1..])
  }

  lemma {:induction false} RunKeeps(s: State, ops: seq<Op>)
    requires Inv(s)
    ensures Inv(Run(s, ops)) && s.bumps <= Run(s, ops).bumps
    decreases |ops|
  {
    if ops != [] {
      ApplyKeeps(s, ops[0]);
      GenerationKeeps(s, ops[0]);
      RunKeeps(Apply(s, ops[0]), ops[1..]);
    }
  }

  // ----------------------------------------------------------------- theorems

  /** At every moment of every run at most one caller owns the gate. */
  lemma {:induction false} OneGuardAtATime(ops: seq<Op>, a: nat, b: nat)
    ensures var t := Run(Init, ops);
      a in t.actors && b in t.actors && Holding(t.actors[a]) && Holding(t.actors[b]) ==> a == b
  {
    RunKeeps(Init, ops);
    var t := Run(Init, ops);
    assert StandingOf(t.actors, a).holding ==> t.holder == Some(a);
    assert StandingOf(t.actors, b).holding ==> t.holder == Some(b);
  }

  /** Once failure is latched it stays, and no caller is handed a guard for the failed backing. */
  lemma {:induction false} NoGuardAfterFailure(s: State, ops: seq<Op>, id: nat)
    requires Inv(s) && s.unavailable
    ensures Run(s, ops).unavailable
    ensures id in Run(s, ops).actors ==> Run(s, ops).actors[id] != Guard
    decreases |ops|
  {
    assert StandingOf(s.actors, id).healthy ==> !s.unavailable;
    if ops != [] {
      ApplyKeeps(s, ops[0]);
      ApplySection(s, ops[0]);
      hide Apply, Inv;
      NoGuardAfterFailure(Apply(s, ops[0]), ops[1..], id);
    }
  }

  /** The owner of the first ticket got the gate, and only that ticket left the queue. */
  ghost predicate FrontAdmitted(s: State, t: State)
    requires s.admission.waiting != []
  {
    && s.admission.waiting[0] in s.owner && t.holder == Some(s.owner[s.admission.waiting[0]])
    && t.admission.waiting == s.admission.waiting[1..]
  }

  /** While intents wait, the gate is only ever handed to the owner of the first one. */
  lemma {:induction false} OnlyTheFrontIsAdmitted(s: State, op: Op)
    requires Inv(s)
    ensures Apply(s, op).holder.Some? && Apply(s, op).holder != s.holder ==> s.holder == None
    ensures Apply(s, op).holder.Some? && Apply(s, op).holder != s.holder ==>
      s.admission.waiting == [] || FrontAdmitted(s, Apply(s, op))
  {
    ApplySection(s, op);
    var t := Apply(s, op);
    hide Apply;
    if Taken(s, t) {
      assert StandingOf(s.actors, t.holder.value).ticket == Some(s.admission.waiting[0]);
    }
  }

  predicate Ready(s: State, ticket: nat) {
    !s.unavailable && s.admission.Front(ticket)
  }

  /** A step that makes a queued intent ready drains the waiters in the same step. */
  lemma {:induction false} ReadinessWakes(s: State, op: Op, ticket: nat)
    requires Inv(s) && ticket in s.admission.waiting && !Ready(s, ticket)
    ensures Ready(Apply(s, op), ticket) ==> Drained(s, Apply(s, op))
  {
    ApplySection(s, op);
    hide Apply;
  }

  /** Tickets are handed out once: a queue gains only new ones. */
  lemma {:induction false} QueueOnlyAppends(s: State, op: Op)
    requires Inv(s)
    ensures s.admission.next <= Apply(s, op).admission.next
    ensures forall u :: u in Apply(s, op).admission.waiting ==> u in s.admission.waiting || s.admission.next <= u
  {
    ApplySection(s, op);
    var t := Apply(s, op);
    hide Apply;
    if Cancelled(s, op, t) {
      RemovedKeepsOrder(s.admission.waiting, s.actors[op.id].ticket);
    }
  }

  lemma {:induction false} RunOnlyAppends(s: State, ops: seq<Op>)
    requires Inv(s)
    ensures s.admission.next <= Run(s, ops).admission.next
    ensures forall u :: u in Run(s, ops).admission.waiting ==> u in s.admission.waiting || s.admission.next <= u
    decreases |ops|
  {
    if ops != [] {
      ApplyKeeps(s, ops[0]);
      QueueOnlyAppends(s, ops[0]);
      hide Apply, Inv;
      RunOnlyAppends(Apply(s, ops[0]), ops[1..]);
    }
  }

  /** Over any run, an intent that still waits has nobody before it who was not before it already. */
  lemma {:induction false} NobodyOvertakes(s: State, ops: seq<Op>, ticket: nat)
    requires Inv(s) && ticket in s.admission.waiting
    ensures forall u :: u in Run(s, ops).admission.waiting && u < ticket ==> u in s.admission.waiting
  {
    RunOnlyAppends(s, ops);
  }

  /** A ticket that was handed out and is no longer queued never comes back. */
  lemma {:induction false} ConsumedForGood(s: State, ops: seq<Op>, ticket: nat)
    requires Inv(s) && ticket < s.admission.next && ticket !in s.admission.waiting
    ensures ticket !in Run(s, ops).admission.waiting
  {
    RunOnlyAppends(s, ops);
  }

  lemma {:induction false} WokenGrows(s: State, ops: seq<Op>)
    ensures s.woken <= Run(s, ops).woken
    decreases |ops|
  {
    if ops != [] {
      ApplySection(s, ops[0]);
      hide Apply;
      WokenGrows(Apply(s, ops[0]), ops[1..]);
    }
  }

  /** Until the gate wakes its waiters, a registration and the queue position it is for both stay. */
  lemma {:induction false} WokenOrStillWaiting(s: State, op: Op, ticket: nat, waiter: nat)
    requires Inv(s) && ticket in s.admission.waiting && waiter in s.admission.waiters
    requires op != RemoveWaiter(waiter)
    ensures Drained(s, Apply(s, op)) || (
      && ticket in Apply(s, op).admission.waiting && waiter in Apply(s, op).admission.waiters
      && Apply(s, op).woken == s.woken)
  {
    ApplySection(s, op);
    var t := Apply(s, op);
    hide Apply;
    if Registered(s, op, t) && op.RemoveWaiter? {
      KeptMembers(s.admission.waiters, op.waiter, waiter);
    }
  }

  lemma {:induction false} WokenStays(before: seq<nat>, waiters: seq<nat>, later: seq<nat>, waiter: nat)
    requires waiter in waiters && before + waiters <= later
    ensures |before| <= |later| && waiter in later[|before|..]
  {
    var i :| 0 <= i < |waiters| && waiters[i] == waiter;
    assert later[|before|..][i] == (before + waiters)[|before| + i];
  }

  /** A registered waiter whose intent becomes ready has been woken since it registered. */
  lemma {:induction false} NoLostWakeup(s: State, ops: seq<Op>, ticket: nat, waiter: nat)
    requires Inv(s) && ticket in s.admission.waiting && waiter in s.admission.waiters
    requires !Ready(s, ticket) && RemoveWaiter(waiter) !in ops
    ensures Ready(Run(s, ops), ticket) ==>
      |s.woken| <= |Run(s, ops).woken| && waiter in Run(s, ops).woken[|s.woken|..]
    decreases |ops|
  {
    if ops != [] {
      var t := Apply(s, ops[0]);
      ApplyKeeps(s, ops[0]);
      WokenOrStillWaiting(s, ops[0], ticket, waiter);
      ReadinessWakes(s, ops[0], ticket);
      hide Apply, Inv;
      if Drained(s, t) {
        WokenGrows(t, ops[1..]);
        WokenStays(s.woken, s.admission.waiters, Run(s, ops).woken, waiter);
      } else {
        NoLostWakeup(t, ops[1..], ticket, waiter);
      }
    }
  }

  // --------------------------------------------------------------- generations

  /** What the installer of a loaded page checks before publishing it. */
  predicate Installable(s: State, snapshot: nat) {
    !s.unavailable && !s.reserved && s.generation == snapshot
  }

  /** A snapshot still matches exactly when the generation moved a multiple of its word size since. */
  lemma {:induction false} SnapshotMatchesIff(s: State, ops: seq<Op>)
    requires Inv(s)
    ensures s.bumps <= Run(s, ops).bumps
    ensures Run(s, ops).generation == s.generation <==> (Run(s, ops).bumps - s.bumps) % WORD == 0
  {
    RunKeeps(s, ops);
    SameResidue(1 + s.bumps, 1 + Run(s, ops).bumps);
  }

  lemma {:induction false} SameResidue(a: nat, b: nat)
    requires a <= b
    ensures a % WORD == b % WORD <==> (b - a) % WORD == 0
  {
    assert a == WORD * (a / WORD) + a % WORD;
    assert b == WORD * (b / WORD) + b % WORD;
    assert b - a == WORD * (b / WORD - a / WORD) + (b % WORD - a % WORD);
  }

  /** The flag is stored and the generation is about to move. */
  predicate Moving(pc: Pc) { pc == ReserveStored || pc == LatchSwapped }

  lemma {:induction false} MovingStep(s: State, op: Op, id: nat)
    requires id in s.actors && Moving(s.actors[id])
    ensures var t := Apply(s, op); t.bumps == s.bumps + 1 || (id in t.actors && t.actors[id] == s.actors[id])
  {
    hide TryStep, ReserveStep, IntentStep, Call;
    if op.Step? && op.id != id && op.id in s.actors {
      TryAndReserveSpare(s, op.id, id);
      IntentSpares(s, op.id, op.memory, id);
    } else if op.Step? {
      BumpStep(s, id);
    } else {
      CallLeavesMoving(s, op, id);
    }
  }

  lemma {:induction false} BumpStep(s: State, id: nat)
    ensures ReserveStep(s, id, ReserveStored).bumps == s.bumps + 1
    ensures ReserveStep(s, id, LatchSwapped).bumps == s.bumps + 1
  {
  }

  predicate Spares(s: State, t: State, other: nat) {
    other in t.actors && other in s.actors && t.actors[other] == s.actors[other]
  }

  lemma {:induction false} TryAndReserveSpare(s: State, id: nat, other: nat)
    requires id in s.actors && other in s.actors && other != id
    ensures Spares(s, TryStep(s, id, s.actors[id]), other) && Spares(s, ReserveStep(s, id, s.actors[id]), other)
  {
    hide StandingOf, OnlyMoved;
  }

  lemma {:induction false} IntentSpares(s: State, id: nat, memory: bool, other: nat)
    requires id in s.actors && other in s.actors && other != id
    ensures Spares(s, IntentStep(s, id, s.actors[id], memory), other)
  {
    hide StandingOf, OnlyMoved;
  }

  lemma {:induction false} CallLeavesMoving(s: State, op: Op, id: nat)
    requires id in s.actors && Moving(s.actors[id]) && !op.Step?
    ensures id in Call(s, op).actors && Call(s, op).actors[id] == s.actors[id]
  {
    hide StandingOf, OnlyMoved, Removed, Kept;
  }

  /** Whoever stored a flag stays at that point until the generation has moved. */
  lemma {:induction false} MovingUntilBumped(s: State, ops: seq<Op>, id: nat)
    requires Inv(s) && id in s.actors && Moving(s.actors[id])
    ensures var t := Run(s, ops); s.bumps < t.bumps || (id in t.actors && t.actors[id] == s.actors[id])
    decreases |ops|
  {
    if ops != [] {
      var t := Apply(s, ops[0]);
      ApplyKeeps(s, ops[0]);
      GenerationKeeps(s, ops[0]);
      MovingStep(s, ops[0], id);
      hide Apply, Inv;
      if s.bumps < t.bumps {
        RunKeeps(t, ops[1..]);
      } else {
        MovingUntilBumped(t, ops[1..], id);
      }
    }
  }

  lemma {:induction false} RunJoins(s: State, first: seq<Op>, rest: seq<Op>)
    ensures Run(s, first + rest) == Run(Run(s, first), rest)
    decreases |first|
  {
    if first == [] {
      assert first + rest == rest;
    } else {
      assert (first + rest)[1..] == first[1..] + rest;
      RunJoins(Apply(s, first[0]), first[1..], rest);
    }
  }

  /** The generation cannot be the captured one again before it went all the way round. */
  ghost predicate Fenced(s: State, t: State) {
    t.generation == s.generation ==> t.bumps - s.bumps >= WORD
  }

  /** `s` captured a generation, then came to `r`, whose generation moved once more by `t`. */
  lemma {:induction false} MovedIsFenced(s: State, r: State, ops: seq<Op>)
    requires Inv(s) && Inv(r) && s.bumps <= r.bumps < Run(r, ops).bumps
    ensures Fenced(s, Run(r, ops))
  {
    RunKeeps(r, ops);
    SameResidue(1 + s.bumps, 1 + Run(r, ops).bumps);
    hide Run;
  }

  /**
   A generation captured at any time before a reservation never matches again once the reserving
   call has moved it, and no page loaded under it is installed at any time after the reservation
   began, unless the generation went all the way round.
   */
  lemma {:induction false} ReservationFencesSnapshots(s: State, earlier: seq<Op>, id: nat, ops: seq<Op>)
    requires Inv(s)
    requires var r := Run(s, earlier); id in r.actors && r.actors[id] == Guard
    ensures var t := Run(Apply(Run(s, earlier), Reserve(id)), ops);
      && (Installable(t, s.generation) ==> t.bumps - s.bumps >= WORD)
      && (Fenced(s, t) || (id in t.actors && t.actors[id] == ReserveStored))
  {
    RunKeeps(s, earlier);
    var r := Run(s, earlier);
    var u := Apply(r, Reserve(id));
    ApplyKeeps(r, Reserve(id));
    MovingUntilBumped(u, ops, id);
    RunKeeps(u, ops);
    var t := Run(u, ops);
    if u.bumps < t.bumps {
      MovedIsFenced(s, u, ops);
    } else {
      assert StandingOf(t.actors, id).holding && StandingOf(t.actors, id).reserving;
    }
    hide Run;
  }

  /** Nothing is installed once failure is latched. */
  lemma {:induction false} UnavailableRefusesSnapshots(s: State, ops: seq<Op>, snapshot: nat)
    requires Inv(s) && s.unavailable
    ensures !Installable(Run(s, ops), snapshot)
  {
    NoGuardAfterFailure(s, ops, 0);
  }

  /** The same for the failure latch, which also refuses every snapshot by its flag, from its swap on. */
  lemma {:induction false} FailureFencesSnapshots(s: State, earlier: seq<Op>, id: nat, ops: seq<Op>, snapshot: nat)
    requires Inv(s)
    requires var r := Run(s, earlier); id in r.actors && r.actors[id] == Reservation && !r.unavailable
    ensures var t := Run(Apply(Run(s, earlier), Latch(id)), ops);
      && !Installable(t, snapshot)
      && (Fenced(s, t) || (id in t.actors && t.actors[id] == LatchSwapped))
  {
    RunKeeps(s, earlier);
    var r := Run(s, earlier);
    var u := Apply(r, Latch(id));
    ApplyKeeps(r, Latch(id));
    MovingUntilBumped(u, ops, id);
    UnavailableRefusesSnapshots(u, ops, snapshot);
    if u.bumps < Run(u, ops).bumps {
      MovedIsFenced(s, u, ops);
    }
    hide Run, Inv;
  }

  // ------------------------------------------------------------- the wrap-round

  function Advances(n: nat): seq<Op> { seq(n, _ => AdvanceGeneration) }

  lemma {:induction false} AdvancesCount(s: State, n: nat)
    requires s.generation < WORD
    ensures Run(s, Advances(n)) == s.(generation := (s.generation + n) % WORD, bumps := s.bumps + n)
    decreases n
  {
    if n > 0 {
      var t := Bump(s);
      assert Advances(n)[1..] == Advances(n - 1);
      AdvancesCount(t, n - 1);
      NextResidue(s.generation, n);
    }
  }

  lemma NextResidue(a: nat, n: nat)
    requires a < WORD && n > 0
    ensures ((a + 1) % WORD + (n - 1)) % WORD == (a + n) % WORD
  {
    if a + 1 == WORD {
      SameResidue(n - 1, a + n);
    }
  }

  /** A reservation that comes and goes, and cache publications until the 64-bit generation is back. */
  function WrapRound(id: nat): seq<Op> {
    [Reserve(id), Step(id, false), DropReservation(id)] + Advances(WORD - 1)
  }

  /** After that run a page loaded before the reservation can be installed. */
  lemma {:induction false} WrapRoundInstallsOldSnapshot(s: State, id: nat)
    requires Inv(s) && !s.unavailable && id in s.actors && s.actors[id] == Guard
    ensures Installable(Run(s, WrapRound(id)), s.generation)
  {
    var first := [Reserve(id), Step(id, false), DropReservation(id)];
    RunJoins(s, first, Advances(WORD - 1));
    var t := ReservedOnce(s, id);
    AdvancesCount(t, WORD - 1);
    NextResidue(s.generation, WORD);
    SameResidue(s.generation, s.generation + WORD);
    hide Apply, Run;
  }

  lemma {:induction false} ReservedOnce(s: State, id: nat) returns (t: State)
    requires Inv(s) && !s.unavailable && id in s.actors && s.actors[id] == Guard
    ensures t == Run(s, [Reserve(id), Step(id, false), DropReservation(id)])
    ensures t.generation == (s.generation + 1) % WORD && !t.reserved && !t.unavailable
  {
    var first := [Reserve(id), Step(id, false), DropReservation(id)];
    hide Inv;
    var s1 := Apply(s, Reserve(id));
    var s2 := Apply(s1, Step(id, false));
    var s3 := Apply(s2, DropReservation(id));
    assert s3.generation == (s.generation + 1) % WORD && !s3.reserved && !s3.unavailable;
    assert first[1..] == [Step(id, false), DropReservation(id)] && first[1..][1..] == [DropReservation(id)];
    hide Apply;
    assert Run(s, first) == Run(s1, first[1..]) == Run(s2, first[1..][1..]) == s3;
    t := s3;
  }
}
