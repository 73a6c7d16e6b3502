/**
 A bounded byte stream with any number of blocking readers and writers: what each critical
 section does to the buffer, the endpoint counts and the list of waiting threads.
 */
module ByteStream {
  import opened Common
  import opened WaiterList

  const CAPACITY: nat := 0x1_0000

  datatype Stream = Stream(data: seq<Byte>, readers: nat, writers: nat, waiters: seq<nat>) {

    function Room(): nat { if |data| <= CAPACITY then CAPACITY - |data| else 0 }

    /** Bytes leave in front; everybody else who waits is taken off the list. */
    function Taken(count: nat): Stream
      requires count <= |data|
    {
      this.(data := data[count..], waiters := [])
    }

    function Appended(bytes: seq<Byte>): Stream {
      this.(data := data + bytes, waiters := [])
    }

    function WithoutEndpoint(writeEnd: bool): Stream {
      if writeEnd then this.(writers := if writers > 0 then writers - 1 else 0, waiters := [])
      else this.(readers := if readers > 0 then readers - 1 else 0, waiters := [])
    }

    function Registered(thread: nat): Stream {
      if thread in waiters then this else this.(waiters := waiters + [thread])
    }

    function Unregistered(thread: nat): Stream {
      this.(waiters := Kept(waiters, thread))
    }

    /** How much of an input a writer may append now: all or nothing if it must be complete. */
    function Accepts(input: seq<Byte>, complete: bool): nat {
      if complete then (if Room() >= |input| then |input| else 0)
      else if Room() < |input| then Room() else |input|
    }
  }

  /** A stream in place. `woken` records the wake-ups sent. */
  class StreamObject {
    var data: seq<Byte>
    var readers: nat
    var writers: nat
    var waiters: seq<nat>
    var woken: seq<nat>

    ghost function View(): Stream
      reads this
    {
      Stream(data, readers, writers, waiters)
    }

    constructor ()
      ensures View() == Stream([], 1, 1, []) && woken == []
    {
      data, readers, writers, waiters, woken := [], 1, 1, [], [];
    }

    method RemoveWaiter(thread: nat)
      modifies this`waiters
      ensures View() == old(View()).Unregistered(thread)
    {
      var kept: seq<nat> := [];
      var i := 0;
      while i < |waiters|
        modifies {}
        invariant i <= |waiters| && kept == Kept(waiters[..i], thread)
      {
        KeptStep(waiters, thread, i);
        if waiters[i] != thread {
          kept := kept + [waiters[i]];
        }
        i := i + 1;
      }
      assert waiters[..i] == waiters;
      waiters := kept;
    }

    method WakeAll()
      modifies this`waiters, this`woken
      ensures View() == old(View()).(waiters := []) && woken == old(woken) + old(waiters)
    {
      var taken := waiters;
      waiters := [];
      var i := 0;
      while i < |taken|
        modifies this`woken
        invariant i <= |taken| && woken == old(woken) + taken[..i]
      {
        woken := woken + [taken[i]];
        i := i + 1;
      }
    }

    /** The resident half of a read: the oldest bytes, at most as many as were prepared for. */
    method Drain(current: nat, take: nat) returns (bytes: seq<Byte>)
      modifies this
      ensures bytes == old(data)[..if take < |old(data)| then take else |old(data)|]
      ensures bytes + data == old(data)
      ensures bytes == [] ==> View() == old(View()) && woken == old(woken)
      ensures bytes != [] ==> View() == old(View()).Taken(|bytes|) && woken == old(woken) + Kept(old(waiters), current)
    {
      var count := if take < |data| then take else |data|;
      bytes := data[..count];
      if count != 0 {
        data := data[count..];
        RemoveWaiter(current);
        WakeAll();
      }
    }

    /** One attempt of a write. */
    method Append(current: nat, input: seq<Byte>, complete: bool) returns (count: nat)
      modifies this
      ensures count == if readers == 0 then 0 else old(View()).Accepts(input, complete)
      ensures complete ==> count == 0 || count == |input|
      ensures |old(data)| <= CAPACITY ==> |data| <= CAPACITY
      ensures count == 0 ==> View() == old(View()) && woken == old(woken)
      ensures count != 0 ==> count <= |input| && View() == old(View()).Appended(input[..count])
      ensures count != 0 ==> woken == old(woken) + Kept(old(waiters), current)
    {
      if readers == 0 {
        return 0;
      }
      var room := if |data| <= CAPACITY then CAPACITY - |data| else 0;
      count := if complete then (if room >= |input| then |input| else 0) else if room < |input| then room else |input|;
      if count != 0 {
        data := data + input[..count];
        RemoveWaiter(current);
        WakeAll();
      }
    }

    method CloseEndpoint(writeEnd: bool)
      modifies this
      ensures View() == old(View()).WithoutEndpoint(writeEnd) && woken == old(woken) + old(waiters)
    {
      if writeEnd {
        writers := if writers > 0 then writers - 1 else 0;
      } else {
        readers := if readers > 0 then readers - 1 else 0;
      }
      WakeAll();
    }

    method Register(thread: nat)
      modifies this`waiters
      ensures View() == old(View()).Registered(thread) && thread in waiters
    {
      if thread !in waiters {
        waiters := waiters + [thread];
      }
    }
  }
}

/** Every interleaving of reads, writes and closes on one stream. */
module StreamRuns {
  import opened Common
  import opened WaiterList
  import opened ByteStream

  datatype Phase = Running | Prepared(take: nat) | Asleep

  /** A blocked or running call; a writer's input is already cut to the capacity. */
  datatype Call =
    | Reading(target: nat, nonblocking: bool, phase: Phase)
    | Writing(input: seq<Byte>, complete: bool, nonblocking: bool, phase: Phase)

  /** What one write call contributed. */
  datatype Chunk = Chunk(call: nat, bytes: seq<Byte>, input: seq<Byte>, complete: bool)

  datatype State = State(
    stream: Option<Stream>,
    calls: map<nat, Call>,
    // Threads with a wake-up on its way.
    signalled: set<nat>,
    // History: the bytes in the order of their critical sections.
    chunks: seq<Chunk>,
    delivered: seq<Byte>)

  datatype Op =
    | StartRead(thread: nat, target: nat, nonblocking: bool)
    | StartWrite(thread: nat, input: seq<Byte>, complete: bool, nonblocking: bool)
    | Step(thread: nat, fails: bool, interrupted: bool)
    | Resume(thread: nat)
    | Close(writeEnd: bool)
    | Poll(thread: nat)
    | Unpoll(thread: nat)

  const Init := State(Some(Stream([], 1, 1, [])), map[], {}, [], [])

  function Accepted(chunks: seq<Chunk>): seq<Byte> {
    if chunks == [] then [] else Accepted(chunks[..|chunks| - 1]) + chunks[|chunks| - 1].bytes
  }

  function Members(list: seq<nat>): (r: set<nat>)
    ensures forall t :: t in r <==> t in list
  {
    set t | t in list
  }

  function Ended(s: State, thread: nat): State { s.(calls := s.calls - {thread}) }

  /** A call that cannot proceed returns at once, gives up to an interruption, or sleeps registered. */
  function Block(s: State, thread: nat, stream: Stream, asleep: Call, nonblocking: bool, fails: bool, interrupted: bool): State {
    if nonblocking || fails then Ended(s, thread)
    else if interrupted then Ended(s.(stream := Some(stream.Registered(thread).Unregistered(thread))), thread)
    else s.(stream := Some(stream.Registered(thread)), calls := s.calls[thread := asleep])
  }

  function ReadStep(s: State, thread: nat, call: Call, stream: Stream, fails: bool, interrupted: bool): State
    requires call.Reading?
  {
    if call.phase.Running? then
      if stream.data == [] then
        if stream.writers == 0 then Ended(s, thread)
        else Block(s, thread, stream, Reading(call.target, call.nonblocking, Asleep), call.nonblocking, fails, interrupted)
      else
        var take := if |stream.data| < call.target then |stream.data| else call.target;
        s.(calls := s.calls[thread := Reading(call.target, call.nonblocking, Prepared(take))])
    else if call.phase.Prepared? then
      var count := if call.phase.take < |stream.data| then call.phase.take else |stream.data|;
      if count == 0 then s.(calls := s.calls[thread := Reading(call.target, call.nonblocking, Running)])
      else if fails then Ended(s, thread)
      else Ended(s.(stream := Some(stream.Taken(count)), delivered := s.delivered + stream.data[..count],
                    signalled := s.signalled + Members(Kept(stream.waiters, thread))), thread)
    else s
  }

  function WriteStep(s: State, thread: nat, call: Call, stream: Stream, fails: bool, interrupted: bool): State
    requires call.Writing?
  {
    if !call.phase.Running? then s
    else if stream.readers == 0 then Ended(s, thread)
    else
      var count := stream.Accepts(call.input, call.complete);
      if count == 0 then
        Block(s, thread, stream, Writing(call.input, call.complete, call.nonblocking, Asleep), call.nonblocking, fails, interrupted)
      else if fails then Ended(s, thread)
      else Ended(s.(stream := Some(stream.Appended(call.input[..count])),
                    chunks := s.chunks + [Chunk(thread, call.input[..count], call.input, call.complete)],
                    signalled := s.signalled + Members(Kept(stream.waiters, thread))), thread)
  }

  function CloseStep(s: State, writeEnd: bool): State {
    if s.stream.None? then s
    else
      var after := s.stream.value.WithoutEndpoint(writeEnd);
      s.(stream := if after.readers == 0 && after.writers == 0 then None else Some(after),
         signalled := s.signalled + Members(s.stream.value.waiters))
  }

  function Apply(s: State, op: Op): State {
    match op
    case StartRead(thread, target, nonblocking) =>
      if thread in s.calls || target == 0 then s else s.(calls := s.calls[thread := Reading(target, nonblocking, Running)])
    case StartWrite(thread, input, complete, nonblocking) =>
      if thread in s.calls || input == [] || (complete && |input| > CAPACITY) then s
      else s.(calls := s.calls[thread := Writing(input[..if |input| < CAPACITY then |input| else CAPACITY], complete, nonblocking, Running)])
    case Step(thread, fails, interrupted) =>
      if thread !in s.calls || s.calls[thread].phase.Asleep? then s
      else if s.stream.None? then Ended(s, thread)
      else if s.calls[thread].Reading? then ReadStep(s, thread, s.calls[thread], s.stream.value, fails, interrupted)
      else WriteStep(s, thread, s.calls[thread], s.stream.value, fails, interrupted)
    case Resume(thread) =>
      if thread in s.calls && s.calls[thread].phase.Asleep? then
        var call := s.calls[thread];
        s.(signalled := s.signalled - {thread},
           calls := s.calls[thread := if call.Reading? then Reading(call.target, call.nonblocking, Running)
                                      else Writing(call.input, call.complete, call.nonblocking, Running)])
      else s
    case Close(writeEnd) => CloseStep(s, writeEnd)
    case Poll(thread) =>
      if s.stream.Some? && thread !in s.calls then s.(stream := Some(s.stream.value.Registered(thread))) else s
    case Unpoll(thread) =>
      if s.stream.Some? && thread !in s.calls then s.(stream := Some(s.stream.value.Unregistered(thread))) else s
  }

  // ---------------------------------------------------------------- invariants

  /** Nothing is lost, duplicated or reordered, and the buffer stays within its bound. */
  ghost predicate Conserved(s: State) {
    && s.delivered <= Accepted(s.chunks)
    && (s.stream.Some? ==> s.delivered + s.stream.value.data == Accepted(s.chunks) && |s.stream.value.data| <= CAPACITY)
  }

  /** A complete write is there as a whole. */
  ghost predicate ChunksHold(s: State) {
    forall i :: 0 <= i < |s.chunks| ==>
      && s.chunks[i].bytes <= s.chunks[i].input && s.chunks[i].bytes != []
      && (s.chunks[i].complete ==> s.chunks[i].bytes == s.chunks[i].input)
  }

  /** The stream gives this sleeping call no reason to run. */
  predicate MustWait(stream: Stream, call: Call) {
    if call.Reading? then stream.data == [] && stream.writers > 0
    else stream.readers > 0 && stream.Accepts(call.input, call.complete) == 0
  }

  /** A sleeper without a wake-up on its way is registered and really cannot proceed. */
  ghost predicate SleepersHold(s: State) {
    forall t :: t in s.calls && s.calls[t].phase.Asleep? && t !in s.signalled ==>
      s.stream.Some? && t in s.stream.value.waiters && MustWait(s.stream.value, s.calls[t])
  }

  ghost predicate Inv(s: State) {
    Conserved(s) && ChunksHold(s) && SleepersHold(s)
  }

  lemma {:induction false} AcceptedGrows(chunks: seq<Chunk>, chunk: Chunk)
    ensures Accepted(chunks + [chunk]) == Accepted(chunks) + chunk.bytes
  {
    assert (chunks + [chunk])[..|chunks|] == chunks;
  }

  lemma {:induction false} BlockKeeps(s: State, thread: nat, asleep: Call, nonblocking: bool, fails: bool, interrupted: bool)
    requires Inv(s) && s.stream.Some? && thread in s.calls && !s.calls[thread].phase.Asleep?
    requires asleep.phase.Asleep? && MustWait(s.stream.value, asleep)
    ensures Inv(Block(s, thread, s.stream.value, asleep, nonblocking, fails, interrupted))
  {
    hide Accepted;
    var stream := s.stream.value;
    forall t ensures t in stream.Registered(thread).Unregistered(thread).waiters <==> t in stream.waiters && t != thread {
      KeptMembers(stream.Registered(thread).waiters, thread, t);
    }
  }

  lemma {:induction false} ReadKeeps(s: State, thread: nat, fails: bool, interrupted: bool)
    requires Inv(s) && s.stream.Some? && thread in s.calls && s.calls[thread].Reading? && !s.calls[thread].phase.Asleep?
    ensures Inv(ReadStep(s, thread, s.calls[thread], s.stream.value, fails, interrupted))
  {
    hide Inv, MustWait;
    var call, stream := s.calls[thread], s.stream.value;
    if call.phase.Running? && stream.data == [] {
      if stream.writers == 0 {
        EndKeeps(s, thread);
      } else {
        var asleep := Reading(call.target, call.nonblocking, Asleep);
        CannotRead(stream, asleep);
        BlockKeeps(s, thread, asleep, call.nonblocking, fails, interrupted);
      }
    } else if call.phase.Prepared? && call.phase.take > 0 && stream.data != [] {
      if fails { EndKeeps(s, thread); } else { DrainKeeps(s, thread); }
    } else {
      AwakeKeeps(s, thread, ReadStep(s, thread, call, stream, fails, interrupted));
    }
  }

  lemma CannotRead(stream: Stream, call: Call)
    requires call.Reading? && stream.writers > 0 && stream.data == []
    ensures MustWait(stream, call)
  {
  }

  /** A call moves on without sleeping and without touching the stream. */
  lemma {:induction false} AwakeKeeps(s: State, thread: nat, t: State)
    requires Inv(s) && thread in t.calls && !t.calls[thread].phase.Asleep?
    requires t == s.(calls := s.calls[thread := t.calls[thread]])
    ensures Inv(t)
  {
    hide Accepted, MustWait;
  }

  lemma {:induction false} DrainKeeps(s: State, thread: nat)
    requires Inv(s) && s.stream.Some? && thread in s.calls && s.calls[thread].Reading? && s.calls[thread].phase.Prepared?
    requires s.calls[thread].phase.take > 0 && s.stream.value.data != []
    ensures Inv(ReadStep(s, thread, s.calls[thread], s.stream.value, false, false))
  {
    var call, stream := s.calls[thread], s.stream.value;
    var t := ReadStep(s, thread, call, stream, false, false);
    hide Accepted;
    assert Conserved(t) && ChunksHold(t) by { hide SleepersHold; }
    forall x ensures x in Kept(stream.waiters, thread) <==> x in stream.waiters && x != thread {
      KeptMembers(stream.waiters, thread, x);
    }
    AllSignalledKeeps(s, t, thread);
  }

  lemma {:induction false} WriteKeeps(s: State, thread: nat, fails: bool, interrupted: bool)
    requires Inv(s) && s.stream.Some? && thread in s.calls && s.calls[thread].Writing? && !s.calls[thread].phase.Asleep?
    ensures Inv(WriteStep(s, thread, s.calls[thread], s.stream.value, fails, interrupted))
  {
    hide Inv, MustWait;
    var call, stream := s.calls[thread], s.stream.value;
    if call.phase.Running? {
      if stream.readers == 0 || (stream.Accepts(call.input, call.complete) > 0 && fails) {
        EndKeeps(s, thread);
      } else if stream.Accepts(call.input, call.complete) == 0 {
        var asleep := Writing(call.input, call.complete, call.nonblocking, Asleep);
        CannotWrite(stream, asleep);
        BlockKeeps(s, thread, asleep, call.nonblocking, fails, interrupted);
      } else {
        AppendKeeps(s, thread);
      }
    }
  }

  lemma CannotWrite(stream: Stream, call: Call)
    requires call.Writing? && stream.readers > 0 && stream.Accepts(call.input, call.complete) == 0
    ensures MustWait(stream, call)
  {
  }

  lemma {:induction false} EndKeeps(s: State, thread: nat)
    requires Inv(s)
    ensures Inv(Ended(s, thread))
  {
  }

  /** Once everybody who was registered has a wake-up on its way, the stream may change. */
  lemma {:induction false} AllSignalledKeeps(s: State, t: State, thread: nat)
    requires SleepersHold(s) && s.stream.Some? && t.calls == s.calls - {thread}
    requires forall x :: x in s.stream.value.waiters && x != thread ==> x in t.signalled
    requires s.signalled <= t.signalled
    ensures SleepersHold(t)
  {
  }

  lemma {:induction false} AppendKeeps(s: State, thread: nat)
    requires Inv(s) && s.stream.Some? && thread in s.calls && s.calls[thread].Writing? && s.calls[thread].phase.Running?
    requires s.stream.value.readers > 0 && s.stream.value.Accepts(s.calls[thread].input, s.calls[thread].complete) > 0
    ensures Inv(WriteStep(s, thread, s.calls[thread], s.stream.value, false, false))
  {
    var call, stream := s.calls[thread], s.stream.value;
    var t := WriteStep(s, thread, call, stream, false, false);
    AcceptedGrows(s.chunks, Chunk(thread, call.input[..stream.Accepts(call.input, call.complete)], call.input, call.complete));
    hide Accepted;
    assert Conserved(t) && ChunksHold(t) by { hide SleepersHold; }
    forall x ensures x in Kept(stream.waiters, thread) <==> x in stream.waiters && x != thread {
      KeptMembers(stream.waiters, thread, x);
    }
    AllSignalledKeeps(s, t, thread);
  }

  lemma {:induction false} CloseKeeps(s: State, writeEnd: bool)
    requires Inv(s)
    ensures Inv(CloseStep(s, writeEnd))
  {
    hide Accepted;
  }

  lemma {:induction false} PollKeeps(s: State, op: Op)
    requires Inv(s) && (op.Poll? || op.Unpoll?)
    ensures Inv(Apply(s, op))
  {
    hide Accepted;
    if op.Unpoll? && s.stream.Some? {
      forall x ensures x in Kept(s.stream.value.waiters, op.thread) <==> x in s.stream.value.waiters && x != op.thread {
        KeptMembers(s.stream.value.waiters, op.thread, x);
      }
    }
  }

  lemma {:induction false} StartKeeps(s: State, op: Op)
    requires Inv(s) && (op.StartRead? || op.StartWrite? || op.Resume?)
    ensures Inv(Apply(s, op))
  {
    hide Accepted, MustWait;
  }

  lemma {:induction false} ApplyKeeps(s: State, op: Op)
    requires Inv(s)
    ensures Inv(Apply(s, op))
  {
    hide Inv, ReadStep, WriteStep;
    match op
    case StartRead(_, _, _) => StartKeeps(s, op);
    case StartWrite(_, _, _, _) => StartKeeps(s, op);
    case Resume(_) => StartKeeps(s, op);
    case Close(writeEnd) => CloseKeeps(s, writeEnd);
    case Poll(_) => PollKeeps(s, op);
    case Unpoll(_) => PollKeeps(s, op);
    case Step(thread, fails, interrupted) =>
      if thread in s.calls && !s.calls[thread].phase.Asleep? {
        if s.stream.None? { EndKeeps(s, thread); }
        else if s.calls[thread].Reading? { ReadKeeps(s, thread, fails, interrupted); }
        else { WriteKeeps(s, thread, fails, interrupted); }
      }
  }

  function Run(s: State, ops: seq<Op>): State
    decreases |ops|
  {
    if ops == [] then s else Run(Apply(s, ops[0]), ops[1..])
  }

  lemma {:induction false} RunKeeps(s: State, ops: seq<Op>)
    requires Inv(s)
    ensures Inv(Run(s, ops))
    decreases |ops|
  {
    if ops != [] {
      ApplyKeeps(s, ops[0]);
      hide Inv, Apply;
      RunKeeps(Apply(s, ops[0]), ops[1..]);
    }
  }

  // ------------------------------------------------------------------ theorems

  /** Delivered bytes followed by the buffer are the accepted bytes in order, within the capacity. */
  lemma {:induction false} FirstInFirstOut(ops: seq<Op>)
    ensures var t := Run(Init, ops);
      && t.delivered <= Accepted(t.chunks)
      && (t.stream.Some? ==> t.delivered + t.stream.value.data == Accepted(t.chunks) && |t.stream.value.data| <= CAPACITY)
  {
    RunKeeps(Init, ops);
  }

  /** A complete write is accepted as one contiguous piece or not at all. */
  lemma {:induction false} CompleteWritesAreWhole(ops: seq<Op>, i: nat)
    requires i < |Run(Init, ops).chunks| && Run(Init, ops).chunks[i].complete
    ensures var chunks := Run(Init, ops).chunks;
      chunks[i].bytes == chunks[i].input && Accepted(chunks[..i + 1]) == Accepted(chunks[..i]) + chunks[i].input
  {
    RunKeeps(Init, ops);
    var chunks := Run(Init, ops).chunks;
    assert chunks[..i + 1] == chunks[..i] + [chunks[i]];
    AcceptedGrows(chunks[..i], chunks[i]);
  }

  /** Nobody sleeps on without a wake-up while the stream would let them proceed. */
  lemma {:induction false} NoSleeperIsForgotten(ops: seq<Op>, thread: nat)
    requires var t := Run(Init, ops); thread in t.calls && t.calls[thread].phase.Asleep? && thread !in t.signalled
    ensures var t := Run(Init, ops);
      t.stream.Some? && thread in t.stream.value.waiters && MustWait(t.stream.value, t.calls[thread])
  {
    RunKeeps(Init, ops);
  }

  /** Every change of data or endpoints empties the waiter list and wakes all others in the same section. */
  lemma {:induction false} ChangesWakeEverybody(s: State, op: Op)
    requires s.stream.Some? && Apply(s, op).stream.Some?
    requires var a, b := s.stream.value, Apply(s, op).stream.value;
      a.data != b.data || a.readers != b.readers || a.writers != b.writers
    ensures Apply(s, op).stream.value.waiters == []
    ensures forall x :: x in s.stream.value.waiters ==> x in Apply(s, op).signalled || (op.Step? && x == op.thread)
  {
    if op.Step? {
      forall x ensures x in Kept(s.stream.value.waiters, op.thread) <==> x in s.stream.value.waiters && x != op.thread {
        KeptMembers(s.stream.value.waiters, op.thread, x);
      }
    }
    hide Accepted;
  }
}
