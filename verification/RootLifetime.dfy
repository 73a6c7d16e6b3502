/**
 Lifetime of page-table roots: weak registrations, pins that may drop at any moment, an
 owner that hands its destruction duty to the last pin, and physical addresses used again.
 */
module RootLifetime {
  import opened Common

  const PAGE: nat := 4096

  /** A weak registration. */
  datatype Entry = Entry(table: nat, id: nat)

  /**
   The shared state behind the pins of one root. `birth` tells which use of the physical
   address it belongs to; pins are loose or held by unpublished roots.
   */
  datatype Shared = Shared(table: nat, birth: nat, retired: bool, loose: nat, holders: set<nat>) {
    predicate Strong() { loose > 0 || holders != {} }
  }

  /** Whoever holds the duty to destroy a root knows which use of the address is meant. */
  datatype Owner = Process(birth: nat) | Detached(root: nat, birth: nat)

  /** A root being built; `done` once its drop has dealt with the table and only its fields are left. */
  datatype Root = Root(table: nat, birth: nat, id: nat, published: bool, handles: nat, done: bool)

  datatype State = State(
    registry: seq<Entry>,
    acquiring: Option<nat>,
    shared: map<nat, Shared>,
    roots: map<nat, Root>,
    nextId: nat,
    // Physical roots, the duty to destroy them, the destructions called for each use of an
    // address, and how many of those calls did not meet the use they were meant for.
    live: map<nat, nat>,
    owner: map<nat, Owner>,
    carrier: map<nat, nat>,
    born: nat,
    home: map<nat, nat>,
    destroyed: map<nat, nat>,
    astray: nat)

  datatype Op =
    | Create(table: nat)
    | PinRetain(table: nat)
    | PinFind(memory: bool)
    | ClonePin(id: nat)
    | DropPin(id: nat)
    | RunDrop(id: nat)
    | Retire(table: nat)
    | Adopt(root: nat, id: nat)
    | Publish(root: nat)
    | CloneRoot(root: nat)
    | ReleaseRoot(root: nat)
    | DropRoot(root: nat)
    | DropFields(root: nat)

  const Init := State([], None, map[], map[], 0, map[], map[], map[], 0, map[], map[], 0)

  // ------------------------------------------------------------------ registry

  predicate Alive(shared: map<nat, Shared>, id: nat) {
    id in shared && shared[id].Strong()
  }

  /** The first registration of a table. */
  function First(registry: seq<Entry>, table: nat): Option<nat> {
    if registry == [] then None
    else if registry[0].table == table then Some(registry[0].id)
    else First(registry[1..], table)
  }

  /** Dead registrations are forgotten. */
  function Retained(registry: seq<Entry>, shared: map<nat, Shared>): seq<Entry> {
    if registry == [] then []
    else (if Alive(shared, registry[0].id) then [registry[0]] else []) + Retained(registry[1..], shared)
  }

  /** What an upgrade of the first registration yields. */
  function Upgraded(s: State, table: nat): Option<nat> {
    var first := First(s.registry, table);
    if first.Some? && Alive(s.shared, first.value) then first else None
  }

  // --------------------------------------------------------------------- steps

  /** A call to destroy whatever lives at the address, meant for one use of it. */
  function Destroyed(s: State, table: nat, birth: nat): State {
    s.(live := s.live - {table},
       destroyed := s.destroyed[birth := 1 + if birth in s.destroyed then s.destroyed[birth] else 0],
       astray := if table in s.live && s.live[table] == birth then s.astray else s.astray + 1)
  }

  function CreateStep(s: State, table: nat): State {
    if table == 0 || table % PAGE != 0 || table in s.live then s
    else s.(live := s.live[table := s.born], owner := s.owner[table := Process(s.born)],
            born := s.born + 1, home := s.home[s.born := table])
  }

  function FindStep(s: State, table: nat, memory: bool): State {
    var found := Upgraded(s, table);
    var t := s.(acquiring := None);
    if found.Some? then
      var state := s.shared[found.value];
      if state.retired then t else t.(shared := s.shared[found.value := state.(loose := state.loose + 1)])
    else if !memory || table !in s.live then t
    else t.(registry := s.registry + [Entry(table, s.nextId)], nextId := s.nextId + 1,
            shared := s.shared[s.nextId := Shared(table, s.live[table], false, 1, {})])
  }

  function SetPins(s: State, id: nat, loose: nat, holders: set<nat>): State
    requires id in s.shared
  {
    s.(shared := s.shared[id := s.shared[id].(loose := loose, holders := holders)])
  }

  /** The final drop of the shared state: a retired root is destroyed now. */
  function DropStep(s: State, id: nat): State
    requires id in s.shared
  {
    var state := s.shared[id];
    var t := s.(shared := s.shared - {id});
    if state.retired then Destroyed(t.(carrier := s.carrier - {state.table}), state.table, state.birth) else t
  }

  /** The owner gives the table up: to the pins if there are any, or to immediate destruction. */
  function RetireStep(s: State, table: nat, birth: nat): State {
    var found := Upgraded(s, table);
    var t := s.(owner := s.owner - {table});
    if found.Some? then
      t.(shared := s.shared[found.value := s.shared[found.value].(retired := true)], carrier := s.carrier[table := found.value])
    else Destroyed(t, table, birth)
  }

  /** A caller may pin or give up a table only while it owns it, and not both at once. */
  predicate MayRetire(s: State, table: nat) {
    s.acquiring.None? && table in s.owner && s.owner[table].Process?
  }

  function PinSteps(s: State, op: Op): State {
    match op
    case Create(table) => CreateStep(s, table)
    case PinRetain(table) =>
      if s.acquiring.None? && table in s.owner
      then s.(registry := Retained(s.registry, s.shared), acquiring := Some(table)) else s
    case PinFind(memory) => if s.acquiring.Some? then FindStep(s, s.acquiring.value, memory) else s
    case ClonePin(id) =>
      if id in s.shared && s.shared[id].loose > 0 then SetPins(s, id, s.shared[id].loose + 1, s.shared[id].holders) else s
    case DropPin(id) =>
      if id in s.shared && s.shared[id].loose > 0 then SetPins(s, id, s.shared[id].loose - 1, s.shared[id].holders) else s
    case RunDrop(id) => if id in s.shared && !s.shared[id].Strong() then DropStep(s, id) else s
    case Retire(table) => if MayRetire(s, table) then RetireStep(s, table, s.owner[table].birth) else s
    case _ => s
  }

  function AdoptStep(s: State, root: nat, id: nat): State
    requires id in s.shared && s.shared[id].loose > 0
  {
    var state := s.shared[id];
    SetPins(s, id, state.loose - 1, state.holders + {root}).(
      owner := s.owner[state.table := Detached(root, state.birth)],
      roots := s.roots[root := Root(state.table, state.birth, id, false, 1, false)])
  }

  function PublishStep(s: State, root: nat): State
    requires root in s.roots
  {
    s.(roots := s.roots[root := s.roots[root].(published := true)],
       owner := s.owner[s.roots[root].table := Process(s.roots[root].birth)])
  }

  /** The root's own pin goes last. */
  function DropFieldsStep(s: State, root: nat): State
    requires root in s.roots && s.roots[root].id in s.shared
  {
    var id := s.roots[root].id;
    SetPins(s, id, s.shared[id].loose, s.shared[id].holders - {root}).(roots := s.roots - {root})
  }

  function Abandoned(s: State, root: nat): State
    requires root in s.roots
  {
    s.(roots := s.roots[root := s.roots[root].(done := true)])
  }

  /** As if the process had owned the table already. */
  function Forfeited(s: State, root: nat): State
    requires root in s.roots
  {
    Abandoned(s, root).(owner := s.owner[s.roots[root].table := Process(s.roots[root].birth)])
  }

  function DropRootStep(s: State, root: nat): State
    requires root in s.roots
  {
    var r := s.roots[root];
    var t := Abandoned(s, root);
    if r.published then t else RetireStep(t, r.table, r.birth)
  }

  /** A loose pin of a table its process owns can become an unpublished root. */
  predicate Adoptable(s: State, root: nat, id: nat) {
    && root !in s.roots && id in s.shared && s.shared[id].loose > 0 && !s.shared[id].retired
    && s.shared[id].table in s.owner && s.owner[s.shared[id].table].Process?
  }

  /** The last handle is gone and the drop has not begun. */
  predicate Droppable(s: State, root: nat) {
    s.acquiring.None? && root in s.roots && s.roots[root].handles == 0 && !s.roots[root].done
  }

  function RootSteps(s: State, op: Op): State {
    match op
    case Adopt(root, id) =>
      if Adoptable(s, root, id) then AdoptStep(s, root, id) else s
    case Publish(root) =>
      if root in s.roots && s.roots[root].handles > 0 && !s.roots[root].published then PublishStep(s, root) else s
    case CloneRoot(root) =>
      if root in s.roots && s.roots[root].handles > 0
      then s.(roots := s.roots[root := s.roots[root].(handles := s.roots[root].handles + 1)]) else s
    case ReleaseRoot(root) =>
      if root in s.roots && s.roots[root].handles > 0
      then s.(roots := s.roots[root := s.roots[root].(handles := s.roots[root].handles - 1)]) else s
    case DropRoot(root) =>
      if Droppable(s, root) then DropRootStep(s, root) else s
    case DropFields(root) => if root in s.roots && s.roots[root].done && s.roots[root].id in s.shared then DropFieldsStep(s, root) else s
    case _ => s
  }

  predicate IsRootOp(op: Op) {
    op.Adopt? || op.Publish? || op.CloneRoot? || op.ReleaseRoot? || op.DropRoot? || op.DropFields?
  }

  function Apply(s: State, op: Op): State {
    if IsRootOp(op) then RootSteps(s, op) else PinSteps(s, op)
  }

  // ----------------------------------------------------------------- invariant

  /** A pinned root exists, is the one that was pinned, and is found by its registration. */
  ghost predicate PinHolds(s: State, id: nat, x: Shared) {
    && (x.Strong() ==> x.table in s.live && s.live[x.table] == x.birth && First(s.registry, x.table) == Some(id))
    && (x.Strong() && x.table in s.carrier ==> s.carrier[x.table] == id)
    && (x.retired ==> x.table in s.carrier && s.carrier[x.table] == id)
    && id < s.nextId
  }

  ghost predicate PinsHold(s: State) {
    forall id :: id in s.shared ==> PinHolds(s, id, s.shared[id])
  }

  /** A registration names the state it was made for. */
  ghost predicate EntriesHold(registry: seq<Entry>, shared: map<nat, Shared>, nextId: nat) {
    forall e :: e in registry ==> Matches(shared, e) && e.id < nextId
  }

  predicate Matches(shared: map<nat, Shared>, e: Entry) {
    e.id in shared ==> shared[e.id].table == e.table
  }

  /** The duty to destroy a root is in exactly one place: its owner, or the retired state its pins keep. */
  ghost predicate DutyHolds(s: State) {
    && (forall t :: t in s.live <==> t in s.owner || t in s.carrier)
    && (forall t :: t in s.owner ==> t !in s.carrier && s.owner[t].birth == s.live[t])
    && (forall t :: t in s.carrier ==> Carries(s.shared, s.carrier[t], t, s.live[t]))
    && (s.acquiring.Some? ==> s.acquiring.value in s.owner)
  }

  predicate Carries(shared: map<nat, Shared>, id: nat, table: nat, birth: nat) {
    id in shared && shared[id].retired && shared[id].table == table && shared[id].birth == birth
  }

  /** A root and the state that counts its pin know each other. */
  ghost predicate HoldersHold(roots: map<nat, Root>, shared: map<nat, Shared>) {
    && (forall r :: r in roots ==> Holds(shared, roots[r].id, roots[r].table, r))
    && (forall id :: id in shared ==> AllRoots(roots, shared[id].holders, id))
  }

  predicate Holds(shared: map<nat, Shared>, id: nat, table: nat, root: nat) {
    id in shared && root in shared[id].holders && shared[id].table == table
  }

  ghost predicate AllRoots(roots: map<nat, Root>, holders: set<nat>, id: nat) {
    forall r :: r in holders ==> r in roots && roots[r].id == id
  }

  /** A root owns its table until it is published or dropped. */
  ghost predicate OwnersHold(roots: map<nat, Root>, owner: map<nat, Owner>) {
    && (forall r :: r in roots && !roots[r].published && !roots[r].done ==>
          roots[r].table in owner && owner[roots[r].table] == Detached(r, roots[r].birth))
    && (forall r :: r in roots && roots[r].done ==> roots[r].handles == 0)
    && (forall t :: t in owner && owner[t].Detached? ==> Unpublished(roots, owner[t].root, t))
  }

  predicate Unpublished(roots: map<nat, Root>, root: nat, table: nat) {
    root in roots && roots[root].table == table && !roots[root].published && !roots[root].done
  }

  /** Every use of a physical address ends in exactly one destruction, and every destruction meets its use. */
  ghost predicate OnceHolds(live: map<nat, nat>, born: nat, home: map<nat, nat>, destroyed: map<nat, nat>, astray: nat) {
    && astray == 0
    && (forall t :: t in live ==> live[t] < born && live[t] !in destroyed && live[t] in home && home[live[t]] == t)
    && (forall b :: b in destroyed ==> b < born && destroyed[b] == 1)
    && (forall b :: 0 <= b < born ==> b in destroyed || (b in home && home[b] in live && live[home[b]] == b))
  }

  ghost predicate Inv(s: State) {
    && PinsHold(s) && EntriesHold(s.registry, s.shared, s.nextId) && DutyHolds(s)
    && HoldersHold(s.roots, s.shared) && OwnersHold(s.roots, s.owner)
    && OnceHolds(s.live, s.born, s.home, s.destroyed, s.astray)
  }

  /** An acquisition that can register a new state must not meet a registration that died since it pruned the registry. */
  predicate Careful(s: State, op: Op) {
    op.PinFind? && op.memory && s.acquiring.Some? ==>
      var first := First(s.registry, s.acquiring.value); first.None? || Alive(s.shared, first.value)
  }

  /** Exactly this use of the address ended, by its first and only destruction. */
  predicate EndsUse(s: State, t: State, table: nat, birth: nat) {
    && table in s.live && s.live[table] == birth && t.live == s.live - {table}
    && birth !in s.destroyed && t.destroyed == s.destroyed[birth := 1]
  }

  /** The pins carry the duty now; nothing is destroyed. */
  predicate HandsOver(s: State, t: State, table: nat, id: nat) {
    && t.live == s.live && t.destroyed == s.destroyed
    && t.carrier == s.carrier[table := id] && Alive(t.shared, id) && t.shared[id].retired
  }

  // ------------------------------------------------------------- registry facts

  lemma {:induction false} FirstRetained(registry: seq<Entry>, shared: map<nat, Shared>, table: nat)
    requires First(registry, table).Some? && Alive(shared, First(registry, table).value)
    ensures First(Retained(registry, shared), table) == First(registry, table)
  {
    if registry[0].table != table {
      FirstRetained(registry[1..], shared, table);
      var rest := Retained(registry[1..], shared);
      var head := if Alive(shared, registry[0].id) then [registry[0]] else [];
      assert Retained(registry, shared) == head + rest;
      if head != [] {
        assert (head + rest)[1..] == rest;
      } else {
        assert head + rest == rest;
      }
    }
  }

  lemma {:induction false} FirstAppended(registry: seq<Entry>, entry: Entry, table: nat)
    ensures First(registry + [entry], table) ==
      if First(registry, table).Some? then First(registry, table) else if entry.table == table then Some(entry.id) else None
  {
    if registry != [] {
      assert (registry + [entry])[1..] == registry[1..] + [entry];
      FirstAppended(registry[1..], entry, table);
    }
  }

  lemma {:induction false} FirstIsEntry(registry: seq<Entry>, table: nat)
    requires First(registry, table).Some?
    ensures Entry(table, First(registry, table).value) in registry
  {
    if registry[0].table != table {
      FirstIsEntry(registry[1..], table);
    } else {
      assert registry[0] == Entry(table, registry[0].id);
    }
  }

  lemma {:induction false} RetainedEntries(registry: seq<Entry>, shared: map<nat, Shared>)
    ensures forall e :: e in Retained(registry, shared) ==> e in registry
  {
    if registry != [] {
      RetainedEntries(registry[1..], shared);
    }
  }

  // ------------------------------------------------------- what each step keeps

  lemma {:induction false} CreatePins(s: State, table: nat)
    requires PinsHold(s) && DutyHolds(s) && table !in s.live && table > 0 && table % PAGE == 0
    ensures var t := CreateStep(s, table); PinsHold(t) && DutyHolds(t)
  {
    hide First;
  }

  lemma {:induction false} CreateOwners(s: State, table: nat)
    requires DutyHolds(s) && OwnersHold(s.roots, s.owner) && table !in s.live && table > 0 && table % PAGE == 0
    ensures var t := CreateStep(s, table); OwnersHold(t.roots, t.owner)
  {
  }

  lemma {:induction false} CreateOnce(s: State, table: nat)
    requires OnceHolds(s.live, s.born, s.home, s.destroyed, s.astray) && table !in s.live && table > 0 && table % PAGE == 0
    ensures var t := CreateStep(s, table); OnceHolds(t.live, t.born, t.home, t.destroyed, t.astray)
  {
  }

  lemma {:induction false} CreateKeeps(s: State, table: nat)
    requires Inv(s) && table !in s.live && table > 0 && table % PAGE == 0
    ensures Inv(CreateStep(s, table))
  {
    CreatePins(s, table);
    CreateOwners(s, table);
    CreateOnce(s, table);
    hide PinsHold, EntriesHold, DutyHolds, HoldersHold, OwnersHold, OnceHolds;
  }

  lemma {:induction false} RetainKeeps(s: State, table: nat)
    requires Inv(s) && s.acquiring.None? && table in s.owner
    ensures Inv(s.(registry := Retained(s.registry, s.shared), acquiring := Some(table)))
  {
    forall id | id in s.shared && s.shared[id].Strong()
      ensures First(Retained(s.registry, s.shared), s.shared[id].table) == Some(id)
    {
      assert PinHolds(s, id, s.shared[id]);
      FirstRetained(s.registry, s.shared, s.shared[id].table);
    }
    RetainedEntries(s.registry, s.shared);
  }

  lemma {:induction false} PinCountPins(s: State, id: nat, loose: nat)
    requires PinsHold(s) && DutyHolds(s) && id in s.shared && (loose > 0 ==> s.shared[id].Strong())
    ensures var t := SetPins(s, id, loose, s.shared[id].holders); PinsHold(t) && DutyHolds(t)
  {
    hide First;
  }

  lemma {:induction false} PinCountEntries(s: State, id: nat, loose: nat)
    requires EntriesHold(s.registry, s.shared, s.nextId) && id in s.shared && (loose > 0 ==> s.shared[id].Strong())
    ensures var t := SetPins(s, id, loose, s.shared[id].holders); EntriesHold(t.registry, t.shared, t.nextId)
  {
  }

  lemma {:induction false} PinCountHolders(s: State, id: nat, loose: nat)
    requires HoldersHold(s.roots, s.shared) && id in s.shared && (loose > 0 ==> s.shared[id].Strong())
    ensures var t := SetPins(s, id, loose, s.shared[id].holders); HoldersHold(t.roots, t.shared)
  {
  }

  lemma {:induction false} PinCountKeeps(s: State, id: nat, loose: nat)
    requires Inv(s) && id in s.shared && (loose > 0 ==> s.shared[id].Strong())
    ensures Inv(SetPins(s, id, loose, s.shared[id].holders))
  {
    PinCountPins(s, id, loose);
    PinCountEntries(s, id, loose);
    PinCountHolders(s, id, loose);
    hide PinsHold, EntriesHold, DutyHolds, HoldersHold, OwnersHold, OnceHolds;
  }

  lemma {:induction false} PinNewPins(s: State)
    requires PinsHold(s) && DutyHolds(s) && s.acquiring.Some? && First(s.registry, s.acquiring.value).None?
    ensures var t := FindStep(s, s.acquiring.value, true); PinsHold(t)
  {
    forall table ensures First(s.registry + [Entry(s.acquiring.value, s.nextId)], table) ==
      if First(s.registry, table).Some? then First(s.registry, table)
      else if table == s.acquiring.value then Some(s.nextId) else None
    {
      FirstAppended(s.registry, Entry(s.acquiring.value, s.nextId), table);
    }
    hide First;
  }

  lemma {:induction false} PinNewEntries(s: State)
    requires EntriesHold(s.registry, s.shared, s.nextId) && s.acquiring.Some? && First(s.registry, s.acquiring.value).None?
    ensures var t := FindStep(s, s.acquiring.value, true); EntriesHold(t.registry, t.shared, t.nextId)
  {
    hide First;
  }

  lemma {:induction false} PinNewDuty(s: State)
    requires PinsHold(s) && DutyHolds(s) && s.acquiring.Some? && First(s.registry, s.acquiring.value).None?
    ensures var t := FindStep(s, s.acquiring.value, true); DutyHolds(t)
  {
    hide First;
  }

  lemma {:induction false} PinNewHolders(s: State)
    requires PinsHold(s) && HoldersHold(s.roots, s.shared) && s.acquiring.Some? && First(s.registry, s.acquiring.value).None?
    ensures var t := FindStep(s, s.acquiring.value, true); HoldersHold(t.roots, t.shared)
  {
    assert s.nextId !in s.shared;
    hide First, PinsHold;
  }

  /** A table without registration gets its own state, which is then the one found. */
  lemma {:induction false} PinNewKeeps(s: State)
    requires Inv(s) && s.acquiring.Some? && First(s.registry, s.acquiring.value).None?
    ensures Inv(FindStep(s, s.acquiring.value, true))
  {
    PinNewPins(s);
    PinNewEntries(s);
    PinNewDuty(s);
    PinNewHolders(s);
    hide PinsHold, EntriesHold, DutyHolds, HoldersHold, OwnersHold, OnceHolds;
  }

  lemma {:induction false} DropPins(s: State, id: nat)
    requires PinsHold(s) && DutyHolds(s) && id in s.shared && !s.shared[id].Strong()
    ensures var t := DropStep(s, id); PinsHold(t)
  {
    hide First;
  }

  lemma {:induction false} DropEntries(s: State, id: nat)
    requires EntriesHold(s.registry, s.shared, s.nextId) && id in s.shared && !s.shared[id].Strong()
    ensures var t := DropStep(s, id); EntriesHold(t.registry, t.shared, t.nextId)
  {
  }

  lemma {:induction false} DropDuty(s: State, id: nat)
    requires PinsHold(s) && DutyHolds(s) && id in s.shared && !s.shared[id].Strong()
    ensures var t := DropStep(s, id); DutyHolds(t)
  {
    var x := s.shared[id];
    assert x.retired ==> x.table in s.carrier && s.carrier[x.table] == id by {
      assert PinHolds(s, id, x);
    }
    hide First, PinsHold, PinHolds;
    forall t | t in s.carrier && s.carrier[t] == id ensures t == x.table && x.retired {
      assert Carries(s.shared, id, t, s.live[t]);
    }
    hide Carries;
    CarriesElsewhere(s.shared, id);
  }

  lemma CarriesElsewhere(shared: map<nat, Shared>, id: nat)
    ensures forall other, table, birth :: other != id && Carries(shared, other, table, birth) ==> Carries(shared - {id}, other, table, birth)
  {}

  lemma {:induction false} DropHolders(s: State, id: nat)
    requires HoldersHold(s.roots, s.shared) && id in s.shared && !s.shared[id].Strong()
    ensures var t := DropStep(s, id); HoldersHold(t.roots, t.shared)
  {
  }

  lemma {:induction false} DropOwners(s: State, id: nat)
    requires OwnersHold(s.roots, s.owner) && id in s.shared && !s.shared[id].Strong()
    ensures var t := DropStep(s, id); OwnersHold(t.roots, t.owner)
  {
  }

  lemma {:induction false} UseEnds(s: State, t: State, table: nat, birth: nat)
    requires OnceHolds(s.live, s.born, s.home, s.destroyed, s.astray) && table in s.live && s.live[table] == birth
    requires t.live == s.live && t.born == s.born && t.home == s.home && t.destroyed == s.destroyed && t.astray == s.astray
    ensures var u := Destroyed(t, table, birth);
      OnceHolds(u.live, u.born, u.home, u.destroyed, u.astray) && EndsUse(s, u, table, birth)
  {
  }

  lemma {:induction false} DropOnce(s: State, id: nat)
    requires PinsHold(s) && DutyHolds(s) && id in s.shared && !s.shared[id].Strong()
    requires OnceHolds(s.live, s.born, s.home, s.destroyed, s.astray)
    ensures var t := DropStep(s, id); OnceHolds(t.live, t.born, t.home, t.destroyed, t.astray)
    ensures s.shared[id].retired ==> EndsUse(s, DropStep(s, id), s.shared[id].table, s.shared[id].birth)
    ensures !s.shared[id].retired ==> DropStep(s, id).live == s.live && DropStep(s, id).destroyed == s.destroyed
  {
    var x := s.shared[id];
    var t := s.(shared := s.shared - {id}, carrier := s.carrier - {x.table});
    if x.retired {
      assert x.table in s.live && s.live[x.table] == x.birth by {
        assert PinHolds(s, id, x);
      }
      UseEnds(s, t, x.table, x.birth);
    }
    hide PinsHold, DutyHolds, PinHolds, OnceHolds, EndsUse, Destroyed;
  }

  /** The last reference is gone: a retired root is destroyed, once, and nobody else has a pin on it. */
  lemma {:induction false} DropKeeps(s: State, id: nat)
    requires Inv(s) && id in s.shared && !s.shared[id].Strong()
    ensures Inv(DropStep(s, id))
    ensures s.shared[id].retired ==> EndsUse(s, DropStep(s, id), s.shared[id].table, s.shared[id].birth)
    ensures !s.shared[id].retired ==> DropStep(s, id).live == s.live && DropStep(s, id).destroyed == s.destroyed
  {
    DropPins(s, id);
    DropEntries(s, id);
    DropDuty(s, id);
    DropHolders(s, id);
    DropOwners(s, id);
    DropOnce(s, id);
    hide PinsHold, EntriesHold, DutyHolds, HoldersHold, OwnersHold, OnceHolds, EndsUse, DropStep;
  }

  /** A table with a pin is found by its registration. */
  lemma {:induction false} PinnedIsFound(s: State, id: nat)
    requires PinsHold(s) && Alive(s.shared, id)
    ensures Upgraded(s, s.shared[id].table) == Some(id)
  {
    assert PinHolds(s, id, s.shared[id]);
  }

  lemma {:induction false} RetirePins(s: State, table: nat)
    requires EntriesHold(s.registry, s.shared, s.nextId) && PinsHold(s) && DutyHolds(s) && MayRetire(s, table)
    ensures var t := RetireStep(s, table, s.owner[table].birth); PinsHold(t)
  {
    if Upgraded(s, table).Some? {
      FirstIsEntry(s.registry, table);
    }
    forall id | Alive(s.shared, id) ensures Upgraded(s, s.shared[id].table) == Some(id) {
      PinnedIsFound(s, id);
    }
    hide First;
  }

  lemma {:induction false} RetireEntries(s: State, table: nat)
    requires EntriesHold(s.registry, s.shared, s.nextId) && MayRetire(s, table)
    ensures var t := RetireStep(s, table, s.owner[table].birth); EntriesHold(t.registry, t.shared, t.nextId)
  {
    hide First;
  }

  /** A found state belongs to the present use of the table. */
  lemma {:induction false} FoundIsCurrent(s: State, table: nat)
    requires EntriesHold(s.registry, s.shared, s.nextId) && PinsHold(s) && Upgraded(s, table).Some?
    ensures Upgraded(s, table).value in s.shared && table in s.live
    ensures var x := s.shared[Upgraded(s, table).value]; x.table == table && x.birth == s.live[table]
  {
    FirstIsEntry(s.registry, table);
    assert PinHolds(s, Upgraded(s, table).value, s.shared[Upgraded(s, table).value]);
  }

  lemma {:induction false} RetireDuty(s: State, table: nat)
    requires EntriesHold(s.registry, s.shared, s.nextId) && PinsHold(s) && DutyHolds(s) && MayRetire(s, table)
    ensures var t := RetireStep(s, table, s.owner[table].birth); DutyHolds(t)
  {
    if Upgraded(s, table).Some? {
      FoundIsCurrent(s, table);
    }
    hide First, Upgraded, PinsHold, EntriesHold;
  }

  lemma {:induction false} RetireHolders(s: State, table: nat)
    requires HoldersHold(s.roots, s.shared) && MayRetire(s, table)
    ensures var t := RetireStep(s, table, s.owner[table].birth); HoldersHold(t.roots, t.shared)
  {
    hide First;
  }

  lemma {:induction false} RetireOwners(s: State, table: nat)
    requires OwnersHold(s.roots, s.owner) && MayRetire(s, table)
    ensures var t := RetireStep(s, table, s.owner[table].birth); OwnersHold(t.roots, t.owner)
  {
    hide First;
  }

  lemma {:induction false} RetireOnce(s: State, table: nat)
    requires DutyHolds(s) && OnceHolds(s.live, s.born, s.home, s.destroyed, s.astray) && MayRetire(s, table)
    ensures var t := RetireStep(s, table, s.owner[table].birth);
      && OnceHolds(t.live, t.born, t.home, t.destroyed, t.astray)
      && (if Upgraded(s, table).Some? then HandsOver(s, t, table, Upgraded(s, table).value)
          else EndsUse(s, t, table, s.owner[table].birth))
  {
    assert table in s.live && s.live[table] == s.owner[table].birth;
    hide First, OnceHolds, EndsUse, Destroyed, DutyHolds;
    if Upgraded(s, table).None? {
      UseEnds(s, s.(owner := s.owner - {table}), table, s.owner[table].birth);
    }
  }

  lemma RetireLeaves(s: State, table: nat, birth: nat)
    ensures table !in RetireStep(s, table, birth).owner
  {}

  /** Whoever gives a table up leaves it to its pins, or destroys it when there are none. */
  lemma {:induction false} RetireKeeps(s: State, table: nat)
    requires Inv(s) && MayRetire(s, table)
    ensures Inv(RetireStep(s, table, s.owner[table].birth))
    ensures var t, found := RetireStep(s, table, s.owner[table].birth), Upgraded(s, table);
      && table !in t.owner
      && (if found.Some? then HandsOver(s, t, table, found.value) else EndsUse(s, t, table, s.owner[table].birth))
  {
    RetirePins(s, table);
    RetireEntries(s, table);
    RetireDuty(s, table);
    RetireHolders(s, table);
    RetireOwners(s, table);
    RetireOnce(s, table);
    RetireLeaves(s, table, s.owner[table].birth);
    hide PinsHold, EntriesHold, DutyHolds, HoldersHold, OwnersHold, OnceHolds, EndsUse, HandsOver, RetireStep, Upgraded, First;
  }

  lemma {:induction false} AdoptPins(s: State, root: nat, id: nat)
    requires PinsHold(s) && DutyHolds(s) && Adoptable(s, root, id)
    ensures var t := AdoptStep(s, root, id); PinsHold(t) && DutyHolds(t)
  {
    hide First;
  }

  lemma {:induction false} AdoptEntries(s: State, root: nat, id: nat)
    requires EntriesHold(s.registry, s.shared, s.nextId) && Adoptable(s, root, id)
    ensures var t := AdoptStep(s, root, id); EntriesHold(t.registry, t.shared, t.nextId)
  {
  }

  lemma {:induction false} AdoptHolders(s: State, root: nat, id: nat)
    requires HoldersHold(s.roots, s.shared) && Adoptable(s, root, id)
    ensures var t := AdoptStep(s, root, id); HoldersHold(t.roots, t.shared)
  {
  }

  lemma {:induction false} AdoptOwners(s: State, root: nat, id: nat)
    requires HoldersHold(s.roots, s.shared) && OwnersHold(s.roots, s.owner) && Adoptable(s, root, id)
    ensures var t := AdoptStep(s, root, id); OwnersHold(t.roots, t.owner)
  {
  }

  lemma {:induction false} AdoptKeeps(s: State, root: nat, id: nat)
    requires Inv(s) && Adoptable(s, root, id)
    ensures Inv(AdoptStep(s, root, id))
  {
    AdoptPins(s, root, id);
    AdoptEntries(s, root, id);
    AdoptHolders(s, root, id);
    AdoptOwners(s, root, id);
    hide PinsHold, EntriesHold, DutyHolds, HoldersHold, OwnersHold, OnceHolds;
  }

  lemma {:induction false} PublishPins(s: State, root: nat)
    requires PinsHold(s) && DutyHolds(s) && OwnersHold(s.roots, s.owner) && root in s.roots && s.roots[root].handles > 0 && !s.roots[root].published
    ensures var t := PublishStep(s, root); PinsHold(t) && DutyHolds(t)
  {
    hide First;
  }

  lemma {:induction false} PublishHolders(s: State, root: nat)
    requires HoldersHold(s.roots, s.shared) && root in s.roots && s.roots[root].handles > 0 && !s.roots[root].published
    ensures var t := PublishStep(s, root); HoldersHold(t.roots, t.shared)
  {
  }

  lemma {:induction false} PublishOwners(s: State, root: nat)
    requires OwnersHold(s.roots, s.owner) && root in s.roots && s.roots[root].handles > 0 && !s.roots[root].published
    ensures var t := PublishStep(s, root); OwnersHold(t.roots, t.owner)
  {
  }

  lemma {:induction false} PublishKeeps(s: State, root: nat)
    requires Inv(s) && root in s.roots && s.roots[root].handles > 0 && !s.roots[root].published
    ensures Inv(PublishStep(s, root))
  {
    PublishPins(s, root);
    PublishHolders(s, root);
    PublishOwners(s, root);
    hide PinsHold, EntriesHold, DutyHolds, HoldersHold, OwnersHold, OnceHolds;
  }

  lemma {:induction false} HandlesPins(s: State, root: nat, handles: nat)
    requires PinsHold(s) && DutyHolds(s) && root in s.roots && (s.roots[root].done ==> handles == 0)
    ensures var t := s.(roots := s.roots[root := s.roots[root].(handles := handles)]); PinsHold(t) && DutyHolds(t)
  {
    hide First;
  }

  lemma {:induction false} HandlesHolders(s: State, root: nat, handles: nat)
    requires HoldersHold(s.roots, s.shared) && root in s.roots && (s.roots[root].done ==> handles == 0)
    ensures var t := s.(roots := s.roots[root := s.roots[root].(handles := handles)]); HoldersHold(t.roots, t.shared)
  {
  }

  lemma {:induction false} HandlesOwners(s: State, root: nat, handles: nat)
    requires OwnersHold(s.roots, s.owner) && root in s.roots && (s.roots[root].done ==> handles == 0)
    ensures var t := s.(roots := s.roots[root := s.roots[root].(handles := handles)]); OwnersHold(t.roots, t.owner)
  {
  }

  lemma {:induction false} HandlesKeeps(s: State, root: nat, handles: nat)
    requires Inv(s) && root in s.roots && (s.roots[root].done ==> handles == 0)
    ensures Inv(s.(roots := s.roots[root := s.roots[root].(handles := handles)]))
  {
    HandlesPins(s, root, handles);
    HandlesHolders(s, root, handles);
    HandlesOwners(s, root, handles);
    hide PinsHold, EntriesHold, DutyHolds, HoldersHold, OwnersHold, OnceHolds;
  }

  lemma {:induction false} AbandonPins(s: State, root: nat)
    requires PinsHold(s) && DutyHolds(s) && Droppable(s, root) && s.roots[root].published
    ensures var t := Abandoned(s, root); PinsHold(t) && DutyHolds(t)
  {
    hide First;
  }

  lemma {:induction false} AbandonHolders(s: State, root: nat)
    requires HoldersHold(s.roots, s.shared) && Droppable(s, root) && s.roots[root].published
    ensures var t := Abandoned(s, root); HoldersHold(t.roots, t.shared)
  {
  }

  lemma {:induction false} AbandonOwners(s: State, root: nat)
    requires OwnersHold(s.roots, s.owner) && Droppable(s, root) && s.roots[root].published
    ensures var t := Abandoned(s, root); OwnersHold(t.roots, t.owner)
  {
  }

  lemma {:induction false} AbandonKeeps(s: State, root: nat)
    requires Inv(s) && Droppable(s, root) && s.roots[root].published
    ensures Inv(Abandoned(s, root))
  {
    AbandonPins(s, root);
    AbandonHolders(s, root);
    AbandonOwners(s, root);
    hide PinsHold, EntriesHold, DutyHolds, HoldersHold, OwnersHold, OnceHolds;
  }

  lemma {:induction false} ForfeitPins(s: State, root: nat)
    requires PinsHold(s) && DutyHolds(s) && OwnersHold(s.roots, s.owner) && Droppable(s, root) && !s.roots[root].published
    ensures var t := Forfeited(s, root); PinsHold(t) && DutyHolds(t)
  {
    hide First;
  }

  lemma {:induction false} ForfeitHolders(s: State, root: nat)
    requires HoldersHold(s.roots, s.shared) && Droppable(s, root) && !s.roots[root].published
    ensures var t := Forfeited(s, root); HoldersHold(t.roots, t.shared)
  {
  }

  lemma {:induction false} ForfeitOwners(s: State, root: nat)
    requires OwnersHold(s.roots, s.owner) && Droppable(s, root) && !s.roots[root].published
    ensures var t := Forfeited(s, root); OwnersHold(t.roots, t.owner)
  {
  }

  lemma {:induction false} ForfeitKeeps(s: State, root: nat)
    requires Inv(s) && Droppable(s, root) && !s.roots[root].published
    ensures Inv(Forfeited(s, root))
  {
    ForfeitPins(s, root);
    ForfeitHolders(s, root);
    ForfeitOwners(s, root);
    hide PinsHold, EntriesHold, DutyHolds, HoldersHold, OwnersHold, OnceHolds;
  }

  /** An unpublished root gives its table up while its own pin still stands, so destruction waits for its fields. */
  lemma {:induction false} DropRootKeeps(s: State, root: nat)
    requires Inv(s) && Droppable(s, root)
    ensures Inv(DropRootStep(s, root))
  {
    hide Inv;
    var r := s.roots[root];
    if r.published {
      AbandonKeeps(s, root);
    } else {
      ForfeitKeeps(s, root);
      var u := Abandoned(s, root);
      RetireKeeps(u.(owner := s.owner[r.table := Process(r.birth)]), r.table);
      RetireForgetsOwner(u, r.table, r.birth);
    }
  }

  lemma {:induction false} RetireForgetsOwner(s: State, table: nat, birth: nat)
    ensures RetireStep(s.(owner := s.owner[table := Process(birth)]), table, birth) == RetireStep(s, table, birth)
  {
    var t := s.(owner := s.owner[table := Process(birth)]);
    assert t.owner - {table} == s.owner - {table};
    assert Upgraded(t, table) == Upgraded(s, table);
  }

  lemma {:induction false} DropFieldsPins(s: State, root: nat)
    requires PinsHold(s) && DutyHolds(s) && root in s.roots && s.roots[root].done && s.roots[root].id in s.shared
    ensures var t := DropFieldsStep(s, root); PinsHold(t) && DutyHolds(t)
  {
    hide First;
  }

  lemma {:induction false} DropFieldsEntries(s: State, root: nat)
    requires EntriesHold(s.registry, s.shared, s.nextId) && root in s.roots && s.roots[root].done && s.roots[root].id in s.shared
    ensures var t := DropFieldsStep(s, root); EntriesHold(t.registry, t.shared, t.nextId)
  {
  }

  lemma {:induction false} DropFieldsHolders(s: State, root: nat)
    requires HoldersHold(s.roots, s.shared) && root in s.roots && s.roots[root].done && s.roots[root].id in s.shared
    ensures var t := DropFieldsStep(s, root); HoldersHold(t.roots, t.shared)
  {
  }

  lemma {:induction false} DropFieldsOwners(s: State, root: nat)
    requires OwnersHold(s.roots, s.owner) && root in s.roots && s.roots[root].done && s.roots[root].id in s.shared
    ensures var t := DropFieldsStep(s, root); OwnersHold(t.roots, t.owner)
  {
  }

  lemma {:induction false} DropFieldsKeeps(s: State, root: nat)
    requires Inv(s) && root in s.roots && s.roots[root].done && s.roots[root].id in s.shared
    ensures Inv(DropFieldsStep(s, root))
  {
    DropFieldsPins(s, root);
    DropFieldsEntries(s, root);
    DropFieldsHolders(s, root);
    DropFieldsOwners(s, root);
    hide PinsHold, EntriesHold, DutyHolds, HoldersHold, OwnersHold, OnceHolds;
  }

  lemma {:induction false} PinStepsKeep(s: State, op: Op)
    requires Inv(s) && Careful(s, op)
    ensures Inv(PinSteps(s, op))
  {
    hide Inv, First;
    match op
    case Create(table) => if table > 0 && table % PAGE == 0 && table !in s.live { CreateKeeps(s, table); }
    case PinRetain(table) => if s.acquiring.None? && table in s.owner { RetainKeeps(s, table); }
    case PinFind(memory) => if s.acquiring.Some? { FindKeeps(s, memory); }
    case ClonePin(id) => if id in s.shared && s.shared[id].loose > 0 { PinCountKeeps(s, id, s.shared[id].loose + 1); }
    case DropPin(id) => if id in s.shared && s.shared[id].loose > 0 { PinCountKeeps(s, id, s.shared[id].loose - 1); }
    case RunDrop(id) => if id in s.shared && !s.shared[id].Strong() { DropKeeps(s, id); }
    case Retire(table) => if MayRetire(s, table) { RetireKeeps(s, table); }
    case _ =>
  }

  lemma {:induction false} ReleasedKeeps(s: State)
    requires Inv(s)
    ensures Inv(s.(acquiring := None))
  {
  }

  lemma {:induction false} FindKeeps(s: State, memory: bool)
    requires Inv(s) && s.acquiring.Some? && Careful(s, PinFind(memory))
    ensures Inv(FindStep(s, s.acquiring.value, memory))
  {
    var table := s.acquiring.value;
    var t := s.(acquiring := None);
    ReleasedKeeps(s);
    if Upgraded(s, table).Some? {
      var id := Upgraded(s, table).value;
      if !s.shared[id].retired {
        PinCountKeeps(t, id, s.shared[id].loose + 1);
      }
    } else if memory {
      PinNewKeeps(s);
    }
    hide Inv, First;
  }

  lemma {:induction false} RootStepsKeep(s: State, op: Op)
    requires Inv(s)
    ensures Inv(RootSteps(s, op))
  {
    hide Inv, First;
    match op
    case Adopt(root, id) =>
      if Adoptable(s, root, id) { AdoptKeeps(s, root, id); }
    case Publish(root) => if root in s.roots && s.roots[root].handles > 0 && !s.roots[root].published { PublishKeeps(s, root); }
    case CloneRoot(root) =>
      if root in s.roots && s.roots[root].handles > 0 {
        LiveIsNotDone(s, root);
        HandlesKeeps(s, root, s.roots[root].handles + 1);
      }
    case ReleaseRoot(root) =>
      if root in s.roots && s.roots[root].handles > 0 {
        LiveIsNotDone(s, root);
        HandlesKeeps(s, root, s.roots[root].handles - 1);
      }
    case DropRoot(root) =>
      if Droppable(s, root) { DropRootKeeps(s, root); }
    case DropFields(root) =>
      if root in s.roots && s.roots[root].done && s.roots[root].id in s.shared { DropFieldsKeeps(s, root); }
    case _ =>
  }

  lemma LiveIsNotDone(s: State, root: nat)
    requires Inv(s) && root in s.roots && s.roots[root].handles > 0
    ensures !s.roots[root].done
  {
  }

  // ---------------------------------------------------------------------- runs

  lemma {:induction false} ApplyKeeps(s: State, op: Op)
    requires Inv(s) && Careful(s, op)
    ensures Inv(Apply(s, op))
  {
    hide Inv, PinSteps, RootSteps;
    PinStepsKeep(s, op);
    RootStepsKeep(s, op);
  }

  function Run(s: State, ops: seq<Op>): State
    decreases |ops|
  {
    if ops == [] then s else Run(Apply(s, ops[0]), ops[1..])
  }

  ghost predicate AllCareful(s: State, ops: seq<Op>)
    decreases |ops|
  {
    ops != [] ==> Careful(s, ops[0]) && AllCareful(Apply(s, ops[0]), ops[1..])
  }

  lemma {:induction false} RunKeeps(s: State, ops: seq<Op>)
    requires Inv(s) && AllCareful(s, ops)
    ensures Inv(Run(s, ops))
    decreases |ops|
  {
    if ops != [] {
      ApplyKeeps(s, ops[0]);
      hide Inv, Apply;
      RunKeeps(Apply(s, ops[0]), ops[1..]);
    }
  }

  /** Every root somebody has pinned still exists, and is not a later use of its address. */
  ghost predicate PinnedExist(s: State) {
    forall id :: Alive(s.shared, id) ==> s.shared[id].table in s.live && s.live[s.shared[id].table] == s.shared[id].birth
  }

  /** No root is destroyed twice or while it is pinned, and no destruction meets a later use of the address. */
  lemma {:induction false} DestroyedOnceNeverPinned(ops: seq<Op>, birth: nat)
    requires AllCareful(Init, ops)
    ensures var t := Run(Init, ops); PinnedExist(t) && t.astray == 0 && (birth in t.destroyed ==> t.destroyed[birth] == 1)
  {
    RunKeeps(Init, ops);
    var t := Run(Init, ops);
    forall id | Alive(t.shared, id)
      ensures t.shared[id].table in t.live && t.live[t.shared[id].table] == t.shared[id].birth
    {
      assert PinHolds(t, id, t.shared[id]);
    }
  }

  /** When no owner and no pin is left, every root that ever existed has been destroyed exactly once. */
  lemma {:induction false} NothingLeaks(s: State, birth: nat)
    requires Inv(s) && s.owner == map[] && s.shared == map[] && birth < s.born
    ensures birth in s.destroyed && s.destroyed[birth] == 1
  {
    if t :| t in s.carrier {
      assert false;
    }
    hide PinsHold, EntriesHold, HoldersHold, OwnersHold;
  }

  /** A dropped unpublished root stays until its own pin is gone. */
  lemma {:induction false} UnpublishedRootDefers(s: State, root: nat)
    requires Inv(s) && Droppable(s, root) && !s.roots[root].published
    ensures var r := s.roots[root]; var t := DropRootStep(s, root);
      r.table in t.live && t.destroyed == s.destroyed && r.table !in t.owner
      && r.table in t.carrier && t.carrier[r.table] == r.id
  {
    var r := s.roots[root];
    assert Holds(s.shared, r.id, r.table, root);
    PinnedIsFound(s, r.id);
    var u := Abandoned(s, root);
    assert Upgraded(u, r.table) == Upgraded(s, r.table);
  }

  // ------------------------------------------------------------ the lost window

  /** A registration that died inside an acquisition belongs to a table its process owns. */
  lemma {:induction false} CarelessIsProcessOwned(s: State)
    requires Inv(s) && s.acquiring.Some? && !Careful(s, PinFind(true))
    ensures s.acquiring.value in s.owner && s.owner[s.acquiring.value].Process? && s.acquiring.value in s.live
  {
    var table := s.acquiring.value;
    if s.owner[table].Detached? {
      var r := s.owner[table].root;
      assert Unpublished(s.roots, r, table) && Holds(s.shared, s.roots[r].id, table, r);
      PinnedIsFound(s, s.roots[r].id);
    }
  }

  /** The new registration stands behind the dead one. */
  lemma {:induction false} CarelessAcquisitionHides(s: State)
    requires Inv(s) && s.acquiring.Some? && !Careful(s, PinFind(true))
    ensures var table, t := s.acquiring.value, FindStep(s, s.acquiring.value, true);
      && Upgraded(t, table).None? && Alive(t.shared, s.nextId) && t.shared[s.nextId].table == table
      && MayRetire(t, table)
  {
    var table, id := s.acquiring.value, s.nextId;
    CarelessIsProcessOwned(s);
    var dead := First(s.registry, table).value;
    FirstIsEntry(s.registry, table);
    FirstAppended(s.registry, Entry(table, id), table);
    hide First, PinsHold, DutyHolds, HoldersHold, OwnersHold, OnceHolds;
    assert dead < id;
  }

  /** So giving the table up destroys it under the new pin. */
  lemma {:induction false} CarelessAcquisitionGoesWrong(s: State)
    requires Inv(s) && s.acquiring.Some? && !Careful(s, PinFind(true))
    ensures var t := Apply(s, PinFind(true)); !PinnedExist(Apply(t, Retire(s.acquiring.value)))
  {
    hide Inv, Careful, First, Upgraded, FindStep, RetireStep, PinnedExist;
    var table := s.acquiring.value;
    CarelessAcquisitionHides(s);
    var t := FindStep(s, table, true);
    RetiredUnderPin(t, table, t.owner[table].birth, s.nextId);
  }

  lemma {:induction false} RetiredUnderPin(t: State, table: nat, birth: nat, id: nat)
    requires Upgraded(t, table).None? && Alive(t.shared, id) && t.shared[id].table == table
    ensures !PinnedExist(RetireStep(t, table, birth))
  {
    var u := RetireStep(t, table, birth);
    assert Alive(u.shared, id) && u.shared[id].table == table && table !in u.live;
  }

  /** An acquisition is harmless in every continuation exactly when it meets no registration that died meanwhile. */
  lemma {:induction false} AcquisitionIsHarmlessIff(s: State)
    requires Inv(s) && s.acquiring.Some?
    ensures var t := Apply(s, PinFind(true));
      Careful(s, PinFind(true)) <==> forall ops :: AllCareful(t, ops) ==> PinnedExist(Run(t, ops))
  {
    var t := Apply(s, PinFind(true));
    hide Apply, PinnedExist, Inv;
    if Careful(s, PinFind(true)) {
      ApplyKeeps(s, PinFind(true));
      forall ops | AllCareful(t, ops) ensures PinnedExist(Run(t, ops)) {
        RunKeeps(t, ops);
        InvPinnedExist(Run(t, ops));
      }
    } else {
      var ops := CarelessContinuation(s);
    }
  }

  lemma {:induction false} CarelessContinuation(s: State) returns (ops: seq<Op>)
    requires Inv(s) && s.acquiring.Some? && !Careful(s, PinFind(true))
    ensures var t := Apply(s, PinFind(true)); AllCareful(t, ops) && !PinnedExist(Run(t, ops))
  {
    hide Apply, PinnedExist, Inv;
    CarelessAcquisitionGoesWrong(s);
    var t := Apply(s, PinFind(true));
    ops := [Retire(s.acquiring.value)];
    assert ops[1..] == [];
    assert Run(t, ops) == Run(Apply(t, ops[0]), []);
  }

  lemma {:induction false} InvPinnedExist(s: State)
    requires Inv(s)
    ensures PinnedExist(s)
  {
    forall id | Alive(s.shared, id)
      ensures s.shared[id].table in s.live && s.live[s.shared[id].table] == s.shared[id].birth
    {
      assert PinHolds(s, id, s.shared[id]);
    }
  }

  lemma {:induction false} RunJoins(s: State, first: seq<Op>, rest: seq<Op>)
    ensures Run(s, first + rest) == Run(Run(s, first), rest)
    decreases |first|
  {
    if first == [] {
      assert first + rest == rest;
    } else {
      assert (first + rest)[1..] == first[1..] + rest;
      RunJoins(Apply(s, first[0]), first[1..], rest);
    }
  }

  lemma {:induction false} RunThree(s: State, a: Op, b: Op, c: Op)
    ensures Run(s, [a, b, c]) == Apply(Apply(Apply(s, a), b), c)
  {
    hide Apply;
    assert [a, b, c][1..] == [b, c] && [b, c][1..] == [c] && [c][1..] == [];
    assert Run(s, [a, b, c]) == Run(Apply(s, a), [b, c]) == Run(Apply(Apply(s, a), b), [c]);
  }

  /** A pinned table with one registration, and then a second acquisition that loses the window. */
  const Pinned := State([Entry(4096, 0)], None, map[0 := Shared(4096, 0, false, 1, {})], map[], 1,
                        map[4096 := 0], map[4096 := Process(0)], map[], 1, map[0 := 4096], map[], 0)
  const Hidden := State([Entry(4096, 0), Entry(4096, 1)], None,
                        map[0 := Shared(4096, 0, false, 0, {}), 1 := Shared(4096, 0, false, 1, {})], map[], 2,
                        map[4096 := 0], map[4096 := Process(0)], map[], 1, map[0 := 4096], map[], 0)
  const Lost := Hidden.(live := map[], owner := map[], destroyed := map[0 := 1])

  lemma {:induction false} PinnedIsReached()
    ensures Run(Init, [Create(4096), PinRetain(4096), PinFind(true)]) == Pinned
  {
    RunThree(Init, Create(4096), PinRetain(4096), PinFind(true));
    var s1 := Apply(Init, Create(4096));
    var s2 := Apply(s1, PinRetain(4096));
    assert s2 == s1.(acquiring := Some(4096));
    assert Apply(s2, PinFind(true)) == Pinned;
  }

  lemma {:induction false} HiddenIsReached()
    ensures Run(Pinned, [PinRetain(4096), DropPin(0), PinFind(true)]) == Hidden
  {
    RunThree(Pinned, PinRetain(4096), DropPin(0), PinFind(true));
    var s1 := Apply(Pinned, PinRetain(4096));
    assert Retained([Entry(4096, 0)], Pinned.shared) == [Entry(4096, 0)] + Retained([Entry(4096, 0)][1..], Pinned.shared);
    assert s1 == Pinned.(acquiring := Some(4096));
    var s2 := Apply(s1, DropPin(0));
    assert s2 == s1.(shared := map[0 := Shared(4096, 0, false, 0, {})]);
    assert Upgraded(s2, 4096).None?;
    assert Apply(s2, PinFind(true)) == Hidden;
  }

  lemma LostIsReached()
    ensures Apply(Hidden, Retire(4096)) == Lost
  {
    assert First(Hidden.registry, 4096) == Some(0);
    assert MayRetire(Hidden, 4096) && Upgraded(Hidden, 4096).None?;
    assert Hidden.owner - {4096} == map[] && Hidden.live - {4096} == map[];
  }

  /** The last pin drops between the pruning and the search of a second acquisition. */
  function DropInTheWindow(): seq<Op> {
    [Create(4096), PinRetain(4096), PinFind(true)] + [PinRetain(4096), DropPin(0), PinFind(true)] + [Retire(4096)]
  }

  lemma {:induction false} WindowEndsLost()
    ensures Run(Init, DropInTheWindow()) == Lost
  {
    hide Apply;
    var first, second := [Create(4096), PinRetain(4096), PinFind(true)], [PinRetain(4096), DropPin(0), PinFind(true)];
    RunJoins(Init, first + second, [Retire(4096)]);
    RunJoins(Init, first, second);
    PinnedIsReached();
    HiddenIsReached();
    LostIsReached();
    assert Run(Hidden, [Retire(4096)]) == Run(Apply(Hidden, Retire(4096)), [Retire(4096)][1..]);
  }

  /** On that run a pinned root is destroyed. */
  lemma {:induction false} DropInTheWindowGoesWrong()
    ensures !PinnedExist(Run(Init, DropInTheWindow()))
  {
    WindowEndsLost();
    assert Alive(Lost.shared, 1) && 4096 !in Lost.live;
  }

  /** The address is used again, and its owner hands it to the pins of the root that is gone. */
  const Reused := Lost.(registry := [Entry(4096, 1)], shared := Lost.shared[1 := Shared(4096, 0, false, 2, {})],
                        live := map[4096 := 1], owner := map[4096 := Process(1)], born := 2, home := map[0 := 4096, 1 := 4096])
  const Inherited := Reused.(shared := Lost.shared[1 := Shared(4096, 0, true, 0, {})], owner := map[], carrier := map[4096 := 1])

  lemma {:induction false} ReusedIsReached()
    ensures Run(Lost, [Create(4096), PinRetain(4096), PinFind(true)]) == Reused
  {
    RunThree(Lost, Create(4096), PinRetain(4096), PinFind(true));
    var s1 := Apply(Lost, Create(4096));
    assert s1 == Lost.(live := map[4096 := 1], owner := map[4096 := Process(1)], born := 2, home := map[0 := 4096, 1 := 4096]);
    var s2 := Apply(s1, PinRetain(4096));
    assert Lost.registry[1..] == [Entry(4096, 1)] && [Entry(4096, 1)][1..] == [];
    assert Retained([Entry(4096, 1)], Lost.shared) == [Entry(4096, 1)] + Retained([], Lost.shared);
    assert Retained(Lost.registry, Lost.shared) == [] + Retained([Entry(4096, 1)], Lost.shared);
    assert s2 == s1.(registry := [Entry(4096, 1)], acquiring := Some(4096));
    assert Upgraded(s2, 4096) == Some(1);
  }

  function InheritedPins(loose: nat): State {
    Inherited.(shared := Lost.shared[1 := Shared(4096, 0, true, loose, {})])
  }

  lemma RetireInherits()
    ensures Apply(Reused, Retire(4096)) == InheritedPins(2)
  {
    assert MayRetire(Reused, 4096) && Upgraded(Reused, 4096) == Some(1);
    assert Reused.owner - {4096} == map[];
  }

  lemma {:induction false} InheritedIsReached()
    ensures Run(Reused, [Retire(4096), DropPin(1), DropPin(1)]) == Inherited
  {
    RunThree(Reused, Retire(4096), DropPin(1), DropPin(1));
    RetireInherits();
    InheritedDropsPin(2);
    InheritedDropsPin(1);
    assert InheritedPins(0) == Inherited;
    hide Apply, InheritedPins;
  }

  lemma InheritedDropsPin(loose: nat)
    requires loose > 0
    ensures Apply(InheritedPins(loose), DropPin(1)) == InheritedPins(loose - 1)
  {}

  lemma InheritedIsDestroyed()
    ensures Apply(Inherited, RunDrop(1)) ==
      Inherited.(shared := Inherited.shared - {1}, carrier := map[], live := map[], destroyed := map[0 := 2], astray := 1)
  {
    assert !Inherited.shared[1].Strong();
    assert Inherited.carrier - {4096} == map[] && Inherited.live - {4096} == map[];
  }

  function ReuseAfterTheWindow(): seq<Op> {
    DropInTheWindow() + ([Create(4096), PinRetain(4096), PinFind(true)] + ([Retire(4096), DropPin(1), DropPin(1)] + [RunDrop(1)]))
  }

  /** Then one root is destroyed twice, the second time in place of the root that uses its address now. */
  lemma {:induction false} ReuseIsDestroyedAstray()
    ensures var t := Run(Init, ReuseAfterTheWindow());
      t.astray == 1 && 0 in t.destroyed && t.destroyed[0] == 2 && 1 !in t.destroyed && 4096 !in t.live
  {
    var third, fourth := [Create(4096), PinRetain(4096), PinFind(true)], [Retire(4096), DropPin(1), DropPin(1)];
    RunJoins(Init, DropInTheWindow(), third + (fourth + [RunDrop(1)]));
    RunJoins(Lost, third, fourth + [RunDrop(1)]);
    RunJoins(Reused, fourth, [RunDrop(1)]);
    WindowEndsLost();
    ReusedIsReached();
    InheritedIsReached();
    InheritedIsDestroyed();
    hide Apply;
    assert Run(Inherited, [RunDrop(1)]) == Run(Apply(Inherited, RunDrop(1)), [RunDrop(1)][1..]);
  }
}

/** The registry itself: a vector pruned and searched in place. */
module RootRegistry {
  import opened Common
  import opened RootLifetime

  lemma {:induction false} RetainedPrefix(entries: seq<Entry>, shared: map<nat, Shared>, i: nat)
    requires i < |entries|
    ensures Retained(entries[..i + 1], shared) ==
      Retained(entries[..i], shared) + (if Alive(shared, entries[i].id) then [entries[i]] else [])
  {
    if i == 0 {
      assert entries[..1] == [entries[0]];
    } else {
      RetainedPrefix(entries[1..], shared, i - 1);
      assert entries[..i + 1][1..] == entries[1..][..i];
      assert entries[..i][1..] == entries[1..][..i - 1];
    }
  }

  lemma {:induction false} FirstAfter(entries: seq<Entry>, table: nat, i: nat)
    requires i <= |entries| && forall j :: 0 <= j < i ==> entries[j].table != table
    ensures First(entries, table) == First(entries[i..], table)
  {
    if i > 0 {
      FirstAfter(entries[1..], table, i - 1);
      assert entries[1..][i - 1..] == entries[i..];
    }
  }

  lemma {:induction false} RetainedIsAlive(entries: seq<Entry>, shared: map<nat, Shared>)
    ensures forall e :: e in Retained(entries, shared) ==> Alive(shared, e.id)
  {
    if entries != [] {
      RetainedIsAlive(entries[1..], shared);
    }
  }

  /** A pruned registry refuses a table whose root is retired, or an unregistered one without memory. */
  predicate Refused(entries: seq<Entry>, shared: map<nat, Shared>, table: nat, memory: bool) {
    var first := First(entries, table);
    if first.Some? then first.value in shared && shared[first.value].retired else !memory
  }

  class Registry {
    var entries: seq<Entry>
    var shared: map<nat, Shared>
    var nextId: nat

    /** Identities are used once, and a registration names the state it was made for. */
    ghost predicate Valid()
      reads this
    {
      (forall id :: id in shared ==> id < nextId) && EntriesHold(entries, shared, nextId)
    }

    constructor ()
      ensures Valid() && entries == [] && shared == map[] && nextId == 0
    {
      entries, shared, nextId := [], map[], 0;
    }

    method Prune()
      modifies this`entries
      ensures entries == Retained(old(entries), shared) && (old(Valid()) ==> Valid())
    {
      var kept: seq<Entry> := [];
      var i := 0;
      while i < |entries|
        modifies {}
        invariant i <= |entries| && kept == Retained(entries[..i], shared)
      {
        RetainedPrefix(entries, shared, i);
        if Alive(shared, entries[i].id) {
          kept := kept + [entries[i]];
        }
        i := i + 1;
      }
      assert entries[..i] == entries;
      RetainedEntries(entries, shared);
      entries := kept;
    }

    /** The first registration of a table, upgraded if it is alive. */
    method Upgrade(table: nat) returns (r: Option<nat>)
      ensures r == if First(entries, table).Some? && Alive(shared, First(entries, table).value) then First(entries, table) else None
    {
      var i := 0;
      while i < |entries| && entries[i].table != table
        invariant i <= |entries| && forall j :: 0 <= j < i ==> entries[j].table != table
      {
        i := i + 1;
      }
      FirstAfter(entries, table, i);
      return if i < |entries| && Alive(shared, entries[i].id) then Some(entries[i].id) else None;
    }

    /** A pin on the registered state, or on a new one; refused on a retired root or without memory. */
    method PinWith(table: nat, birth: nat, memory: bool) returns (r: Option<nat>)
      requires Valid()
      modifies this
      ensures Valid()
      ensures r.None? <==> (table == 0 || table % PAGE != 0 || Refused(Retained(old(entries), old(shared)), old(shared), table, memory))
      ensures r.Some? ==> Alive(shared, r.value) && !shared[r.value].retired && shared[r.value].table == table
      ensures r.None? ==> shared == old(shared)
      ensures r.Some? ==> First(entries, table) == r
      ensures r.Some? && r.value in old(shared) ==>
        && shared == old(shared)[r.value := old(shared)[r.value].(loose := old(shared)[r.value].loose + 1)]
        && entries == Retained(old(entries), old(shared))
      ensures r.Some? && r.value !in old(shared) ==>
        && shared == old(shared)[r.value := Shared(table, birth, false, 1, {})]
        && entries == Retained(old(entries), old(shared)) + [Entry(table, r.value)]
    {
      if table == 0 || table % PAGE != 0 {
        return None;
      }
      RetainedIsAlive(entries, shared);
      Prune();
      if First(entries, table).Some? {
        FirstIsEntry(entries, table);
      }
      var found := Upgrade(table);
      if found.Some? {
        if shared[found.value].retired {
          return None;
        }
        shared := shared[found.value := shared[found.value].(loose := shared[found.value].loose + 1)];
        return found;
      }
      if !memory {
        return None;
      }
      var id := nextId;
      shared := shared[id := Shared(table, birth, false, 1, {})];
      FirstAppended(entries, Entry(table, id), table);
      entries := entries + [Entry(table, id)];
      nextId := nextId + 1;
      return Some(id);
    }

    /** Hands destruction to the pins, if any: exactly when the first registration is alive. */
    method RetireTable(table: nat) returns (deferred: bool)
      modifies this`shared
      ensures deferred <==> First(entries, table).Some? && Alive(old(shared), First(entries, table).value)
      ensures deferred ==> shared == old(shared)[First(entries, table).value := old(shared)[First(entries, table).value].(retired := true)]
      ensures !deferred ==> shared == old(shared)
      ensures old(Valid()) ==> Valid()
    {
      var found := Upgrade(table);
      if found.None? {
        return false;
      }
      shared := shared[found.value := shared[found.value].(retired := true)];
      return true;
    }
  }
}
