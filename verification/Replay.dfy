/** Rebuilding kernel state from a commit list: what every reducer keeps, and which commits commute. */
module Replay {
  import opened Words
  import opened Common
  import opened Fnv
  import opened Commits

  datatype Status = Running | Blocked | Zombie

  datatype Proc = Proc(name: seq<byte>, status: Status)

  datatype Cap = Cap(
    id: u64, objectType: ObjectType, objectId: u64, permissions: Permissions, generation: u32, expiresAt: u64)

  datatype Space = Space(slots: map<u32, Cap>, nextSlot: nat)

  /** The part of the system state that replay rebuilds. Endpoints are their owners: replayed queues
      are empty and replayed metrics are zero. */
  datatype Replica = Replica(
    processes: map<u64, Proc>,
    capSpaces: map<u64, Space>,
    endpoints: map<u64, u64>,
    nextPid: nat, nextEndpointId: nat, nextCapId: nat)

  const BLANK := Replica(map[], map[], map[], 1, 1, 1)

  datatype ReplayError =
    | ProcessNotFound(pid: u64)
    | UnknownObjectType(tag: byte)
    | HashMismatch(expected: Digest, actual: Digest)

  function MapObjectType(tag: byte): Result<ObjectType, ReplayError> {
    match tag
    case 1 => Success(EndpointObject)
    case 2 => Success(ProcessObject)
    case 3 => Success(MemoryObject)
    case 4 => Success(IrqObject)
    case 5 => Success(IoPortObject)
    case 6 => Success(ConsoleObject)
    case _ => Failure(UnknownObjectType(tag))
  }

  /** A counter raised past an id that is in use. */
  function Past(counter: nat, id: nat): nat {
    if id >= counter then id + 1 else counter
  }

  function Buried(s: Replica, pid: u64): Result<Replica, ReplayError> {
    if pid !in s.processes then Failure(ProcessNotFound(pid))
    else Success(s.(processes := s.processes[pid := s.processes[pid].(status := Zombie)]))
  }

  function Inserted(s: Replica, pid: u64, slot: u32, capId: u64, tag: byte, objectId: u64, perms: byte)
    : Result<Replica, ReplayError>
  {
    var ty := MapObjectType(tag);
    if ty.Failure? then Failure(ty.error)
    else if pid !in s.capSpaces then Failure(ProcessNotFound(pid))
    else
      var space := s.capSpaces[pid];
      var cap := Cap(capId, ty.value, objectId, Permissions.FromByte(perms), 0, 0);
      Success(s.(capSpaces := s.capSpaces[pid := Space(space.slots[slot := cap], Past(space.nextSlot, slot))],
                 nextCapId := Past(s.nextCapId, capId)))
  }

  function Apply(s: Replica, ct: CommitType): Result<Replica, ReplayError> {
    match ct
    case Genesis => Success(s)
    case ProcessCreated(pid, _, name) =>
      Success(s.(processes := s.processes[pid := Proc(name, Running)],
                 capSpaces := s.capSpaces[pid := Space(map[], 0)],
                 nextPid := Past(s.nextPid, pid)))
    case ProcessExited(pid, _) => Buried(s, pid)
    case ProcessFaulted(pid, _, _) => Buried(s, pid)
    case CapInserted(pid, slot, capId, tag, objectId, perms) => Inserted(s, pid, slot, capId, tag, objectId, perms)
    case CapRemoved(pid, slot) =>
      if pid !in s.capSpaces then Failure(ProcessNotFound(pid))
      else Success(s.(capSpaces := s.capSpaces[pid := s.capSpaces[pid].(slots := s.capSpaces[pid].slots - {slot})]))
    case CapGranted(_, _, _, _, newCapId, _) => Success(s.(nextCapId := Past(s.nextCapId, newCapId)))
    case EndpointCreated(id, owner) =>
      if owner !in s.processes then Failure(ProcessNotFound(owner))
      else Success(s.(endpoints := s.endpoints[id := owner], nextEndpointId := Past(s.nextEndpointId, id)))
    case EndpointDestroyed(id) => Success(s.(endpoints := s.endpoints - {id}))
    case MessageSent(_, _, _, _) => Success(s)
  }

  /** Replay stops at the first refused commit and keeps what it built so far. */
  datatype Outcome = Outcome(state: Replica, error: Option<ReplayError>)

  function Replayed(s: Replica, cts: seq<CommitType>): Outcome {
    if cts == [] then Outcome(s, None)
    else
      var prior := Replayed(s, cts[..|cts| - 1]);
      if prior.error.Some? then prior else Settle(prior.state, Apply(prior.state, cts[|cts| - 1]))
  }

  function Settle(s: Replica, r: Result<Replica, ReplayError>): Outcome {
    if r.Success? then Outcome(r.value, None) else Outcome(s, Some(r.error))
  }

  // ---------------------------------------------------------------- well-formed states

  ghost predicate SpaceOk(space: Space, nextCapId: nat) {
    forall k :: k in space.slots ==> k < space.nextSlot && space.slots[k].id < nextCapId
  }

  ghost predicate WellFormed(s: Replica) {
    && s.processes.Keys == s.capSpaces.Keys
    && (forall p :: p in s.processes ==> p < s.nextPid)
    && (forall e :: e in s.endpoints ==> e < s.nextEndpointId && s.endpoints[e] in s.processes)
    && (forall p :: p in s.capSpaces ==> SpaceOk(s.capSpaces[p], s.nextCapId))
  }

  lemma SpacesStayOk(s: Replica, nextCapId: nat)
    requires WellFormed(s) && s.nextCapId <= nextCapId
    ensures forall p :: p in s.capSpaces ==> SpaceOk(s.capSpaces[p], nextCapId)
  {
    forall p | p in s.capSpaces
      ensures SpaceOk(s.capSpaces[p], nextCapId)
    {
      assert SpaceOk(s.capSpaces[p], s.nextCapId);
    }
  }

  lemma ApplyKeepsWellFormed(s: Replica, ct: CommitType)
    requires WellFormed(s) && Apply(s, ct).Success?
    ensures WellFormed(Apply(s, ct).value)
  {
    var s' := Apply(s, ct).value;
    SpacesStayOk(s, s'.nextCapId);
    match ct
    case CapInserted(pid, slot, capId, _, _, _) => assert SpaceOk(s'.capSpaces[pid], s'.nextCapId);
    case CapRemoved(pid, slot) => assert SpaceOk(s'.capSpaces[pid], s'.nextCapId);
    case _ =>
  }

  /** Whatever commits are replayed from the blank state, and wherever replay stops, the state it has
      built is well formed. */
  lemma {:induction false} ReplayIsWellFormed(cts: seq<CommitType>)
    ensures WellFormed(Replayed(BLANK, cts).state)
  {
    if cts != [] {
      ReplayIsWellFormed(cts[..|cts| - 1]);
      var prior := Replayed(BLANK, cts[..|cts| - 1]);
      if prior.error.None? && Apply(prior.state, cts[|cts| - 1]).Success? {
        ApplyKeepsWellFormed(prior.state, cts[|cts| - 1]);
      }
    }
  }

  // ---------------------------------------------------------------- commits that commute

  function TouchedProcesses(ct: CommitType): set<u64> {
    match ct
    case ProcessCreated(pid, _, _) => {pid}
    case ProcessExited(pid, _) => {pid}
    case ProcessFaulted(pid, _, _) => {pid}
    case CapInserted(pid, _, _, _, _, _) => {pid}
    case CapRemoved(pid, _) => {pid}
    case EndpointCreated(_, owner) => {owner}
    case _ => {}
  }

  function TouchedEndpoints(ct: CommitType): set<u64> {
    match ct
    case EndpointCreated(id, _) => {id}
    case EndpointDestroyed(id) => {id}
    case _ => {}
  }

  predicate Independent(a: CommitType, b: CommitType) {
    TouchedProcesses(a) !! TouchedProcesses(b) && TouchedEndpoints(a) !! TouchedEndpoints(b)
  }

  // The three tables and the three counters move separately.

  function OnProcesses(m: map<u64, Proc>, ct: CommitType): map<u64, Proc> {
    match ct
    case ProcessCreated(pid, _, name) => m[pid := Proc(name, Running)]
    case ProcessExited(pid, _) => if pid in m then m[pid := m[pid].(status := Zombie)] else m
    case ProcessFaulted(pid, _, _) => if pid in m then m[pid := m[pid].(status := Zombie)] else m
    case _ => m
  }

  function OnSpace(space: Space, ct: CommitType): Space {
    match ct
    case CapInserted(_, slot, capId, tag, objectId, perms) =>
      var ty := MapObjectType(tag);
      if ty.Failure? then space
      else Space(space.slots[slot := Cap(capId, ty.value, objectId, Permissions.FromByte(perms), 0, 0)],
                 Past(space.nextSlot, slot))
    case CapRemoved(_, slot) => space.(slots := space.slots - {slot})
    case _ => space
  }

  function OnSpaces(m: map<u64, Space>, ct: CommitType): map<u64, Space> {
    match ct
    case ProcessCreated(pid, _, _) => m[pid := Space(map[], 0)]
    case CapInserted(pid, _, _, _, _, _) => if pid in m then m[pid := OnSpace(m[pid], ct)] else m
    case CapRemoved(pid, _) => if pid in m then m[pid := OnSpace(m[pid], ct)] else m
    case _ => m
  }

  function OnEndpoints(m: map<u64, u64>, ct: CommitType): map<u64, u64> {
    match ct
    case EndpointCreated(id, owner) => m[id := owner]
    case EndpointDestroyed(id) => m - {id}
    case _ => m
  }

  function OnPid(n: nat, ct: CommitType): nat { if ct.ProcessCreated? then Past(n, ct.pid) else n }
  function OnEndpointId(n: nat, ct: CommitType): nat { if ct.EndpointCreated? then Past(n, ct.id) else n }
  function OnCapId(n: nat, ct: CommitType): nat {
    if ct.CapInserted? then Past(n, ct.capId) else if ct.CapGranted? then Past(n, ct.newCapId) else n
  }

  predicate Accepts(s: Replica, ct: CommitType) {
    match ct
    case ProcessExited(pid, _) => pid in s.processes
    case ProcessFaulted(pid, _, _) => pid in s.processes
    case CapInserted(pid, _, _, tag, _, _) => MapObjectType(tag).Success? && pid in s.capSpaces
    case CapRemoved(pid, _) => pid in s.capSpaces
    case EndpointCreated(_, owner) => owner in s.processes
    case _ => true
  }

  lemma ApplyBySpheres(s: Replica, ct: CommitType)
    ensures Apply(s, ct).Success? <==> Accepts(s, ct)
    ensures Accepts(s, ct) ==> Apply(s, ct) == Success(Replica(
      OnProcesses(s.processes, ct), OnSpaces(s.capSpaces, ct), OnEndpoints(s.endpoints, ct),
      OnPid(s.nextPid, ct), OnEndpointId(s.nextEndpointId, ct), OnCapId(s.nextCapId, ct)))
  {
  }

  lemma ProcessesCommute(m: map<u64, Proc>, a: CommitType, b: CommitType)
    requires Independent(a, b)
    ensures OnProcesses(OnProcesses(m, a), b) == OnProcesses(OnProcesses(m, b), a)
  {
  }

  lemma SpacesCommute(m: map<u64, Space>, a: CommitType, b: CommitType)
    requires Independent(a, b)
    ensures OnSpaces(OnSpaces(m, a), b) == OnSpaces(OnSpaces(m, b), a)
  {
  }

  lemma EndpointsCommute(m: map<u64, u64>, a: CommitType, b: CommitType)
    requires Independent(a, b)
    ensures OnEndpoints(OnEndpoints(m, a), b) == OnEndpoints(OnEndpoints(m, b), a)
  {
  }

  /** Two independent commits that replay in one order replay in the other, to the same state. */
  lemma IndependentCommitsCommute(s: Replica, a: CommitType, b: CommitType)
    requires Independent(a, b)
    requires Apply(s, a).Success? && Apply(Apply(s, a).value, b).Success?
    ensures Apply(s, b).Success? && Apply(Apply(s, b).value, a).Success?
    ensures Apply(Apply(s, b).value, a) == Apply(Apply(s, a).value, b)
  {
    ApplyBySpheres(s, a);
    ApplyBySpheres(s, b);
    ApplyBySpheres(Apply(s, a).value, b);
    AcceptanceUnaffected(s, a, b);
    AcceptanceUnaffected(s, b, a);
    ApplyBySpheres(Apply(s, b).value, a);
    ProcessesCommute(s.processes, a, b);
    SpacesCommute(s.capSpaces, a, b);
    EndpointsCommute(s.endpoints, a, b);
  }

  lemma AcceptanceUnaffected(s: Replica, a: CommitType, b: CommitType)
    requires Independent(a, b) && Apply(s, a).Success?
    ensures Accepts(Apply(s, a).value, b) == Accepts(s, b)
  {
  }

  lemma ReplayOne(s: Replica, ct: CommitType)
    ensures Replayed(s, [ct]) == Settle(s, Apply(s, ct))
  {
    assert [ct][..0] == [];
  }

  lemma {:induction false} ReplayAppend(s: Replica, xs: seq<CommitType>, ys: seq<CommitType>)
    ensures Replayed(s, xs + ys) ==
      if Replayed(s, xs).error.Some? then Replayed(s, xs) else Replayed(Replayed(s, xs).state, ys)
  {
    if ys == [] {
      assert xs + ys == xs;
    } else {
      ReplayAppend(s, xs, ys[..|ys| - 1]);
      assert (xs + ys)[..|xs + ys| - 1] == xs + ys[..|ys| - 1];
    }
  }

  lemma ReplayTwo(s: Replica, a: CommitType, b: CommitType)
    requires Apply(s, a).Success? && Apply(Apply(s, a).value, b).Success?
    ensures Replayed(s, [a, b]) == Outcome(Apply(Apply(s, a).value, b).value, None)
  {
    ReplayAppend(s, [a], [b]);
    ReplayOne(s, a);
    ReplayOne(Apply(s, a).value, b);
    assert [a] + [b] == [a, b];
  }

  lemma {:induction false} SuccessfulPrefix(s: Replica, xs: seq<CommitType>, ys: seq<CommitType>)
    requires Replayed(s, xs + ys).error.None?
    ensures Replayed(s, xs).error.None?
  {
    ReplayAppend(s, xs, ys);
  }

  /** Anywhere in a commit list that replays, two adjacent independent commits may be exchanged. */
  lemma SwapAnywhere(s: Replica, pre: seq<CommitType>, a: CommitType, b: CommitType, post: seq<CommitType>)
    requires Independent(a, b)
    requires Replayed(s, pre + [a, b] + post).error.None?
    ensures Replayed(s, pre + [b, a] + post) == Replayed(s, pre + [a, b] + post)
  {
    SuccessfulPrefix(s, pre + [a, b], post);
    SuccessfulPrefix(s, pre, [a, b]);
    ReplayAppend(s, pre + [a, b], post);
    ReplayAppend(s, pre, [a, b]);
    var mid := Replayed(s, pre).state;
    BothApplied(mid, a, b);
    IndependentCommitsCommute(mid, a, b);
    ReplayTwo(mid, a, b);
    ReplayTwo(mid, b, a);
    ReplayAppend(s, pre, [b, a]);
    ReplayAppend(s, pre + [b, a], post);
  }

  lemma BothApplied(s: Replica, a: CommitType, b: CommitType)
    requires Replayed(s, [a, b]).error.None?
    ensures Apply(s, a).Success? && Apply(Apply(s, a).value, b).Success?
  {
    assert [a] + [b] == [a, b];
    ReplayAppend(s, [a], [b]);
    ReplayOne(s, a);
    if Apply(s, a).Success? { ReplayOne(Apply(s, a).value, b); }
  }

  // ---------------------------------------------------------------- what a replayed capability is

  /** Tags written for object types are read back as the same types, and no other tag is accepted. */
  lemma TagsReadBack(tag: byte)
    ensures MapObjectType(tag).Success? <==> 1 <= tag <= 6
    ensures MapObjectType(tag).Success? ==> MapObjectType(tag).value.ToByte() == tag
    ensures MapObjectType(tag).Failure? ==> MapObjectType(tag).error == UnknownObjectType(tag)
    ensures forall ty: ObjectType :: ty.ToByte() == tag ==> MapObjectType(tag) == Success(ty)
  {
  }

  /** Slot `slot` of `pid` holds `c`; no other slot of any table differs, nor does anything but the counters. */
  ghost predicate OnlySlotSet(s: Replica, s': Replica, pid: u64, slot: u32, c: Cap) {
    && s'.processes == s.processes && s'.endpoints == s.endpoints && s'.capSpaces.Keys == s.capSpaces.Keys
    && pid in s'.capSpaces && slot in s'.capSpaces[pid].slots && s'.capSpaces[pid].slots[slot] == c
    && (forall p :: p in s.capSpaces && p != pid ==> s'.capSpaces[p] == s.capSpaces[p])
    && s'.capSpaces[pid].slots - {slot} == s.capSpaces[pid].slots - {slot}
  }

  /** Replaying the insertion of a capability puts exactly that capability into its slot, with generation and expiry
      zero, and changes no other slot. */
  lemma InsertionReplays(s: Replica, pid: u64, slot: u32, c: Cap)
    requires pid in s.capSpaces
    ensures var r := Apply(s, CapInserted(pid, slot, c.id, c.objectType.ToByte(), c.objectId, c.permissions.ToByte()));
      r.Success? && OnlySlotSet(s, r.value, pid, slot, c.(generation := 0, expiresAt := 0))
  {
    TagsReadBack(c.objectType.ToByte());
    PermissionBits(c.permissions);
  }

  /** Removing it again puts the tables back as they were without it. */
  lemma RemovalReplays(s: Replica, pid: u64, slot: u32, c: Cap)
    requires pid in s.capSpaces && slot !in s.capSpaces[pid].slots
    ensures var insert := CapInserted(pid, slot, c.id, c.objectType.ToByte(), c.objectId, c.permissions.ToByte());
      var r := Replayed(s, [insert, CapRemoved(pid, slot)]);
      && r.error == None && r.state.processes == s.processes && r.state.endpoints == s.endpoints
      && r.state.capSpaces.Keys == s.capSpaces.Keys
      && forall p :: p in s.capSpaces ==> r.state.capSpaces[p].slots == s.capSpaces[p].slots
  {
    var insert := CapInserted(pid, slot, c.id, c.objectType.ToByte(), c.objectId, c.permissions.ToByte());
    InsertionReplays(s, pid, slot, c);
    ReplayTwo(s, insert, CapRemoved(pid, slot));
    var s1 := Apply(s, insert).value;
    assert s1.capSpaces[pid].slots - {slot} == s.capSpaces[pid].slots;
  }

  // ---------------------------------------------------------------- the life of a process and its endpoint

  /** `s'` differs from `s` only in process `pid`, its table and endpoint `e`, and in the counters. */
  ghost predicate OnlyTouches(s: Replica, s': Replica, pid: u64, e: u64) {
    && s'.processes - {pid} == s.processes - {pid} && s'.capSpaces - {pid} == s.capSpaces - {pid}
    && s'.endpoints - {e} == s.endpoints - {e}
  }

  /** A creation and an endpoint replay to a running process of that name with an empty table, and its endpoint. */
  lemma BirthReplays(s: Replica, pid: u64, parent: u64, name: seq<byte>, e: u64)
    ensures var r := Replayed(s, [ProcessCreated(pid, parent, name), EndpointCreated(e, pid)]);
      && r.error == None && OnlyTouches(s, r.state, pid, e)
      && pid in r.state.processes && r.state.processes[pid].name == name && r.state.processes[pid].status == Running
      && pid in r.state.capSpaces && r.state.capSpaces[pid].slots == map[]
      && e in r.state.endpoints && r.state.endpoints[e] == pid
  {
    ReplayTwo(s, ProcessCreated(pid, parent, name), EndpointCreated(e, pid));
  }

  /** The exit or fault of a known process and the end of an endpoint replay to a zombie of the same name, its table
      kept, and no such endpoint. */
  lemma DeathReplays(s: Replica, ct: CommitType, e: u64)
    requires (ct.ProcessExited? || ct.ProcessFaulted?) && ct.pid in s.processes
    ensures var r := Replayed(s, [ct, EndpointDestroyed(e)]);
      && r.error == None && OnlyTouches(s, r.state, ct.pid, e)
      && ct.pid in r.state.processes && r.state.processes[ct.pid].name == s.processes[ct.pid].name
      && r.state.processes[ct.pid].status == Zombie && r.state.capSpaces == s.capSpaces && e !in r.state.endpoints
  {
    ReplayTwo(s, ct, EndpointDestroyed(e));
  }

  // ---------------------------------------------------------------- counters are no higher than needed

  ghost predicate CreatesProcess(ct: CommitType, pid: nat) { ct.ProcessCreated? && ct.pid == pid }

  ghost predicate CreatesEndpoint(ct: CommitType, id: nat) { ct.EndpointCreated? && ct.id == id }

  ghost predicate UsesCapId(ct: CommitType, id: nat) {
    (ct.CapInserted? && ct.capId == id) || (ct.CapGranted? && ct.newCapId == id)
  }

  /** Every counter is 1, or one more than an id that a replayed commit used. */
  ghost predicate Tight(s: Replica, cts: seq<CommitType>) {
    && s.nextPid >= 1 && s.nextEndpointId >= 1 && s.nextCapId >= 1
    && (s.nextPid == 1 || exists i :: 0 <= i < |cts| && CreatesProcess(cts[i], s.nextPid - 1))
    && (s.nextEndpointId == 1 || exists i :: 0 <= i < |cts| && CreatesEndpoint(cts[i], s.nextEndpointId - 1))
    && (s.nextCapId == 1 || exists i :: 0 <= i < |cts| && UsesCapId(cts[i], s.nextCapId - 1))
  }

  lemma TightGrows(s: Replica, cts: seq<CommitType>, ct: CommitType)
    requires Tight(s, cts)
    ensures Tight(s, cts + [ct])
  {
    var more := cts + [ct];
    if s.nextPid != 1 {
      var i :| 0 <= i < |cts| && CreatesProcess(cts[i], s.nextPid - 1);
      assert CreatesProcess(more[i], s.nextPid - 1);
    }
    if s.nextEndpointId != 1 {
      var i :| 0 <= i < |cts| && CreatesEndpoint(cts[i], s.nextEndpointId - 1);
      assert CreatesEndpoint(more[i], s.nextEndpointId - 1);
    }
    if s.nextCapId != 1 {
      var i :| 0 <= i < |cts| && UsesCapId(cts[i], s.nextCapId - 1);
      assert UsesCapId(more[i], s.nextCapId - 1);
    }
  }

  lemma TightAfter(s: Replica, cts: seq<CommitType>, ct: CommitType)
    requires Tight(s, cts) && Apply(s, ct).Success?
    ensures Tight(Apply(s, ct).value, cts + [ct])
  {
    TightGrows(s, cts, ct);
    var s', more := Apply(s, ct).value, cts + [ct];
    assert more[|cts|] == ct;
    assert s'.nextPid == s.nextPid || CreatesProcess(more[|cts|], s'.nextPid - 1);
    assert s'.nextEndpointId == s.nextEndpointId || CreatesEndpoint(more[|cts|], s'.nextEndpointId - 1);
    assert s'.nextCapId == s.nextCapId || UsesCapId(more[|cts|], s'.nextCapId - 1);
  }

  lemma {:induction false} CountersAreTight(cts: seq<CommitType>)
    ensures Tight(Replayed(BLANK, cts).state, cts)
  {
    if cts != [] {
      var front, ct := cts[..|cts| - 1], cts[|cts| - 1];
      var prior := Replayed(BLANK, front);
      CountersAreTight(front);
      assert front + [ct] == cts;
      if prior.error.None? && Apply(prior.state, ct).Success? {
        TightAfter(prior.state, front, ct);
      } else {
        TightGrows(prior.state, front, ct);
      }
    }
  }
}
