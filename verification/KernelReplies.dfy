/** What a reply means: exactly when a syscall succeeds in a reachable state, and what the caller then has. */
module KernelReplies {
  import opened Common
  import opened Words
  import opened Tables
  import opened KernelTypes
  import opened KernelSpec
  import opened KernelInvariant
  import opened KernelIpc
  import opened KernelCommits

  /** An unexpired capability with the required rights. */
  ghost predicate Holds(s: State, pid: ProcessId, slot: CapSlot, required: Permissions, t: Time) {
    HasCap(s, pid, slot) && required.SubsetOf(CapAt(s, pid, slot).permissions) && !CapAt(s, pid, slot).Expired(t)
  }

  ghost predicate HoldsEndpoint(s: State, pid: ProcessId, slot: CapSlot, required: Permissions, t: Time) {
    Holds(s, pid, slot, required, t) && CapAt(s, pid, slot).objectType == EndpointObject
  }

  /** What the caller must have, whatever order the kernel tests it in. */
  ghost predicate Permitted(s: State, pid: ProcessId, call: Syscall, t: Time) {
    match call
    case Kill(target) => target in s.processes
    case CreateEndpoint => Alive(s, pid)
    case Send(slot, _, data) => |data| <= MAX_MESSAGE_SIZE && HoldsEndpoint(s, pid, slot, WRITE_ONLY, t)
    case Call(slot, _, data) => |data| <= MAX_MESSAGE_SIZE && HoldsEndpoint(s, pid, slot, WRITE_ONLY, t)
    case SendWithCaps(slot, _, data, capSlots) =>
      |data| <= MAX_MESSAGE_SIZE && |capSlots| <= MAX_CAPS_PER_MESSAGE &&
      HoldsEndpoint(s, pid, slot, WRITE_ONLY, t) && AllHeld(s, pid, capSlots)
    case Receive(slot) => HoldsEndpoint(s, pid, slot, READ_ONLY, t)
    case CapGrant(slot, to, permissions) =>
      Holds(s, pid, slot, GRANT_ONLY, t) && Alive(s, to) && permissions.SubsetOf(CapAt(s, pid, slot).permissions)
    case CapDerive(slot, permissions) => HasCap(s, pid, slot) && permissions.SubsetOf(CapAt(s, pid, slot).permissions)
    case CapRevoke(slot) => HasCap(s, pid, slot)
    case CapDelete(slot) => HasCap(s, pid, slot)
    case CapInspect(slot) => HasCap(s, pid, slot)
    case _ => true
  }

  lemma CheckedExactly(s: State, pid: ProcessId, slot: CapSlot, required: Permissions,
                       expected: Option<ObjectType>, t: Time)
    ensures CheckedCap(s, pid, slot, required, expected, t).Success? <==>
      Holds(s, pid, slot, required, t) && (expected.Some? ==> CapAt(s, pid, slot).objectType == expected.value)
    ensures CheckedCap(s, pid, slot, required, expected, t).Success? ==>
      CheckedCap(s, pid, slot, required, expected, t).value == CapAt(s, pid, slot)
    ensures CheckedCap(s, pid, slot, required, expected, t) != Failure(EndpointNotFound)
  {
  }

  lemma DecisionExactly(s: State, pid: ProcessId, call: Syscall, t: Time)
    requires Inv(s)
    ensures !Decide(s, pid, call, t).result.Err? <==> Permitted(s, pid, call, t)
    ensures Decide(s, pid, call, t).result != Err(EndpointNotFound)
  {
    match call
    case Send(slot, _, _) => EndpointUse(s, pid, slot, WRITE_ONLY, t);
    case Call(slot, _, _) => EndpointUse(s, pid, slot, WRITE_ONLY, t);
    case SendWithCaps(slot, _, _, capSlots) => EndpointUse(s, pid, slot, WRITE_ONLY, t);
    case Receive(slot) => EndpointUse(s, pid, slot, READ_ONLY, t);
    case CapGrant(slot, _, _) => CheckedExactly(s, pid, slot, GRANT_ONLY, None, t);
    case _ =>
  }

  lemma EndpointUse(s: State, pid: ProcessId, slot: CapSlot, required: Permissions, t: Time)
    requires Inv(s)
    ensures var r := CheckedCap(s, pid, slot, required, Some(EndpointObject), t);
      (r.Success? <==> HoldsEndpoint(s, pid, slot, required, t)) && (r.Success? ==> r.value.objectId in s.endpoints) &&
      r != Failure(EndpointNotFound)
  {
    CheckedExactly(s, pid, slot, required, Some(EndpointObject), t);
    if HasCap(s, pid, slot) { assert CapOk(s, pid, slot); }
  }

  lemma TickKeepsPermitted(s: State, pid: ProcessId, call: Syscall, t: Time)
    ensures Permitted(Tick(s, pid, t), pid, call, t) <==> Permitted(s, pid, call, t)
  {
    var u := Tick(s, pid, t);
    assert u.capSpaces == s.capSpaces && u.processes.Keys == s.processes.Keys;
  }

  /** In every reachable state a syscall succeeds if and only if the caller has what it needs; in particular
      the "endpoint not found" refusal never occurs. */
  lemma SuccessExactly(es: seq<Event>, pid: ProcessId, call: Syscall, t: Time)
    ensures !Step(Run(es), pid, call, t).result.Err? <==> Permitted(Run(es), pid, call, t)
    ensures Step(Run(es), pid, call, t).result != Err(EndpointNotFound)
  {
    RunSatisfiesInv(es);
    TickKeepsInv(Run(es), pid, t);
    DecisionExactly(Tick(Run(es), pid, t), pid, call, t);
    TickKeepsPermitted(Run(es), pid, call, t);
  }

  // ---------------------------------------------------------------- what a grant, a derivation, a creation leaves

  /** A new capability with the rights asked for, on the source's object, a generation on, expiring with the source. */
  function AsAsked(id: nat, source: Capability, asked: Permissions): Capability {
    Capability(id, source.objectType, source.objectId, asked, source.generation + 1, source.expiresAt)
  }

  /** Slot `k` of `p` was empty and now holds `c`; every other slot of every process is as before. */
  ghost predicate OnlyAdds(s: State, s': State, p: ProcessId, k: CapSlot, c: Capability) {
    && !HasCap(s, p, k) && HasCap(s', p, k) && CapAt(s', p, k) == c
    && forall q: ProcessId, j: CapSlot :: q != p || j != k ==>
         (HasCap(s', q, j) <==> HasCap(s, q, j)) && (HasCap(s, q, j) ==> CapAt(s', q, j) == CapAt(s, q, j))
  }

  lemma InsertOnlyAdds(s: State, s': State, p: ProcessId, c: Capability)
    requires Inv(s) && p in s.capSpaces && s'.capSpaces == InsertCap(s.capSpaces, p, c)
    ensures OnlyAdds(s, s', p, FreshSlot(s, p), c)
  {
    assert forall j :: HasCap(s, p, j) ==> CapOk(s, p, j);
  }

  /** A grant answers with the recipient's new slot, and that slot holds the granted rights on the granter's object. */
  lemma GrantReply(s: State, pid: ProcessId, slot: CapSlot, to: ProcessId, permissions: Permissions, t: Time)
    requires Inv(s) && Step(s, pid, CapGrant(slot, to, permissions), t).result.Ok?
    ensures HasCap(s, pid, slot)
    ensures var r := Step(s, pid, CapGrant(slot, to, permissions), t);
      OnlyAdds(s, r.state, to, r.result.value, AsAsked(s.nextCapId, CapAt(s, pid, slot), permissions))
  {
    var u := Tick(s, pid, t);
    TickKeepsInv(s, pid, t);
    CheckedExactly(u, pid, slot, GRANT_ONLY, None, t);
    var s' := Step(s, pid, CapGrant(slot, to, permissions), t).state;
    InsertOnlyAdds(s, s', to, AsAsked(s.nextCapId, CapAt(s, pid, slot), permissions));
  }

  lemma DeriveReply(s: State, pid: ProcessId, slot: CapSlot, permissions: Permissions, t: Time)
    requires Inv(s) && Step(s, pid, CapDerive(slot, permissions), t).result.Ok?
    ensures HasCap(s, pid, slot)
    ensures var r := Step(s, pid, CapDerive(slot, permissions), t);
      OnlyAdds(s, r.state, pid, r.result.value, AsAsked(s.nextCapId, CapAt(s, pid, slot), permissions))
  {
    var s' := Step(s, pid, CapDerive(slot, permissions), t).state;
    InsertOnlyAdds(s, s', pid, AsAsked(s.nextCapId, CapAt(s, pid, slot), permissions));
  }

  /** What a successful grant or derivation leaves in the slot it answers, field by field. */
  lemma InstalledAsAsked(es: seq<Event>, pid: ProcessId, call: Syscall, t: Time)
    requires call.CapGrant? || call.CapDerive?
    requires Step(Run(es), pid, call, t).result.Ok?
    ensures HasCap(Run(es), pid, call.slot)
    ensures var r, to := Step(Run(es), pid, call, t), if call.CapGrant? then call.toPid else pid;
      && HasCap(r.state, to, r.result.value)
      && var c, source := CapAt(r.state, to, r.result.value), CapAt(Run(es), pid, call.slot);
      && c.permissions == call.permissions && c.objectType == source.objectType && c.objectId == source.objectId
      && c.expiresAt == source.expiresAt && c.generation == source.generation + 1 && c.id == Run(es).nextCapId
  {
    RunSatisfiesInv(es);
    match call
    case CapGrant(slot, to, permissions) => GrantReply(Run(es), pid, slot, to, permissions, t);
    case CapDerive(slot, permissions) => DeriveReply(Run(es), pid, slot, permissions, t);
  }

  /** A creation answers with slot and id packed in one word; while ids fit 32 bits both can be read back,
      the slot holds all rights on the endpoint, and the endpoint is new, empty and the caller's. */
  lemma CreateReply(s: State, pid: ProcessId, t: Time)
    requires Inv(s) && Step(s, pid, CreateEndpoint, t).result.Ok? && s.nextEndpointId < TWO32
    ensures var r := Step(s, pid, CreateEndpoint, t);
      var slot, id := r.result.value / TWO32, r.result.value % TWO32;
      && id !in s.endpoints && r.state.endpoints == s.endpoints[id := NewEndpoint(id, pid)]
      && OnlyAdds(s, r.state, pid, slot, Capability(s.nextCapId, EndpointObject, id, FULL, 0, 0))
  {
    var r := Step(s, pid, CreateEndpoint, t);
    var slot, id := FreshSlot(s, pid), s.nextEndpointId;
    assert r.result.value == slot * TWO32 + id;
    assert r.result.value / TWO32 == slot && r.result.value % TWO32 == id;
    assert forall e :: e in s.endpoints ==> EndpointOk(s, e);
    InsertOnlyAdds(s, r.state, pid, Capability(s.nextCapId, EndpointObject, id, FULL, 0, 0));
  }

  /** Slot `k` of `p` was held and is empty now; every other slot of every process is as before. */
  ghost predicate OnlyRemoves(s: State, s': State, p: ProcessId, k: CapSlot) {
    HasCap(s, p, k) && OnlyAdds(s', s, p, k, CapAt(s, p, k))
  }

  /** What a syscall with this reply does to the capability tables of the whole kernel. */
  ghost predicate TablesMoveAsAnswered(s: State, s': State, pid: ProcessId, call: Syscall, r: SyscallResult) {
    if r.Err? then s'.capSpaces == s.capSpaces
    else match call
      case CapGrant(slot, to, permissions) =>
        r.Ok? && HasCap(s, pid, slot) &&
        OnlyAdds(s, s', to, r.value, AsAsked(s.nextCapId, CapAt(s, pid, slot), permissions))
      case CapDerive(slot, permissions) =>
        r.Ok? && HasCap(s, pid, slot) &&
        OnlyAdds(s, s', pid, r.value, AsAsked(s.nextCapId, CapAt(s, pid, slot), permissions))
      case CreateEndpoint =>
        r.Ok? && (s.nextEndpointId < TWO32 ==>
          OnlyAdds(s, s', pid, r.value / TWO32, Capability(s.nextCapId, EndpointObject, r.value % TWO32, FULL, 0, 0)))
      case CapRevoke(slot) => OnlyRemoves(s, s', pid, slot)
      case CapDelete(slot) => OnlyRemoves(s, s', pid, slot)
      case _ => s'.capSpaces == s.capSpaces
  }

  lemma DropOnlyRemoves(s: State, pid: ProcessId, slot: CapSlot, t: Time)
    requires HasCap(s, pid, slot)
    ensures OnlyRemoves(s, Perform(Tick(s, pid, t), Drop(pid, slot)), pid, slot)
  {
  }

  lemma OtherCallsKeepTables(s: State, pid: ProcessId, call: Syscall, t: Time)
    requires !call.CapGrant? && !call.CapDerive? && !call.CreateEndpoint? && !call.CapRevoke? && !call.CapDelete?
    ensures Step(s, pid, call, t).state.capSpaces == s.capSpaces
  {
    var u := Tick(s, pid, t);
    OtherCallsDecide(u, pid, call, t);
    OtherEffectsKeepTables(u, Decide(u, pid, call, t).effect);
  }

  predicate MovesTables(e: Effect) { e.Install? || e.Open? || e.Drop? }

  lemma OtherCallsDecide(s: State, pid: ProcessId, call: Syscall, t: Time)
    requires !call.CapGrant? && !call.CapDerive? && !call.CreateEndpoint? && !call.CapRevoke? && !call.CapDelete?
    ensures !MovesTables(Decide(s, pid, call, t).effect)
  {
  }

  lemma OtherEffectsKeepTables(s: State, e: Effect)
    requires !MovesTables(e)
    ensures Perform(s, e).capSpaces == s.capSpaces
  {
  }

  /** In every reachable state, for every syscall: a grant, derivation or creation adds exactly one capability, in the
      slot it answers; a revocation or deletion removes exactly one; nothing else, and no refusal, touches any table. */
  lemma TablesFollowReplies(es: seq<Event>, pid: ProcessId, call: Syscall, t: Time)
    ensures var r := Step(Run(es), pid, call, t); TablesMoveAsAnswered(Run(es), r.state, pid, call, r.result)
  {
    RunSatisfiesInv(es);
    var s := Run(es);
    var r := Step(s, pid, call, t);
    if r.result.Err? {
      RefusalIsSilent(s, pid, call, t);
    } else {
      SuccessMovesTables(s, pid, call, t);
    }
  }

  lemma SuccessMovesTables(s: State, pid: ProcessId, call: Syscall, t: Time)
    requires Inv(s) && !Step(s, pid, call, t).result.Err?
    ensures TablesMoveAsAnswered(s, Step(s, pid, call, t).state, pid, call, Step(s, pid, call, t).result)
  {
    match call
    case CapGrant(slot, to, permissions) => GrantReply(s, pid, slot, to, permissions, t);
    case CapDerive(slot, permissions) => DeriveReply(s, pid, slot, permissions, t);
    case CreateEndpoint => if s.nextEndpointId < TWO32 { CreateReply(s, pid, t); }
    case CapRevoke(slot) => DropOnlyRemoves(s, pid, slot, t);
    case CapDelete(slot) => DropOnlyRemoves(s, pid, slot, t);
    case _ => OtherCallsKeepTables(s, pid, call, t);
  }

  /** Deleting what was just derived puts every capability table back. */
  lemma DeriveThenDelete(s: State, pid: ProcessId, slot: CapSlot, permissions: Permissions, t: Time, t': Time)
    requires Inv(s) && Step(s, pid, CapDerive(slot, permissions), t).result.Ok?
    ensures var r := Step(s, pid, CapDerive(slot, permissions), t);
      var back := Step(r.state, pid, CapDelete(r.result.value), t');
      && back.result == Ok(0) && back.state.endpoints == s.endpoints
      && back.state.capSpaces.Keys == s.capSpaces.Keys
      && forall p :: p in s.capSpaces ==> back.state.capSpaces[p].slots == s.capSpaces[p].slots
  {
    DeriveReply(s, pid, slot, permissions, t);
    var r := Step(s, pid, CapDerive(slot, permissions), t);
    var k: CapSlot := r.result.value;
    DeriveKeepsRest(s, pid, slot, permissions, t);
    DeleteStep(r.state, pid, k, t');
    DropOnlyRemoves(r.state, pid, k, t');
    AddThenRemove(s, r.state, Step(r.state, pid, CapDelete(k), t').state, pid, k, CapAt(r.state, pid, k));
  }

  lemma DeriveKeepsRest(s: State, pid: ProcessId, slot: CapSlot, permissions: Permissions, t: Time)
    ensures var s' := Step(s, pid, CapDerive(slot, permissions), t).state;
      s'.endpoints == s.endpoints && s'.capSpaces.Keys == s.capSpaces.Keys
  {
  }

  lemma DeleteStep(s: State, pid: ProcessId, k: CapSlot, t: Time)
    requires HasCap(s, pid, k)
    ensures var r := Step(s, pid, CapDelete(k), t);
      && r.result == Ok(0) && r.state == Perform(Tick(s, pid, t), Drop(pid, k))
      && r.state.endpoints == s.endpoints && r.state.capSpaces.Keys == s.capSpaces.Keys
  {
  }

  lemma AddThenRemove(s: State, s1: State, s2: State, p: ProcessId, k: CapSlot, c: Capability)
    requires OnlyAdds(s, s1, p, k, c) && OnlyRemoves(s1, s2, p, k)
    requires s.capSpaces.Keys == s1.capSpaces.Keys == s2.capSpaces.Keys
    ensures forall q :: q in s.capSpaces ==> s2.capSpaces[q].slots == s.capSpaces[q].slots
  {
    forall q | q in s.capSpaces
      ensures s2.capSpaces[q].slots == s.capSpaces[q].slots
    {
      assert forall j: CapSlot :: HasCap(s2, q, j) <==> HasCap(s, q, j);
      assert forall j: CapSlot :: HasCap(s, q, j) ==> CapAt(s2, q, j) == CapAt(s, q, j);
      assert forall j: CapSlot :: HasCap(s, q, j) <==> j in s.capSpaces[q].slots;
      assert forall j: CapSlot :: HasCap(s2, q, j) <==> j in s2.capSpaces[q].slots;
    }
  }

  // ---------------------------------------------------------------- what the reports are good for

  /** A caller can predict from an inspection which rights the kernel will find sufficient, and until when. */
  lemma InspectionPredictsUse(s: State, pid: ProcessId, slot: CapSlot, t: Time, required: Permissions, t': Time)
    requires Step(s, pid, CapInspect(slot), t).result.Inspected?
    ensures var info := Step(s, pid, CapInspect(slot), t).result.info;
      && HasCap(s, pid, slot) && info.id == CapAt(s, pid, slot).id && info.objectId == CapAt(s, pid, slot).objectId
      && info.objectType == CapAt(s, pid, slot).objectType.ToByte()
      && (CheckedCap(s, pid, slot, required, None, t').Success? <==>
            required.SubsetOf(Permissions.FromByte(info.permissions)) && (info.expiresAt == 0 || t' <= info.expiresAt))
  {
    var cap := CapAt(s, pid, slot);
    assert Permissions.FromByte(cap.permissions.ToByte()) == cap.permissions;
    CheckedExactly(s, pid, slot, required, None, t');
  }

  /** An inspection of a reachable kernel tells exactly which later sends through the slot succeed, while it stays as it
      is: the type byte, the write bit, the expiry and the size decide. */
  lemma InspectionPredictsSend(es: seq<Event>, pid: ProcessId, slot: CapSlot, t: Time,
                               tag: nat, data: seq<byte>, t': Time)
    requires Step(Run(es), pid, CapInspect(slot), t).result.Inspected?
    ensures var info := Step(Run(es), pid, CapInspect(slot), t).result.info;
      !Step(Run(es), pid, Send(slot, tag, data), t').result.Err? <==>
        |data| <= 4096 && info.objectType == 1 && Bit(info.permissions, 1) == 1 &&
        (info.expiresAt == 0 || t' <= info.expiresAt)
  {
    InspectionPredictsUse(Run(es), pid, slot, t, WRITE_ONLY, t');
    SuccessExactly(es, pid, Send(slot, tag, data), t');
    CheckedExactly(Run(es), pid, slot, WRITE_ONLY, None, t');
    PermissionBits(CapAt(Run(es), pid, slot).permissions);
  }

  /** The capability list is the caller's table: in slot order, nothing missing and nothing else. */
  lemma ListIsTable(s: State, pid: ProcessId, t: Time, k: CapSlot, c: Capability)
    ensures Step(s, pid, ListCaps, t).result.CapList?
    ensures (k, c) in Step(s, pid, ListCaps, t).result.caps <==> HasCap(s, pid, k) && CapAt(s, pid, k) == c
    ensures var caps := Step(s, pid, ListCaps, t).result.caps;
      forall i, j :: 0 <= i < j < |caps| ==> caps[i].0 < caps[j].0
  {
    if pid in s.capSpaces {
      TableListed(s.capSpaces[pid], k, c);
    }
  }

  /** A report gives the capability field by field, its rights as bits. */
  ghost predicate Reports(info: CapInfo, c: Capability) {
    && info.id == c.id && info.objectType == c.objectType.ToByte() && info.objectId == c.objectId
    && info.generation == c.generation && info.expiresAt == c.expiresAt
    && (Bit(info.permissions, 0) == 1 <==> c.permissions.read)
    && (Bit(info.permissions, 1) == 1 <==> c.permissions.write)
    && (Bit(info.permissions, 2) == 1 <==> c.permissions.grant)
  }

  lemma InspectReports(s: State, pid: ProcessId, slot: CapSlot)
    requires HasCap(s, pid, slot)
    ensures var r := Inspect(s, pid, slot).result;
      r.Inspected? && Reports(r.info, CapAt(s, pid, slot))
  {
    PermissionBits(CapAt(s, pid, slot).permissions);
  }

  lemma InspectStepReports(s: State, pid: ProcessId, slot: CapSlot, t: Time)
    requires HasCap(s, pid, slot)
    ensures var r := Step(s, pid, CapInspect(slot), t).result;
      r.Inspected? && Reports(r.info, CapAt(s, pid, slot))
  {
    var u := Tick(s, pid, t);
    assert u.capSpaces == s.capSpaces;
    InspectReports(u, pid, slot);
  }

  /** Listing and inspecting agree: every listed capability is reported as listed. */
  lemma InspectionMatchesList(s: State, pid: ProcessId, t: Time, slot: CapSlot, c: Capability, t': Time)
    requires Step(s, pid, ListCaps, t).result.CapList? && (slot, c) in Step(s, pid, ListCaps, t).result.caps
    ensures var r := Step(s, pid, CapInspect(slot), t').result;
      r.Inspected? && Reports(r.info, c)
  {
    assert HasCap(s, pid, slot) && CapAt(s, pid, slot) == c by { ListIsTable(s, pid, t, slot, c); }
    InspectStepReports(s, pid, slot, t');
  }

  lemma TableListed(cs: CapabilitySpace, k: CapSlot, c: Capability)
    ensures (k, c) in Caps(cs) <==> k in cs.slots && cs.slots[k] == c
    ensures forall i, j :: 0 <= i < j < |Caps(cs)| ==> Caps(cs)[i].0 < Caps(cs)[j].0
  {
    var ks := SortedKeys(cs.slots.Keys);
    if k in cs.slots {
      assert k in ks;
      var i :| 0 <= i < |ks| && ks[i] == k;
      assert Caps(cs)[i] == (k, cs.slots[k]);
    }
    if (k, c) in Caps(cs) {
      var i :| 0 <= i < |Caps(cs)| && Caps(cs)[i] == (k, c);
      assert ks[i] in ks;
    }
  }

  /** The process list is the process table: in pid order, nothing missing and nothing else, each with its name and its
      status at the call. */
  lemma ProcessListIsTable(s: State, pid: ProcessId, t: Time, p: ProcessId, name: string, status: ProcessStatus)
    ensures Step(s, pid, ListProcesses, t).result.ProcessList?
    ensures (p, name, status) in Step(s, pid, ListProcesses, t).result.procs <==> Described(s, p, name, status)
    ensures PidOrder(Step(s, pid, ListProcesses, t).result.procs)
  {
    ProcessReply(s, pid, t);
    ProcessesListed(Tick(s, pid, t), p, name, status);
    TickKeepsDescription(s, pid, t, p, name, status);
  }

  ghost predicate Described(s: State, p: ProcessId, name: string, status: ProcessStatus) {
    p in s.processes && s.processes[p].name == name && s.processes[p].status == status
  }

  ghost predicate PidOrder(procs: seq<(ProcessId, string, ProcessStatus)>) {
    forall i, j :: 0 <= i < j < |procs| ==> procs[i].0 < procs[j].0
  }

  lemma ProcessReply(s: State, pid: ProcessId, t: Time)
    ensures Step(s, pid, ListProcesses, t).result == ProcessList(Processes(Tick(s, pid, t)))
  {
  }

  lemma TickKeepsDescription(s: State, pid: ProcessId, t: Time, p: ProcessId, name: string, status: ProcessStatus)
    ensures Described(Tick(s, pid, t), p, name, status) <==> Described(s, p, name, status)
  {
  }

  lemma ProcessesListed(s: State, p: ProcessId, name: string, status: ProcessStatus)
    ensures (p, name, status) in Processes(s) <==> Described(s, p, name, status)
    ensures PidOrder(Processes(s))
  {
    if Described(s, p, name, status) {
      DescribedIsListed(s, p);
    }
    if (p, name, status) in Processes(s) {
      var i :| 0 <= i < |Processes(s)| && Processes(s)[i] == (p, name, status);
      ProcessesAt(s, i);
    }
    ListedInOrder(s);
  }

  lemma DescribedIsListed(s: State, p: ProcessId)
    requires p in s.processes
    ensures (p, s.processes[p].name, s.processes[p].status) in Processes(s)
  {
    var ks := SortedKeys(s.processes.Keys);
    assert p in ks;
    var i :| 0 <= i < |ks| && ks[i] == p;
    ProcessesAt(s, i);
    assert Processes(s)[i] == (p, s.processes[p].name, s.processes[p].status);
  }

  lemma ListedInOrder(s: State)
    ensures PidOrder(Processes(s))
  {
    var procs := Processes(s);
    forall i, j | 0 <= i < j < |procs|
      ensures procs[i].0 < procs[j].0
    {
      ProcessesAt(s, i);
      ProcessesAt(s, j);
    }
  }

  // ---------------------------------------------------------------- which reply

  /** Why a use of a slot is refused: nothing suitable there, or not enough rights left. */
  ghost function SlotCause(s: State, pid: ProcessId, slot: CapSlot, required: Permissions, endpoint: bool, t: Time)
    : Option<KernelError>
  {
    if pid !in s.processes then Some(ProcessNotFound)
    else if !HasCap(s, pid, slot) || (endpoint && CapAt(s, pid, slot).objectType != EndpointObject)
    then Some(InvalidCapability)
    else if !Holds(s, pid, slot, required, t) then Some(PermissionDenied)
    else None
  }

  ghost function OrElse(first: Option<KernelError>, second: Option<KernelError>): Option<KernelError> {
    if first.Some? then first else second
  }

  /** Why a syscall is refused, the earlier cause winning. */
  ghost function Cause(s: State, pid: ProcessId, call: Syscall, t: Time): Option<KernelError> {
    match call
    case Kill(target) => if target in s.processes then None else Some(ProcessNotFound)
    case CreateEndpoint => if Alive(s, pid) then None else Some(ProcessNotFound)
    case Send(slot, _, data) =>
      if |data| > 4096 then Some(MessageTooLarge) else SlotCause(s, pid, slot, WRITE_ONLY, true, t)
    case Call(slot, _, data) =>
      if |data| > 4096 then Some(MessageTooLarge) else SlotCause(s, pid, slot, WRITE_ONLY, true, t)
    case SendWithCaps(slot, _, data, capSlots) =>
      if |data| > 4096 then Some(MessageTooLarge)
      else if |capSlots| > 4 then Some(TooManyCaps)
      else OrElse(SlotCause(s, pid, slot, WRITE_ONLY, true, t),
                  if AllHeld(s, pid, capSlots) then None else Some(InvalidCapability))
    case Receive(slot) => SlotCause(s, pid, slot, READ_ONLY, true, t)
    case CapGrant(slot, to, permissions) =>
      OrElse(SlotCause(s, pid, slot, GRANT_ONLY, false, t),
             if !Alive(s, to) then Some(ProcessNotFound)
             else if HasCap(s, pid, slot) && permissions.SubsetOf(CapAt(s, pid, slot).permissions) then None
             else Some(PermissionDenied))
    case CapDerive(slot, permissions) =>
      if pid !in s.processes then Some(ProcessNotFound)
      else if !HasCap(s, pid, slot) then Some(InvalidCapability)
      else if permissions.SubsetOf(CapAt(s, pid, slot).permissions) then None else Some(PermissionDenied)
    case CapInspect(slot) =>
      if pid !in s.processes then Some(ProcessNotFound)
      else if HasCap(s, pid, slot) then None else Some(InvalidCapability)
    case CapRevoke(slot) => if HasCap(s, pid, slot) then None else Some(InvalidCapability)
    case CapDelete(slot) => if HasCap(s, pid, slot) then None else Some(InvalidCapability)
    case _ => None
  }

  /** The reply of a successful syscall, apart from the slots, reports and lists treated above. */
  ghost predicate Answers(s: State, pid: ProcessId, call: Syscall, t: Time, r: SyscallResult) {
    match call
    case GetTime => r == Ok(t)
    case Exit(code) => r.Ok? && r.value < TWO64 && r.value == (if code < 0 then TWO64 + code else code)
    case Call(_, _, _) => r == WouldBlock
    case Receive(slot) =>
      HasCap(s, pid, slot) &&
      var waiting := Pending(s, CapAt(s, pid, slot).objectId);
      r == if waiting == [] then WouldBlock else Delivered(waiting[0])
    case CreateEndpoint => r.Ok?
    case CapGrant(_, _, _) => r.Ok?
    case CapDerive(_, _) => r.Ok?
    case CapInspect(_) => r.Inspected?
    case ListCaps => r.CapList?
    case ListProcesses => r.ProcessList?
    case _ => r == Ok(0)
  }

  ghost predicate RepliesAs(s: State, pid: ProcessId, call: Syscall, t: Time, r: SyscallResult) {
    match Cause(s, pid, call, t)
    case Some(e) => r == Err(e)
    case None => Answers(s, pid, call, t, r)
  }

  lemma SlotCauseDecides(s: State, pid: ProcessId, slot: CapSlot, required: Permissions, endpoint: bool, t: Time)
    requires Inv(s)
    ensures var r := CheckedCap(s, pid, slot, required, if endpoint then Some(EndpointObject) else None, t);
      match SlotCause(s, pid, slot, required, endpoint, t)
      case Some(e) => r == Failure(e)
      case None =>
        && HasCap(s, pid, slot) && r == Success(CapAt(s, pid, slot))
        && (endpoint ==> CapAt(s, pid, slot).objectId in s.endpoints)
  {
    if HasCap(s, pid, slot) { assert CapOk(s, pid, slot); }
  }

  lemma PostReplies(s: State, pid: ProcessId, call: Syscall, t: Time)
    requires Inv(s) && (call.Send? || call.Call? || call.SendWithCaps?)
    ensures RepliesAs(s, pid, call, t, Decide(s, pid, call, t).result)
  {
    SlotCauseDecides(s, pid, call.slot, WRITE_ONLY, true, t);
    if call.SendWithCaps? && pid in s.capSpaces { CollectIsCarried(s, pid, call.capSlots); }
  }

  lemma DecisionReplies(s: State, pid: ProcessId, call: Syscall, t: Time)
    requires Inv(s)
    ensures RepliesAs(s, pid, call, t, Decide(s, pid, call, t).result)
  {
    match call
    case Send(_, _, _) => PostReplies(s, pid, call, t);
    case Call(_, _, _) => PostReplies(s, pid, call, t);
    case SendWithCaps(_, _, _, _) => PostReplies(s, pid, call, t);
    case Receive(slot) => SlotCauseDecides(s, pid, slot, READ_ONLY, true, t);
    case CapGrant(slot, _, _) => SlotCauseDecides(s, pid, slot, GRANT_ONLY, false, t);
    case _ =>
  }

  lemma TickKeepsReplies(s: State, pid: ProcessId, call: Syscall, t: Time, r: SyscallResult)
    ensures RepliesAs(Tick(s, pid, t), pid, call, t, r) <==> RepliesAs(s, pid, call, t, r)
  {
    TickKeepsCause(s, pid, call, t);
    TickKeepsAnswers(s, pid, call, t, r);
  }

  lemma TickKeepsAnswers(s: State, pid: ProcessId, call: Syscall, t: Time, r: SyscallResult)
    ensures Answers(Tick(s, pid, t), pid, call, t, r) <==> Answers(s, pid, call, t, r)
  {
    var u := Tick(s, pid, t);
    assert u.capSpaces == s.capSpaces && u.endpoints == s.endpoints;
  }

  lemma TickKeepsCause(s: State, pid: ProcessId, call: Syscall, t: Time)
    ensures Cause(Tick(s, pid, t), pid, call, t) == Cause(s, pid, call, t)
  {
    var u := Tick(s, pid, t);
    assert u.capSpaces == s.capSpaces && u.processes.Keys == s.processes.Keys;
    assert forall p :: Alive(u, p) == Alive(s, p);
    if call.SendWithCaps? { TickSeesSame(s, pid, t, call.capSlots); }
  }

  /** In every reachable state every syscall is answered exactly so: which refusal, and otherwise which reply. */
  lemma RepliesExactly(es: seq<Event>, pid: ProcessId, call: Syscall, t: Time)
    ensures RepliesAs(Run(es), pid, call, t, Step(Run(es), pid, call, t).result)
  {
    RunSatisfiesInv(es);
    TickKeepsInv(Run(es), pid, t);
    DecisionReplies(Tick(Run(es), pid, t), pid, call, t);
    TickKeepsReplies(Run(es), pid, call, t, Step(Run(es), pid, call, t).result);
  }
}
