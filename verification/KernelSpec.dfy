/** The kernel as a transition function on values.

    A syscall is decided first (`Decide`: which single effect, which reply, which commits) and then
    performed (`Perform`). Runs are sequences of registrations and syscalls from the empty state. */
module KernelSpec {
  import opened KernelTypes
  import opened Common
  import opened Words
  import opened Tables

  predicate HasCap(s: State, p: ProcessId, k: CapSlot) {
    p in s.capSpaces && k in s.capSpaces[p].slots
  }

  function CapAt(s: State, p: ProcessId, k: CapSlot): Capability
    requires HasCap(s, p, k)
  {
    s.capSpaces[p].slots[k]
  }

  /** In the table and not a zombie. */
  predicate Alive(s: State, p: ProcessId) {
    p in s.processes && s.processes[p].status != Zombie
  }

  // ---------------------------------------------------------------- effects

  datatype Effect =
    | Nothing
    | Bury(pid: ProcessId)
    | Open(owner: ProcessId)
    | Post(endpoint: EndpointId, msg: Message, counted: bool)
    | Take(endpoint: EndpointId, taker: ProcessId)
    | Install(pid: ProcessId, source: Capability, permissions: Permissions)
    | Drop(pid: ProcessId, slot: CapSlot)

  datatype Decision = Decision(effect: Effect, result: SyscallResult, commits: seq<CommitType>)

  function Refuse(e: KernelError): Decision {
    Decision(Nothing, Err(e), [])
  }

  function Reply(r: SyscallResult): Decision {
    Decision(Nothing, r, [])
  }

  /** `update_syscall_metrics`: what every syscall does first. */
  function Tick(s: State, p: ProcessId, t: Time): State {
    if p !in s.processes then s else
      var proc := s.processes[p];
      s.(processes := s.processes[p :=
        proc.(metrics := proc.metrics.(syscallCount := proc.metrics.syscallCount + 1, lastActive := t))])
  }

  function InsertCap(spaces: map<ProcessId, CapabilitySpace>, p: ProcessId, cap: Capability)
    : map<ProcessId, CapabilitySpace>
  {
    if p in spaces then spaces[p := spaces[p].Insert(cap)] else spaces
  }

  /** The slot the next insertion into `p`'s table takes; 0 stands in when `p` has no table. */
  function FreshSlot(s: State, p: ProcessId): CapSlot {
    if p in s.capSpaces then s.capSpaces[p].nextSlot else 0
  }

  function Child(id: nat, source: Capability, permissions: Permissions): Capability {
    Capability(id, source.objectType, source.objectId, permissions, source.generation + 1, source.expiresAt)
  }

  function CountSent(procs: map<ProcessId, Process>, p: ProcessId, size: nat): map<ProcessId, Process> {
    if p !in procs then procs else
      var proc := procs[p];
      procs[p := proc.(metrics := proc.metrics.(
        ipcSent := proc.metrics.ipcSent + 1, ipcBytesSent := proc.metrics.ipcBytesSent + size))]
  }

  function CountReceived(procs: map<ProcessId, Process>, p: ProcessId, size: nat): map<ProcessId, Process> {
    if p !in procs then procs else
      var proc := procs[p];
      procs[p := proc.(metrics := proc.metrics.(
        ipcReceived := proc.metrics.ipcReceived + 1, ipcBytesReceived := proc.metrics.ipcBytesReceived + size))]
  }

  function Perform(s: State, e: Effect): State {
    match e
    case Nothing => s
    case Bury(p) =>
      if p in s.processes
      then s.(processes := s.processes[p := s.processes[p].(status := Zombie)])
      else s
    case Open(owner) =>
      s.(endpoints := s.endpoints[s.nextEndpointId := NewEndpoint(s.nextEndpointId, owner)],
         capSpaces := InsertCap(s.capSpaces, owner,
                                Capability(s.nextCapId, EndpointObject, s.nextEndpointId, FULL, 0, 0)),
         nextEndpointId := s.nextEndpointId + 1,
         nextCapId := s.nextCapId + 1)
    case Post(ep, msg, counted) =>
      if ep !in s.endpoints then s else
        s.(endpoints := s.endpoints[ep := s.endpoints[ep].Enqueue(msg)],
           processes := if counted then CountSent(s.processes, msg.sender, |msg.data|) else s.processes,
           totalIpcCount := s.totalIpcCount + 1)
    case Take(ep, taker) =>
      if ep !in s.endpoints then s else
        var pending := s.endpoints[ep].pending;
        s.(endpoints := s.endpoints[ep := s.endpoints[ep].Dequeue()],
           processes := if pending == [] then s.processes
                        else CountReceived(s.processes, taker, |pending[0].data|))
    case Install(p, source, permissions) =>
      s.(capSpaces := InsertCap(s.capSpaces, p, Child(s.nextCapId, source, permissions)),
         nextCapId := s.nextCapId + 1)
    case Drop(p, slot) =>
      if p in s.capSpaces
      then s.(capSpaces := s.capSpaces[p := s.capSpaces[p].Remove(slot)])
      else s
  }

  // ---------------------------------------------------------------- decisions

  function CheckedCap(s: State, pid: ProcessId, slot: CapSlot, required: Permissions,
                      expected: Option<ObjectType>, t: Time): Result<Capability, KernelError>
  {
    if pid !in s.capSpaces then Failure(ProcessNotFound)
    else match AxiomCheck(s.capSpaces[pid], slot, required, expected, t)
      case Success(cap) => Success(cap)
      case Failure(e) => Failure(FromAxiom(e))
  }

  function DecidePost(s: State, pid: ProcessId, slot: CapSlot, tag: nat, data: seq<byte>,
                      caps: Result<seq<TransferredCap>, KernelError>, counted: bool, t: Time): Decision
  {
    match CheckedCap(s, pid, slot, WRITE_ONLY, Some(EndpointObject), t)
    case Failure(e) => Refuse(e)
    case Success(cap) =>
      if caps.Failure? then Refuse(caps.error)
      else if cap.objectId !in s.endpoints then Refuse(EndpointNotFound)
      else Decision(Post(cap.objectId, Message(pid, tag, data, caps.value), counted), Ok(0),
                    [IpcSent(pid, cap.objectId, tag, |data|)])
  }

  function DecideSend(s: State, pid: ProcessId, slot: CapSlot, tag: nat, data: seq<byte>, t: Time): Decision {
    if |data| > MAX_MESSAGE_SIZE then Refuse(MessageTooLarge)
    else DecidePost(s, pid, slot, tag, data, Success([]), true, t)
  }

  /** The capabilities a message carries, or the refusal when a slot is empty. */
  function Collect(cs: CapabilitySpace, slots: seq<CapSlot>): Result<seq<TransferredCap>, KernelError> {
    if exists i :: 0 <= i < |slots| && slots[i] !in cs.slots then Failure(InvalidCapability)
    else Success(seq(|slots|, i requires 0 <= i < |slots| => Transferred(cs.slots[slots[i]])))
  }

  function DecideSendWithCaps(s: State, pid: ProcessId, slot: CapSlot, tag: nat, data: seq<byte>,
                              capSlots: seq<CapSlot>, t: Time): Decision
  {
    if |data| > MAX_MESSAGE_SIZE then Refuse(MessageTooLarge)
    else if |capSlots| > MAX_CAPS_PER_MESSAGE then Refuse(TooManyCaps)
    else if pid !in s.capSpaces then Refuse(ProcessNotFound)
    else DecidePost(s, pid, slot, tag, data, Collect(s.capSpaces[pid], capSlots), false, t)
  }

  function DecideReceive(s: State, pid: ProcessId, slot: CapSlot, t: Time): Decision {
    match CheckedCap(s, pid, slot, READ_ONLY, Some(EndpointObject), t)
    case Failure(e) => Refuse(e)
    case Success(cap) =>
      if cap.objectId !in s.endpoints then Refuse(EndpointNotFound)
      else
        var pending := s.endpoints[cap.objectId].pending;
        Decision(Take(cap.objectId, pid), if pending == [] then WouldBlock else Delivered(pending[0]), [])
  }

  function DecideGrant(s: State, pid: ProcessId, slot: CapSlot, toPid: ProcessId,
                       permissions: Permissions, t: Time): Decision
  {
    match CheckedCap(s, pid, slot, GRANT_ONLY, None, t)
    case Failure(e) => Refuse(e)
    case Success(source) =>
      if !Alive(s, toPid) then Refuse(ProcessNotFound)
      else if !permissions.SubsetOf(source.permissions) then Refuse(PermissionDenied)
      else Decision(Install(toPid, source, permissions), Ok(FreshSlot(s, toPid)),
                    [CapGranted(pid, toPid, FreshSlot(s, toPid), source.objectId)])
  }

  function DecideDerive(s: State, pid: ProcessId, slot: CapSlot, permissions: Permissions): Decision {
    if pid !in s.capSpaces then Refuse(ProcessNotFound)
    else if !HasCap(s, pid, slot) then Refuse(InvalidCapability)
    else if !permissions.SubsetOf(CapAt(s, pid, slot).permissions) then Refuse(PermissionDenied)
    else Decision(Install(pid, CapAt(s, pid, slot), permissions), Ok(FreshSlot(s, pid)),
                  [CapDerived(pid, slot, FreshSlot(s, pid))])
  }

  function DecideDrop(s: State, pid: ProcessId, slot: CapSlot, commit: CommitType): Decision {
    if HasCap(s, pid, slot) then Decision(Drop(pid, slot), Ok(0), [commit]) else Refuse(InvalidCapability)
  }

  function Inspect(s: State, pid: ProcessId, slot: CapSlot): Decision {
    if pid !in s.capSpaces then Refuse(ProcessNotFound)
    else if !HasCap(s, pid, slot) then Refuse(InvalidCapability)
    else
      var cap := CapAt(s, pid, slot);
      Reply(Inspected(CapInfo(cap.id, cap.objectType.ToByte(), cap.objectId, cap.permissions.ToByte(),
                              cap.generation, cap.expiresAt)))
  }

  /** A signed code cast to an unsigned 64-bit word. */
  function AsU64(code: i32): nat {
    if code >= 0 then code else 0x1_0000_0000_0000_0000 + code
  }

  /** `(slot << 32) | (id & 0xFFFF_FFFF)`. */
  function Pack(slot: CapSlot, id: EndpointId): nat {
    slot * 0x1_0000_0000 + id % 0x1_0000_0000
  }

  function Processes(s: State): seq<(ProcessId, string, ProcessStatus)> {
    var ks := SortedKeys(s.processes.Keys);
    seq(|ks|, i requires 0 <= i < |ks| =>
      assert ks[i] in ks; (ks[i], s.processes[ks[i]].name, s.processes[ks[i]].status))
  }

  lemma ProcessesAt(s: State, i: nat)
    requires i < |SortedKeys(s.processes.Keys)|
    ensures var ks := SortedKeys(s.processes.Keys);
      |Processes(s)| == |ks| && ks[i] in s.processes &&
      Processes(s)[i] == (ks[i], s.processes[ks[i]].name, s.processes[ks[i]].status)
  {
    var ks := SortedKeys(s.processes.Keys);
    assert ks[i] in ks;
  }

  function Caps(cs: CapabilitySpace): seq<(CapSlot, Capability)> {
    var ks := SortedKeys(cs.slots.Keys);
    seq(|ks|, i requires 0 <= i < |ks| => assert ks[i] in ks; (ks[i], cs.slots[ks[i]]))
  }

  lemma CapsAt(cs: CapabilitySpace, i: nat)
    requires i < |SortedKeys(cs.slots.Keys)|
    ensures var ks := SortedKeys(cs.slots.Keys);
      |Caps(cs)| == |ks| && ks[i] in cs.slots && Caps(cs)[i] == (ks[i], cs.slots[ks[i]])
  {
    var ks := SortedKeys(cs.slots.Keys);
    assert ks[i] in ks;
  }

  function Decide(s: State, pid: ProcessId, call: Syscall, t: Time): Decision {
    match call
    case Debug(_) => Reply(Ok(0))
    case GetTime => Reply(Ok(t))
    case Yield => Reply(Ok(0))
    case Exit(code) => Decision(Bury(pid), Ok(AsU64(code)), [ProcessExited(pid, code)])
    case Kill(target) =>
      if target !in s.processes then Refuse(ProcessNotFound)
      else Decision(Bury(target), Ok(0), [ProcessKilled(target, pid)])
    case ListProcesses => Reply(ProcessList(Processes(s)))
    case CreateEndpoint =>
      if !Alive(s, pid) then Refuse(ProcessNotFound)
      else Decision(Open(pid), Ok(Pack(FreshSlot(s, pid), s.nextEndpointId)),
                    [EndpointCreated(s.nextEndpointId, pid)])
    case Send(slot, tag, data) => DecideSend(s, pid, slot, tag, data, t)
    case Receive(slot) => DecideReceive(s, pid, slot, t)
    case SendWithCaps(slot, tag, data, capSlots) => DecideSendWithCaps(s, pid, slot, tag, data, capSlots, t)
    case Call(slot, tag, data) =>
      var d := DecideSend(s, pid, slot, tag, data, t);
      if d.result.Ok? then d.(result := WouldBlock) else d
    case ListCaps => Reply(CapList(if pid in s.capSpaces then Caps(s.capSpaces[pid]) else []))
    case CapGrant(slot, toPid, permissions) => DecideGrant(s, pid, slot, toPid, permissions, t)
    case CapRevoke(slot) => DecideDrop(s, pid, slot, CapRevoked(pid, slot))
    case CapDelete(slot) => DecideDrop(s, pid, slot, CapDeleted(pid, slot))
    case CapInspect(slot) => Inspect(s, pid, slot)
    case CapDerive(slot, permissions) => DecideDerive(s, pid, slot, permissions)
  }

  // ---------------------------------------------------------------- steps and runs

  datatype StepResult = StepResult(state: State, result: SyscallResult, commits: seq<Commit>)

  function Stamp(cs: seq<CommitType>, t: Time): seq<Commit> {
    seq(|cs|, i requires 0 <= i < |cs| => Commit(cs[i], t))
  }

  function Step(s: State, pid: ProcessId, call: Syscall, t: Time): StepResult {
    var ticked := Tick(s, pid, t);
    var d := Decide(ticked, pid, call, t);
    StepResult(Perform(ticked, d.effect), d.result, Stamp(d.commits, t))
  }

  function Registered(s: State, name: string, t: Time): State {
    s.(processes := s.processes[s.nextPid :=
         Process(s.nextPid, name, Running, ProcessMetrics(0, 0, 0, 0, 0, 0, 0, t))],
       capSpaces := s.capSpaces[s.nextPid := CapabilitySpace(map[], 0)],
       nextPid := s.nextPid + 1)
  }

  /** What can happen to a kernel: the host registers a process, or a process makes a syscall. */
  datatype Event =
    | Register(name: string, time: Time)
    | Sys(pid: ProcessId, call: Syscall, time: Time)

  function After(s: State, ev: Event): State {
    match ev
    case Register(name, t) => Registered(s, name, t)
    case Sys(pid, call, t) => Step(s, pid, call, t).state
  }

  /** The state reached from `s` by a whole history of events. */
  function Exec(s: State, es: seq<Event>): State {
    if es == [] then s else After(Exec(s, es[..|es| - 1]), es[|es| - 1])
  }

  /** The state just before the `k`-th event of a history. */
  function Before(s: State, es: seq<Event>, k: nat): State
    requires k <= |es|
  {
    Exec(s, es[..k])
  }

  function Run(es: seq<Event>): State {
    Exec(INITIAL, es)
  }
}
