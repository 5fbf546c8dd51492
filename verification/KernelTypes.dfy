/** The data of the pure kernel: processes, capabilities, endpoints, syscalls, results and commits. */
module KernelTypes {

  import opened Common
  import opened Words

  // Identifiers, slots, counters and times are unbounded here; KernelBounds states when a machine
  // word suffices for each of them.
  type ProcessId = nat
  type EndpointId = nat
  type CapSlot = nat
  type Time = nat

  const MAX_MESSAGE_SIZE: nat := 4096
  const MAX_CAPS_PER_MESSAGE: nat := 4

  datatype Capability = Capability(
    id: nat, objectType: ObjectType, objectId: nat,
    permissions: Permissions, generation: nat, expiresAt: Time)
  {
    predicate Expired(now: Time) {
      expiresAt != 0 && now > expiresAt
    }

    predicate Names(ty: ObjectType, oid: nat) {
      objectType == ty && objectId == oid
    }
  }

  datatype CapabilitySpace = CapabilitySpace(slots: map<CapSlot, Capability>, nextSlot: CapSlot) {
    function Insert(cap: Capability): CapabilitySpace {
      CapabilitySpace(slots[nextSlot := cap], nextSlot + 1)
    }

    function Remove(slot: CapSlot): CapabilitySpace {
      this.(slots := slots - {slot})
    }
  }

  datatype AxiomError = InvalidSlot | WrongType | InsufficientRights | CapExpired

  /** The gatekeeper of every authority-bearing syscall. */
  function AxiomCheck(cs: CapabilitySpace, slot: CapSlot, required: Permissions,
                      expected: Option<ObjectType>, now: Time): Result<Capability, AxiomError>
  {
    if slot !in cs.slots then Failure(InvalidSlot)
    else
      var cap := cs.slots[slot];
      if expected.Some? && cap.objectType != expected.value then Failure(WrongType)
      else if !required.SubsetOf(cap.permissions) then Failure(InsufficientRights)
      else if cap.Expired(now) then Failure(CapExpired)
      else Success(cap)
  }

  datatype ProcessStatus = Running | Blocked | Zombie

  datatype ProcessMetrics = ProcessMetrics(
    memorySize: nat, ipcSent: nat, ipcReceived: nat, ipcBytesSent: nat, ipcBytesReceived: nat,
    syscallCount: nat, lastActive: Time, startTime: Time)

  datatype Process = Process(pid: ProcessId, name: string, status: ProcessStatus, metrics: ProcessMetrics)

  datatype TransferredCap = TransferredCap(
    capId: nat, objectType: ObjectType, objectId: nat, permissions: Permissions)

  function Transferred(cap: Capability): TransferredCap {
    TransferredCap(cap.id, cap.objectType, cap.objectId, cap.permissions)
  }

  datatype Message = Message(sender: ProcessId, tag: nat, data: seq<byte>, caps: seq<TransferredCap>)

  datatype EndpointMetrics = EndpointMetrics(
    queueDepth: nat, totalMessages: nat, totalBytes: nat, queueHighWater: nat)

  datatype Endpoint = Endpoint(id: EndpointId, owner: ProcessId, pending: seq<Message>, metrics: EndpointMetrics) {
    function Enqueue(m: Message): Endpoint {
      var depth := |pending| + 1;
      this.(pending := pending + [m],
            metrics := EndpointMetrics(
              depth, metrics.totalMessages + 1, metrics.totalBytes + |m.data|,
              if depth > metrics.queueHighWater then depth else metrics.queueHighWater))
    }

    function Dequeue(): Endpoint {
      var rest := if pending == [] then [] else pending[1..];
      this.(pending := rest, metrics := metrics.(queueDepth := |rest|))
    }
  }

  function NewEndpoint(id: EndpointId, owner: ProcessId): Endpoint {
    Endpoint(id, owner, [], EndpointMetrics(0, 0, 0, 0))
  }

  datatype Syscall =
    | Debug(msg: string)
    | GetTime
    | Yield
    | Exit(code: i32)
    | Kill(target: ProcessId)
    | ListProcesses
    | CreateEndpoint
    | Send(slot: CapSlot, tag: nat, data: seq<byte>)
    | Receive(slot: CapSlot)
    | SendWithCaps(slot: CapSlot, tag: nat, data: seq<byte>, capSlots: seq<CapSlot>)
    | Call(slot: CapSlot, tag: nat, data: seq<byte>)
    | ListCaps
    | CapGrant(slot: CapSlot, toPid: ProcessId, permissions: Permissions)
    | CapRevoke(slot: CapSlot)
    | CapDelete(slot: CapSlot)
    | CapInspect(slot: CapSlot)
    | CapDerive(slot: CapSlot, permissions: Permissions)

  datatype KernelError =
    | ProcessNotFound | EndpointNotFound | InvalidCapability | PermissionDenied
    | MessageTooLarge | TooManyCaps

  function FromAxiom(e: AxiomError): KernelError {
    match e
    case InvalidSlot => InvalidCapability
    case WrongType => InvalidCapability
    case InsufficientRights => PermissionDenied
    case CapExpired => PermissionDenied
  }

  datatype CapInfo = CapInfo(
    id: nat, objectType: byte, objectId: nat, permissions: byte, generation: nat, expiresAt: Time)

  datatype SyscallResult =
    | Ok(value: nat)
    | Err(error: KernelError)
    | Delivered(msg: Message)
    | WouldBlock
    | CapList(caps: seq<(CapSlot, Capability)>)
    | Inspected(info: CapInfo)
    | ProcessList(procs: seq<(ProcessId, string, ProcessStatus)>)

  datatype CommitType =
    | ProcessRegistered(pid: ProcessId, name: string)
    | ProcessExited(pid: ProcessId, code: i32)
    | ProcessKilled(pid: ProcessId, killer: ProcessId)
    | EndpointCreated(id: EndpointId, owner: ProcessId)
    | IpcSent(from: ProcessId, endpoint: EndpointId, tag: nat, size: nat)
    | CapGranted(fromPid: ProcessId, toPid: ProcessId, slot: CapSlot, objectId: nat)
    | CapRevoked(pid: ProcessId, slot: CapSlot)
    | CapDeleted(pid: ProcessId, slot: CapSlot)
    | CapDerived(pid: ProcessId, fromSlot: CapSlot, newSlot: CapSlot)

  datatype Commit = Commit(commitType: CommitType, timestamp: Time)

  /** The whole kernel state as a value. */
  datatype State = State(
    processes: map<ProcessId, Process>,
    capSpaces: map<ProcessId, CapabilitySpace>,
    endpoints: map<EndpointId, Endpoint>,
    nextPid: nat, nextEndpointId: nat, nextCapId: nat, totalIpcCount: nat)

  const INITIAL := State(map[], map[], map[], 1, 1, 1, 0)
}
