/** The kernel state object: the handlers update its tables in place and realise `KernelSpec.Step`. */
module Kernel {
  import opened KernelTypes
  import opened Common
  import opened Words
  import opened KernelSpec
  import opened KernelInvariant
  import opened Tables

  class KernelState {
    var processes: map<ProcessId, Process>
    var capSpaces: map<ProcessId, CapabilitySpace>
    var endpoints: map<EndpointId, Endpoint>
    var nextPid: nat
    var nextEndpointId: nat
    var nextCapId: nat
    var totalIpcCount: nat

    /** The state as a value. */
    function Snapshot(): State
      reads this
    {
      State(processes, capSpaces, endpoints, nextPid, nextEndpointId, nextCapId, totalIpcCount)
    }

    constructor ()
      ensures Snapshot() == INITIAL
    {
      processes, capSpaces, endpoints := map[], map[], map[];
      nextPid, nextEndpointId, nextCapId, totalIpcCount := 1, 1, 1, 0;
    }

    method AllocCapId() returns (id: nat)
      modifies this`nextCapId
      ensures id == old(nextCapId) && nextCapId == old(nextCapId) + 1
    {
      id := nextCapId;
      nextCapId := nextCapId + 1;
    }

    method RegisterProcess(name: string, t: Time) returns (pid: ProcessId)
      modifies this
      ensures pid == old(nextPid)
      ensures Snapshot() == Registered(old(Snapshot()), name, t)
      ensures old(Inv(Snapshot())) ==> pid !in old(processes) && Inv(Snapshot())
    {
      ghost var before := Snapshot();
      pid := nextPid;
      nextPid := nextPid + 1;
      processes := processes[pid := Process(pid, name, Running, ProcessMetrics(0, 0, 0, 0, 0, 0, 0, t))];
      capSpaces := capSpaces[pid := CapabilitySpace(map[], 0)];
      if Inv(before) { RegisterKeepsInv(before, name, t); }
    }

    method UpdateSyscallMetrics(pid: ProcessId, t: Time)
      modifies this`processes
      ensures Snapshot() == Tick(old(Snapshot()), pid, t)
    {
      if pid in processes {
        var proc := processes[pid];
        var metrics := proc.metrics.(syscallCount := proc.metrics.syscallCount + 1);
        metrics := metrics.(lastActive := t);
        processes := processes[pid := proc.(metrics := metrics)];
      }
    }

    method InsertCapability(pid: ProcessId, cap: Capability) returns (slot: CapSlot)
      modifies this`capSpaces
      ensures slot == FreshSlot(old(Snapshot()), pid)
      ensures capSpaces == InsertCap(old(capSpaces), pid, cap)
    {
      slot := 0;
      if pid in capSpaces {
        var cs := capSpaces[pid];
        slot := cs.nextSlot;
        cs := cs.(nextSlot := cs.nextSlot + 1);
        cs := cs.(slots := cs.slots[slot := cap]);
        capSpaces := capSpaces[pid := cs];
      }
    }

    method KillProcess(pid: ProcessId) returns (found: bool)
      modifies this`processes
      ensures found <==> pid in old(processes)
      ensures Snapshot() == Perform(old(Snapshot()), Bury(pid))
    {
      found := pid in processes;
      if found {
        processes := processes[pid := processes[pid].(status := Zombie)];
      }
    }

    method StepKill(pid: ProcessId, target: ProcessId, t: Time) returns (r: SyscallResult, commits: seq<Commit>)
      modifies this`processes
      ensures Realises(old(Snapshot()), pid, Kill(target), t, r, commits)
    {
      if target !in processes {
        return Err(ProcessNotFound), [];
      }
      var found := KillProcess(target);
      r, commits := Ok(0), [Commit(ProcessKilled(target, pid), t)];
    }

    method StepCreateEndpoint(pid: ProcessId, t: Time) returns (r: SyscallResult, commits: seq<Commit>)
      modifies this
      ensures Realises(old(Snapshot()), pid, CreateEndpoint, t, r, commits)
    {
      if pid !in processes || processes[pid].status == Zombie {
        return Err(ProcessNotFound), [];
      }
      var id := nextEndpointId;
      nextEndpointId := nextEndpointId + 1;
      endpoints := endpoints[id := NewEndpoint(id, pid)];
      var capId := AllocCapId();
      var slot := InsertCapability(pid, Capability(capId, EndpointObject, id, FULL, 0, 0));
      r, commits := Ok(Pack(slot, id)), [Commit(EndpointCreated(id, pid), t)];
    }

    /** Enqueue a message and count it for its sender. */
    method Deliver(id: EndpointId, msg: Message)
      requires id in endpoints
      modifies this
      ensures Snapshot() == Perform(old(Snapshot()), Post(id, msg, true))
    {
      endpoints := endpoints[id := endpoints[id].Enqueue(msg)];
      if msg.sender in processes {
        var proc := processes[msg.sender];
        var metrics := proc.metrics.(ipcSent := proc.metrics.ipcSent + 1);
        metrics := metrics.(ipcBytesSent := metrics.ipcBytesSent + |msg.data|);
        processes := processes[msg.sender := proc.(metrics := metrics)];
      }
      totalIpcCount := totalIpcCount + 1;
    }

    method StepSend(pid: ProcessId, slot: CapSlot, tag: nat, data: seq<byte>, t: Time)
      returns (r: SyscallResult, commits: seq<Commit>)
      modifies this
      ensures Realises(old(Snapshot()), pid, Send(slot, tag, data), t, r, commits)
    {
      if |data| > MAX_MESSAGE_SIZE {
        return Err(MessageTooLarge), [];
      }
      if pid !in capSpaces {
        return Err(ProcessNotFound), [];
      }
      var checked := AxiomCheck(capSpaces[pid], slot, WRITE_ONLY, Some(EndpointObject), t);
      if checked.Failure? {
        return Err(FromAxiom(checked.error)), [];
      }
      var id := checked.value.objectId;
      if id !in endpoints {
        return Err(EndpointNotFound), [];
      }
      Deliver(id, Message(pid, tag, data, []));
      r, commits := Ok(0), [Commit(IpcSent(pid, id, tag, |data|), t)];
    }

    method StepReceive(pid: ProcessId, slot: CapSlot, t: Time) returns (r: SyscallResult, commits: seq<Commit>)
      modifies this
      ensures Realises(old(Snapshot()), pid, Receive(slot), t, r, commits)
    {
      commits := [];
      if pid !in capSpaces {
        return Err(ProcessNotFound), [];
      }
      var checked := AxiomCheck(capSpaces[pid], slot, READ_ONLY, Some(EndpointObject), t);
      if checked.Failure? {
        return Err(FromAxiom(checked.error)), [];
      }
      var id := checked.value.objectId;
      if id !in endpoints {
        return Err(EndpointNotFound), [];
      }
      var pending := endpoints[id].pending;
      endpoints := endpoints[id := endpoints[id].Dequeue()];
      if pending == [] {
        return WouldBlock, [];
      }
      if pid in processes {
        var proc := processes[pid];
        var metrics := proc.metrics.(ipcReceived := proc.metrics.ipcReceived + 1);
        metrics := metrics.(ipcBytesReceived := metrics.ipcBytesReceived + |pending[0].data|);
        processes := processes[pid := proc.(metrics := metrics)];
      }
      r := Delivered(pending[0]);
    }

    /** The loop that copies the named capabilities into a message. */
    static method CollectCaps(cs: CapabilitySpace, capSlots: seq<CapSlot>)
      returns (r: Result<seq<TransferredCap>, KernelError>)
      ensures r == Collect(cs, capSlots)
    {
      var transferred: seq<TransferredCap> := [];
      for i := 0 to |capSlots|
        invariant |transferred| == i
        invariant forall j :: 0 <= j < i ==>
          capSlots[j] in cs.slots && transferred[j] == Transferred(cs.slots[capSlots[j]])
      {
        if capSlots[i] !in cs.slots {
          return Failure(InvalidCapability);
        }
        transferred := transferred + [Transferred(cs.slots[capSlots[i]])];
      }
      assert transferred == Collect(cs, capSlots).value;
      r := Success(transferred);
    }

    method StepSendWithCaps(pid: ProcessId, slot: CapSlot, tag: nat, data: seq<byte>, capSlots: seq<CapSlot>, t: Time)
      returns (r: SyscallResult, commits: seq<Commit>)
      modifies this
      ensures Realises(old(Snapshot()), pid, SendWithCaps(slot, tag, data, capSlots), t, r, commits)
    {
      if |data| > MAX_MESSAGE_SIZE {
        return Err(MessageTooLarge), [];
      }
      if |capSlots| > MAX_CAPS_PER_MESSAGE {
        return Err(TooManyCaps), [];
      }
      if pid !in capSpaces {
        return Err(ProcessNotFound), [];
      }
      var checked := AxiomCheck(capSpaces[pid], slot, WRITE_ONLY, Some(EndpointObject), t);
      if checked.Failure? {
        return Err(FromAxiom(checked.error)), [];
      }
      var collected := CollectCaps(capSpaces[pid], capSlots);
      if collected.Failure? {
        return Err(collected.error), [];
      }
      var id := checked.value.objectId;
      if id !in endpoints {
        return Err(EndpointNotFound), [];
      }
      endpoints := endpoints[id := endpoints[id].Enqueue(Message(pid, tag, data, collected.value))];
      totalIpcCount := totalIpcCount + 1;
      r, commits := Ok(0), [Commit(IpcSent(pid, id, tag, |data|), t)];
    }

    method StepCall(pid: ProcessId, slot: CapSlot, tag: nat, data: seq<byte>, t: Time)
      returns (r: SyscallResult, commits: seq<Commit>)
      modifies this
      ensures Realises(old(Snapshot()), pid, Call(slot, tag, data), t, r, commits)
    {
      r, commits := StepSend(pid, slot, tag, data, t);
      if r.Ok? {
        r := WouldBlock;
      }
    }

    method StepCapGrant(pid: ProcessId, slot: CapSlot, toPid: ProcessId, permissions: Permissions, t: Time)
      returns (r: SyscallResult, commits: seq<Commit>)
      modifies this
      ensures Realises(old(Snapshot()), pid, CapGrant(slot, toPid, permissions), t, r, commits)
    {
      if pid !in capSpaces {
        return Err(ProcessNotFound), [];
      }
      var checked := AxiomCheck(capSpaces[pid], slot, GRANT_ONLY, None, t);
      if checked.Failure? {
        return Err(FromAxiom(checked.error)), [];
      }
      var source := checked.value;
      if toPid !in processes || processes[toPid].status == Zombie {
        return Err(ProcessNotFound), [];
      }
      if !permissions.SubsetOf(source.permissions) {
        return Err(PermissionDenied), [];
      }
      var id := AllocCapId();
      var newSlot := InsertCapability(toPid, Child(id, source, permissions));
      r, commits := Ok(newSlot), [Commit(CapGranted(pid, toPid, newSlot, source.objectId), t)];
    }

    method StepCapDerive(pid: ProcessId, slot: CapSlot, permissions: Permissions, t: Time)
      returns (r: SyscallResult, commits: seq<Commit>)
      modifies this
      ensures Realises(old(Snapshot()), pid, CapDerive(slot, permissions), t, r, commits)
    {
      if pid !in capSpaces {
        return Err(ProcessNotFound), [];
      }
      if slot !in capSpaces[pid].slots {
        return Err(InvalidCapability), [];
      }
      var source := capSpaces[pid].slots[slot];
      if !permissions.SubsetOf(source.permissions) {
        return Err(PermissionDenied), [];
      }
      var id := AllocCapId();
      var newSlot := InsertCapability(pid, Child(id, source, permissions));
      r, commits := Ok(newSlot), [Commit(CapDerived(pid, slot, newSlot), t)];
    }

    /** `CapRevoke` and `CapDelete` both remove the caller's own slot; only the commit differs. */
    method RemoveCapability(pid: ProcessId, slot: CapSlot) returns (removed: bool)
      modifies this`capSpaces
      ensures removed <==> HasCap(old(Snapshot()), pid, slot)
      ensures Snapshot() == if removed then Perform(old(Snapshot()), Drop(pid, slot)) else old(Snapshot())
    {
      removed := pid in capSpaces && slot in capSpaces[pid].slots;
      if removed {
        var cs := capSpaces[pid];
        capSpaces := capSpaces[pid := cs.(slots := cs.slots - {slot})];
      }
    }

    method StepExit(pid: ProcessId, code: i32, t: Time) returns (r: SyscallResult, commits: seq<Commit>)
      modifies this
      ensures Realises(old(Snapshot()), pid, Exit(code), t, r, commits)
    {
      var found := KillProcess(pid);
      r, commits := Ok(AsU64(code)), [Commit(ProcessExited(pid, code), t)];
    }

    method StepCapRevoke(pid: ProcessId, slot: CapSlot, t: Time) returns (r: SyscallResult, commits: seq<Commit>)
      modifies this
      ensures Realises(old(Snapshot()), pid, CapRevoke(slot), t, r, commits)
    {
      var removed := RemoveCapability(pid, slot);
      if !removed {
        return Err(InvalidCapability), [];
      }
      r, commits := Ok(0), [Commit(CapRevoked(pid, slot), t)];
    }

    method StepCapDelete(pid: ProcessId, slot: CapSlot, t: Time) returns (r: SyscallResult, commits: seq<Commit>)
      modifies this
      ensures Realises(old(Snapshot()), pid, CapDelete(slot), t, r, commits)
    {
      var removed := RemoveCapability(pid, slot);
      if !removed {
        return Err(InvalidCapability), [];
      }
      r, commits := Ok(0), [Commit(CapDeleted(pid, slot), t)];
    }

    method StepListProcesses(pid: ProcessId, t: Time) returns (r: SyscallResult)
      ensures Realises(Snapshot(), pid, ListProcesses, t, r, [])
    {
      var list := CollectProcesses(Snapshot());
      r := ProcessList(list);
    }

    static method CollectProcesses(s: State) returns (list: seq<(ProcessId, string, ProcessStatus)>)
      ensures list == Processes(s)
    {
      var pids := SortedKeys(s.processes.Keys);
      list := [];
      for i := 0 to |pids|
        invariant |list| == i && list <= Processes(s)
      {
        ProcessesAt(s, i);
        PrefixSnoc(list, Processes(s));
        var proc := s.processes[pids[i]];
        list := list + [(pids[i], proc.name, proc.status)];
      }
      PrefixWhole(list, Processes(s));
    }

    method StepListCaps(pid: ProcessId, t: Time) returns (r: SyscallResult)
      ensures Realises(Snapshot(), pid, ListCaps, t, r, [])
    {
      var list: seq<(CapSlot, Capability)> := [];
      if pid in capSpaces {
        list := ListTable(capSpaces[pid]);
      }
      r := CapList(list);
    }

    static method ListTable(cs: CapabilitySpace) returns (list: seq<(CapSlot, Capability)>)
      ensures list == Caps(cs)
    {
      var slots := SortedKeys(cs.slots.Keys);
      list := [];
      for i := 0 to |slots|
        invariant |list| == i && list <= Caps(cs)
      {
        CapsAt(cs, i);
        PrefixSnoc(list, Caps(cs));
        list := list + [(slots[i], cs.slots[slots[i]])];
      }
      PrefixWhole(list, Caps(cs));
    }

    method StepCapInspect(pid: ProcessId, slot: CapSlot, t: Time) returns (r: SyscallResult)
      ensures Realises(Snapshot(), pid, CapInspect(slot), t, r, [])
    {
      if pid !in capSpaces {
        return Err(ProcessNotFound);
      }
      if slot !in capSpaces[pid].slots {
        return Err(InvalidCapability);
      }
      var cap := capSpaces[pid].slots[slot];
      r := Inspected(CapInfo(cap.id, cap.objectType.ToByte(), cap.objectId, cap.permissions.ToByte(),
                             cap.generation, cap.expiresAt));
    }

    /** This object now holds what the specification's handler yields from `before`. */
    ghost predicate Realises(before: State, pid: ProcessId, call: Syscall, t: Time,
                             r: SyscallResult, commits: seq<Commit>)
      reads this
    {
      var d := Decide(before, pid, call, t);
      Snapshot() == Perform(before, d.effect) && r == d.result && commits == Stamp(d.commits, t)
    }

    /** The kernel entry point: the object moves exactly as `KernelSpec.Step` does, and keeps the
        kernel invariant. */
    method Execute(pid: ProcessId, call: Syscall, t: Time) returns (r: SyscallResult, commits: seq<Commit>)
      modifies this
      ensures StepResult(Snapshot(), r, commits) == Step(old(Snapshot()), pid, call, t)
      ensures old(Inv(Snapshot())) ==> Inv(Snapshot())
    {
      ghost var before := Snapshot();
      UpdateSyscallMetrics(pid, t);
      r, commits := Dispatch(pid, call, t);
      if Inv(before) { StepKeepsInv(before, pid, call, t); }
    }

    method Dispatch(pid: ProcessId, call: Syscall, t: Time) returns (r: SyscallResult, commits: seq<Commit>)
      modifies this
      ensures Realises(old(Snapshot()), pid, call, t, r, commits)
    {
      commits := [];
      match call
      case Debug(_) => r := Ok(0);
      case GetTime => r := Ok(t);
      case Yield => r := Ok(0);
      case Exit(code) => r, commits := StepExit(pid, code, t);
      case Kill(target) => r, commits := StepKill(pid, target, t);
      case CreateEndpoint => r, commits := StepCreateEndpoint(pid, t);
      case Send(slot, tag, data) => r, commits := StepSend(pid, slot, tag, data, t);
      case Receive(slot) => r, commits := StepReceive(pid, slot, t);
      case SendWithCaps(slot, tag, data, capSlots) => r, commits := StepSendWithCaps(pid, slot, tag, data, capSlots, t);
      case Call(slot, tag, data) => r, commits := StepCall(pid, slot, tag, data, t);
      case CapGrant(slot, toPid, permissions) => r, commits := StepCapGrant(pid, slot, toPid, permissions, t);
      case CapRevoke(slot) => r, commits := StepCapRevoke(pid, slot, t);
      case CapDelete(slot) => r, commits := StepCapDelete(pid, slot, t);
      case CapDerive(slot, permissions) => r, commits := StepCapDerive(pid, slot, permissions, t);
      case ListProcesses => r := StepListProcesses(pid, t);
      case ListCaps => r := StepListCaps(pid, t);
      case CapInspect(slot) => r := StepCapInspect(pid, slot, t);
    }
  }
}
