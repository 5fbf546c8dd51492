/** The commits emitted by a run account for every change the run makes. */
module KernelCommits {
  import opened KernelTypes
  import opened Common
  import opened KernelSpec
  import opened KernelInvariant
  import opened Tables

  /** What an auditor can rebuild: who lives, who owns which endpoint, which object each occupied slot
      names, and the next slot of every table. */
  datatype Table = Table(
    live: map<ProcessId, bool>,
    owners: map<EndpointId, ProcessId>,
    slots: map<ProcessId, map<CapSlot, nat>>,
    next: map<ProcessId, CapSlot>)

  const EMPTY := Table(map[], map[], map[], map[])

  predicate IsLive(p: Process) { p.status != Zombie }
  function OwnerOf(ep: Endpoint): ProcessId { ep.owner }
  function ObjectOf(c: Capability): nat { c.objectId }
  function Names(cs: CapabilitySpace): map<CapSlot, nat> { Image(cs.slots, ObjectOf) }
  function NextOf(cs: CapabilitySpace): CapSlot { cs.nextSlot }

  function Project(s: State): Table {
    Table(Image(s.processes, IsLive), Image(s.endpoints, OwnerOf),
          Image(s.capSpaces, Names), Image(s.capSpaces, NextOf))
  }

  function Occupy(t: Table, p: ProcessId, slot: CapSlot, oid: nat): Table {
    if p !in t.slots then t else
      var row: map<CapSlot, nat> := t.slots[p][slot := oid];
      t.(slots := t.slots[p := row], next := t.next[p := slot + 1])
  }

  function Vacate(t: Table, p: ProcessId, slot: CapSlot): Table {
    if p in t.slots then t.(slots := t.slots[p := t.slots[p] - {slot}]) else t
  }

  /** A new process with an empty table. */
  function Enrol(t: Table, p: ProcessId): Table {
    t.(live := t.live[p := true], slots := t.slots[p := map[]], next := t.next[p := 0])
  }

  /** The auditor's reading of one commit. */
  function Record(t: Table, c: CommitType): Table {
    match c
    case ProcessRegistered(p, _) => Enrol(t, p)
    case ProcessExited(p, _) => if p in t.live then t.(live := t.live[p := false]) else t
    case ProcessKilled(p, _) => if p in t.live then t.(live := t.live[p := false]) else t
    case EndpointCreated(id, owner) =>
      var created := t.(owners := t.owners[id := owner]);
      if owner in t.next then Occupy(created, owner, t.next[owner], id) else created
    case IpcSent(_, _, _, _) => t
    case CapGranted(_, to, slot, oid) => Occupy(t, to, slot, oid)
    case CapRevoked(p, slot) => Vacate(t, p, slot)
    case CapDeleted(p, slot) => Vacate(t, p, slot)
    case CapDerived(p, from, slot) =>
      if p in t.slots && from in t.slots[p] then Occupy(t, p, slot, t.slots[p][from]) else t
  }

  function RecordAll(t: Table, cs: seq<Commit>): Table {
    if cs == [] then t else Record(RecordAll(t, cs[..|cs| - 1]), cs[|cs| - 1].commitType)
  }

  /** What an event leaves in the log. Registration happens outside `step` and leaves nothing. */
  function CommitsOf(s: State, ev: Event): seq<Commit> {
    match ev
    case Register(_, _) => []
    case Sys(pid, call, t) => Step(s, pid, call, t).commits
  }

  /** All commits of a history of events. */
  function Emitted(s: State, es: seq<Event>): seq<Commit> {
    if es == [] then [] else Emitted(s, es[..|es| - 1]) + CommitsOf(Exec(s, es[..|es| - 1]), es[|es| - 1])
  }

  /** An auditor who reads the commits of each event and is told the pid of each registration. */
  function Audited(es: seq<Event>): Table {
    if es == [] then EMPTY
    else
      var earlier, s := Audited(es[..|es| - 1]), Run(es[..|es| - 1]);
      if es[|es| - 1].Register? then Enrol(earlier, s.nextPid) else RecordAll(earlier, CommitsOf(s, es[|es| - 1]))
  }

  // ---------------------------------------------------------------- effects and their commits

  lemma InsertNames(spaces: map<ProcessId, CapabilitySpace>, p: ProcessId, cap: Capability)
    requires p in spaces
    ensures Image(InsertCap(spaces, p, cap), Names) ==
      Image(spaces, Names)[p := Names(spaces[p])[spaces[p].nextSlot := cap.objectId]]
  {
    var cs := spaces[p];
    ImageUpdate(cs.slots, ObjectOf, cs.nextSlot, cap);
    ImageUpdate(spaces, Names, p, cs.Insert(cap));
  }

  lemma InsertNext(spaces: map<ProcessId, CapabilitySpace>, p: ProcessId, cap: Capability)
    requires p in spaces
    ensures var next: CapSlot := spaces[p].nextSlot + 1;
      Image(InsertCap(spaces, p, cap), NextOf) == Image(spaces, NextOf)[p := next]
  {
    ImageUpdate(spaces, NextOf, p, spaces[p].Insert(cap));
  }

  lemma BuryRecorded(s: State, p: ProcessId, c: CommitType)
    requires (c.ProcessExited? || c.ProcessKilled?) && c.pid == p
    ensures Record(Project(s), c) == Project(Perform(s, Bury(p)))
  {
    if p in s.processes { ImageUpdate(s.processes, IsLive, p, s.processes[p].(status := Zombie)); }
  }

  lemma OpenRecorded(s: State, owner: ProcessId)
    requires owner in s.capSpaces
    ensures Record(Project(s), EndpointCreated(s.nextEndpointId, owner)) == Project(Perform(s, Open(owner)))
  {
    var cap := Capability(s.nextCapId, EndpointObject, s.nextEndpointId, FULL, 0, 0);
    InsertNames(s.capSpaces, owner, cap);
    InsertNext(s.capSpaces, owner, cap);
    ImageUpdate(s.endpoints, OwnerOf, s.nextEndpointId, NewEndpoint(s.nextEndpointId, owner));
  }

  lemma InstallRecorded(s: State, p: ProcessId, source: Capability, permissions: Permissions)
    requires p in s.capSpaces
    ensures Occupy(Project(s), p, s.capSpaces[p].nextSlot, source.objectId) ==
      Project(Perform(s, Install(p, source, permissions)))
  {
    InsertNames(s.capSpaces, p, Child(s.nextCapId, source, permissions));
    InsertNext(s.capSpaces, p, Child(s.nextCapId, source, permissions));
  }

  lemma DropRecorded(s: State, p: ProcessId, slot: CapSlot)
    requires p in s.capSpaces
    ensures Vacate(Project(s), p, slot) == Project(Perform(s, Drop(p, slot)))
  {
    var cs := s.capSpaces[p];
    ImageRemove(cs.slots, ObjectOf, slot);
    ImageUpdate(s.capSpaces, Names, p, cs.Remove(slot));
    ImageSame(s.capSpaces, NextOf, p, cs.Remove(slot));
  }

  lemma TrafficInvisible(s: State, e: Effect)
    requires e.Nothing? || e.Post? || e.Take?
    ensures Project(Perform(s, e)) == Project(s)
  {
    var s' := Perform(s, e);
    if !e.Nothing? && e.endpoint in s.endpoints {
      ImageSame(s.endpoints, OwnerOf, e.endpoint, s'.endpoints[e.endpoint]);
      var p := if e.Post? then e.msg.sender else e.taker;
      if p in s.processes { ImageSame(s.processes, IsLive, p, s'.processes[p]); }
    }
  }

  function RecordTypes(t: Table, cs: seq<CommitType>): Table {
    if cs == [] then t else Record(RecordTypes(t, cs[..|cs| - 1]), cs[|cs| - 1])
  }

  lemma OneCommit(t: Table, c: CommitType)
    ensures RecordTypes(t, [c]) == Record(t, c)
  {
    assert [c][..0] == [];
  }

  /** The commits that go with an effect. */
  ghost predicate Logged(s: State, e: Effect, cs: seq<CommitType>) {
    match e
    case Nothing => cs == []
    case Take(_, _) => cs == []
    case Post(_, _, _) => |cs| == 1 && cs[0].IpcSent?
    case Bury(p) => |cs| == 1 && (cs[0].ProcessExited? || cs[0].ProcessKilled?) && cs[0].pid == p
    case Open(owner) => cs == [EndpointCreated(s.nextEndpointId, owner)]
    case Drop(p, slot) => cs == [CapRevoked(p, slot)] || cs == [CapDeleted(p, slot)]
    case Install(p, source, _) =>
      || (exists from :: cs == [CapGranted(from, p, FreshSlot(s, p), source.objectId)])
      || (exists k :: HasCap(s, p, k) && CapAt(s, p, k) == source && cs == [CapDerived(p, k, FreshSlot(s, p))])
  }

  lemma DecisionLogged(s: State, pid: ProcessId, call: Syscall, t: Time)
    ensures Logged(s, Decide(s, pid, call, t).effect, Decide(s, pid, call, t).commits)
  {
  }

  lemma InstallLogged(s: State, e: Effect, cs: seq<CommitType>)
    requires e.Install? && e.pid in s.capSpaces && Logged(s, e, cs)
    ensures Record(Project(s), cs[0]) == Occupy(Project(s), e.pid, s.capSpaces[e.pid].nextSlot, e.source.objectId)
  {
    if !cs[0].CapGranted? {
      var k :| HasCap(s, e.pid, k) && CapAt(s, e.pid, k) == e.source &&
               cs == [CapDerived(e.pid, k, FreshSlot(s, e.pid))];
      SlotNamed(s, e.pid, k);
    }
  }

  lemma SlotNamed(s: State, p: ProcessId, k: CapSlot)
    requires HasCap(s, p, k)
    ensures p in Project(s).slots && k in Project(s).slots[p] && Project(s).slots[p][k] == CapAt(s, p, k).objectId
  {
  }

  lemma InstallIsRecorded(s: State, e: Effect, cs: seq<CommitType>)
    requires Inv(s) && e.Install? && e.pid in s.processes && Logged(s, e, cs)
    ensures Record(Project(s), cs[0]) == Project(Perform(s, e))
  {
    InstallLogged(s, e, cs);
    InstallRecorded(s, e.pid, e.source, e.permissions);
  }

  /** The commits that go with an effect describe it. */
  lemma LoggedIsRecorded(s: State, e: Effect, cs: seq<CommitType>)
    requires Inv(s) && Justified(s, e) && Logged(s, e, cs)
    ensures RecordTypes(Project(s), cs) == Project(Perform(s, e))
  {
    if e.Nothing? || e.Take? {
      TrafficInvisible(s, e);
    } else {
      assert cs == [cs[0]];
      OneCommit(Project(s), cs[0]);
      CommitRecorded(s, e, cs);
    }
  }

  lemma CommitRecorded(s: State, e: Effect, cs: seq<CommitType>)
    requires Inv(s) && Justified(s, e) && Logged(s, e, cs) && !e.Nothing? && !e.Take?
    ensures Record(Project(s), cs[0]) == Project(Perform(s, e))
  {
    match e
    case Bury(p) => BuryRecorded(s, p, cs[0]);
    case Open(owner) => OpenRecorded(s, owner);
    case Install(_, _, _) => InstallIsRecorded(s, e, cs);
    case Drop(p, slot) => DropIsRecorded(s, p, slot, cs[0]);
    case Post(_, _, _) => TrafficInvisible(s, e);
  }

  lemma DropIsRecorded(s: State, p: ProcessId, slot: CapSlot, c: CommitType)
    requires c == CapRevoked(p, slot) || c == CapDeleted(p, slot)
    ensures Record(Project(s), c) == Project(Perform(s, Drop(p, slot)))
  {
    if p in s.capSpaces { DropRecorded(s, p, slot); }
  }

  lemma {:induction false} StampsRecorded(t: Table, cs: seq<CommitType>, time: Time)
    ensures RecordAll(t, Stamp(cs, time)) == RecordTypes(t, cs)
  {
    if cs != [] {
      StampsRecorded(t, cs[..|cs| - 1], time);
      assert Stamp(cs, time)[..|cs| - 1] == Stamp(cs[..|cs| - 1], time);
    }
  }

  lemma RegistrationRecorded(s: State, name: string, t: Time)
    ensures Enrol(Project(s), s.nextPid) == Project(Registered(s, name, t))
  {
    var s' := Registered(s, name, t);
    ImageUpdate(s.processes, IsLive, s.nextPid, s'.processes[s.nextPid]);
    ImageUpdate(s.capSpaces, Names, s.nextPid, CapabilitySpace(map[], 0));
    ImageUpdate(s.capSpaces, NextOf, s.nextPid, CapabilitySpace(map[], 0));
    assert Names(CapabilitySpace(map[], 0)) == map[];
  }

  lemma TickInvisible(s: State, pid: ProcessId, t: Time)
    ensures Project(Tick(s, pid, t)) == Project(s)
  {
    if pid in s.processes { ImageSame(s.processes, IsLive, pid, Tick(s, pid, t).processes[pid]); }
  }

  lemma StepRecorded(s: State, pid: ProcessId, call: Syscall, t: Time)
    requires Inv(s)
    ensures RecordAll(Project(s), Step(s, pid, call, t).commits) == Project(Step(s, pid, call, t).state)
  {
    var ticked := Tick(s, pid, t);
    TickInvisible(s, pid, t);
    TickKeepsInv(s, pid, t);
    DecisionJustified(ticked, pid, call, t);
    DecisionLogged(ticked, pid, call, t);
    LoggedIsRecorded(ticked, Decide(ticked, pid, call, t).effect, Decide(ticked, pid, call, t).commits);
    StampsRecorded(Project(s), Decide(ticked, pid, call, t).commits, t);
  }

  lemma {:induction false} RecordAllAppend(t: Table, a: seq<Commit>, b: seq<Commit>)
    ensures RecordAll(t, a + b) == RecordAll(RecordAll(t, a), b)
  {
    if b == [] {
      assert a + b == a;
    } else {
      RecordAllAppend(t, a, b[..|b| - 1]);
      assert (a + b)[..|a + b| - 1] == a + b[..|b| - 1];
    }
  }

  /** Over any run of syscalls, from any state that meets the invariant, reading the emitted commits turns the
      projection of the first state into that of the last. */
  lemma {:induction false} SyscallsAccountForChange(s: State, es: seq<Event>)
    requires Inv(s) && AllSyscalls(es)
    ensures RecordAll(Project(s), Emitted(s, es)) == Project(Exec(s, es))
  {
    if es != [] {
      var earlier, ev := es[..|es| - 1], es[|es| - 1];
      SyscallsAccountForChange(s, earlier);
      ExecKeepsInv(s, earlier);
      StepRecorded(Exec(s, earlier), ev.pid, ev.call, ev.time);
      RecordAllAppend(Project(s), Emitted(s, earlier), CommitsOf(Exec(s, earlier), ev));
    }
  }

  /** Exactly when the emitted commits suffice: if and only if no process was registered on the way. */
  lemma EmittedSufficeExactly(s: State, es: seq<Event>)
    requires Inv(s)
    ensures RecordAll(Project(s), Emitted(s, es)) == Project(Exec(s, es)) <==> AllSyscalls(es)
  {
    if AllSyscalls(es) {
      SyscallsAccountForChange(s, es);
    } else {
      RegistrationsAreNotLogged(s, es);
      FoldAddsNoProcess(Project(s), Emitted(s, es));
      var p := RegisteredOnTheWay(s, es);
      assert p in Project(Exec(s, es)).live && p !in Project(s).live.Keys;
    }
  }

  ghost predicate AllSyscalls(es: seq<Event>) {
    forall i :: 0 <= i < |es| ==> es[i].Sys?
  }

  /** Without a registration commit the fold never learns of a new process. */
  lemma {:induction false} FoldAddsNoProcess(t: Table, cs: seq<Commit>)
    requires NoRegistration(cs)
    ensures RecordAll(t, cs).live.Keys == t.live.Keys
  {
    if cs != [] {
      FoldAddsNoProcess(t, cs[..|cs| - 1]);
      OneAddsNoProcess(RecordAll(t, cs[..|cs| - 1]), cs[|cs| - 1].commitType);
    }
  }

  lemma OneAddsNoProcess(t: Table, c: CommitType)
    requires !c.ProcessRegistered?
    ensures Record(t, c).live.Keys == t.live.Keys
  {
  }

  lemma {:induction false} ProcessesStay(s: State, es: seq<Event>)
    ensures s.processes.Keys <= Exec(s, es).processes.Keys
  {
    if es != [] {
      var earlier := Exec(s, es[..|es| - 1]);
      ProcessesStay(s, es[..|es| - 1]);
      match es[|es| - 1]
      case Register(_, _) =>
      case Sys(pid, call, t) => StepKeepsProcesses(earlier, pid, call, t);
    }
  }

  /** A registration leaves a process that was not there before. */
  lemma {:induction false} RegisteredOnTheWay(s: State, es: seq<Event>) returns (p: ProcessId)
    requires Inv(s) && !AllSyscalls(es)
    ensures p in Exec(s, es).processes && p !in s.processes
    decreases |es|
  {
    var n := |es| - 1;
    var earlier := es[..n];
    ExecKeepsInv(s, earlier);
    ProcessesStay(s, earlier);
    if es[n].Register? {
      p := Exec(s, earlier).nextPid;
    } else {
      assert !AllSyscalls(earlier) by {
        var i :| 0 <= i < |es| && !es[i].Sys?;
        assert !earlier[i].Sys?;
      }
      p := RegisteredOnTheWay(s, earlier);
      StepKeepsProcesses(Exec(s, earlier), es[n].pid, es[n].call, es[n].time);
    }
  }

  lemma StepKeepsProcesses(s: State, pid: ProcessId, call: Syscall, t: Time)
    ensures Step(s, pid, call, t).state.processes.Keys == s.processes.Keys
  {
    PerformGrows(Tick(s, pid, t), Decide(Tick(s, pid, t), pid, call, t).effect);
  }

  /** With the registrations told, the auditor follows every run from the empty kernel. */
  lemma {:induction false} AuditFollowsRun(es: seq<Event>)
    ensures Audited(es) == Project(Run(es))
  {
    if es == [] {
      assert Project(INITIAL) == EMPTY;
    } else {
      var earlier := es[..|es| - 1];
      AuditFollowsRun(earlier);
      RunSatisfiesInv(earlier);
      match es[|es| - 1]
      case Register(name, t) => RegistrationRecorded(Run(earlier), name, t);
      case Sys(pid, call, t) => StepRecorded(Run(earlier), pid, call, t);
    }
  }

  /** No commit of any run announces a registration. */
  lemma {:induction false} RegistrationsAreNotLogged(s: State, es: seq<Event>)
    ensures NoRegistration(Emitted(s, es))
  {
    if es != [] {
      RegistrationsAreNotLogged(s, es[..|es| - 1]);
      NoneFromEvent(Exec(s, es[..|es| - 1]), es[|es| - 1]);
    }
  }

  ghost predicate NoRegistration(cs: seq<Commit>) {
    forall i :: 0 <= i < |cs| ==> !cs[i].commitType.ProcessRegistered?
  }

  lemma NoneFromEvent(s: State, ev: Event)
    ensures NoRegistration(CommitsOf(s, ev))
  {
    if ev.Sys? {
      var ticked := Tick(s, ev.pid, ev.time);
      var d := Decide(ticked, ev.pid, ev.call, ev.time);
      DecisionLogged(ticked, ev.pid, ev.call, ev.time);
      NoneLogged(ticked, d.effect, d.commits);
    }
  }

  lemma NoneLogged(s: State, e: Effect, cs: seq<CommitType>)
    requires Logged(s, e, cs)
    ensures forall i :: 0 <= i < |cs| ==> !cs[i].ProcessRegistered?
  {
  }

  /** A refused syscall leaves no commit and changes only the caller's syscall count and last-active
      time. */
  lemma RefusalIsSilent(s: State, pid: ProcessId, call: Syscall, t: Time)
    requires Step(s, pid, call, t).result.Err?
    ensures Step(s, pid, call, t).commits == []
    ensures var s' := Step(s, pid, call, t).state;
      && s'.(processes := s.processes) == s
      && s'.processes.Keys == s.processes.Keys
      && (forall p :: p in s.processes && p != pid ==> s'.processes[p] == s.processes[p])
      && (pid in s.processes ==>
            s'.processes[pid].(metrics := s.processes[pid].metrics) == s.processes[pid]
            && s'.processes[pid].metrics ==
               s.processes[pid].metrics.(syscallCount := s.processes[pid].metrics.syscallCount + 1, lastActive := t))
  {
    ErrHasNoEffect(Tick(s, pid, t), pid, call, t);
  }

  lemma ErrHasNoEffect(s: State, pid: ProcessId, call: Syscall, t: Time)
    requires Decide(s, pid, call, t).result.Err?
    ensures Decide(s, pid, call, t).effect == Nothing && Decide(s, pid, call, t).commits == []
  {
  }

  /** What the log leaves out: grants of different permissions, from one state, leave the same commits
      and different capabilities behind. */
  lemma HistoryForgetsPermissions(s: State, pid: ProcessId, slot: CapSlot, to: ProcessId,
                                  a: Permissions, b: Permissions, t: Time)
    requires Inv(s) && a != b
    requires Step(s, pid, CapGrant(slot, to, a), t).result.Ok? && Step(s, pid, CapGrant(slot, to, b), t).result.Ok?
    ensures var x, y := Step(s, pid, CapGrant(slot, to, a), t), Step(s, pid, CapGrant(slot, to, b), t);
      && x.commits == y.commits
      && HasCap(x.state, to, FreshSlot(s, to)) && HasCap(y.state, to, FreshSlot(s, to))
      && CapAt(x.state, to, FreshSlot(s, to)).permissions != CapAt(y.state, to, FreshSlot(s, to)).permissions
  {
  }
}
