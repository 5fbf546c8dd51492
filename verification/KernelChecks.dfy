/** The executable invariant checks: what they report, and when a reachable state is reported clean. */
module KernelChecks {
  import opened KernelTypes
  import opened Common
  import opened KernelSpec
  import opened KernelInvariant
  import opened Tables

  datatype Violation =
    | NoCapSpace(pid: ProcessId)
    | OrphanCapSpace(pid: ProcessId)
    | MissingOwner(endpoint: EndpointId)
    | ZombieOwner(endpoint: EndpointId)
    | MissingEndpoint(pid: ProcessId, slot: CapSlot)
    | MissingProcess(pid: ProcessId, slot: CapSlot)
    | PidNotBelowCounter(pid: ProcessId)
    | EndpointNotBelowCounter(endpoint: EndpointId)
    | CapIdNotBelowCounter(id: nat)

  ghost predicate OwnersLive(s: State) {
    forall e :: e in s.endpoints ==> Alive(s, s.endpoints[e].owner)
  }

  ghost predicate ObjectsExist(s: State, p: ProcessId)
    requires p in s.capSpaces
  {
    forall k :: k in s.capSpaces[p].slots ==>
      Exists(s, s.capSpaces[p].slots[k].objectType, s.capSpaces[p].slots[k].objectId)
  }

  ghost predicate IdsBelow(s: State, p: ProcessId)
    requires p in s.capSpaces
  {
    forall k :: k in s.capSpaces[p].slots ==> s.capSpaces[p].slots[k].id < s.nextCapId
  }

  /** The four invariants the checker is meant to decide. */
  ghost predicate Clean(s: State) {
    && s.processes.Keys == s.capSpaces.Keys
    && OwnersLive(s)
    && (forall p :: p in s.capSpaces ==> ObjectsExist(s, p))
    && (forall p :: p in s.processes ==> p < s.nextPid)
    && (forall e :: e in s.endpoints ==> e < s.nextEndpointId)
    && (forall p :: p in s.capSpaces ==> IdsBelow(s, p))
  }

  /** What each finding asserts about the state. */
  ghost predicate Violates(s: State, v: Violation) {
    match v
    case NoCapSpace(p) => p in s.processes && p !in s.capSpaces
    case OrphanCapSpace(p) => p in s.capSpaces && p !in s.processes
    case MissingOwner(e) => e in s.endpoints && s.endpoints[e].owner !in s.processes
    case ZombieOwner(e) =>
      e in s.endpoints && s.endpoints[e].owner in s.processes && s.processes[s.endpoints[e].owner].status == Zombie
    case MissingEndpoint(p, k) =>
      HasCap(s, p, k) && CapAt(s, p, k).objectType == EndpointObject && CapAt(s, p, k).objectId !in s.endpoints
    case MissingProcess(p, k) =>
      HasCap(s, p, k) && CapAt(s, p, k).objectType == ProcessObject && CapAt(s, p, k).objectId !in s.processes
    case PidNotBelowCounter(p) => p in s.processes && p >= s.nextPid
    case EndpointNotBelowCounter(e) => e in s.endpoints && e >= s.nextEndpointId
    case CapIdNotBelowCounter(id) => id >= s.nextCapId && exists p :: p in s.capSpaces && HoldsId(s, p, id)
  }

  ghost predicate HoldsId(s: State, p: ProcessId, id: nat)
    requires p in s.capSpaces
  {
    exists k :: k in s.capSpaces[p].slots && s.capSpaces[p].slots[k].id == id
  }

  // Each check walks a table in key order, as the map iterates.

  method CheckProcessesHaveSpaces(s: State) returns (found: seq<Violation>)
    ensures forall v :: v in found <==> v.NoCapSpace? && Violates(s, v)
  {
    found := [];
    var todo := s.processes.Keys;
    while todo != {}
      invariant todo <= s.processes.Keys
      invariant forall v :: v in found <==> v.NoCapSpace? && Violates(s, v) && v.pid !in todo
    {
      var p := Least(todo);
      if p !in s.capSpaces { found := found + [NoCapSpace(p)]; }
      todo := todo - {p};
    }
  }

  method CheckSpacesHaveProcesses(s: State) returns (found: seq<Violation>)
    ensures forall v :: v in found <==> v.OrphanCapSpace? && Violates(s, v)
  {
    found := [];
    var todo := s.capSpaces.Keys;
    while todo != {}
      invariant todo <= s.capSpaces.Keys
      invariant forall v :: v in found <==> v.OrphanCapSpace? && Violates(s, v) && v.pid !in todo
    {
      var p := Least(todo);
      if p !in s.processes { found := found + [OrphanCapSpace(p)]; }
      todo := todo - {p};
    }
  }

  method CheckEndpointOwnership(s: State) returns (found: seq<Violation>)
    ensures forall v :: v in found <==> (v.MissingOwner? || v.ZombieOwner?) && Violates(s, v)
  {
    found := [];
    var todo := s.endpoints.Keys;
    while todo != {}
      invariant todo <= s.endpoints.Keys
      invariant forall v :: v in found <==> (v.MissingOwner? || v.ZombieOwner?) && Violates(s, v) && v.endpoint !in todo
    {
      var e := Least(todo);
      var owner := s.endpoints[e].owner;
      if owner !in s.processes {
        found := found + [MissingOwner(e)];
      } else if s.processes[owner].status == Zombie {
        found := found + [ZombieOwner(e)];
      }
      todo := todo - {e};
    }
  }

  method CheckTable(s: State, p: ProcessId) returns (found: seq<Violation>)
    requires p in s.capSpaces
    ensures forall v :: v in found <==> (v.MissingEndpoint? || v.MissingProcess?) && v.pid == p && Violates(s, v)
  {
    found := [];
    var table := s.capSpaces[p].slots;
    var todo := table.Keys;
    while todo != {}
      invariant todo <= table.Keys
      invariant forall v :: v in found <==>
        (v.MissingEndpoint? || v.MissingProcess?) && v.pid == p && Violates(s, v) && v.slot !in todo
    {
      var k := Least(todo);
      match table[k].objectType {
        case EndpointObject =>
          if table[k].objectId !in s.endpoints { found := found + [MissingEndpoint(p, k)]; }
        case ProcessObject =>
          if table[k].objectId !in s.processes { found := found + [MissingProcess(p, k)]; }
        case _ =>
      }
      todo := todo - {k};
    }
  }

  method CheckCapabilityObjects(s: State) returns (found: seq<Violation>)
    ensures forall v :: v in found <==> (v.MissingEndpoint? || v.MissingProcess?) && Violates(s, v)
  {
    found := [];
    var todo := s.capSpaces.Keys;
    while todo != {}
      invariant todo <= s.capSpaces.Keys
      invariant forall v :: v in found <==>
        (v.MissingEndpoint? || v.MissingProcess?) && Violates(s, v) && v.pid !in todo
    {
      var p := Least(todo);
      var here := CheckTable(s, p);
      found := found + here;
      todo := todo - {p};
    }
  }

  method CheckPids(s: State) returns (found: seq<Violation>)
    ensures forall v :: v in found <==> v.PidNotBelowCounter? && Violates(s, v)
  {
    found := [];
    var todo := s.processes.Keys;
    while todo != {}
      invariant todo <= s.processes.Keys
      invariant forall v :: v in found <==> v.PidNotBelowCounter? && Violates(s, v) && v.pid !in todo
    {
      var p := Least(todo);
      if p >= s.nextPid { found := found + [PidNotBelowCounter(p)]; }
      todo := todo - {p};
    }
  }

  method CheckEndpointIds(s: State) returns (found: seq<Violation>)
    ensures forall v :: v in found <==> v.EndpointNotBelowCounter? && Violates(s, v)
  {
    found := [];
    var todo := s.endpoints.Keys;
    while todo != {}
      invariant todo <= s.endpoints.Keys
      invariant forall v :: v in found <==> v.EndpointNotBelowCounter? && Violates(s, v) && v.endpoint !in todo
    {
      var e := Least(todo);
      if e >= s.nextEndpointId { found := found + [EndpointNotBelowCounter(e)]; }
      todo := todo - {e};
    }
  }

  method CheckCapIds(s: State, p: ProcessId) returns (found: seq<Violation>)
    requires p in s.capSpaces
    ensures forall v :: v in found <==> v.CapIdNotBelowCounter? && v.id >= s.nextCapId && HoldsId(s, p, v.id)
  {
    found := [];
    var table := s.capSpaces[p].slots;
    var todo := table.Keys;
    while todo != {}
      invariant todo <= table.Keys
      invariant forall v :: v in found <==>
        v.CapIdNotBelowCounter? && v.id >= s.nextCapId && exists k :: k in table && k !in todo && table[k].id == v.id
    {
      var k := Least(todo);
      if table[k].id >= s.nextCapId { found := found + [CapIdNotBelowCounter(table[k].id)]; }
      todo := todo - {k};
    }
  }

  method CheckAllCapIds(s: State) returns (found: seq<Violation>)
    ensures forall v :: v in found <==> v.CapIdNotBelowCounter? && Violates(s, v)
  {
    found := [];
    var todo := s.capSpaces.Keys;
    while todo != {}
      invariant todo <= s.capSpaces.Keys
      invariant forall v :: v in found <==>
        v.CapIdNotBelowCounter? && v.id >= s.nextCapId &&
        exists p :: p in s.capSpaces && p !in todo && HoldsId(s, p, v.id)
    {
      var p := Least(todo);
      var here := CheckCapIds(s, p);
      found := found + here;
      todo := todo - {p};
    }
  }

  /** The report holds exactly the violations of the state, and is empty exactly when the state is clean. */
  method CheckAllInvariants(s: State) returns (found: seq<Violation>)
    ensures forall v :: v in found <==> Violates(s, v)
    ensures found == [] <==> Clean(s)
  {
    var missing := CheckProcessesHaveSpaces(s);
    var orphans := CheckSpacesHaveProcesses(s);
    var owners := CheckEndpointOwnership(s);
    var objects := CheckCapabilityObjects(s);
    var pids := CheckPids(s);
    var endpoints := CheckEndpointIds(s);
    var capIds := CheckAllCapIds(s);
    found := missing + orphans + owners + objects + pids + endpoints + capIds;
    CleanMeansNoViolation(s);
    assert found != [] ==> found[0] in found;
  }

  lemma CleanMeansNoViolation(s: State)
    ensures Clean(s) <==> forall v :: !Violates(s, v)
  {
    if forall v :: !Violates(s, v) {
      TablesAgree(s);
      forall p | p in s.capSpaces
        ensures ObjectsExist(s, p) && IdsBelow(s, p)
      {
        TableIsClean(s, p);
      }
      forall e | e in s.endpoints
        ensures Alive(s, s.endpoints[e].owner) && e < s.nextEndpointId
      {
        assert !Violates(s, MissingOwner(e)) && !Violates(s, ZombieOwner(e));
        assert !Violates(s, EndpointNotBelowCounter(e));
      }
    } else {
      var v :| Violates(s, v);
      DirtyIfViolated(s, v);
    }
  }

  lemma TablesAgree(s: State)
    requires forall v :: !Violates(s, v)
    ensures s.processes.Keys == s.capSpaces.Keys
    ensures forall p :: p in s.processes ==> p < s.nextPid
  {
    forall p | p in s.processes
      ensures p in s.capSpaces && p < s.nextPid
    {
      assert !Violates(s, NoCapSpace(p)) && !Violates(s, PidNotBelowCounter(p));
    }
    forall p | p in s.capSpaces
      ensures p in s.processes
    {
      assert !Violates(s, OrphanCapSpace(p));
    }
  }

  lemma TableIsClean(s: State, p: ProcessId)
    requires p in s.capSpaces && forall v :: !Violates(s, v)
    ensures ObjectsExist(s, p) && IdsBelow(s, p)
  {
    forall k | k in s.capSpaces[p].slots
      ensures Exists(s, s.capSpaces[p].slots[k].objectType, s.capSpaces[p].slots[k].objectId)
      ensures s.capSpaces[p].slots[k].id < s.nextCapId
    {
      assert !Violates(s, MissingEndpoint(p, k)) && !Violates(s, MissingProcess(p, k));
      assert HoldsId(s, p, s.capSpaces[p].slots[k].id);
      assert !Violates(s, CapIdNotBelowCounter(s.capSpaces[p].slots[k].id));
    }
  }

  lemma DirtyIfViolated(s: State, v: Violation)
    requires Violates(s, v)
    ensures !Clean(s)
  {
    match v
    case MissingEndpoint(p, k) => assert !ObjectsExist(s, p);
    case MissingProcess(p, k) => assert !ObjectsExist(s, p);
    case CapIdNotBelowCounter(id) =>
      var p :| p in s.capSpaces && HoldsId(s, p, id);
      assert !IdsBelow(s, p);
    case NoCapSpace(p) => assert p in s.processes.Keys && p !in s.capSpaces.Keys;
    case OrphanCapSpace(p) => assert p in s.capSpaces.Keys && p !in s.processes.Keys;
    case _ =>
  }

  // ---------------------------------------------------------------- when the report is empty

  ghost predicate OwnsEndpoint(s: State, p: ProcessId) {
    exists e :: e in s.endpoints && s.endpoints[e].owner == p
  }

  /** A reachable state is reported clean exactly when no endpoint has a dead owner. */
  lemma CleanWhenOwnersLive(es: seq<Event>)
    ensures Clean(Run(es)) <==> OwnersLive(Run(es))
  {
    RunSatisfiesInv(es);
    CleanGivenInv(Run(es));
  }

  lemma CleanGivenInv(s: State)
    requires Inv(s)
    ensures Clean(s) <==> OwnersLive(s)
  {
    forall p | p in s.capSpaces
      ensures ObjectsExist(s, p) && IdsBelow(s, p)
    {
      forall k | k in s.capSpaces[p].slots
        ensures Exists(s, s.capSpaces[p].slots[k].objectType, s.capSpaces[p].slots[k].objectId)
        ensures s.capSpaces[p].slots[k].id < s.nextCapId
      {
        assert HasCap(s, p, k) && CapOk(s, p, k);
      }
    }
  }

  /** The ownership check is not an invariant of the kernel: exiting leaves the endpoint behind. */
  lemma ExitLeavesZombieOwner()
    ensures var es := [Register("a", 0), Sys(1, CreateEndpoint, 1), Sys(1, Exit(0), 2)];
      Clean(Run(es[..2])) && !Clean(Run(es))
  {
    var e0, e1, e2 := Register("a", 0), Sys(1, CreateEndpoint, 1), Sys(1, Exit(0), 2);
    var es := [e0, e1, e2];
    assert es[..1] == [e0] && es[..2] == [e0, e1] && es[..2][..1] == es[..1] && es[..1][..0] == [];
    var s1 := After(INITIAL, e0);
    var s2 := After(s1, e1);
    assert Exec(INITIAL, es[..1]) == s1;
    assert Exec(INITIAL, es[..2]) == s2;
    assert Exec(INITIAL, es) == After(s2, e2);
    assert s2.endpoints.Keys == {1} && s2.endpoints[1].owner == 1 && s2.processes[1].status == Running;
    CleanWhenOwnersLive(es[..2]);
  }

  /** Exactly the steps that take a clean report to a dirty one: an exit or a kill of a process that
      owns an endpoint. */
  lemma CleanUnlessOwnerDies(s: State, pid: ProcessId, call: Syscall, t: Time)
    requires Inv(s) && Clean(s)
    ensures Clean(Step(s, pid, call, t).state) <==>
      !(call.Exit? && OwnsEndpoint(s, pid)) && !(call.Kill? && OwnsEndpoint(s, call.target))
  {
    var s' := Step(s, pid, call, t).state;
    StepKeepsInv(s, pid, call, t);
    CleanGivenInv(s');
    StatusAfter(s, pid, call, t);
    OwnersAfter(s, pid, call, t);
    OwnersLiveAfter(s, s', pid, call);
  }

  lemma OwnersLiveAfter(s: State, s': State, pid: ProcessId, call: Syscall)
    requires OwnersLive(s) && StatusChange(s, s', pid, call) && OwnerChange(s, s', pid, call)
    ensures OwnersLive(s') <==>
      !(call.Exit? && OwnsEndpoint(s, pid)) && !(call.Kill? && OwnsEndpoint(s, call.target))
  {
    if call.Exit? && OwnsEndpoint(s, pid) {
      var e :| e in s.endpoints && s.endpoints[e].owner == pid;
      assert !Alive(s', s'.endpoints[e].owner);
    } else if call.Kill? && OwnsEndpoint(s, call.target) {
      var e :| e in s.endpoints && s.endpoints[e].owner == call.target;
      assert !Alive(s', s'.endpoints[e].owner);
    }
  }

  /** The exit or kill of a process that owns an endpoint at that moment. */
  ghost predicate BuriesOwner(s: State, ev: Event) {
    ev.Sys? && ((ev.call.Exit? && OwnsEndpoint(s, ev.pid)) || (ev.call.Kill? && OwnsEndpoint(s, ev.call.target)))
  }

  /** A dead owner stays dead and stays the owner. */
  lemma DirtyStaysDirty(s: State, ev: Event)
    requires Inv(s) && !OwnersLive(s)
    ensures !OwnersLive(After(s, ev))
  {
    var e :| e in s.endpoints && !Alive(s, s.endpoints[e].owner);
    assert EndpointOk(s, e);
    var owner := s.endpoints[e].owner;
    match ev
    case Register(_, _) => assert owner != s.nextPid; assert !Alive(After(s, ev), After(s, ev).endpoints[e].owner);
    case Sys(pid, call, t) =>
      StatusAfter(s, pid, call, t);
      OwnersAfter(s, pid, call, t);
      assert !Alive(After(s, ev), After(s, ev).endpoints[e].owner);
  }

  lemma RegistrationKeepsOwners(s: State, name: string, t: Time)
    requires Inv(s) && OwnersLive(s)
    ensures OwnersLive(Registered(s, name, t))
  {
    assert s.nextPid !in s.processes;
  }

  lemma CleanAfterExactly(s: State, ev: Event)
    requires Inv(s)
    ensures Clean(After(s, ev)) <==> Clean(s) && !BuriesOwner(s, ev)
  {
    AfterKeepsInv(s, ev);
    CleanGivenInv(s);
    CleanGivenInv(After(s, ev));
    if !OwnersLive(s) {
      DirtyStaysDirty(s, ev);
    } else {
      match ev
      case Register(name, t) => RegistrationKeepsOwners(s, name, t);
      case Sys(pid, call, t) => CleanUnlessOwnerDies(s, pid, call, t);
    }
  }

  lemma AfterKeepsInv(s: State, ev: Event)
    requires Inv(s)
    ensures Inv(After(s, ev))
  {
    match ev
    case Register(name, t) => RegisterKeepsInv(s, name, t);
    case Sys(pid, call, t) => StepKeepsInv(s, pid, call, t);
  }

  ghost predicate OwnerBuriedAt(es: seq<Event>, k: nat)
    requires k < |es|
  {
    BuriesOwner(Before(INITIAL, es, k), es[k])
  }

  ghost predicate NoOwnerBuried(es: seq<Event>) {
    forall k :: 0 <= k < |es| ==> !OwnerBuriedAt(es, k)
  }

  lemma BuriedEarlier(es: seq<Event>, k: nat)
    requires k < |es| - 1
    ensures OwnerBuriedAt(es[..|es| - 1], k) <==> OwnerBuriedAt(es, k)
  {
    assert es[..|es| - 1][..k] == es[..k];
  }

  lemma NoOwnerBuriedSnoc(es: seq<Event>)
    requires es != []
    ensures NoOwnerBuried(es) <==> NoOwnerBuried(es[..|es| - 1]) && !OwnerBuriedAt(es, |es| - 1)
  {
    var earlier := es[..|es| - 1];
    if NoOwnerBuried(es) {
      forall k | 0 <= k < |earlier|
        ensures !OwnerBuriedAt(earlier, k)
      {
        BuriedEarlier(es, k);
      }
    } else {
      var k :| 0 <= k < |es| && OwnerBuriedAt(es, k);
      if k < |es| - 1 { BuriedEarlier(es, k); }
    }
  }

  /** Over whole runs: the report is clean if and only if no event was the exit or kill of an endpoint's owner. */
  lemma {:induction false} CleanRunsExactly(es: seq<Event>)
    ensures Clean(Run(es)) <==> NoOwnerBuried(es)
  {
    if es == [] {
      CleanWhenOwnersLive([]);
    } else {
      var earlier := es[..|es| - 1];
      CleanRunsExactly(earlier);
      NoOwnerBuriedSnoc(es);
      RunSatisfiesInv(earlier);
      CleanAfterExactly(Run(earlier), es[|es| - 1]);
    }
  }

  /** Only exit and kill change a process's status. */
  ghost predicate StatusChange(s: State, s': State, pid: ProcessId, call: Syscall) {
    && s'.processes.Keys == s.processes.Keys
    && forall p :: p in s.processes ==>
         s'.processes[p].status ==
         if (call.Exit? && p == pid) || (call.Kill? && p == call.target) then Zombie else s.processes[p].status
  }

  /** Only endpoint creation adds ownership, and only for a living creator. */
  ghost predicate OwnerChange(s: State, s': State, pid: ProcessId, call: Syscall) {
    && s.endpoints.Keys <= s'.endpoints.Keys
    && forall e :: e in s'.endpoints ==>
         if e in s.endpoints then s'.endpoints[e].owner == s.endpoints[e].owner
         else call.CreateEndpoint? && s'.endpoints[e].owner == pid && Alive(s, pid)
  }

  lemma StatusAfterEffect(s: State, e: Effect)
    ensures Perform(s, e).processes.Keys == s.processes.Keys
    ensures forall p :: p in s.processes ==>
      Perform(s, e).processes[p].status == if e == Bury(p) then Zombie else s.processes[p].status
  {
  }

  lemma BurialDecided(s: State, pid: ProcessId, call: Syscall, t: Time, p: ProcessId)
    requires p in s.processes
    ensures Decide(s, pid, call, t).effect == Bury(p) <==>
      (call.Exit? && p == pid) || (call.Kill? && p == call.target)
  {
  }

  lemma StatusAfter(s: State, pid: ProcessId, call: Syscall, t: Time)
    ensures StatusChange(s, Step(s, pid, call, t).state, pid, call)
  {
    var ticked := Tick(s, pid, t);
    var e := Decide(ticked, pid, call, t).effect;
    StatusAfterEffect(ticked, e);
    forall p | p in s.processes
      ensures ticked.processes[p].status == s.processes[p].status
      ensures e == Bury(p) <==> (call.Exit? && p == pid) || (call.Kill? && p == call.target)
    {
      BurialDecided(ticked, pid, call, t, p);
    }
    StatusFromEffect(s, ticked, e, pid, call);
  }

  lemma StatusFromEffect(s: State, ticked: State, e: Effect, pid: ProcessId, call: Syscall)
    requires ticked.processes.Keys == s.processes.Keys
    requires forall p :: p in s.processes ==> ticked.processes[p].status == s.processes[p].status
    requires forall p :: p in s.processes ==>
      (e == Bury(p) <==> (call.Exit? && p == pid) || (call.Kill? && p == call.target))
    ensures StatusChange(s, Perform(ticked, e), pid, call)
  {
    StatusAfterEffect(ticked, e);
  }

  lemma OwnersAfterEffect(s: State, e: Effect)
    requires s.nextEndpointId !in s.endpoints
    ensures s.endpoints.Keys <= Perform(s, e).endpoints.Keys
    ensures forall ep :: ep in s.endpoints ==> Perform(s, e).endpoints[ep].owner == s.endpoints[ep].owner
    ensures forall ep :: ep in Perform(s, e).endpoints && ep !in s.endpoints ==>
      e.Open? && Perform(s, e).endpoints[ep].owner == e.owner
  {
  }

  lemma OpeningDecided(s: State, pid: ProcessId, call: Syscall, t: Time)
    requires Decide(s, pid, call, t).effect.Open?
    ensures call.CreateEndpoint? && Decide(s, pid, call, t).effect == Open(pid) && Alive(s, pid)
  {
  }

  lemma OwnersAfter(s: State, pid: ProcessId, call: Syscall, t: Time)
    requires s.nextEndpointId !in s.endpoints
    ensures OwnerChange(s, Step(s, pid, call, t).state, pid, call)
  {
    var ticked := Tick(s, pid, t);
    var e := Decide(ticked, pid, call, t).effect;
    OwnersAfterEffect(ticked, e);
    if e.Open? { OpeningDecided(ticked, pid, call, t); }
    assert Step(s, pid, call, t).state == Perform(ticked, e);
  }
}
