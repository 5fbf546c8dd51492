/** The kernel's stated invariants, made inductive over every run. */
module KernelInvariant {
  import opened KernelTypes
  import opened Common
  import opened KernelSpec

  /** The object a capability names exists (only endpoints and processes are tracked). */
  ghost predicate Exists(s: State, ty: ObjectType, oid: nat) {
    match ty
    case EndpointObject => oid in s.endpoints
    case ProcessObject => oid in s.processes
    case _ => true
  }

  ghost predicate TablesMatch(s: State) {
    && s.processes.Keys == s.capSpaces.Keys
    && (forall p :: p in s.processes ==> s.processes[p].pid == p && p < s.nextPid)
  }

  ghost predicate MessageOk(s: State, m: Message) {
    && m.sender in s.processes
    && |m.data| <= MAX_MESSAGE_SIZE
    && |m.caps| <= MAX_CAPS_PER_MESSAGE
    && (forall i :: 0 <= i < |m.caps| ==>
          m.caps[i].capId < s.nextCapId && Exists(s, m.caps[i].objectType, m.caps[i].objectId))
  }

  ghost predicate EndpointOk(s: State, e: EndpointId)
    requires e in s.endpoints
  {
    var ep := s.endpoints[e];
    && ep.id == e
    && e < s.nextEndpointId
    && ep.owner in s.processes
    && ep.metrics.queueDepth == |ep.pending| <= ep.metrics.queueHighWater
    && (forall i :: 0 <= i < |ep.pending| ==> MessageOk(s, ep.pending[i]))
  }

  ghost predicate CapOk(s: State, p: ProcessId, k: CapSlot)
    requires HasCap(s, p, k)
  {
    var cap := CapAt(s, p, k);
    && k < s.capSpaces[p].nextSlot
    && cap.id < s.nextCapId
    && Exists(s, cap.objectType, cap.objectId)
  }

  ghost predicate IdsUnique(s: State) {
    forall p, k, q, j :: HasCap(s, p, k) && HasCap(s, q, j) && CapAt(s, p, k).id == CapAt(s, q, j).id
      ==> p == q && k == j
  }

  ghost predicate Inv(s: State) {
    && TablesMatch(s)
    && (forall e :: e in s.endpoints ==> EndpointOk(s, e))
    && (forall p, k :: HasCap(s, p, k) ==> CapOk(s, p, k))
    && IdsUnique(s)
  }

  /** What a decision guarantees about the effect it picks. */
  ghost predicate Justified(s: State, e: Effect) {
    match e
    case Nothing => true
    case Bury(_) => true
    case Open(owner) => owner in s.processes
    case Post(ep, msg, _) => ep in s.endpoints && MessageOk(s, msg)
    case Take(ep, taker) => ep in s.endpoints && taker in s.processes
    case Install(p, source, _) =>
      p in s.processes && exists q, j :: HasCap(s, q, j) && CapAt(s, q, j) == source
    case Drop(_, _) => true
  }

  // ---------------------------------------------------------------- one step

  /** Nothing an effect does makes an existing object disappear or an issued id available again. */
  lemma PerformGrows(s: State, e: Effect)
    ensures var s' := Perform(s, e);
      && s'.processes.Keys == s.processes.Keys
      && s'.capSpaces.Keys == s.capSpaces.Keys
      && s.endpoints.Keys <= s'.endpoints.Keys
      && s.nextPid == s'.nextPid
      && s.nextEndpointId <= s'.nextEndpointId
      && s.nextCapId <= s'.nextCapId
  {
  }

  lemma MessageOkGrows(s: State, s': State, m: Message)
    requires MessageOk(s, m)
    requires s.processes.Keys <= s'.processes.Keys && s.endpoints.Keys <= s'.endpoints.Keys
    requires s.nextCapId <= s'.nextCapId
    ensures MessageOk(s', m)
  {
    forall i | 0 <= i < |m.caps|
      ensures m.caps[i].capId < s'.nextCapId && Exists(s', m.caps[i].objectType, m.caps[i].objectId)
    {
    }
  }

  lemma QueuesStayOk(s: State, s': State)
    requires forall e :: e in s.endpoints ==> EndpointOk(s, e)
    requires s.processes.Keys <= s'.processes.Keys && s.endpoints == s'.endpoints
    requires s.nextEndpointId == s'.nextEndpointId && s.nextCapId <= s'.nextCapId
    ensures forall e :: e in s'.endpoints ==> EndpointOk(s', e)
  {
    forall e | e in s'.endpoints
      ensures EndpointOk(s', e)
    {
      assert EndpointOk(s, e);
      forall i | 0 <= i < |s.endpoints[e].pending|
        ensures MessageOk(s', s.endpoints[e].pending[i])
      {
        MessageOkGrows(s, s', s.endpoints[e].pending[i]);
      }
    }
  }

  lemma InstallKeepsInv(s: State, p: ProcessId, source: Capability, permissions: Permissions)
    requires Inv(s) && Justified(s, Install(p, source, permissions))
    ensures Inv(Perform(s, Install(p, source, permissions)))
  {
    var s' := Perform(s, Install(p, source, permissions));
    var newSlot := s.capSpaces[p].nextSlot;
    assert !HasCap(s, p, newSlot);
    QueuesStayOk(s, s');
    var q, j :| HasCap(s, q, j) && CapAt(s, q, j) == source;
    assert CapOk(s, q, j);
    forall r, k | HasCap(s', r, k)
      ensures CapOk(s', r, k)
    {
      if !(r == p && k == newSlot) { assert CapOk(s, r, k); }
    }
    FreshIdUnique(s, s', p, newSlot);
  }

  /** Adding one capability with the next id keeps ids unique. */
  lemma FreshIdUnique(s: State, s': State, p: ProcessId, newSlot: CapSlot)
    requires Inv(s)
    requires HasCap(s', p, newSlot) && CapAt(s', p, newSlot).id == s.nextCapId
    requires forall r, k :: HasCap(s', r, k) && !(r == p && k == newSlot)
               ==> HasCap(s, r, k) && CapAt(s', r, k) == CapAt(s, r, k)
    ensures IdsUnique(s')
  {
    forall r, k, q, j | HasCap(s', r, k) && HasCap(s', q, j) && CapAt(s', r, k).id == CapAt(s', q, j).id
      ensures r == q && k == j
    {
      if !(r == p && k == newSlot) { assert CapOk(s, r, k); }
      if !(q == p && j == newSlot) { assert CapOk(s, q, j); }
    }
  }

  lemma OpenKeepsInv(s: State, owner: ProcessId)
    requires Inv(s) && Justified(s, Open(owner))
    ensures Inv(Perform(s, Open(owner)))
  {
    var s' := Perform(s, Open(owner));
    var newSlot := s.capSpaces[owner].nextSlot;
    forall e | e in s'.endpoints
      ensures EndpointOk(s', e)
    {
      if e in s.endpoints {
        assert EndpointOk(s, e);
        assert s'.endpoints[e] == s.endpoints[e];
        forall i | 0 <= i < |s.endpoints[e].pending|
          ensures MessageOk(s', s.endpoints[e].pending[i])
        {
          MessageOkGrows(s, s', s.endpoints[e].pending[i]);
        }
      }
    }
    forall r, k | HasCap(s', r, k)
      ensures CapOk(s', r, k)
    {
      if !(r == owner && k == newSlot) { assert CapOk(s, r, k); }
    }
    FreshIdUnique(s, s', owner, newSlot);
  }

  lemma PostKeepsInv(s: State, ep: EndpointId, msg: Message, counted: bool)
    requires Inv(s) && Justified(s, Post(ep, msg, counted))
    ensures Inv(Perform(s, Post(ep, msg, counted)))
  {
    var s' := Perform(s, Post(ep, msg, counted));
    forall e | e in s'.endpoints
      ensures EndpointOk(s', e)
    {
      assert EndpointOk(s, e);
      forall i | 0 <= i < |s'.endpoints[e].pending|
        ensures MessageOk(s', s'.endpoints[e].pending[i])
      {
        MessageOkGrows(s, s', s'.endpoints[e].pending[i]);
      }
    }
    CapsStayOk(s, s');
  }

  lemma TakeKeepsInv(s: State, ep: EndpointId, taker: ProcessId)
    requires Inv(s) && Justified(s, Take(ep, taker))
    ensures Inv(Perform(s, Take(ep, taker)))
  {
    var s' := Perform(s, Take(ep, taker));
    forall e | e in s'.endpoints
      ensures EndpointOk(s', e)
    {
      assert EndpointOk(s, e);
      var shift := if e == ep && s.endpoints[e].pending != [] then 1 else 0;
      forall i | 0 <= i < |s'.endpoints[e].pending|
        ensures MessageOk(s', s'.endpoints[e].pending[i])
      {
        MessageOkGrows(s, s', s.endpoints[e].pending[i + shift]);
      }
    }
    CapsStayOk(s, s');
  }

  lemma CapsStayOk(s: State, s': State)
    requires Inv(s)
    requires s.capSpaces == s'.capSpaces && s.nextCapId == s'.nextCapId
    requires s.processes.Keys <= s'.processes.Keys && s.endpoints.Keys <= s'.endpoints.Keys
    ensures forall p, k :: HasCap(s', p, k) ==> CapOk(s', p, k)
    ensures IdsUnique(s')
  {
    forall p, k | HasCap(s', p, k)
      ensures CapOk(s', p, k)
    {
      assert HasCap(s, p, k) && CapOk(s, p, k);
    }
    forall r, k, q, j | HasCap(s', r, k) && HasCap(s', q, j) && CapAt(s', r, k).id == CapAt(s', q, j).id
      ensures r == q && k == j
    {
      assert HasCap(s, r, k) && HasCap(s, q, j);
    }
  }

  lemma DropKeepsInv(s: State, p: ProcessId, slot: CapSlot)
    requires Inv(s)
    ensures Inv(Perform(s, Drop(p, slot)))
  {
    var s' := Perform(s, Drop(p, slot));
    QueuesStayOk(s, s');
    forall r, k | HasCap(s', r, k)
      ensures CapOk(s', r, k)
    {
      assert HasCap(s, r, k) && CapOk(s, r, k);
    }
    forall r, k, q, j | HasCap(s', r, k) && HasCap(s', q, j) && CapAt(s', r, k).id == CapAt(s', q, j).id
      ensures r == q && k == j
    {
      assert HasCap(s, r, k) && HasCap(s, q, j);
    }
  }

  lemma BuryKeepsInv(s: State, p: ProcessId)
    requires Inv(s)
    ensures Inv(Perform(s, Bury(p)))
  {
    var s' := Perform(s, Bury(p));
    QueuesStayOk(s, s');
    CapsStayOk(s, s');
  }

  lemma PerformKeepsInv(s: State, e: Effect)
    requires Inv(s) && Justified(s, e)
    ensures Inv(Perform(s, e))
  {
    match e
    case Nothing =>
    case Bury(p) => BuryKeepsInv(s, p);
    case Open(owner) => OpenKeepsInv(s, owner);
    case Post(ep, msg, counted) => PostKeepsInv(s, ep, msg, counted);
    case Take(ep, taker) => TakeKeepsInv(s, ep, taker);
    case Install(p, source, permissions) => InstallKeepsInv(s, p, source, permissions);
    case Drop(p, slot) => DropKeepsInv(s, p, slot);
  }

  lemma TickKeepsInv(s: State, p: ProcessId, t: Time)
    requires Inv(s)
    ensures Inv(Tick(s, p, t))
  {
    var s' := Tick(s, p, t);
    QueuesStayOk(s, s');
    CapsStayOk(s, s');
  }

  lemma CollectedCapsOk(s: State, pid: ProcessId, slots: seq<CapSlot>)
    requires Inv(s) && pid in s.capSpaces
    ensures var r := Collect(s.capSpaces[pid], slots);
      r.Success? ==> |r.value| == |slots| && forall i :: 0 <= i < |r.value| ==>
        r.value[i].capId < s.nextCapId && Exists(s, r.value[i].objectType, r.value[i].objectId)
  {
    var r := Collect(s.capSpaces[pid], slots);
    if r.Success? {
      forall i | 0 <= i < |r.value|
        ensures r.value[i].capId < s.nextCapId && Exists(s, r.value[i].objectType, r.value[i].objectId)
      {
        assert HasCap(s, pid, slots[i]);
        assert CapOk(s, pid, slots[i]);
      }
    }
  }

  lemma DecisionJustified(s: State, pid: ProcessId, call: Syscall, t: Time)
    requires Inv(s)
    ensures Justified(s, Decide(s, pid, call, t).effect)
  {
    match call
    case SendWithCaps(slot, tag, data, capSlots) =>
      if pid in s.capSpaces { CollectedCapsOk(s, pid, capSlots); }
    case CapGrant(slot, toPid, permissions) =>
      var e := DecideGrant(s, pid, slot, toPid, permissions, t).effect;
      if e.Install? { assert HasCap(s, pid, slot) && CapAt(s, pid, slot) == e.source; }
    case CapDerive(slot, permissions) =>
      var e := DecideDerive(s, pid, slot, permissions).effect;
      if e.Install? { assert HasCap(s, pid, slot) && CapAt(s, pid, slot) == e.source; }
    case _ =>
  }

  lemma StepKeepsInv(s: State, pid: ProcessId, call: Syscall, t: Time)
    requires Inv(s)
    ensures Inv(Step(s, pid, call, t).state)
  {
    TickKeepsInv(s, pid, t);
    DecisionJustified(Tick(s, pid, t), pid, call, t);
    PerformKeepsInv(Tick(s, pid, t), Decide(Tick(s, pid, t), pid, call, t).effect);
  }

  lemma RegisterKeepsInv(s: State, name: string, t: Time)
    requires Inv(s)
    ensures Inv(Registered(s, name, t))
  {
    var s' := Registered(s, name, t);
    assert s.nextPid !in s.processes;
    QueuesStayOk(s, s');
    forall p, k | HasCap(s', p, k)
      ensures HasCap(s, p, k) && CapAt(s', p, k) == CapAt(s, p, k) && CapOk(s', p, k)
    {
      assert CapOk(s, p, k);
    }
  }

  // ---------------------------------------------------------------- every run

  lemma {:induction false} ExecKeepsInv(s: State, es: seq<Event>)
    requires Inv(s)
    ensures Inv(Exec(s, es))
  {
    if es != [] {
      ExecKeepsInv(s, es[..|es| - 1]);
      var prior := Exec(s, es[..|es| - 1]);
      match es[|es| - 1]
      case Register(name, t) => RegisterKeepsInv(prior, name, t);
      case Sys(pid, call, t) => StepKeepsInv(prior, pid, call, t);
    }
  }

  /** Every state the kernel can reach satisfies the invariant. */
  lemma RunSatisfiesInv(es: seq<Event>)
    ensures Inv(Run(es))
  {
    ExecKeepsInv(INITIAL, es);
  }

  /** The zero-slot fallback is dead code, also for a zombie that derives, and an insertion never overwrites a held
      capability. */
  lemma InsertionIsFresh(es: seq<Event>, p: ProcessId)
    requires p in Run(es).processes
    ensures p in Run(es).capSpaces
    ensures FreshSlot(Run(es), p) == Run(es).capSpaces[p].nextSlot
    ensures !HasCap(Run(es), p, FreshSlot(Run(es), p))
  {
    RunSatisfiesInv(es);
  }
}
