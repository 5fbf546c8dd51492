/** Where authority comes from, over every run: creation, grants and derivations, never anything else. */
module KernelAuthority {
  import opened KernelTypes
  import opened Common
  import opened KernelSpec
  import opened KernelInvariant

  // ---------------------------------------------------------------- attenuation

  /** `c` carries no more authority than `root`: same object, no extra right, same expiry. */
  predicate Descends(c: Capability, root: Capability) {
    && c.Names(root.objectType, root.objectId)
    && c.permissions.SubsetOf(root.permissions)
    && c.expiresAt == root.expiresAt
    && c.generation >= root.generation
  }

  ghost predicate HasRoot(s: State, c: Capability) {
    exists p, k :: HasCap(s, p, k) && Descends(c, CapAt(s, p, k))
  }

  /** The object already had an identity in `s` (only endpoint ids are handed out by the kernel). */
  predicate Allocated(s: State, ty: ObjectType, oid: nat) {
    ty == EndpointObject ==> oid < s.nextEndpointId
  }

  lemma EffectDescends(s: State, e: Effect, p: ProcessId, k: CapSlot)
    requires Justified(s, e)
    requires e.Install? ==> e.permissions.SubsetOf(e.source.permissions)
    requires HasCap(Perform(s, e), p, k)
    ensures HasRoot(s, CapAt(Perform(s, e), p, k)) || CapAt(Perform(s, e), p, k).Names(EndpointObject, s.nextEndpointId)
  {
    var c := CapAt(Perform(s, e), p, k);
    match e
    case Open(owner) =>
      if HasCap(s, p, k) && CapAt(s, p, k) == c { assert Descends(c, CapAt(s, p, k)); }
    case Install(q, source, permissions) =>
      if HasCap(s, p, k) && CapAt(s, p, k) == c {
        assert Descends(c, CapAt(s, p, k));
      } else {
        var r, j :| HasCap(s, r, j) && CapAt(s, r, j) == source;
        assert Descends(c, CapAt(s, r, j));
      }
    case _ =>
      assert HasCap(s, p, k) && Descends(c, CapAt(s, p, k));
  }

  lemma InstallDecided(s: State, pid: ProcessId, call: Syscall, t: Time)
    requires Decide(s, pid, call, t).effect.Install?
    ensures var e := Decide(s, pid, call, t).effect;
      && e.permissions.SubsetOf(e.source.permissions)
      && (call.CapGrant? || call.CapDerive?)
      && HasCap(s, pid, call.slot) && CapAt(s, pid, call.slot) == e.source
      && (call.CapGrant? ==> e.pid == call.toPid && e.source.permissions.grant && !e.source.Expired(t))
      && (call.CapDerive? ==> e.pid == pid)
  {
  }

  lemma StepDescends(s: State, pid: ProcessId, call: Syscall, t: Time, p: ProcessId, k: CapSlot)
    requires Inv(s)
    requires HasCap(Step(s, pid, call, t).state, p, k)
    ensures var c := CapAt(Step(s, pid, call, t).state, p, k);
      HasRoot(s, c) || c.Names(EndpointObject, s.nextEndpointId)
  {
    var ticked := Tick(s, pid, t);
    var e := Decide(ticked, pid, call, t).effect;
    TickKeepsInv(s, pid, t);
    DecisionJustified(ticked, pid, call, t);
    if e.Install? { InstallDecided(ticked, pid, call, t); }
    EffectDescends(ticked, e, p, k);
    var c := CapAt(Step(s, pid, call, t).state, p, k);
    if HasRoot(ticked, c) {
      var q, j :| HasCap(ticked, q, j) && Descends(c, CapAt(ticked, q, j));
      assert HasCap(s, q, j) && CapAt(s, q, j) == CapAt(ticked, q, j);
    }
  }

  lemma AfterDescends(s: State, ev: Event, p: ProcessId, k: CapSlot)
    requires Inv(s)
    requires HasCap(After(s, ev), p, k)
    ensures var c := CapAt(After(s, ev), p, k);
      HasRoot(s, c) || c.Names(EndpointObject, s.nextEndpointId)
  {
    match ev
    case Register(name, t) =>
      assert HasCap(s, p, k) && Descends(CapAt(After(s, ev), p, k), CapAt(s, p, k));
    case Sys(pid, call, t) => StepDescends(s, pid, call, t, p, k);
  }

  lemma AfterGrowsIds(s: State, ev: Event)
    ensures s.nextEndpointId <= After(s, ev).nextEndpointId
  {
    match ev
    case Register(_, _) =>
    case Sys(pid, call, t) =>
      PerformGrows(Tick(s, pid, t), Decide(Tick(s, pid, t), pid, call, t).effect);
  }

  lemma {:induction false} ExecGrowsIds(s: State, es: seq<Event>)
    ensures s.nextEndpointId <= Exec(s, es).nextEndpointId
  {
    if es != [] {
      ExecGrowsIds(s, es[..|es| - 1]);
      AfterGrowsIds(Exec(s, es[..|es| - 1]), es[|es| - 1]);
    }
  }

  /** No run invents authority: every capability held later on an object that already existed descends
      from one held now. */
  lemma {:induction false} AuthorityOnlyDescends(s: State, es: seq<Event>, p: ProcessId, k: CapSlot)
    requires Inv(s)
    requires HasCap(Exec(s, es), p, k)
    requires Allocated(s, CapAt(Exec(s, es), p, k).objectType, CapAt(Exec(s, es), p, k).objectId)
    ensures HasRoot(s, CapAt(Exec(s, es), p, k))
  {
    var c := CapAt(Exec(s, es), p, k);
    if es == [] {
      assert Descends(c, CapAt(s, p, k));
    } else {
      var earlier := es[..|es| - 1];
      var prior := Exec(s, earlier);
      ExecKeepsInv(s, earlier);
      ExecGrowsIds(s, earlier);
      AfterDescends(prior, es[|es| - 1], p, k);
      var q, j :| HasCap(prior, q, j) && Descends(c, CapAt(prior, q, j));
      AuthorityOnlyDescends(s, earlier, q, j);
      var r, i :| HasCap(s, r, i) && Descends(CapAt(prior, q, j), CapAt(s, r, i));
      assert Descends(c, CapAt(s, r, i));
    }
  }

  /** A right nobody holds on an object is never held by anybody again. */
  lemma MissingRightStaysMissing(s: State, es: seq<Event>, ty: ObjectType, oid: nat, right: Permissions)
    requires Inv(s) && Allocated(s, ty, oid)
    requires forall p, k :: HasCap(s, p, k) && CapAt(s, p, k).Names(ty, oid)
               ==> !right.SubsetOf(CapAt(s, p, k).permissions)
    ensures forall p, k :: HasCap(Exec(s, es), p, k) && CapAt(Exec(s, es), p, k).Names(ty, oid)
              ==> !right.SubsetOf(CapAt(Exec(s, es), p, k).permissions)
  {
    forall p, k | HasCap(Exec(s, es), p, k) && CapAt(Exec(s, es), p, k).Names(ty, oid)
      ensures !right.SubsetOf(CapAt(Exec(s, es), p, k).permissions)
    {
      AuthorityOnlyDescends(s, es, p, k);
      var q, j :| HasCap(s, q, j) && Descends(CapAt(Exec(s, es), p, k), CapAt(s, q, j));
    }
  }

  // ---------------------------------------------------------------- provenance

  /** The `k`-th event of the run is the creation of endpoint `e` by `p`. */
  ghost predicate CreatedAt(es: seq<Event>, k: nat, p: ProcessId, e: EndpointId) {
    && k < |es|
    && es[k].Sys? && es[k].pid == p && es[k].call.CreateEndpoint?
    && Step(Before(INITIAL, es, k), p, es[k].call, es[k].time).result.Ok?
    && Before(INITIAL, es, k).nextEndpointId == e
  }

  /** The `k`-th event is a successful grant of endpoint `e` to `p` by `granter`, who held an unexpired,
      grant-bearing capability on it at that moment. */
  ghost predicate GrantedAt(es: seq<Event>, k: nat, granter: ProcessId, p: ProcessId, e: EndpointId) {
    && k < |es|
    && es[k].Sys? && es[k].pid == granter && es[k].call.CapGrant? && es[k].call.toPid == p
    && var s := Before(INITIAL, es, k);
    && Step(s, granter, es[k].call, es[k].time).result.Ok?
    && HasCap(s, granter, es[k].call.slot)
    && var c := CapAt(s, granter, es[k].call.slot);
    && c.Names(EndpointObject, e) && c.permissions.grant && !c.Expired(es[k].time)
  }

  /** A chain of events, strictly ordered in time, that leads from the creator of `e` to `p`:
      the creation first, then one grant per hop. */
  ghost predicate Lineage(es: seq<Event>, e: EndpointId, p: ProcessId, chain: seq<nat>)
    decreases |chain|
  {
    if chain == [] then false
    else
      var last := chain[|chain| - 1];
      if |chain| == 1 then CreatedAt(es, last, p, e)
      else
        && chain[|chain| - 2] < last
        && exists granter :: GrantedAt(es, last, granter, p, e) && Lineage(es, e, granter, chain[..|chain| - 1])
  }

  lemma BeforePrefix(es: seq<Event>, n: nat, k: nat)
    requires k <= n <= |es|
    ensures Before(INITIAL, es[..n], k) == Before(INITIAL, es, k)
  {
    assert es[..n][..k] == es[..k];
  }

  lemma {:induction false} LineageExtends(es: seq<Event>, n: nat, e: EndpointId, p: ProcessId, chain: seq<nat>)
    requires n <= |es| && Lineage(es[..n], e, p, chain)
    ensures Lineage(es, e, p, chain)
    decreases |chain|
  {
    var last := chain[|chain| - 1];
    if |chain| == 1 {
      BeforePrefix(es, n, last);
    } else {
      var granter :| GrantedAt(es[..n], last, granter, p, e) && Lineage(es[..n], e, granter, chain[..|chain| - 1]);
      BeforePrefix(es, n, last);
      LineageExtends(es, n, e, granter, chain[..|chain| - 1]);
      assert GrantedAt(es, last, granter, p, e);
    }
  }

  lemma LineageInRange(es: seq<Event>, e: EndpointId, p: ProcessId, chain: seq<nat>)
    requires Lineage(es, e, p, chain)
    ensures chain != [] && chain[|chain| - 1] < |es|
  {
  }

  lemma LineageGrows(es: seq<Event>, e: EndpointId, granter: ProcessId, p: ProcessId, chain: seq<nat>, k: nat)
    requires Lineage(es, e, granter, chain) && chain[|chain| - 1] < k
    requires GrantedAt(es, k, granter, p, e)
    ensures Lineage(es, e, p, chain + [k])
  {
    assert (chain + [k])[..|chain|] == chain;
  }

  /** Event `ev` grants `c` to `p`, from a capability that may be granted at that time. */
  ghost predicate Grants(s: State, ev: Event, p: ProcessId, c: Capability) {
    && ev.Sys? && ev.call.CapGrant? && ev.call.toPid == p && HasCap(s, ev.pid, ev.call.slot)
    && Step(s, ev.pid, ev.call, ev.time).result.Ok?
    && Descends(c, CapAt(s, ev.pid, ev.call.slot))
    && CapAt(s, ev.pid, ev.call.slot).permissions.grant && !CapAt(s, ev.pid, ev.call.slot).Expired(ev.time)
  }

  /** What one event adds to a table, seen from the capability added. */
  lemma CapSource(s: State, ev: Event, p: ProcessId, k: CapSlot)
    requires Inv(s)
    requires HasCap(After(s, ev), p, k)
    ensures Kept(s, p, k, CapAt(After(s, ev), p, k)) || Derives(s, ev, p, CapAt(After(s, ev), p, k)) ||
      Grants(s, ev, p, CapAt(After(s, ev), p, k)) || Creates(s, ev, p, CapAt(After(s, ev), p, k))
  {
    if ev.Sys? {
      var ticked := Tick(s, ev.pid, ev.time);
      match Decide(ticked, ev.pid, ev.call, ev.time).effect
      case Open(_) => OpenSource(s, ev, p, k);
      case Install(_, _, _) => InstallSource(s, ev, p, k);
      case _ => assert Kept(s, p, k, CapAt(After(s, ev), p, k));
    }
  }

  ghost predicate Kept(s: State, p: ProcessId, k: CapSlot, c: Capability) {
    HasCap(s, p, k) && CapAt(s, p, k) == c
  }

  ghost predicate Derives(s: State, ev: Event, p: ProcessId, c: Capability) {
    ev.Sys? && ev.call.CapDerive? && ev.pid == p && HasCap(s, p, ev.call.slot) && Descends(c, CapAt(s, p, ev.call.slot))
  }

  ghost predicate Creates(s: State, ev: Event, p: ProcessId, c: Capability) {
    && ev.Sys? && ev.call.CreateEndpoint? && ev.pid == p && c.Names(EndpointObject, s.nextEndpointId)
    && Step(s, ev.pid, ev.call, ev.time).result.Ok?
  }

  lemma OpenSource(s: State, ev: Event, p: ProcessId, k: CapSlot)
    requires ev.Sys? && Decide(Tick(s, ev.pid, ev.time), ev.pid, ev.call, ev.time).effect.Open?
    requires HasCap(After(s, ev), p, k)
    ensures Kept(s, p, k, CapAt(After(s, ev), p, k)) || Creates(s, ev, p, CapAt(After(s, ev), p, k))
  {
    OpenResult(Tick(s, ev.pid, ev.time), ev.pid, ev.call, ev.time);
  }

  lemma InstallSource(s: State, ev: Event, p: ProcessId, k: CapSlot)
    requires ev.Sys? && Decide(Tick(s, ev.pid, ev.time), ev.pid, ev.call, ev.time).effect.Install?
    requires HasCap(After(s, ev), p, k)
    ensures Kept(s, p, k, CapAt(After(s, ev), p, k)) || Derives(s, ev, p, CapAt(After(s, ev), p, k)) ||
      Grants(s, ev, p, CapAt(After(s, ev), p, k))
  {
    InstallDecided(Tick(s, ev.pid, ev.time), ev.pid, ev.call, ev.time);
    InstallResult(Tick(s, ev.pid, ev.time), ev.pid, ev.call, ev.time);
  }

  lemma OpenResult(s: State, pid: ProcessId, call: Syscall, t: Time)
    requires Decide(s, pid, call, t).effect.Open?
    ensures call.CreateEndpoint? && Decide(s, pid, call, t).effect == Open(pid) && Decide(s, pid, call, t).result.Ok?
  {
  }

  lemma InstallResult(s: State, pid: ProcessId, call: Syscall, t: Time)
    requires Decide(s, pid, call, t).effect.Install?
    ensures Decide(s, pid, call, t).result.Ok?
  {
  }

  /** Every capability held in any run from the empty kernel is on an endpoint, never expires, and its
      holder is linked to the endpoint's creator by a chain of grants. */
  lemma {:induction false} AuthorityHasLineage(es: seq<Event>, p: ProcessId, k: CapSlot) returns (chain: seq<nat>)
    requires HasCap(Run(es), p, k)
    ensures CapAt(Run(es), p, k).objectType == EndpointObject && CapAt(Run(es), p, k).expiresAt == 0
    ensures Lineage(es, CapAt(Run(es), p, k).objectId, p, chain)
    decreases |es|, 1
  {
    var n := |es| - 1;
    var ev, earlier := es[n], es[..n];
    var s := Run(earlier);
    RunSatisfiesInv(earlier);
    assert Run(es) == After(s, ev) && Before(INITIAL, es, n) == s;
    var c := CapAt(Run(es), p, k);
    CapSource(s, ev, p, k);
    if HasCap(s, p, k) && CapAt(s, p, k) == c {
      chain := AuthorityHasLineage(earlier, p, k);
      LineageExtends(es, n, c.objectId, p, chain);
    } else if ev.call.CapDerive? {
      chain := AuthorityHasLineage(earlier, p, ev.call.slot);
      LineageExtends(es, n, c.objectId, p, chain);
    } else if ev.call.CapGrant? {
      chain := GrantExtendsLineage(es, p, k);
    } else {
      assert CreatedAt(es, n, p, c.objectId);
      chain := [n];
      FreshCapNeverExpires(s, ev, p, k);
    }
  }

  lemma FreshCapNeverExpires(s: State, ev: Event, p: ProcessId, k: CapSlot)
    requires Inv(s) && ev.Sys? && ev.call.CreateEndpoint? && HasCap(After(s, ev), p, k)
    requires !(HasCap(s, p, k) && CapAt(s, p, k) == CapAt(After(s, ev), p, k))
    ensures CapAt(After(s, ev), p, k).expiresAt == 0
  {
  }

  lemma {:induction false} GrantExtendsLineage(es: seq<Event>, p: ProcessId, k: CapSlot) returns (chain: seq<nat>)
    requires HasCap(Run(es), p, k) && es != []
    requires Grants(Run(es[..|es| - 1]), es[|es| - 1], p, CapAt(Run(es), p, k))
    ensures CapAt(Run(es), p, k).objectType == EndpointObject && CapAt(Run(es), p, k).expiresAt == 0
    ensures Lineage(es, CapAt(Run(es), p, k).objectId, p, chain)
    decreases |es|, 0
  {
    var n := |es| - 1;
    var ev, earlier := es[n], es[..n];
    var e := CapAt(Run(es), p, k).objectId;
    var prefix := AuthorityHasLineage(earlier, ev.pid, ev.call.slot);
    LineageInRange(earlier, e, ev.pid, prefix);
    LineageExtends(es, n, e, ev.pid, prefix);
    assert Before(INITIAL, es, n) == Run(earlier);
    LineageGrows(es, e, ev.pid, p, prefix, n);
    chain := prefix + [n];
  }

  // ---------------------------------------------------------------- expiry

  predicate Uses(call: Syscall) {
    call.Send? || call.Call? || call.SendWithCaps? || call.Receive? || call.CapGrant?
  }

  lemma ExpiredUseRefused(s: State, pid: ProcessId, call: Syscall, t: Time)
    requires Uses(call) && HasCap(s, pid, call.slot) && CapAt(s, pid, call.slot).Expired(t)
    ensures Step(s, pid, call, t).result.Err?
  {
    assert HasCap(Tick(s, pid, t), pid, call.slot);
  }

  /** Once every capability on an object has expired, no later use of any capability on it succeeds. */
  lemma ExpiryIsFinal(s: State, es: seq<Event>, k: nat, ty: ObjectType, oid: nat, t: Time)
    requires Inv(s) && Allocated(s, ty, oid)
    requires forall p, j :: HasCap(s, p, j) && CapAt(s, p, j).Names(ty, oid) ==> CapAt(s, p, j).Expired(t)
    requires k < |es| && es[k].Sys? && es[k].time >= t && Uses(es[k].call)
    requires HasCap(Before(s, es, k), es[k].pid, es[k].call.slot)
    requires CapAt(Before(s, es, k), es[k].pid, es[k].call.slot).Names(ty, oid)
    ensures Step(Before(s, es, k), es[k].pid, es[k].call, es[k].time).result.Err?
  {
    var now := Before(s, es, k);
    AuthorityOnlyDescends(s, es[..k], es[k].pid, es[k].call.slot);
    var q, j :| HasCap(s, q, j) && Descends(CapAt(now, es[k].pid, es[k].call.slot), CapAt(s, q, j));
    ExpiredUseRefused(now, es[k].pid, es[k].call, es[k].time);
  }
}
