/** Message passing over whole runs: FIFO delivery under authority, and conservation of the counters. */
module KernelIpc {
  import opened KernelTypes
  import opened Common
  import opened KernelSpec
  import opened KernelInvariant
  import opened KernelAuthority
  import opened Tables

  // ---------------------------------------------------------------- what callers can observe

  /** The reply tells the caller that its message went out. */
  predicate Accepted(call: Syscall, result: SyscallResult) {
    || ((call.Send? || call.SendWithCaps?) && result.Ok?)
    || (call.Call? && result.WouldBlock?)
  }

  ghost predicate AllHeld(s: State, p: ProcessId, slots: seq<CapSlot>) {
    forall i :: 0 <= i < |slots| ==> HasCap(s, p, slots[i])
  }

  ghost function Carried(s: State, p: ProcessId, slots: seq<CapSlot>): seq<TransferredCap>
    requires AllHeld(s, p, slots)
  {
    seq(|slots|, i requires 0 <= i < |slots| =>
      var c := CapAt(s, p, slots[i]); TransferredCap(c.id, c.objectType, c.objectId, c.permissions))
  }

  /** The message a syscall puts on endpoint `e`, read off the call, its reply and the caller's table. */
  ghost function SentBy(s: State, ev: Event, e: EndpointId): seq<Message> {
    if !ev.Sys? || !Accepted(ev.call, Step(s, ev.pid, ev.call, ev.time).result) then []
    else if !HasCap(s, ev.pid, ev.call.slot) || CapAt(s, ev.pid, ev.call.slot).objectId != e then []
    else
      var slots := if ev.call.SendWithCaps? then ev.call.capSlots else [];
      if AllHeld(s, ev.pid, slots) then [Message(ev.pid, ev.call.tag, ev.call.data, Carried(s, ev.pid, slots))] else []
  }

  /** The message a syscall takes off endpoint `e`, read off its reply. */
  ghost function ReceivedBy(s: State, ev: Event, e: EndpointId): seq<Message> {
    if !ev.Sys? || !ev.call.Receive? then []
    else if !HasCap(s, ev.pid, ev.call.slot) || CapAt(s, ev.pid, ev.call.slot).objectId != e then []
    else match Step(s, ev.pid, ev.call, ev.time).result
      case Delivered(m) => [m]
      case _ => []
  }

  /** All messages sent to, and received from, an endpoint during a history. */
  ghost function Sent(s: State, es: seq<Event>, e: EndpointId): seq<Message> {
    if es == [] then []
    else Sent(s, es[..|es| - 1], e) + SentBy(Exec(s, es[..|es| - 1]), es[|es| - 1], e)
  }

  ghost function Received(s: State, es: seq<Event>, e: EndpointId): seq<Message> {
    if es == [] then []
    else Received(s, es[..|es| - 1], e) + ReceivedBy(Exec(s, es[..|es| - 1]), es[|es| - 1], e)
  }

  function Pending(s: State, e: EndpointId): seq<Message> {
    if e in s.endpoints then s.endpoints[e].pending else []
  }

  // ---------------------------------------------------------------- FIFO

  ghost function Posted(e: Effect, ep: EndpointId): seq<Message> {
    if e.Post? && e.endpoint == ep then [e.msg] else []
  }

  ghost function Fetched(s: State, e: Effect, ep: EndpointId): seq<Message> {
    if e.Take? && e.endpoint == ep && Pending(s, ep) != [] then [Pending(s, ep)[0]] else []
  }

  lemma EffectIsFifo(s: State, e: Effect, ep: EndpointId)
    requires Justified(s, e) && s.nextEndpointId !in s.endpoints
    ensures Fetched(s, e, ep) + Pending(Perform(s, e), ep) == Pending(s, ep) + Posted(e, ep)
  {
  }

  lemma CollectIsCarried(s: State, pid: ProcessId, slots: seq<CapSlot>)
    requires pid in s.capSpaces
    ensures Collect(s.capSpaces[pid], slots).Success? <==> AllHeld(s, pid, slots)
    ensures AllHeld(s, pid, slots) ==> Collect(s.capSpaces[pid], slots).value == Carried(s, pid, slots)
  {
    if AllHeld(s, pid, slots) {
      assert forall i :: 0 <= i < |slots| ==> HasCap(s, pid, slots[i]);
    } else {
      var i :| 0 <= i < |slots| && !HasCap(s, pid, slots[i]);
      assert slots[i] !in s.capSpaces[pid].slots;
    }
  }

  /** A decision to post: whose message, through which capability, and with what reply. */
  lemma PostDecided(s: State, pid: ProcessId, call: Syscall, t: Time)
    ensures var d := Decide(s, pid, call, t);
      && (d.effect.Post? <==> Accepted(call, d.result))
      && (d.effect.Post? ==>
            && HasCap(s, pid, call.slot)
            && var c := CapAt(s, pid, call.slot);
            && c.Names(EndpointObject, d.effect.endpoint) && c.permissions.write && !c.Expired(t)
            && |call.data| <= MAX_MESSAGE_SIZE
            && (call.SendWithCaps? ==> |call.capSlots| <= MAX_CAPS_PER_MESSAGE)
            && var slots := if call.SendWithCaps? then call.capSlots else [];
            && AllHeld(s, pid, slots)
            && d.effect.msg == Message(pid, call.tag, call.data, Carried(s, pid, slots))
            && d.effect.counted == !call.SendWithCaps?)
  {
    if call.SendWithCaps? && pid in s.capSpaces {
      CollectIsCarried(s, pid, call.capSlots);
    }
  }

  lemma TakeDecided(s: State, pid: ProcessId, call: Syscall, t: Time)
    ensures var d := Decide(s, pid, call, t);
      && (d.effect.Take? ==>
            && call.Receive? && d.effect.taker == pid
            && HasCap(s, pid, call.slot)
            && var c := CapAt(s, pid, call.slot);
            && c.Names(EndpointObject, d.effect.endpoint) && c.permissions.read && !c.Expired(t)
            && d.effect.endpoint in s.endpoints)
      && (d.result.Delivered? <==> d.effect.Take? && Pending(s, d.effect.endpoint) != [])
      && (d.result.Delivered? ==> d.result.msg == Pending(s, d.effect.endpoint)[0])
  {
  }

  lemma TickSeesSame(s: State, pid: ProcessId, t: Time, slots: seq<CapSlot>)
    ensures AllHeld(Tick(s, pid, t), pid, slots) == AllHeld(s, pid, slots)
    ensures AllHeld(s, pid, slots) ==> Carried(Tick(s, pid, t), pid, slots) == Carried(s, pid, slots)
  {
    assert forall k :: HasCap(Tick(s, pid, t), pid, k) == HasCap(s, pid, k);
  }

  lemma SentIsPosted(s: State, pid: ProcessId, call: Syscall, t: Time, e: EndpointId)
    ensures SentBy(s, Sys(pid, call, t), e) == Posted(Decide(Tick(s, pid, t), pid, call, t).effect, e)
  {
    var ticked := Tick(s, pid, t);
    PostDecided(ticked, pid, call, t);
    var slots := if call.SendWithCaps? then call.capSlots else [];
    TickSeesSame(s, pid, t, slots);
    assert forall k :: HasCap(ticked, pid, k) == HasCap(s, pid, k);
  }

  lemma ReceivedIsFetched(s: State, pid: ProcessId, call: Syscall, t: Time, e: EndpointId)
    ensures ReceivedBy(s, Sys(pid, call, t), e) ==
      Fetched(Tick(s, pid, t), Decide(Tick(s, pid, t), pid, call, t).effect, e)
  {
    TakeDecided(Tick(s, pid, t), pid, call, t);
    assert forall k :: HasCap(Tick(s, pid, t), pid, k) == HasCap(s, pid, k);
  }

  lemma EventIsFifo(s: State, ev: Event, e: EndpointId)
    requires Inv(s)
    ensures ReceivedBy(s, ev, e) + Pending(After(s, ev), e) == Pending(s, e) + SentBy(s, ev, e)
  {
    match ev
    case Register(_, _) =>
    case Sys(pid, call, t) =>
      var ticked := Tick(s, pid, t);
      TickKeepsInv(s, pid, t);
      DecisionJustified(ticked, pid, call, t);
      SentIsPosted(s, pid, call, t, e);
      ReceivedIsFetched(s, pid, call, t, e);
      EffectIsFifo(ticked, Decide(ticked, pid, call, t).effect, e);
      assert Pending(ticked, e) == Pending(s, e);
  }

  /** Every endpoint is a FIFO queue over every history: what was received, in order, followed by what
      is still queued, is what was queued before followed by what was sent. */
  lemma {:induction false} DeliveryIsFifo(s: State, es: seq<Event>, e: EndpointId)
    requires Inv(s)
    ensures Received(s, es, e) + Pending(Exec(s, es), e) == Pending(s, e) + Sent(s, es, e)
  {
    if es != [] {
      var earlier, ev := es[..|es| - 1], es[|es| - 1];
      var prior := Exec(s, earlier);
      DeliveryIsFifo(s, earlier, e);
      ExecKeepsInv(s, earlier);
      EventIsFifo(prior, ev, e);
      FifoStep(Received(s, earlier, e), Pending(prior, e), Pending(s, e), Sent(s, earlier, e),
               ReceivedBy(prior, ev, e), Pending(After(prior, ev), e), SentBy(prior, ev, e));
    }
  }

  lemma FifoStep<T>(r: seq<T>, p: seq<T>, p0: seq<T>, s: seq<T>, dr: seq<T>, p': seq<T>, ds: seq<T>)
    requires r + p == p0 + s && dr + p' == p + ds
    ensures (r + dr) + p' == p0 + (s + ds)
  {
    calc {
      (r + dr) + p';
      r + (dr + p');
      (r + p) + ds;
      p0 + (s + ds);
    }
  }

  /** The message says what the call asked for: its tag, its data, and one entry per named slot, in order, with the id,
      the object and the rights of the capability the sender held there. */
  ghost predicate CarriesCall(s: State, ev: Event, m: Message) {
    && ev.Sys? && (ev.call.Send? || ev.call.SendWithCaps? || ev.call.Call?)
    && m.sender == ev.pid && m.tag == ev.call.tag && m.data == ev.call.data
    && var slots := if ev.call.SendWithCaps? then ev.call.capSlots else [];
    && |m.caps| == |slots| && AllHeld(s, ev.pid, slots)
    && forall j :: 0 <= j < |slots| ==> Copies(m.caps[j], CapAt(s, ev.pid, slots[j]))
  }

  predicate Copies(t: TransferredCap, c: Capability) {
    t.capId == c.id && t.objectType == c.objectType && t.objectId == c.objectId && t.permissions == c.permissions
  }

  /** The `i`-th message ever sent to an endpoint went out at a moment when its sender held an
      unexpired write capability on that endpoint, is within the size limits and carries what the call asked for. */
  lemma {:induction false} SentUnderAuthority(s: State, es: seq<Event>, e: EndpointId, i: nat) returns (k: nat)
    requires i < |Sent(s, es, e)|
    ensures k < |es| && es[k].Sys? && es[k].pid == Sent(s, es, e)[i].sender
    ensures |Sent(s, es[..k], e)| == i
    ensures es[k].call.Send? || es[k].call.SendWithCaps? || es[k].call.Call?
    ensures HasCap(Before(s, es, k), es[k].pid, es[k].call.slot)
    ensures var c := CapAt(Before(s, es, k), es[k].pid, es[k].call.slot);
      c.Names(EndpointObject, e) && c.permissions.write && !c.Expired(es[k].time)
    ensures |Sent(s, es, e)[i].data| <= 4096 && |Sent(s, es, e)[i].caps| <= 4
    ensures CarriesCall(Before(s, es, k), es[k], Sent(s, es, e)[i])
  {
    var n := |es| - 1;
    var earlier, ev := es[..n], es[n];
    if i < |Sent(s, earlier, e)| {
      k := SentUnderAuthority(s, earlier, e, i);
      assert earlier[..k] == es[..k];
    } else {
      k := n;
      SendJustified(Exec(s, earlier), ev, e);
    }
  }

  /** The same for one event. */
  lemma SendJustified(s: State, ev: Event, e: EndpointId)
    requires SentBy(s, ev, e) != []
    ensures |SentBy(s, ev, e)| == 1 && CarriesCall(s, ev, SentBy(s, ev, e)[0])
    ensures |ev.call.data| <= 4096 && |SentBy(s, ev, e)[0].caps| <= 4
    ensures HasCap(s, ev.pid, ev.call.slot)
    ensures var c := CapAt(s, ev.pid, ev.call.slot);
      c.Names(EndpointObject, e) && c.permissions.write && !c.Expired(ev.time)
  {
    SentIsPosted(s, ev.pid, ev.call, ev.time, e);
    PostDecided(Tick(s, ev.pid, ev.time), ev.pid, ev.call, ev.time);
  }

  /** Expiry freezes an endpoint: once every capability on it has expired nothing is sent to it or
      taken from it again. */
  lemma {:induction false} ExpiryFreezesQueue(s: State, es: seq<Event>, e: EndpointId, t: Time)
    requires Inv(s) && e < s.nextEndpointId
    requires forall p, j :: HasCap(s, p, j) && CapAt(s, p, j).Names(EndpointObject, e) ==> CapAt(s, p, j).Expired(t)
    requires forall k :: 0 <= k < |es| ==> es[k].time >= t
    ensures Pending(Exec(s, es), e) == Pending(s, e)
  {
    if es != [] {
      var n := |es| - 1;
      var earlier, ev := es[..n], es[n];
      ExpiryFreezesQueue(s, earlier, e, t);
      if ev.Sys? {
        var prior := Exec(s, earlier);
        assert prior == Before(s, es, n);
        ExecKeepsInv(s, earlier);
        QueueChangeNeedsUse(prior, ev, e);
        if Pending(Exec(s, es), e) != Pending(prior, e) {
          ExpiryIsFinal(s, es, n, EndpointObject, e, t);
          assert false;
        }
      }
    }
  }

  lemma QueueChangeNeedsUse(s: State, ev: Event, e: EndpointId)
    requires Inv(s) && ev.Sys?
    ensures Pending(After(s, ev), e) == Pending(s, e) ||
      (Uses(ev.call) && HasCap(s, ev.pid, ev.call.slot)
       && CapAt(s, ev.pid, ev.call.slot).Names(EndpointObject, e)
       && !Step(s, ev.pid, ev.call, ev.time).result.Err?)
  {
    var ticked := Tick(s, ev.pid, ev.time);
    var d := Decide(ticked, ev.pid, ev.call, ev.time);
    TickKeepsInv(s, ev.pid, ev.time);
    DecisionJustified(ticked, ev.pid, ev.call, ev.time);
    EffectIsFifo(ticked, d.effect, e);
    PostDecided(ticked, ev.pid, ev.call, ev.time);
    TakeDecided(ticked, ev.pid, ev.call, ev.time);
    TakeNeverErrs(ticked, ev.pid, ev.call, ev.time);
    if Posted(d.effect, e) == [] && Fetched(ticked, d.effect, e) == [] {
      assert Pending(After(s, ev), e) == [] + Pending(After(s, ev), e) == Pending(s, e) + [] == Pending(s, e);
    }
  }

  lemma TakeNeverErrs(s: State, pid: ProcessId, call: Syscall, t: Time)
    ensures Decide(s, pid, call, t).effect != Nothing ==> !Decide(s, pid, call, t).result.Err?
  {
  }

  // ---------------------------------------------------------------- conservation

  function Bytes(ms: seq<Message>): nat {
    if ms == [] then 0 else Bytes(ms[..|ms| - 1]) + |ms[|ms| - 1].data|
  }

  lemma {:induction false} BytesHead(ms: seq<Message>)
    requires ms != []
    ensures Bytes(ms) == |ms[0].data| + Bytes(ms[1..])
  {
    if |ms| > 1 {
      BytesHead(ms[..|ms| - 1]);
      assert ms[..|ms| - 1][1..] == ms[1..][..|ms| - 2];
    }
  }

  function ReceivedCount(p: Process): nat { p.metrics.ipcReceived }
  function ReceivedBytes(p: Process): nat { p.metrics.ipcBytesReceived }
  function SentCount(p: Process): nat { p.metrics.ipcSent }
  function QueueLength(ep: Endpoint): nat { |ep.pending| }
  function QueueBytes(ep: Endpoint): nat { Bytes(ep.pending) }
  function MessageTotal(ep: Endpoint): nat { ep.metrics.totalMessages }
  function ByteTotal(ep: Endpoint): nat { ep.metrics.totalBytes }

  /** Every message ever accepted is either still queued or was delivered to some process, and the
      counters say so, in messages and in bytes. */
  ghost predicate CountsConserved(s: State) {
    && Total(s.processes, ReceivedCount) + Total(s.endpoints, QueueLength) == s.totalIpcCount
    && Total(s.endpoints, MessageTotal) == s.totalIpcCount
  }

  ghost predicate BytesConserved(s: State) {
    Total(s.processes, ReceivedBytes) + Total(s.endpoints, QueueBytes) == Total(s.endpoints, ByteTotal)
  }

  ghost predicate Conserved(s: State) {
    CountsConserved(s) && BytesConserved(s)
  }

  /** How replacing one process or one endpoint moves the totals. */
  lemma ProcessTotals(procs: map<ProcessId, Process>, p: ProcessId, proc: Process)
    ensures var counts := if p in procs then procs[p].metrics.ipcReceived else 0;
      Total(procs[p := proc], ReceivedCount) == Total(procs, ReceivedCount) - counts + proc.metrics.ipcReceived
    ensures var bytes := if p in procs then procs[p].metrics.ipcBytesReceived else 0;
      Total(procs[p := proc], ReceivedBytes) == Total(procs, ReceivedBytes) - bytes + proc.metrics.ipcBytesReceived
  {
    TotalUpdate(procs, ReceivedCount, p, proc);
    TotalUpdate(procs, ReceivedBytes, p, proc);
  }

  lemma EndpointTotals(eps: map<EndpointId, Endpoint>, e: EndpointId, ep: Endpoint)
    ensures var old' := if e in eps then eps[e] else NewEndpoint(e, 0);
      && Total(eps[e := ep], QueueLength) == Total(eps, QueueLength) - |old'.pending| + |ep.pending|
      && Total(eps[e := ep], QueueBytes) == Total(eps, QueueBytes) - Bytes(old'.pending) + Bytes(ep.pending)
      && Total(eps[e := ep], MessageTotal) ==
           Total(eps, MessageTotal) - old'.metrics.totalMessages + ep.metrics.totalMessages
      && Total(eps[e := ep], ByteTotal) == Total(eps, ByteTotal) - old'.metrics.totalBytes + ep.metrics.totalBytes
  {
    TotalUpdate(eps, QueueLength, e, ep);
    TotalUpdate(eps, QueueBytes, e, ep);
    TotalUpdate(eps, MessageTotal, e, ep);
    TotalUpdate(eps, ByteTotal, e, ep);
  }

  lemma CountingSendersMovesNothing(procs: map<ProcessId, Process>, p: ProcessId, size: nat)
    ensures Total(CountSent(procs, p, size), ReceivedCount) == Total(procs, ReceivedCount)
    ensures Total(CountSent(procs, p, size), ReceivedBytes) == Total(procs, ReceivedBytes)
  {
    if p in procs { ProcessTotals(procs, p, CountSent(procs, p, size)[p]); }
  }

  lemma EnqueueTotals(eps: map<EndpointId, Endpoint>, e: EndpointId, m: Message)
    requires e in eps
    ensures var eps' := eps[e := eps[e].Enqueue(m)];
      && Total(eps', QueueLength) == Total(eps, QueueLength) + 1
      && Total(eps', QueueBytes) == Total(eps, QueueBytes) + |m.data|
      && Total(eps', MessageTotal) == Total(eps, MessageTotal) + 1
      && Total(eps', ByteTotal) == Total(eps, ByteTotal) + |m.data|
  {
    var ep := eps[e];
    assert Bytes(ep.pending + [m]) == Bytes(ep.pending) + |m.data| by {
      assert (ep.pending + [m])[..|ep.pending|] == ep.pending;
    }
    EndpointTotals(eps, e, ep.Enqueue(m));
  }

  lemma PostConserves(s: State, e: EndpointId, m: Message, counted: bool)
    requires Conserved(s) && e in s.endpoints
    ensures Conserved(Perform(s, Post(e, m, counted)))
  {
    PostConservesCounts(s, e, m, counted);
    PostConservesBytes(s, e, m, counted);
  }

  lemma PostShape(s: State, e: EndpointId, m: Message, counted: bool)
    requires e in s.endpoints
    ensures var s' := Perform(s, Post(e, m, counted));
      && s'.endpoints == s.endpoints[e := s.endpoints[e].Enqueue(m)] && s'.totalIpcCount == s.totalIpcCount + 1
      && Total(s'.processes, ReceivedCount) == Total(s.processes, ReceivedCount)
      && Total(s'.processes, ReceivedBytes) == Total(s.processes, ReceivedBytes)
  {
    CountingSendersMovesNothing(s.processes, m.sender, |m.data|);
  }

  lemma PostConservesCounts(s: State, e: EndpointId, m: Message, counted: bool)
    requires CountsConserved(s) && e in s.endpoints
    ensures CountsConserved(Perform(s, Post(e, m, counted)))
  {
    PostShape(s, e, m, counted);
    EnqueueTotals(s.endpoints, e, m);
    CountsMoveTogether(s, Perform(s, Post(e, m, counted)));
  }

  lemma CountsMoveTogether(s: State, s': State)
    requires CountsConserved(s)
    requires Total(s'.processes, ReceivedCount) == Total(s.processes, ReceivedCount)
    requires Total(s'.endpoints, QueueLength) == Total(s.endpoints, QueueLength) + 1
    requires Total(s'.endpoints, MessageTotal) == Total(s.endpoints, MessageTotal) + 1
    requires s'.totalIpcCount == s.totalIpcCount + 1
    ensures CountsConserved(s')
  {
  }

  lemma PostConservesBytes(s: State, e: EndpointId, m: Message, counted: bool)
    requires BytesConserved(s) && e in s.endpoints
    ensures BytesConserved(Perform(s, Post(e, m, counted)))
  {
    PostShape(s, e, m, counted);
    EnqueueTotals(s.endpoints, e, m);
    BytesMoveTogether(s, Perform(s, Post(e, m, counted)), |m.data|);
  }

  lemma BytesMoveTogether(s: State, s': State, size: nat)
    requires BytesConserved(s)
    requires Total(s'.processes, ReceivedBytes) == Total(s.processes, ReceivedBytes)
    requires Total(s'.endpoints, QueueBytes) == Total(s.endpoints, QueueBytes) + size
    requires Total(s'.endpoints, ByteTotal) == Total(s.endpoints, ByteTotal) + size
    ensures BytesConserved(s')
  {
  }

  lemma TakeConserves(s: State, e: EndpointId, p: ProcessId)
    requires Conserved(s) && e in s.endpoints && p in s.processes
    ensures Conserved(Perform(s, Take(e, p)))
  {
    var ep := s.endpoints[e];
    if ep.pending == [] {
      EndpointTotals(s.endpoints, e, ep.Dequeue());
    } else {
      var size := |ep.pending[0].data|;
      assert Bytes(ep.pending) == size + Bytes(ep.Dequeue().pending) by { BytesHead(ep.pending); }
      EndpointTotals(s.endpoints, e, ep.Dequeue());
      ProcessTotals(s.processes, p, CountReceived(s.processes, p, size)[p]);
    }
  }

  lemma EffectConserves(s: State, e: Effect)
    requires Conserved(s) && Justified(s, e) && s.nextEndpointId !in s.endpoints
    ensures Conserved(Perform(s, e))
  {
    match e
    case Bury(p) =>
      if p in s.processes { ProcessTotals(s.processes, p, s.processes[p].(status := Zombie)); }
    case Open(owner) => EndpointTotals(s.endpoints, s.nextEndpointId, NewEndpoint(s.nextEndpointId, owner));
    case Post(ep, m, counted) => PostConserves(s, ep, m, counted);
    case Take(ep, p) => TakeConserves(s, ep, p);
    case _ =>
  }

  lemma TickConserves(s: State, pid: ProcessId, t: Time)
    requires Conserved(s)
    ensures Conserved(Tick(s, pid, t))
  {
    if pid in s.processes { ProcessTotals(s.processes, pid, Tick(s, pid, t).processes[pid]); }
  }

  lemma EventConserves(s: State, ev: Event)
    requires Inv(s) && Conserved(s)
    ensures Conserved(After(s, ev))
  {
    match ev
    case Register(name, t) =>
      ProcessTotals(s.processes, s.nextPid, Registered(s, name, t).processes[s.nextPid]);
    case Sys(pid, call, t) =>
      var ticked := Tick(s, pid, t);
      TickConserves(s, pid, t);
      TickKeepsInv(s, pid, t);
      DecisionJustified(ticked, pid, call, t);
      EffectConserves(ticked, Decide(ticked, pid, call, t).effect);
  }

  /** Conservation of messages and bytes in every run. */
  lemma {:induction false} RunConserves(es: seq<Event>)
    ensures Conserved(Run(es))
  {
    if es == [] {
      TotalEmpty(INITIAL.processes, ReceivedCount);
      TotalEmpty(INITIAL.processes, ReceivedBytes);
      TotalEmpty(INITIAL.endpoints, QueueLength);
      TotalEmpty(INITIAL.endpoints, QueueBytes);
      TotalEmpty(INITIAL.endpoints, MessageTotal);
      TotalEmpty(INITIAL.endpoints, ByteTotal);
    } else {
      RunConserves(es[..|es| - 1]);
      RunSatisfiesInv(es[..|es| - 1]);
      EventConserves(Run(es[..|es| - 1]), es[|es| - 1]);
    }
  }

  /** Messages sent with capabilities so far: the ones the senders' own counters leave out. */
  ghost function CapSends(es: seq<Event>): nat {
    if es == [] then 0 else
      var ev, prior := es[|es| - 1], Run(es[..|es| - 1]);
      CapSends(es[..|es| - 1]) +
      if ev.Sys? && ev.call.SendWithCaps? && Step(prior, ev.pid, ev.call, ev.time).result.Ok? then 1 else 0
  }

  lemma EffectCountsSends(s: State, e: Effect)
    requires Justified(s, e)
    ensures Total(Perform(s, e).processes, SentCount) ==
      Total(s.processes, SentCount) + if e.Post? && e.counted then 1 else 0
    ensures Perform(s, e).totalIpcCount == s.totalIpcCount + if e.Post? then 1 else 0
  {
    match e
    case Bury(p) =>
      if p in s.processes { TotalUpdate(s.processes, SentCount, p, s.processes[p].(status := Zombie)); }
    case Post(ep, m, counted) =>
      TotalUpdate(s.processes, SentCount, m.sender, CountSent(s.processes, m.sender, |m.data|)[m.sender]);
    case Take(ep, p) =>
      TotalUpdate(s.processes, SentCount, p, Perform(s, e).processes[p]);
    case _ =>
  }

  lemma EventCountsSends(s: State, pid: ProcessId, call: Syscall, t: Time)
    requires Inv(s)
    ensures var r := Step(s, pid, call, t);
      var capSend := if call.SendWithCaps? && r.result.Ok? then 1 else 0;
      Total(r.state.processes, SentCount) - Total(s.processes, SentCount) + capSend ==
      r.state.totalIpcCount - s.totalIpcCount
  {
    var ticked := Tick(s, pid, t);
    if pid in s.processes { TotalUpdate(s.processes, SentCount, pid, ticked.processes[pid]); }
    TickKeepsInv(s, pid, t);
    DecisionJustified(ticked, pid, call, t);
    PostDecided(ticked, pid, call, t);
    EffectCountsSends(ticked, Decide(ticked, pid, call, t).effect);
  }

  /** The per-process sent counters miss exactly the messages sent with capabilities. */
  lemma {:induction false} SendersCountAllButCapSends(es: seq<Event>)
    ensures Total(Run(es).processes, SentCount) + CapSends(es) == Run(es).totalIpcCount
  {
    if es == [] {
      TotalEmpty(INITIAL.processes, SentCount);
    } else {
      var earlier, ev := es[..|es| - 1], es[|es| - 1];
      var s := Run(earlier);
      SendersCountAllButCapSends(earlier);
      RunSatisfiesInv(earlier);
      match ev
      case Register(name, t) =>
        TotalUpdate(s.processes, SentCount, s.nextPid, Registered(s, name, t).processes[s.nextPid]);
      case Sys(pid, call, t) => EventCountsSends(s, pid, call, t);
    }
  }
}
