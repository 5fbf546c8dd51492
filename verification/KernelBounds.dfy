/** How large the counters can get: when a machine word is wide enough for each of them. */
module KernelBounds {
  import opened KernelTypes
  import opened KernelSpec
  import opened KernelInvariant

  predicate MetricsBelow(m: ProcessMetrics, calls: nat, n: nat) {
    && m.syscallCount <= calls && m.ipcSent <= n && m.ipcReceived <= n
    && m.ipcBytesSent <= MAX_MESSAGE_SIZE * n && m.ipcBytesReceived <= MAX_MESSAGE_SIZE * n
  }

  predicate EndpointBelow(ep: Endpoint, n: nat) {
    && |ep.pending| <= n && ep.metrics.queueHighWater <= n
    && ep.metrics.totalMessages <= n && ep.metrics.totalBytes <= MAX_MESSAGE_SIZE * n
  }

  /** Every counter the kernel keeps, after at most `calls` syscalls and `n` effects. */
  ghost predicate Below(s: State, calls: nat, n: nat) {
    && s.nextPid <= calls + 1 && s.nextEndpointId <= n + 1 && s.nextCapId <= n + 1 && s.totalIpcCount <= n
    && (forall p :: p in s.processes ==> MetricsBelow(s.processes[p].metrics, calls, n))
    && (forall e :: e in s.endpoints ==> EndpointBelow(s.endpoints[e], n))
    && (forall p :: p in s.capSpaces ==> s.capSpaces[p].nextSlot <= n)
    && (forall p, k :: HasCap(s, p, k) ==> CapAt(s, p, k).generation <= n)
  }

  lemma EffectBelow(s: State, e: Effect, calls: nat, n: nat)
    requires Inv(s) && Justified(s, e) && Below(s, calls, n)
    ensures Below(Perform(s, e), calls, n + 1)
  {
    var s' := Perform(s, e);
    forall p, k | HasCap(s', p, k)
      ensures CapAt(s', p, k).generation <= n + 1
    {
      if HasCap(s, p, k) && CapAt(s, p, k) == CapAt(s', p, k) {
      } else if e.Install? {
        var q, j :| HasCap(s, q, j) && CapAt(s, q, j) == e.source;
      }
    }
    ProcessesBelow(s, e, calls, n);
    EndpointsBelow(s, e, calls, n);
  }

  lemma ProcessesBelow(s: State, e: Effect, calls: nat, n: nat)
    requires Inv(s) && Justified(s, e) && Below(s, calls, n)
    ensures forall p :: p in Perform(s, e).processes ==>
      MetricsBelow(Perform(s, e).processes[p].metrics, calls, n + 1)
  {
    forall p | p in Perform(s, e).processes
      ensures MetricsBelow(Perform(s, e).processes[p].metrics, calls, n + 1)
    {
      assert MetricsBelow(s.processes[p].metrics, calls, n);
      if e.Take? && Perform(s, e).processes[p] != s.processes[p] {
        assert EndpointOk(s, e.endpoint) && MessageOk(s, s.endpoints[e.endpoint].pending[0]);
      }
    }
  }

  lemma EndpointsBelow(s: State, e: Effect, calls: nat, n: nat)
    requires Inv(s) && Justified(s, e) && Below(s, calls, n)
    ensures forall ep :: ep in Perform(s, e).endpoints ==> EndpointBelow(Perform(s, e).endpoints[ep], n + 1)
  {
    forall ep | ep in Perform(s, e).endpoints
      ensures EndpointBelow(Perform(s, e).endpoints[ep], n + 1)
    {
      if ep in s.endpoints { assert EndpointBelow(s.endpoints[ep], n); }
    }
  }

  lemma TickBelow(s: State, pid: ProcessId, t: Time, n: nat)
    requires Below(s, n, n)
    ensures Below(Tick(s, pid, t), n + 1, n)
  {
    var s' := Tick(s, pid, t);
    forall p | p in s'.processes
      ensures MetricsBelow(s'.processes[p].metrics, n + 1, n)
    {
      assert MetricsBelow(s.processes[p].metrics, n, n);
    }
    forall p, k | HasCap(s', p, k)
      ensures CapAt(s', p, k).generation <= n
    {
      assert HasCap(s, p, k);
    }
  }

  lemma RegisterBelow(s: State, name: string, t: Time, n: nat)
    requires Inv(s) && Below(s, n, n)
    ensures Below(Registered(s, name, t), n + 1, n + 1)
  {
    var s' := Registered(s, name, t);
    forall p | p in s'.processes
      ensures MetricsBelow(s'.processes[p].metrics, n + 1, n + 1)
    {
      if p in s.processes && p != s.nextPid { assert MetricsBelow(s.processes[p].metrics, n, n); }
    }
    forall e | e in s'.endpoints
      ensures EndpointBelow(s'.endpoints[e], n + 1)
    {
      assert EndpointBelow(s.endpoints[e], n);
    }
    forall p, k | HasCap(s', p, k)
      ensures CapAt(s', p, k).generation <= n + 1
    {
      assert HasCap(s, p, k);
    }
  }

  /** After `n` events no identifier, slot, generation or message count exceeds `n + 1` and no byte count
      exceeds `4096 * n`: 32-bit slots and generations cannot wrap in fewer than 2^32 - 1 events, nor
      64-bit counters in fewer than 2^52. */
  lemma {:induction false} CountersBelowRunLength(es: seq<Event>)
    ensures Below(Run(es), |es|, |es|)
  {
    if es != [] {
      var earlier, ev := es[..|es| - 1], es[|es| - 1];
      var s, n := Run(earlier), |es| - 1;
      CountersBelowRunLength(earlier);
      RunSatisfiesInv(earlier);
      match ev
      case Register(name, t) => RegisterBelow(s, name, t, n);
      case Sys(pid, call, t) =>
        TickBelow(s, pid, t, n);
        TickKeepsInv(s, pid, t);
        DecisionJustified(Tick(s, pid, t), pid, call, t);
        EffectBelow(Tick(s, pid, t), Decide(Tick(s, pid, t), pid, call, t).effect, n + 1, n);
    }
  }
}
