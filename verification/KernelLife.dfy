/** Processes and endpoints over whole runs: who they are, how they end, and that their metrics count what happened. */
module KernelLife {
  import opened Common
  import opened KernelTypes
  import opened KernelSpec
  import opened KernelInvariant
  import opened KernelIpc
  import opened KernelChecks
  import opened KernelCommits
  import opened KernelReplies

  // ---------------------------------------------------------------- origin and end of a process

  lemma StepKeepsIdentity(s: State, pid: ProcessId, call: Syscall, t: Time, p: ProcessId)
    requires p in s.processes
    ensures p in Step(s, pid, call, t).state.processes
    ensures var proc := Step(s, pid, call, t).state.processes[p];
      proc.name == s.processes[p].name && proc.metrics.startTime == s.processes[p].metrics.startTime
  {
    var u := Tick(s, pid, t);
    EffectKeepsIdentity(u, Decide(u, pid, call, t).effect, p);
  }

  lemma EffectKeepsIdentity(s: State, e: Effect, p: ProcessId)
    requires p in s.processes
    ensures p in Perform(s, e).processes
    ensures var proc := Perform(s, e).processes[p];
      proc.name == s.processes[p].name && proc.metrics.startTime == s.processes[p].metrics.startTime
  {
  }

  /** Every process of a run was registered: its name and start time are those of its registration. */
  lemma {:induction false} ProcessOrigin(es: seq<Event>, p: ProcessId) returns (k: nat)
    requires p in Run(es).processes
    ensures k < |es| && es[k].Register? && Before(INITIAL, es, k).nextPid == p
    ensures Run(es).processes[p].name == es[k].name && Run(es).processes[p].metrics.startTime == es[k].time
  {
    var n := |es| - 1;
    var earlier := es[..n];
    if es[n].Register? && Run(earlier).nextPid == p {
      k := n;
    } else {
      if es[n].Sys? { StepKeepsProcesses(Run(earlier), es[n].pid, es[n].call, es[n].time); }
      k := ProcessOrigin(earlier, p);
      assert earlier[..k] == es[..k];
      if es[n].Sys? { StepKeepsIdentity(Run(earlier), es[n].pid, es[n].call, es[n].time, p); }
    }
  }

  /** Event `k` is the exit of `p`, or the kill of `p` while it is known. */
  ghost predicate EndsAt(es: seq<Event>, k: nat, p: ProcessId)
    requires k < |es|
  {
    es[k].Sys? && p in Before(INITIAL, es, k).processes &&
    ((es[k].call.Exit? && es[k].pid == p) || (es[k].call.Kill? && es[k].call.target == p))
  }

  ghost predicate Ended(es: seq<Event>, p: ProcessId) {
    exists k :: 0 <= k < |es| && EndsAt(es, k, p)
  }

  lemma EndsEarlier(es: seq<Event>, k: nat, p: ProcessId)
    requires k < |es| - 1
    ensures EndsAt(es[..|es| - 1], k, p) <==> EndsAt(es, k, p)
  {
    assert es[..|es| - 1][..k] == es[..k];
  }

  lemma EndedSnoc(es: seq<Event>, p: ProcessId)
    requires es != []
    ensures Ended(es, p) <==> Ended(es[..|es| - 1], p) || EndsAt(es, |es| - 1, p)
  {
    var earlier := es[..|es| - 1];
    if Ended(earlier, p) {
      var k :| 0 <= k < |earlier| && EndsAt(earlier, k, p);
      EndsEarlier(es, k, p);
    }
    if Ended(es, p) {
      var k :| 0 <= k < |es| && EndsAt(es, k, p);
      if k < |earlier| { EndsEarlier(es, k, p); }
    }
  }

  lemma EndedWasKnown(es: seq<Event>, p: ProcessId)
    requires Ended(es, p)
    ensures p in Run(es).processes
  {
    var k :| 0 <= k < |es| && EndsAt(es, k, p);
    ExecAppend(INITIAL, es[..k], es[k..]);
    assert es[..k] + es[k..] == es;
    ProcessesStay(Run(es[..k]), es[k..]);
  }

  lemma {:induction false} ExecAppend(s: State, a: seq<Event>, b: seq<Event>)
    ensures Exec(s, a + b) == Exec(Exec(s, a), b)
  {
    if b == [] {
      assert a + b == a;
    } else {
      ExecAppend(s, a, b[..|b| - 1]);
      assert (a + b)[..|a + b| - 1] == a + b[..|b| - 1] && (a + b)[|a + b| - 1] == b[|b| - 1];
    }
  }

  /** A process of a run is a zombie if and only if it exited or was killed, and is running otherwise. */
  lemma {:induction false} StatusFollowsRun(es: seq<Event>, p: ProcessId)
    requires p in Run(es).processes
    ensures Run(es).processes[p].status == if Ended(es, p) then Zombie else Running
  {
    var n := |es| - 1;
    var earlier := es[..n];
    var s := Run(earlier);
    RunSatisfiesInv(earlier);
    EndedSnoc(es, p);
    match es[n]
    case Register(name, t) =>
      if p == s.nextPid {
        if Ended(earlier, p) {
          EndedWasKnown(earlier, p);
          assert false;
        }
      } else {
        StatusFollowsRun(earlier, p);
      }
    case Sys(pid, call, t) =>
      StepKeepsProcesses(s, pid, call, t);
      StatusFollowsRun(earlier, p);
      StatusAfter(s, pid, call, t);
  }

  /** What `ListProcesses` reports: a process is listed under the name it was registered with, as a zombie exactly when
      it has ended. */
  lemma ListedAsRegistered(es: seq<Event>, pid: ProcessId, t: Time, p: ProcessId, name: string, status: ProcessStatus)
    returns (k: nat)
    requires Step(Run(es), pid, ListProcesses, t).result.ProcessList?
    requires (p, name, status) in Step(Run(es), pid, ListProcesses, t).result.procs
    ensures k < |es| && es[k].Register? && es[k].name == name && Before(INITIAL, es, k).nextPid == p
    ensures status == if Ended(es, p) then Zombie else Running
  {
    ProcessListIsTable(Run(es), pid, t, p, name, status);
    k := ProcessOrigin(es, p);
    StatusFollowsRun(es, p);
  }

  // ---------------------------------------------------------------- metrics of a process

  const NONE := ProcessMetrics(0, 0, 0, 0, 0, 0, 0, 0)

  /** What one call of a process adds to its metrics, read off the call and its reply. */
  function Counted(m: ProcessMetrics, call: Syscall, r: SyscallResult, t: Time): ProcessMetrics {
    var called := m.(syscallCount := m.syscallCount + 1, lastActive := t);
    if (call.Send? && r.Ok?) || (call.Call? && r.WouldBlock?)
    then called.(ipcSent := m.ipcSent + 1, ipcBytesSent := m.ipcBytesSent + |call.data|)
    else if r.Delivered?
    then called.(ipcReceived := m.ipcReceived + 1, ipcBytesReceived := m.ipcBytesReceived + |r.msg.data|)
    else called
  }

  /** The metrics a history of events calls for. */
  ghost function Tally(es: seq<Event>, p: ProcessId): ProcessMetrics {
    if es == [] then NONE
    else
      var earlier, s := Tally(es[..|es| - 1], p), Run(es[..|es| - 1]);
      match es[|es| - 1]
      case Register(_, t) => if s.nextPid == p then NONE.(startTime := t) else earlier
      case Sys(pid, call, t) => if pid == p then Counted(earlier, call, Step(s, pid, call, t).result, t) else earlier
  }

  /** The metrics of `p` after an effect. */
  ghost function AfterEffect(s: State, e: Effect, p: ProcessId): ProcessMetrics
    requires p in s.processes
  {
    var m := s.processes[p].metrics;
    if e.Post? && e.counted && e.msg.sender == p && e.endpoint in s.endpoints
    then m.(ipcSent := m.ipcSent + 1, ipcBytesSent := m.ipcBytesSent + |e.msg.data|)
    else if e.Take? && e.taker == p && Pending(s, e.endpoint) != []
    then m.(ipcReceived := m.ipcReceived + 1, ipcBytesReceived := m.ipcBytesReceived + |Pending(s, e.endpoint)[0].data|)
    else m
  }

  lemma EffectCounts(s: State, e: Effect, p: ProcessId)
    requires p in s.processes
    ensures p in Perform(s, e).processes && Perform(s, e).processes[p].metrics == AfterEffect(s, e, p)
  {
  }

  lemma DecisionCounts(s: State, pid: ProcessId, call: Syscall, t: Time, p: ProcessId)
    requires Inv(s) && p in s.processes
    ensures var d, m := Decide(s, pid, call, t), s.processes[p].metrics;
      AfterEffect(s, d.effect, p) ==
        if p != pid then m
        else Counted(m, call, d.result, t).(syscallCount := m.syscallCount, lastActive := m.lastActive)
  {
    DecisionJustified(s, pid, call, t);
    PostDecided(s, pid, call, t);
    TakeDecided(s, pid, call, t);
  }

  lemma StepCounts(s: State, pid: ProcessId, call: Syscall, t: Time, p: ProcessId)
    requires Inv(s) && p in s.processes
    ensures var r := Step(s, pid, call, t);
      p in r.state.processes &&
      r.state.processes[p].metrics ==
        if p == pid then Counted(s.processes[p].metrics, call, r.result, t) else s.processes[p].metrics
  {
    var u := Tick(s, pid, t);
    TickKeepsInv(s, pid, t);
    TickCounts(s, pid, t, p);
    DecisionCounts(u, pid, call, t, p);
    EffectCounts(u, Decide(u, pid, call, t).effect, p);
    CountedInParts(s.processes[p].metrics, call, Step(s, pid, call, t).result, t);
  }

  function Ticked(m: ProcessMetrics, t: Time): ProcessMetrics {
    m.(syscallCount := m.syscallCount + 1, lastActive := t)
  }

  lemma TickCounts(s: State, pid: ProcessId, t: Time, p: ProcessId)
    requires p in s.processes
    ensures p in Tick(s, pid, t).processes
    ensures Tick(s, pid, t).processes[p].metrics ==
      if p == pid then Ticked(s.processes[p].metrics, t) else s.processes[p].metrics
  {
  }

  lemma CountedInParts(m: ProcessMetrics, call: Syscall, r: SyscallResult, t: Time)
    ensures var u := Ticked(m, t);
      Counted(u, call, r, t).(syscallCount := u.syscallCount, lastActive := u.lastActive) == Counted(m, call, r, t)
  {
  }

  /** The metrics of every process of a run are exactly the tally of its own calls since its registration. */
  lemma {:induction false} MetricsFollowRun(es: seq<Event>, p: ProcessId)
    requires p in Run(es).processes
    ensures Run(es).processes[p].metrics == Tally(es, p)
  {
    var n := |es| - 1;
    var s := Run(es[..n]);
    RunSatisfiesInv(es[..n]);
    match es[n]
    case Register(name, t) =>
      if p != s.nextPid { MetricsFollowRun(es[..n], p); }
    case Sys(pid, call, t) =>
      StepKeepsProcesses(s, pid, call, t);
      MetricsFollowRun(es[..n], p);
      StepCounts(s, pid, call, t, p);
  }

  // ---------------------------------------------------------------- metrics of an endpoint

  /** The longest queue an endpoint has had. */
  ghost function Peak(es: seq<Event>, e: EndpointId): nat {
    if es == [] then 0
    else
      var earlier, now := Peak(es[..|es| - 1], e), |Pending(Run(es), e)|;
      if now > earlier then now else earlier
  }

  /** The metrics of `ep` after an effect that posts `posted` to it. */
  ghost predicate Moved(before: EndpointMetrics, after: EndpointMetrics, posted: seq<Message>, depth: nat) {
    && after.queueDepth == depth && after.totalMessages == before.totalMessages + |posted|
    && after.totalBytes == before.totalBytes + Bytes(posted)
    && after.queueHighWater == if depth > before.queueHighWater then depth else before.queueHighWater
  }

  lemma EffectMoves(s: State, e: Effect, ep: EndpointId)
    requires ep in s.endpoints && EndpointOk(s, ep) && s.nextEndpointId !in s.endpoints && Justified(s, e)
    ensures ep in Perform(s, e).endpoints
    ensures Moved(s.endpoints[ep].metrics, Perform(s, e).endpoints[ep].metrics, Posted(e, ep),
                  |Perform(s, e).endpoints[ep].pending|)
  {
    if e.Post? && e.endpoint == ep { OneMessage(e.msg); }
  }

  lemma OneMessage(m: Message)
    ensures Bytes([m]) == |m.data|
  {
    assert [m][..0] == [];
  }

  lemma EventMoves(s: State, ev: Event, ep: EndpointId)
    requires Inv(s) && ep in s.endpoints
    ensures ep in After(s, ev).endpoints
    ensures Moved(s.endpoints[ep].metrics, After(s, ev).endpoints[ep].metrics, SentBy(s, ev, ep),
                  |After(s, ev).endpoints[ep].pending|)
  {
    assert EndpointOk(s, ep);
    if ev.Sys? {
      var u := Tick(s, ev.pid, ev.time);
      TickKeepsInv(s, ev.pid, ev.time);
      DecisionJustified(u, ev.pid, ev.call, ev.time);
      SentIsPosted(s, ev.pid, ev.call, ev.time, ep);
      assert EndpointOk(u, ep);
      EffectMoves(u, Decide(u, ev.pid, ev.call, ev.time).effect, ep);
    }
  }

  lemma UnknownIsIdle(s: State, ev: Event, ep: EndpointId)
    requires Inv(s) && ep !in s.endpoints
    ensures SentBy(s, ev, ep) == [] && Pending(After(s, ev), ep) == []
    ensures ep in After(s, ev).endpoints ==> After(s, ev).endpoints[ep].metrics == EndpointMetrics(0, 0, 0, 0)
  {
    if ev.Sys? {
      var u := Tick(s, ev.pid, ev.time);
      TickKeepsInv(s, ev.pid, ev.time);
      DecisionJustified(u, ev.pid, ev.call, ev.time);
      SentIsPosted(s, ev.pid, ev.call, ev.time, ep);
    }
  }

  /** What the metrics of an endpoint should say after a history, or nothing while it does not exist. */
  ghost predicate Counts(es: seq<Event>, e: EndpointId) {
    var sent := Sent(INITIAL, es, e);
    if e in Run(es).endpoints
    then Run(es).endpoints[e].metrics ==
           EndpointMetrics(|Pending(Run(es), e)|, |sent|, Bytes(sent), Peak(es, e))
    else sent == [] && Peak(es, e) == 0
  }

  lemma {:induction false} BytesAppend(a: seq<Message>, b: seq<Message>)
    ensures Bytes(a + b) == Bytes(a) + Bytes(b)
  {
    if b == [] {
      assert a + b == a;
    } else {
      BytesAppend(a, b[..|b| - 1]);
      assert (a + b)[..|a + b| - 1] == a + b[..|b| - 1] && (a + b)[|a + b| - 1] == b[|b| - 1];
    }
  }

  /** The metrics of every endpoint of a run count exactly what was sent to it; the high-water mark is its peak. */
  lemma {:induction false} EndpointMetricsFollowRun(es: seq<Event>, e: EndpointId)
    ensures Counts(es, e)
  {
    if es != [] {
      var earlier, ev := es[..|es| - 1], es[|es| - 1];
      EndpointMetricsFollowRun(earlier, e);
      RunSatisfiesInv(earlier);
      BytesAppend(Sent(INITIAL, earlier, e), SentBy(Run(earlier), ev, e));
      if e in Run(earlier).endpoints {
        EventMoves(Run(earlier), ev, e);
      } else {
        UnknownIsIdle(Run(earlier), ev, e);
      }
    }
  }

  /** Ids start at one: the first process, the first endpoint and the first capability of a run. */
  lemma FirstIdsAreOne(name: string, t: Time, t': Time)
    ensures var s := Run([Register(name, t), Sys(1, CreateEndpoint, t')]);
      && s.processes.Keys == {1} && s.endpoints.Keys == {1} && HasCap(s, 1, 0) && CapAt(s, 1, 0).id == 1
      && CapAt(s, 1, 0).Names(EndpointObject, 1)
  {
    var a, b := Register(name, t), Sys(1, CreateEndpoint, t');
    ExecAppend(INITIAL, [a], [b]);
    assert [a] + [b] == [a, b] && [a][..0] == [] && [b][..0] == [];
    assert Exec(INITIAL, [a]) == After(INITIAL, a);
    assert Exec(After(INITIAL, a), [b]) == After(After(INITIAL, a), b);
  }
}
