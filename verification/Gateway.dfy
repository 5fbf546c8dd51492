/** The audit gateway: every syscall is a request, its commits and a response, in two bounded logs. */
module Gateway {
  import opened Words
  import opened Common
  import opened Commits
  import opened CommitLog

  const MAX_SYSLOG_EVENTS: nat := 10000

  type Args = a: seq<u32> | |a| == 4 witness [0, 0, 0, 0]

  datatype EventKind =
    | Asked(syscallNum: u32, args: Args)
    | Answered(requestId: EventId, result: i64)

  datatype SysEvent = SysEvent(id: EventId, sender: u64, timestamp: u64, kind: EventKind)

  datatype Journal = Journal(events: seq<SysEvent>, nextId: EventId)

  function Note(j: Journal, sender: u64, time: u64, kind: EventKind): Journal {
    Journal(Latest(j.events + [SysEvent(j.nextId, sender, time, kind)], MAX_SYSLOG_EVENTS), j.nextId + 1)
  }

  /** What passes through the gateway: a syscall together with what the kernel function answered, or a
      commit the kernel makes on its own. */
  datatype Operation =
    | Syscall(sender: u64, syscallNum: u32, args: Args, time: u64, result: i64, commits: seq<CommitType>)
    | Internal(commitType: CommitType, time: u64)

  function CausedRequests(commits: seq<CommitType>, id: EventId, time: u64): seq<Request> {
    seq(|commits|, i requires 0 <= i < |commits| => Request(commits[i], Some(id), time))
  }

  function RequestsOf(op: Operation, id: EventId): seq<Request> {
    match op
    case Syscall(_, _, _, time, _, commits) => CausedRequests(commits, id, time)
    case Internal(ct, time) => [Request(ct, None, time)]
  }

  datatype Gate = Gate(journal: Journal, log: Log)

  function Pass(hash: Hasher, g: Gate, op: Operation): Gate {
    var log := AppendAll(hash, g.log, RequestsOf(op, g.journal.nextId));
    match op
    case Syscall(sender, num, args, time, result, _) =>
      var asked := Note(g.journal, sender, time, Asked(num, args));
      Gate(Note(asked, sender, time, Answered(g.journal.nextId, result)), log)
    case Internal(_, _) => Gate(g.journal, log)
  }

  function GateOf(hash: Hasher, time: u64, ops: seq<Operation>): Gate {
    if ops == [] then Gate(Journal([], 0), NewLog(hash, time))
    else Pass(hash, GateOf(hash, time, ops[..|ops| - 1]), ops[|ops| - 1])
  }

  // ---------------------------------------------------------------- the same without bounds

  /** Every event ever logged. */
  function AllEvents(ops: seq<Operation>): seq<SysEvent> {
    if ops == [] then []
    else
      var earlier, op := AllEvents(ops[..|ops| - 1]), ops[|ops| - 1];
      if op.Internal? then earlier
      else earlier + [SysEvent(|earlier|, op.sender, op.time, Asked(op.syscallNum, op.args)),
                      SysEvent(|earlier| + 1, op.sender, op.time, Answered(|earlier|, op.result))]
  }

  /** Every commit ever requested, with its cause. */
  function AllRequests(ops: seq<Operation>): seq<Request> {
    if ops == [] then []
    else AllRequests(ops[..|ops| - 1]) + RequestsOf(ops[|ops| - 1], |AllEvents(ops[..|ops| - 1])|)
  }

  lemma {:induction false} AppendAllAppend(hash: Hasher, l: Log, a: seq<Request>, b: seq<Request>)
    ensures AppendAll(hash, l, a + b) == AppendAll(hash, AppendAll(hash, l, a), b)
  {
    if b == [] {
      assert a + b == a;
    } else {
      AppendAllAppend(hash, l, a, b[..|b| - 1]);
      assert (a + b)[..|a + b| - 1] == a + b[..|b| - 1] && (a + b)[|a + b| - 1] == b[|b| - 1];
    }
  }

  lemma TwoNotes(j: Journal, all: seq<SysEvent>, sender: u64, time: u64, x: EventKind, y: EventKind)
    requires j == Journal(Latest(all, MAX_SYSLOG_EVENTS), |all|)
    ensures Note(Note(j, sender, time, x), sender, time, y) ==
      Journal(Latest(all + [SysEvent(|all|, sender, time, x), SysEvent(|all| + 1, sender, time, y)], MAX_SYSLOG_EVENTS),
              |all| + 2)
  {
    var e, f := SysEvent(|all|, sender, time, x), SysEvent(|all| + 1, sender, time, y);
    LatestOfLatest(all, e, MAX_SYSLOG_EVENTS);
    LatestOfLatest(all + [e], f, MAX_SYSLOG_EVENTS);
    assert all + [e] + [f] == all + [e, f];
  }

  /** Over every run both logs are exactly bounded windows on the unbounded audit trail. */
  lemma {:induction false} GateIsWindow(hash: Hasher, time: u64, ops: seq<Operation>)
    ensures GateOf(hash, time, ops) ==
      Gate(Journal(Latest(AllEvents(ops), 10000), |AllEvents(ops)|), LogOf(hash, time, AllRequests(ops)))
  {
    if ops != [] {
      var earlier, op := ops[..|ops| - 1], ops[|ops| - 1];
      GateIsWindow(hash, time, earlier);
      var all := AllEvents(earlier);
      AppendAllAppend(hash, NewLog(hash, time), AllRequests(earlier), RequestsOf(op, |all|));
      if op.Syscall? {
        TwoNotes(GateOf(hash, time, earlier).journal, all, op.sender, op.time,
                 Asked(op.syscallNum, op.args), Answered(|all|, op.result));
      }
    }
  }

  // ---------------------------------------------------------------- correlation

  /** Position `i` of the trail: even positions are requests, odd ones answer the request before. */
  ghost predicate Paired(all: seq<SysEvent>, i: nat)
    requires i < |all|
  {
    && all[i].id == i
    && (i % 2 == 0 ==> all[i].kind.Asked?)
    && (i % 2 == 1 ==> all[i].kind.Answered? && all[i].kind.requestId == i - 1
                       && all[i].sender == all[i - 1].sender && all[i].timestamp == all[i - 1].timestamp)
  }

  lemma {:induction false} EventsArePaired(ops: seq<Operation>)
    ensures |AllEvents(ops)| % 2 == 0
    ensures forall i :: 0 <= i < |AllEvents(ops)| ==> Paired(AllEvents(ops), i)
  {
    if ops != [] {
      var earlier := AllEvents(ops[..|ops| - 1]);
      EventsArePaired(ops[..|ops| - 1]);
      forall i | 0 <= i < |AllEvents(ops)|
        ensures Paired(AllEvents(ops), i)
      {
        if i < |earlier| { assert Paired(earlier, i); }
      }
    }
  }

  /** The two events of a syscall: what was asked, and what the kernel answered. */
  ghost predicate Recorded(all: seq<SysEvent>, id: EventId, op: Operation)
    requires op.Syscall?
  {
    && id + 1 < |all| && all[id] == SysEvent(id, op.sender, op.time, Asked(op.syscallNum, op.args))
    && all[id + 1] == SysEvent(id + 1, op.sender, op.time, Answered(id, op.result))
  }

  /** Every syscall is recorded with its number, arguments and result, right after the events of those before it. */
  lemma {:induction false} TrailRecordsCalls(ops: seq<Operation>, k: nat)
    requires k < |ops| && ops[k].Syscall?
    ensures Recorded(AllEvents(ops), |AllEvents(ops[..k])|, ops[k])
    decreases |ops|
  {
    if k < |ops| - 1 {
      var earlier := ops[..|ops| - 1];
      assert earlier[..k] == ops[..k] && earlier[k] == ops[k];
      TrailRecordsCalls(earlier, k);
      assert AllEvents(earlier) <= AllEvents(ops);
    }
  }

  /** At every boundary between operations the retained journal holds whole exchanges: each retained
      answer directly follows its retained request. */
  lemma RetainedAnswersKeepRequests(hash: Hasher, time: u64, ops: seq<Operation>, j: nat)
    requires var events := GateOf(hash, time, ops).journal.events; j < |events| && events[j].kind.Answered?
    ensures var events := GateOf(hash, time, ops).journal.events;
      && j > 0 && events[j - 1].kind.Asked?
      && events[j].id == events[j - 1].id + 1 && events[j - 1].id % 2 == 0
      && events[j].kind.requestId == events[j - 1].id && events[j].sender == events[j - 1].sender
  {
    GateIsWindow(hash, time, ops);
    EventsArePaired(ops);
    WindowIsPaired(AllEvents(ops), GateOf(hash, time, ops).journal.events, j);
  }

  /** Trimming an even-length trail to an even bound drops whole exchanges. */
  lemma WindowIsPaired(all: seq<SysEvent>, events: seq<SysEvent>, j: nat)
    requires |all| % 2 == 0 && forall i :: 0 <= i < |all| ==> Paired(all, i)
    requires events == Latest(all, MAX_SYSLOG_EVENTS) && j < |events| && events[j].kind.Answered?
    ensures j > 0 && events[j - 1].kind.Asked?
    ensures events[j].id == events[j - 1].id + 1 && events[j - 1].id % 2 == 0
    ensures events[j].kind.requestId == events[j - 1].id && events[j].sender == events[j - 1].sender
  {
    var dropped := |all| - |events|;
    assert dropped % 2 == 0;
    assert events[j] == all[dropped + j] && Paired(all, dropped + j);
    assert (dropped + j) % 2 == 1;
    assert Paired(all, dropped + j - 1) && events[j - 1] == all[dropped + j - 1];
  }

  lemma {:induction false} RequestsGrow(ops: seq<Operation>, k: nat)
    requires k <= |ops|
    ensures |AllRequests(ops[..k])| <= |AllRequests(ops)|
    ensures AllRequests(ops)[..|AllRequests(ops[..k])|] == AllRequests(ops[..k])
    ensures |AllEvents(ops[..k])| <= |AllEvents(ops)|
  {
    if k < |ops| {
      RequestsGrow(ops[..|ops| - 1], k);
      assert ops[..|ops| - 1][..k] == ops[..k];
    } else {
      assert ops[..k] == ops;
    }
  }

  /** Causes recorded so far name requests logged so far. */
  lemma {:induction false} CausesAreEarlier(ops: seq<Operation>, i: nat)
    requires i < |AllRequests(ops)|
    ensures var cause := AllRequests(ops)[i].causedBy; cause.Some? ==> cause.value < |AllEvents(ops)|
  {
    var earlier := ops[..|ops| - 1];
    if i < |AllRequests(earlier)| {
      CausesAreEarlier(earlier, i);
    }
  }

  /** Positions `from` to `to` of the requests are the commits of `op`, and nothing else is caused by `id`. */
  ghost predicate IsBlock(requests: seq<Request>, from: nat, to: nat, op: Operation, id: EventId) {
    && from <= to <= |requests|
    && requests[from..to] == RequestsOf(op, id)
    && forall i :: 0 <= i < |requests| ==> (requests[i].causedBy == Some(id) <==> from <= i < to)
  }

  lemma BlockSurvives(requests: seq<Request>, from: nat, to: nat, op: Operation, id: EventId, more: seq<Request>)
    requires IsBlock(requests, from, to, op, id)
    requires forall i :: 0 <= i < |more| ==> more[i].causedBy != Some(id)
    ensures IsBlock(requests + more, from, to, op, id)
  {
    assert (requests + more)[from..to] == requests[from..to];
  }

  /** `op`, which came after `before`, has its block among the requests. */
  ghost predicate FormsBlock(requests: seq<Request>, before: seq<Operation>, op: Operation)
    requires op.Syscall?
  {
    IsBlock(requests, |AllRequests(before)|, |AllRequests(before)| + |op.commits|, op, |AllEvents(before)|)
  }

  /** The commits of one syscall form one contiguous block of the commit log, in order, and are exactly
      the commits that name its request as their cause. */
  lemma {:induction false} CommitsFormBlock(ops: seq<Operation>, k: nat)
    requires k < |ops| && ops[k].Syscall?
    ensures FormsBlock(AllRequests(ops), ops[..k], ops[k])
    decreases |ops|
  {
    if k < |ops| - 1 {
      var earlier := ops[..|ops| - 1];
      assert earlier[..k] == ops[..k] && earlier[k] == ops[k];
      CommitsFormBlock(earlier, k);
      EventsBefore(ops, k, |ops| - 1);
      LaterBlock(ops, ops[..k], ops[k]);
    } else {
      LastBlock(ops);
    }
  }

  /** An operation with another event id leaves a block alone. */
  lemma LaterBlock(ops: seq<Operation>, before: seq<Operation>, op: Operation)
    requires ops != [] && op.Syscall? && |AllEvents(before)| < |AllEvents(ops[..|ops| - 1])|
    requires FormsBlock(AllRequests(ops[..|ops| - 1]), before, op)
    ensures FormsBlock(AllRequests(ops), before, op)
  {
    var requests, last := AllRequests(ops[..|ops| - 1]), |AllEvents(ops[..|ops| - 1])|;
    var from, id := |AllRequests(before)|, |AllEvents(before)|;
    CausedByOther(ops[|ops| - 1], last, id);
    BlockSurvives(requests, from, from + |op.commits|, op, id, RequestsOf(ops[|ops| - 1], last));
    assert AllRequests(ops) == requests + RequestsOf(ops[|ops| - 1], last);
  }

  lemma CausedByOther(op: Operation, id: EventId, other: EventId)
    requires id != other
    ensures forall i :: 0 <= i < |RequestsOf(op, id)| ==> RequestsOf(op, id)[i].causedBy != Some(other)
  {
  }

  lemma NewBlock(requests: seq<Request>, op: Operation, id: EventId)
    requires op.Syscall? && forall i :: 0 <= i < |requests| ==> requests[i].causedBy != Some(id)
    ensures IsBlock(requests + RequestsOf(op, id), |requests|, |requests| + |op.commits|, op, id)
  {
    assert (requests + RequestsOf(op, id))[|requests|..|requests| + |op.commits|] == RequestsOf(op, id);
  }

  lemma LastBlock(ops: seq<Operation>)
    requires ops != [] && ops[|ops| - 1].Syscall?
    ensures FormsBlock(AllRequests(ops), ops[..|ops| - 1], ops[|ops| - 1])
  {
    var earlier := ops[..|ops| - 1];
    forall i | 0 <= i < |AllRequests(earlier)|
      ensures AllRequests(earlier)[i].causedBy != Some(|AllEvents(earlier)|)
    {
      CausesAreEarlier(earlier, i);
    }
    NewBlock(AllRequests(earlier), ops[|ops| - 1], |AllEvents(earlier)|);
  }

  lemma EventsBefore(ops: seq<Operation>, k: nat, n: nat)
    requires k < n <= |ops| && ops[k].Syscall?
    ensures |AllEvents(ops[..k])| < |AllEvents(ops[..n])|
  {
    assert ops[..k + 1][..k] == ops[..k];
    RequestsGrow(ops[..n], k + 1);
    assert ops[..n][..k + 1] == ops[..k + 1];
  }

  /** A commit at position `n` of the trail names the syscall `op` as its cause exactly when it lies in its block, and
      then records the corresponding commit type and the time of the syscall. */
  ghost predicate Traced(c: Commit, n: nat, before: seq<Operation>, op: Operation)
    requires op.Syscall?
  {
    var from := |AllRequests(before)|;
    && (c.causedBy == Some(|AllEvents(before)|) <==> from < n <= from + |op.commits|)
    && (from < n <= from + |op.commits| ==> c.commitType == op.commits[n - 1 - from] && c.timestamp == op.time)
  }

  lemma {:induction false} TrailStartsUncaused(hash: Hasher, time: u64, rs: seq<Request>)
    ensures Everything(hash, time, rs)[0].causedBy == None
  {
    if rs != [] { TrailStartsUncaused(hash, time, rs[..|rs| - 1]); }
  }

  lemma RequestTraced(requests: seq<Request>, before: seq<Operation>, op: Operation, n: nat, c: Commit)
    requires op.Syscall? && FormsBlock(requests, before, op) && 0 < n <= |requests|
    requires c.commitType == requests[n - 1].commitType && c.causedBy == requests[n - 1].causedBy
    requires c.timestamp == requests[n - 1].time
    ensures Traced(c, n, before, op)
  {
    var from, id := |AllRequests(before)|, |AllEvents(before)|;
    if from < n <= from + |op.commits| {
      assert requests[from..from + |op.commits|][n - 1 - from] == requests[n - 1];
      assert requests[n - 1] == RequestsOf(op, id)[n - 1 - from];
    }
  }

  lemma PositionTraced(hash: Hasher, time: u64, ops: seq<Operation>, k: nat, n: nat)
    requires k < |ops| && ops[k].Syscall? && n <= |AllRequests(ops)|
    ensures Traced(Everything(hash, time, AllRequests(ops))[n], n, ops[..k], ops[k])
  {
    CommitsFormBlock(ops, k);
    TrailTraced(hash, time, AllRequests(ops), ops[..k], ops[k], n);
  }

  lemma TrailTraced(hash: Hasher, time: u64, requests: seq<Request>, before: seq<Operation>, op: Operation, n: nat)
    requires op.Syscall? && FormsBlock(requests, before, op) && n <= |requests|
    ensures Traced(Everything(hash, time, requests)[n], n, before, op)
  {
    if n == 0 {
      TrailStartsUncaused(hash, time, requests);
    } else {
      EverythingRecordsRequests(hash, time, requests, n - 1);
      RequestTraced(requests, before, op, n, Everything(hash, time, requests)[n]);
    }
  }

  /** The same, read off the log that is kept: whatever has been trimmed, a retained commit names syscall `k` as its
      cause if and only if its sequence number lies in the range of that syscall's block. */
  lemma RetainedCommitsTraced(hash: Hasher, time: u64, ops: seq<Operation>, k: nat, j: nat)
    requires k < |ops| && ops[k].Syscall? && j < |GateOf(hash, time, ops).log.commits|
    ensures var c := GateOf(hash, time, ops).log.commits[j]; Traced(c, c.seqNo, ops[..k], ops[k])
  {
    var requests := AllRequests(ops);
    GateIsWindow(hash, time, ops);
    LogIsWindow(hash, time, requests);
    var n := WindowPosition(Everything(hash, time, requests), GateOf(hash, time, ops).log.commits, j);
    EverythingIsNumbered(hash, time, requests);
    PositionTraced(hash, time, ops, k, n);
  }

  lemma WindowPosition(all: seq<Commit>, commits: seq<Commit>, j: nat) returns (n: nat)
    requires commits == Latest(all, MAX_COMMITLOG_ENTRIES) && j < |commits|
    ensures n < |all| && all[n] == commits[j]
  {
    n := |all| - |commits| + j;
  }

  // ---------------------------------------------------------------- the gateway object

  /** `ids` are the successive heads of the log as the requests are appended. */
  ghost predicate HeadsAlong(hash: Hasher, l: Log, requests: seq<Request>, ids: seq<CommitId>) {
    |ids| == |requests| && forall k :: 0 <= k < |ids| ==> ids[k] == AppendAll(hash, l, requests[..k + 1]).lastHash
  }

  lemma HeadsSnoc(hash: Hasher, l: Log, requests: seq<Request>, ids: seq<CommitId>, id: CommitId)
    requires requests != [] && HeadsAlong(hash, l, requests[..|requests| - 1], ids)
    requires id == AppendAll(hash, l, requests).lastHash
    ensures HeadsAlong(hash, l, requests, ids + [id])
  {
    var earlier := requests[..|requests| - 1];
    forall k | 0 <= k < |ids|
      ensures ids[k] == AppendAll(hash, l, requests[..k + 1]).lastHash
    {
      assert earlier[..k + 1] == requests[..k + 1];
    }
    assert requests[..|requests|] == requests;
  }

  lemma AppendAllSnoc(hash: Hasher, l: Log, requests: seq<Request>, i: nat)
    requires i < |requests|
    ensures AppendAll(hash, l, requests[..i + 1]) == Append(hash, AppendAll(hash, l, requests[..i]), requests[i])
  {
    assert requests[..i + 1][..i] == requests[..i];
  }

  class SysLog {
    var events: seq<SysEvent>
    var nextId: EventId

    function Value(): Journal
      reads this
    {
      Journal(events, nextId)
    }

    constructor ()
      ensures Value() == Journal([], 0)
    {
      events, nextId := [], 0;
    }

    method LogRequest(sender: u64, syscallNum: u32, args: Args, time: u64) returns (id: EventId)
      modifies this
      ensures id == old(nextId)
      ensures Value() == Note(old(Value()), sender, time, Asked(syscallNum, args))
    {
      id := nextId;
      nextId := nextId + 1;
      events := events + [SysEvent(id, sender, time, Asked(syscallNum, args))];
      TrimIfNeeded();
    }

    method LogResponse(sender: u64, requestId: EventId, result: i64, time: u64)
      modifies this
      ensures Value() == Note(old(Value()), sender, time, Answered(requestId, result))
    {
      var id := nextId;
      nextId := nextId + 1;
      events := events + [SysEvent(id, sender, time, Answered(requestId, result))];
      TrimIfNeeded();
    }

    method TrimIfNeeded()
      modifies this`events
      ensures events == Latest(old(events), MAX_SYSLOG_EVENTS)
    {
      if |events| > MAX_SYSLOG_EVENTS {
        var drain := |events| - MAX_SYSLOG_EVENTS;
        events := events[drain..];
      }
    }
  }

  class AxiomGateway {
    const syslog: SysLog
    const commitlog: CommitLog

    function Value(): Gate
      reads syslog, commitlog
    {
      Gate(syslog.Value(), commitlog.Value())
    }

    constructor (time: u64)
      ensures fresh(syslog) && fresh(commitlog)
      ensures Value() == GateOf(Hash, time, [])
    {
      syslog := new SysLog();
      commitlog := new CommitLog(time);
    }

    method AppendCommits(commitTypes: seq<CommitType>, requestId: EventId, time: u64) returns (ids: seq<CommitId>)
      modifies commitlog
      ensures commitlog.Value() == AppendAll(Hash, old(commitlog.Value()), CausedRequests(commitTypes, requestId, time))
      ensures HeadsAlong(Hash, old(commitlog.Value()), CausedRequests(commitTypes, requestId, time), ids)
    {
      ghost var before := commitlog.Value();
      ghost var requests := CausedRequests(commitTypes, requestId, time);
      ids := [];
      for i := 0 to |commitTypes|
        invariant HeadsAlong(Hash, before, requests[..i], ids)
        invariant commitlog.Value() == AppendAll(Hash, before, requests[..i])
      {
        var id := commitlog.AppendCommit(commitTypes[i], Some(requestId), time);
        AppendAllSnoc(Hash, before, requests, i);
        assert requests[..i + 1][..i] == requests[..i];
        HeadsSnoc(Hash, before, requests[..i + 1], ids, id);
        ids := ids + [id];
      }
      assert requests[..|commitTypes|] == requests;
    }

    /** `result` and `commitTypes` are what the kernel function returned for this call. */
    method Handle(sender: u64, syscallNum: u32, args: Args, time: u64, result: i64, commitTypes: seq<CommitType>)
      returns (ids: seq<CommitId>)
      modifies syslog, commitlog
      ensures Value() == Pass(Hash, old(Value()), Syscall(sender, syscallNum, args, time, result, commitTypes))
      ensures HeadsAlong(Hash, old(commitlog.Value()), CausedRequests(commitTypes, old(syslog.nextId), time), ids)
    {
      var requestId := syslog.LogRequest(sender, syscallNum, args, time);
      ids := AppendCommits(commitTypes, requestId, time);
      syslog.LogResponse(sender, requestId, result, time);
    }

    method AppendInternalCommit(commitType: CommitType, time: u64) returns (id: CommitId)
      modifies commitlog
      ensures Value() == Pass(Hash, old(Value()), Internal(commitType, time))
      ensures id == commitlog.lastHash
    {
      ghost var before := commitlog.Value();
      id := commitlog.AppendCommit(commitType, None, time);
      ghost var r := Request(commitType, None, time);
      assert [r][..0] == [];
      assert AppendAll(Hash, before, [r]) == Append(Hash, before, r);
    }
  }
}
