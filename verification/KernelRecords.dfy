/** What the commits say: each announces its event exactly, and those about messages are a faithful journal of them. */
module KernelRecords {
  import opened KernelTypes
  import opened KernelSpec
  import opened KernelIpc
  import opened KernelCommits

  // ---------------------------------------------------------------- one syscall

  /** The commits a syscall with reply `r` should leave, in terms of what the caller asked for and got. */
  ghost function Announcement(s: State, pid: ProcessId, call: Syscall, r: SyscallResult): seq<CommitType> {
    if r.Err? then []
    else match call
      case Exit(code) => [ProcessExited(pid, code)]
      case Kill(target) => [ProcessKilled(target, pid)]
      case CreateEndpoint => [EndpointCreated(s.nextEndpointId, pid)]
      case Send(slot, tag, data) => SendAnnounced(s, pid, slot, tag, |data|)
      case Call(slot, tag, data) => SendAnnounced(s, pid, slot, tag, |data|)
      case SendWithCaps(slot, tag, data, _) => SendAnnounced(s, pid, slot, tag, |data|)
      case CapGrant(slot, to, _) =>
        if r.Ok? && HasCap(s, pid, slot) then [CapGranted(pid, to, r.value, CapAt(s, pid, slot).objectId)] else []
      case CapDerive(slot, _) => if r.Ok? then [CapDerived(pid, slot, r.value)] else []
      case CapRevoke(slot) => [CapRevoked(pid, slot)]
      case CapDelete(slot) => [CapDeleted(pid, slot)]
      case _ => []
  }

  /** Sender, endpoint, tag and size, in this order. */
  ghost function SendAnnounced(s: State, pid: ProcessId, slot: CapSlot, tag: nat, size: nat): seq<CommitType> {
    if HasCap(s, pid, slot) then [IpcSent(pid, CapAt(s, pid, slot).objectId, tag, size)] else []
  }

  lemma DecisionAnnounced(s: State, pid: ProcessId, call: Syscall, t: Time)
    ensures Decide(s, pid, call, t).commits == Announcement(s, pid, call, Decide(s, pid, call, t).result)
  {
  }

  /** Every syscall leaves exactly the announcement of what it did, stamped with its time. */
  lemma CommitsAnnounceExactly(s: State, pid: ProcessId, call: Syscall, t: Time)
    ensures var r := Step(s, pid, call, t);
      && |r.commits| == |Announcement(s, pid, call, r.result)|
      && forall i :: 0 <= i < |r.commits| ==>
           r.commits[i].commitType == Announcement(s, pid, call, r.result)[i] && r.commits[i].timestamp == t
  {
    DecisionAnnounced(Tick(s, pid, t), pid, call, t);
    TickKeepsAnnouncement(s, pid, call, t, Step(s, pid, call, t).result);
  }

  lemma TickKeepsAnnouncement(s: State, pid: ProcessId, call: Syscall, t: Time, r: SyscallResult)
    ensures Announcement(Tick(s, pid, t), pid, call, r) == Announcement(s, pid, call, r)
  {
    var u := Tick(s, pid, t);
    assert u.capSpaces == s.capSpaces && u.nextEndpointId == s.nextEndpointId;
  }

  // ---------------------------------------------------------------- the journal of messages

  /** The commits among `cs` that announce a message to `e`. */
  function About(cs: seq<Commit>, e: EndpointId): seq<Commit> {
    if cs == [] then []
    else
      var c := cs[|cs| - 1];
      About(cs[..|cs| - 1], e) + if c.commitType.IpcSent? && c.commitType.endpoint == e then [c] else []
  }

  lemma {:induction false} AboutAppend(a: seq<Commit>, b: seq<Commit>, e: EndpointId)
    ensures About(a + b, e) == About(a, e) + About(b, e)
  {
    if b == [] {
      assert a + b == a;
    } else {
      AboutAppend(a, b[..|b| - 1], e);
      assert (a + b)[..|a + b| - 1] == a + b[..|b| - 1] && (a + b)[|a + b| - 1] == b[|b| - 1];
    }
  }

  /** A commit that announces message `m` to `e` at time `t`. */
  function NoteOf(m: Message, e: EndpointId, t: Time): Commit {
    Commit(IpcSent(m.sender, e, m.tag, |m.data|), t)
  }

  function NotesOf(ms: seq<Message>, e: EndpointId, t: Time): (notes: seq<Commit>)
    ensures |notes| == |ms|
  {
    seq(|ms|, i requires 0 <= i < |ms| => NoteOf(ms[i], e, t))
  }

  lemma PostNoted(s: State, pid: ProcessId, call: Syscall, t: Time, e: EndpointId)
    ensures var d := Decide(s, pid, call, t);
      About(Stamp(d.commits, t), e) == NotesOf(Posted(d.effect, e), e, t)
  {
    var d := Decide(s, pid, call, t);
    DecisionAnnounced(s, pid, call, t);
    PostDecided(s, pid, call, t);
    var cs := Stamp(d.commits, t);
    if |cs| == 1 { AboutOne(cs, e); }
  }

  lemma AboutOne(cs: seq<Commit>, e: EndpointId)
    requires |cs| == 1
    ensures About(cs, e) == if cs[0].commitType.IpcSent? && cs[0].commitType.endpoint == e then [cs[0]] else []
  {
    assert cs[..0] == [] && cs == [cs[0]];
  }

  lemma EventNoted(s: State, ev: Event, e: EndpointId)
    ensures About(CommitsOf(s, ev), e) == NotesOf(SentBy(s, ev, e), e, ev.time)
  {
    if ev.Sys? {
      SentIsPosted(s, ev.pid, ev.call, ev.time, e);
      PostNoted(Tick(s, ev.pid, ev.time), ev.pid, ev.call, ev.time, e);
    }
  }

  /** The journal that the messages of a history call for: one note each, in order, with the time of its event. */
  ghost function Journal(s: State, es: seq<Event>, e: EndpointId): seq<Commit> {
    if es == [] then []
    else
      var earlier, ev := es[..|es| - 1], es[|es| - 1];
      Journal(s, earlier, e) + NotesOf(SentBy(Exec(s, earlier), ev, e), e, ev.time)
  }

  /** Over every run, the commits about an endpoint are exactly the journal of the messages sent to it. */
  lemma {:induction false} MessagesAreJournalled(s: State, es: seq<Event>, e: EndpointId)
    ensures About(Emitted(s, es), e) == Journal(s, es, e)
  {
    if es != [] {
      var earlier, ev := es[..|es| - 1], es[|es| - 1];
      MessagesAreJournalled(s, earlier, e);
      EventNoted(Exec(s, earlier), ev, e);
      AboutAppend(Emitted(s, earlier), CommitsOf(Exec(s, earlier), ev), e);
    }
  }

  /** Note `i` of the journal names sender, endpoint, tag and size of message `i`, and carries the time of the event
      that sent it. */
  lemma {:induction false} JournalMatchesMessages(s: State, es: seq<Event>, e: EndpointId, i: nat) returns (k: nat)
    requires i < |Sent(s, es, e)|
    ensures |Journal(s, es, e)| == |Sent(s, es, e)|
    ensures k < |es| && |Sent(s, es[..k], e)| == i && Sent(s, es, e)[i] in SentBy(Before(s, es, k), es[k], e)
    ensures Journal(s, es, e)[i] == NoteOf(Sent(s, es, e)[i], e, es[k].time)
  {
    var n := |es| - 1;
    var earlier := es[..n];
    JournalLength(s, earlier, e);
    JournalLength(s, es, e);
    if i < |Sent(s, earlier, e)| {
      k := JournalMatchesMessages(s, earlier, e, i);
      assert earlier[..k] == es[..k];
    } else {
      k := n;
    }
  }

  lemma {:induction false} JournalLength(s: State, es: seq<Event>, e: EndpointId)
    ensures |Journal(s, es, e)| == |Sent(s, es, e)|
  {
    if es != [] { JournalLength(s, es[..|es| - 1], e); }
  }
}
