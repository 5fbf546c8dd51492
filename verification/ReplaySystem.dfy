/** The system a log is replayed into: reducers in place, replay over a log, and verified replay. */
module ReplaySystem {
  import opened Words
  import opened Common
  import opened Fnv
  import opened Commits
  import opened CommitLog
  import opened Replay
  import opened StateHash

  class System {
    var processes: map<u64, Proc>
    var capSpaces: map<u64, Space>
    var endpoints: map<u64, u64>
    var nextPid: nat
    var nextEndpointId: nat
    var nextCapId: nat

    function Value(): Replica
      reads this
    {
      Replica(processes, capSpaces, endpoints, nextPid, nextEndpointId, nextCapId)
    }

    constructor ForReplay()
      ensures Value() == BLANK
    {
      processes, capSpaces, endpoints := map[], map[], map[];
      nextPid, nextEndpointId, nextCapId := 1, 1, 1;
    }

    method ExitProcess(pid: u64) returns (error: Option<ReplayError>)
      modifies this`processes
      ensures Outcome(Value(), error) == Settle(old(Value()), Buried(old(Value()), pid))
    {
      if pid !in processes {
        return Some(ProcessNotFound(pid));
      }
      processes := processes[pid := processes[pid].(status := Zombie)];
      error := None;
    }

    method InsertCapability(pid: u64, slot: u32, capId: u64, tag: byte, objectId: u64, perms: byte)
      returns (error: Option<ReplayError>)
      modifies this`capSpaces, this`nextCapId
      ensures Outcome(Value(), error) ==
        Settle(old(Value()), Inserted(old(Value()), pid, slot, capId, tag, objectId, perms))
    {
      var ty := MapObjectType(tag);
      if ty.Failure? {
        return Some(ty.error);
      }
      if pid !in capSpaces {
        return Some(ProcessNotFound(pid));
      }
      var space := capSpaces[pid];
      space := space.(slots := space.slots[slot := Cap(capId, ty.value, objectId, Permissions.FromByte(perms), 0, 0)]);
      if slot >= space.nextSlot {
        space := space.(nextSlot := slot + 1);
      }
      capSpaces := capSpaces[pid := space];
      if capId >= nextCapId {
        nextCapId := capId + 1;
      }
      error := None;
    }

    /** One commit, applied in place. */
    method ApplyCommit(ct: CommitType) returns (error: Option<ReplayError>)
      modifies this
      ensures Outcome(Value(), error) == Settle(old(Value()), Apply(old(Value()), ct))
    {
      error := None;
      match ct
      case Genesis =>
      case ProcessCreated(pid, _, name) =>
        processes := processes[pid := Proc(name, Running)];
        capSpaces := capSpaces[pid := Space(map[], 0)];
        if pid >= nextPid { nextPid := pid + 1; }
      case ProcessExited(pid, _) => error := ExitProcess(pid);
      case ProcessFaulted(pid, _, _) => error := ExitProcess(pid);
      case CapInserted(pid, slot, capId, tag, objectId, perms) =>
        error := InsertCapability(pid, slot, capId, tag, objectId, perms);
      case CapRemoved(pid, slot) =>
        if pid !in capSpaces {
          return Some(ProcessNotFound(pid));
        }
        capSpaces := capSpaces[pid := capSpaces[pid].(slots := capSpaces[pid].slots - {slot})];
      case CapGranted(_, _, _, _, newCapId, _) =>
        if newCapId >= nextCapId { nextCapId := newCapId + 1; }
      case EndpointCreated(id, owner) =>
        if owner !in processes {
          return Some(ProcessNotFound(owner));
        }
        endpoints := endpoints[id := owner];
        if id >= nextEndpointId { nextEndpointId := id + 1; }
      case EndpointDestroyed(id) => endpoints := endpoints - {id};
      case MessageSent(_, _, _, _) =>
    }

    method ReplayCommits(cts: seq<CommitType>) returns (error: Option<ReplayError>)
      modifies this
      ensures Outcome(Value(), error) == Replayed(old(Value()), cts)
    {
      ghost var start := Value();
      for i := 0 to |cts|
        invariant Replayed(start, cts[..i]) == Outcome(Value(), None)
      {
        error := ApplyCommit(cts[i]);
        assert cts[..i + 1][..i] == cts[..i];
        if error.Some? {
          FailureIsFinal(start, cts, i + 1);
          return;
        }
      }
      assert cts[..|cts|] == cts;
      error := None;
    }

    method ComputeStateHash() returns (digest: Digest)
      ensures digest == StateDigest(Value())
    {
      var hasher := new StateHasher();
      hasher.WriteState(Value());
      digest := Finalize(hasher.hash);
    }

    /** Success means: every commit applied, and the rebuilt state hashes to the expected value. */
    method ReplayAndVerify(cts: seq<CommitType>, expected: Digest) returns (error: Option<ReplayError>)
      modifies this
      ensures Value() == Replayed(old(Value()), cts).state
      ensures error.None? <==> Replayed(old(Value()), cts).error.None? && StateDigest(Value()) == expected
      ensures Replayed(old(Value()), cts).error.Some? ==> error == Replayed(old(Value()), cts).error
      ensures Replayed(old(Value()), cts).error.None? && error.Some? ==>
        error == Some(HashMismatch(expected, StateDigest(Value())))
    {
      error := ReplayCommits(cts);
      if error.Some? {
        return;
      }
      var actual := ComputeStateHash();
      if actual != expected {
        return Some(HashMismatch(expected, actual));
      }
    }
  }

  lemma {:induction false} FailureIsFinal(s: Replica, cts: seq<CommitType>, n: nat)
    requires n <= |cts| && Replayed(s, cts[..n]).error.Some?
    ensures Replayed(s, cts) == Replayed(s, cts[..n])
  {
    ReplayAppend(s, cts[..n], cts[n..]);
    assert cts[..n] + cts[n..] == cts;
  }

  /** A verified replay pins the state down: if it succeeds against the hash of `s`, the rebuilt state
      agrees with `s` on everything hashed, or the two streams are an FNV collision. */
  lemma VerifiedReplayRebuilds(s: Replica, cts: seq<CommitType>)
    requires Replayed(BLANK, cts).error.None? && StateDigest(Replayed(BLANK, cts).state) == StateDigest(s)
    requires Sized(s) && Sized(Replayed(BLANK, cts).state)
    ensures var t := Replayed(BLANK, cts).state;
      SameHashedState(t, s) || (Stream(t) != Stream(s) && Fold(OFFSET, Stream(t)) == Fold(OFFSET, Stream(s)))
  {
    DigestBinds(Replayed(BLANK, cts).state, s);
  }

  /** The commit types of a log, which is what replay reads. */
  function TypesOf(cs: seq<Commit>): (ts: seq<CommitType>)
    ensures |ts| == |cs|
  {
    seq(|cs|, i requires 0 <= i < |cs| => cs[i].commitType)
  }

  lemma SameChainSameTypes(a: seq<Commit>, b: seq<Commit>)
    requires SameChain(a, b)
    ensures TypesOf(a) == TypesOf(b)
  {
  }

  /** One head, one state: two verified logs with the same head replay to the same outcome, error included, or they
      exhibit a collision or a commit hashing to zero. */
  lemma HeadBindsReplay(l: Log, k: Log)
    requires Verified(Hash, l) && Verified(Hash, k) && l.lastHash == k.lastHash
    requires l.commits != [] && k.commits != []
    requires WordSized(l.commits) && WordSized(k.commits)
    ensures Replayed(BLANK, TypesOf(l.commits)) == Replayed(BLANK, TypesOf(k.commits)) ||
      Collides(Hash, Encode, l.commits, k.commits) || HitsZero(Hash, l.commits) || HitsZero(Hash, k.commits)
  {
    HeadBindsLog(l, k);
    if SameChain(l.commits, k.commits) {
      SameChainSameTypes(l.commits, k.commits);
    }
  }

  // ---------------------------------------------------------------- replay of a retained log

  /** Replaying what a log of `rs` retains gives what replaying every commit ever appended gives. */
  ghost predicate RetainedSuffices(hash: Hasher, time: u64, rs: seq<Request>) {
    Replayed(BLANK, TypesOf(LogOf(hash, time, rs).commits)) == Replayed(BLANK, TypesOf(Everything(hash, time, rs)))
  }

  lemma {:induction false} GenesisFirst(hash: Hasher, time: u64, rs: seq<Request>)
    ensures Everything(hash, time, rs)[0].commitType == Genesis
  {
    EverythingStartsAtGenesis(hash, time, rs);
  }

  /** Replaying the genesis commit changes nothing, so trimming it alone does no harm. */
  lemma GenesisIsNeutral(ts: seq<CommitType>)
    requires ts != [] && ts[0] == Genesis
    ensures Replayed(BLANK, ts) == Replayed(BLANK, ts[1..])
  {
    assert ts == [Genesis] + ts[1..];
    ReplayAppend(BLANK, [Genesis], ts[1..]);
    ReplayOne(BLANK, Genesis);
  }

  lemma TypesOfSlice(cs: seq<Commit>, n: nat)
    requires n <= |cs|
    ensures TypesOf(cs[n..]) == TypesOf(cs)[n..]
  {
  }

  lemma RetainedSufficesUpTo(hash: Hasher, time: u64, rs: seq<Request>)
    requires |rs| <= MAX_COMMITLOG_ENTRIES
    ensures RetainedSuffices(hash, time, rs)
  {
    LogIsWindow(hash, time, rs);
    if |rs| == MAX_COMMITLOG_ENTRIES {
      var all := Everything(hash, time, rs);
      GenesisFirst(hash, time, rs);
      TypesOfSlice(all, 1);
      GenesisIsNeutral(TypesOf(all));
    }
  }

  /** A process is created and then exits over and over. */
  function CreateThenExit(n: nat): (rs: seq<Request>)
    ensures |rs| == n + 1 && rs[0].commitType == ProcessCreated(1, 0, [])
    ensures forall i :: 1 <= i <= n ==> rs[i].commitType == ProcessExited(1, 0)
  {
    if n == 0 then [Request(ProcessCreated(1, 0, []), None, 0)]
    else CreateThenExit(n - 1) + [Request(ProcessExited(1, 0), None, 0)]
  }

  /** Once the creation is trimmed, what is retained replays to an error. */
  lemma RetainedFails(hash: Hasher, time: u64, n: nat)
    requires n >= MAX_COMMITLOG_ENTRIES
    ensures Replayed(BLANK, TypesOf(LogOf(hash, time, CreateThenExit(n)).commits)).error == Some(ProcessNotFound(1))
  {
    var rs := CreateThenExit(n);
    var all, commits := Everything(hash, time, rs), LogOf(hash, time, rs).commits;
    LogIsWindow(hash, time, rs);
    EverythingRecordsRequests(hash, time, rs, |all| - MAX_COMMITLOG_ENTRIES - 1);
    var ts := TypesOf(commits);
    assert commits[0] == all[|all| - MAX_COMMITLOG_ENTRIES];
    assert ts[0] == ProcessExited(1, 0);
    FirstFails(ts);
  }

  lemma FirstFails(ts: seq<CommitType>)
    requires ts != [] && ts[0] == ProcessExited(1, 0)
    ensures Replayed(BLANK, ts).error == Some(ProcessNotFound(1))
  {
    assert ts == [ts[0]] + ts[1..];
    ReplayAppend(BLANK, [ts[0]], ts[1..]);
    ReplayOne(BLANK, ts[0]);
  }

  lemma TypesOfTrailSnoc(hash: Hasher, time: u64, rs: seq<Request>)
    requires rs != []
    ensures TypesOf(Everything(hash, time, rs)) ==
      TypesOf(Everything(hash, time, rs[..|rs| - 1])) + [rs[|rs| - 1].commitType]
  {
  }

  lemma ReplayOneMore(ts: seq<CommitType>, ct: CommitType)
    requires Replayed(BLANK, ts).error.None?
    ensures Replayed(BLANK, ts + [ct]) == Settle(Replayed(BLANK, ts).state, Apply(Replayed(BLANK, ts).state, ct))
  {
    assert (ts + [ct])[..|ts|] == ts;
  }

  /** Replay succeeds and knows process 1. */
  ghost predicate KnowsProcess(ts: seq<CommitType>) {
    Replayed(BLANK, ts).error.None? && 1 in Replayed(BLANK, ts).state.processes
  }

  /** The whole trail replays without error. */
  lemma {:induction false} WholeTrailReplays(hash: Hasher, time: u64, n: nat)
    ensures KnowsProcess(TypesOf(Everything(hash, time, CreateThenExit(n))))
  {
    var rs := CreateThenExit(n);
    TypesOfTrailSnoc(hash, time, rs);
    if n == 0 {
      CreationReplays(TypesOf(Everything(hash, time, [])));
      assert rs[..0] == [];
    } else {
      WholeTrailReplays(hash, time, n - 1);
      assert rs[..n] == CreateThenExit(n - 1);
      ExitReplays(TypesOf(Everything(hash, time, CreateThenExit(n - 1))));
    }
  }

  lemma CreationReplays(ts: seq<CommitType>)
    requires ts == [Genesis]
    ensures KnowsProcess(ts + [ProcessCreated(1, 0, [])])
  {
    ReplayOne(BLANK, Genesis);
    ReplayOneMore(ts, ProcessCreated(1, 0, []));
  }

  lemma ExitReplays(ts: seq<CommitType>)
    requires KnowsProcess(ts)
    ensures KnowsProcess(ts + [ProcessExited(1, 0)])
  {
    ReplayOneMore(ts, ProcessExited(1, 0));
  }

  lemma RetainedInsufficient(hash: Hasher, time: u64, n: nat)
    requires n >= MAX_COMMITLOG_ENTRIES
    ensures !RetainedSuffices(hash, time, CreateThenExit(n))
  {
    RetainedFails(hash, time, n);
    WholeTrailReplays(hash, time, n);
  }

  /** The log's promise, exactly: replaying what is retained reconstructs the state after every series of `n` appends
      if and only if `n` is at most 100000. */
  lemma RetainedSufficesExactly(hash: Hasher, time: u64, n: nat)
    ensures (forall rs: seq<Request> :: |rs| == n ==> RetainedSuffices(hash, time, rs)) <==> n <= 100000
  {
    if n <= MAX_COMMITLOG_ENTRIES {
      forall rs: seq<Request> | |rs| == n
        ensures RetainedSuffices(hash, time, rs)
      {
        RetainedSufficesUpTo(hash, time, rs);
      }
    } else {
      RetainedInsufficient(hash, time, n - 1);
    }
  }
}
