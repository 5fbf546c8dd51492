/** The commit log: a hash chain kept in a bounded window, and what a verified chain binds. */
module CommitLog {
  import opened Words
  import opened Common
  import opened Fnv
  import opened Commits

  const MAX_COMMITLOG_ENTRIES: nat := 100000

  /** How commits are hashed. The log relies only on the id itself not being hashed. */
  type Hasher = Commit -> CommitId

  ghost predicate IgnoresId(hash: Hasher) {
    forall c: Commit, id: CommitId :: hash(c.(id := id)) == hash(c)
  }

  datatype Log = Log(commits: seq<Commit>, nextSeq: nat, lastHash: CommitId)

  /** One call of `append`. */
  datatype Request = Request(commitType: CommitType, causedBy: Option<EventId>, time: u64)

  /** A commit whose id is computed from the rest of it. */
  function Sealed(hash: Hasher, prev: CommitId, seqNo: nat, time: u64, ct: CommitType, cause: Option<EventId>): Commit {
    var draft := Commit(ZERO, prev, seqNo, time, ct, cause);
    draft.(id := hash(draft))
  }

  function NewLog(hash: Hasher, time: u64): Log {
    var genesis := Sealed(hash, ZERO, 0, time, Genesis, None);
    Log([genesis], 1, genesis.id)
  }

  /** The last `n` elements. */
  function Latest<T>(s: seq<T>, n: nat): seq<T> {
    if |s| <= n then s else s[|s| - n..]
  }

  function Append(hash: Hasher, l: Log, r: Request): Log {
    var c := Sealed(hash, l.lastHash, l.nextSeq, r.time, r.commitType, r.causedBy);
    Log(Latest(l.commits + [c], MAX_COMMITLOG_ENTRIES), l.nextSeq + 1, c.id)
  }

  function AppendAll(hash: Hasher, l: Log, rs: seq<Request>): Log {
    if rs == [] then l else Append(hash, AppendAll(hash, l, rs[..|rs| - 1]), rs[|rs| - 1])
  }

  /** The log after a boot at `time` and a series of appends. */
  function LogOf(hash: Hasher, time: u64, rs: seq<Request>): Log {
    AppendAll(hash, NewLog(hash, time), rs)
  }

  // ---------------------------------------------------------------- integrity

  /** The `i`-th commit hashes to its id and names its predecessor, the first one naming `prev`. */
  ghost predicate LinkOk(hash: Hasher, prev: CommitId, cs: seq<Commit>, i: nat)
    requires i < |cs|
  {
    hash(cs[i]) == cs[i].id && cs[i].prev == if i == 0 then prev else cs[i - 1].id
  }

  ghost predicate Chained(hash: Hasher, prev: CommitId, cs: seq<Commit>) {
    forall i :: 0 <= i < |cs| ==> LinkOk(hash, prev, cs, i)
  }

  ghost predicate Verified(hash: Hasher, l: Log) {
    l.commits == [] || (Chained(hash, ZERO, l.commits) && l.commits[|l.commits| - 1].id == l.lastHash)
  }

  lemma ChainedSnoc(hash: Hasher, prev: CommitId, cs: seq<Commit>, c: Commit)
    requires Chained(hash, prev, cs) && hash(c) == c.id
    requires c.prev == if cs == [] then prev else cs[|cs| - 1].id
    ensures Chained(hash, prev, cs + [c])
  {
    forall i | 0 <= i < |cs| + 1
      ensures LinkOk(hash, prev, cs + [c], i)
    {
      if i < |cs| { assert LinkOk(hash, prev, cs, i); }
    }
  }

  lemma ChainedPrefix(hash: Hasher, prev: CommitId, cs: seq<Commit>, n: nat)
    requires n <= |cs| && Chained(hash, prev, cs)
    ensures Chained(hash, prev, cs[..n])
  {
    forall i | 0 <= i < n
      ensures LinkOk(hash, prev, cs[..n], i)
    {
      assert LinkOk(hash, prev, cs, i);
    }
  }

  /** A proper suffix of a chain from zero is itself one only if the commit before it has id zero. */
  lemma ChainedSuffix(hash: Hasher, all: seq<Commit>, dropped: nat)
    requires 0 < dropped < |all| && Chained(hash, ZERO, all)
    ensures Chained(hash, ZERO, all[dropped..]) <==> all[dropped - 1].id == ZERO
  {
    var cs := all[dropped..];
    assert LinkOk(hash, ZERO, all, dropped);
    if all[dropped - 1].id == ZERO {
      forall i | 0 <= i < |cs|
        ensures LinkOk(hash, ZERO, cs, i)
      {
        assert LinkOk(hash, ZERO, all, dropped + i);
      }
    } else {
      assert !LinkOk(hash, ZERO, cs, 0);
    }
  }

  // ---------------------------------------------------------------- the log without its bound

  /** Every commit ever appended, nothing trimmed. */
  function Everything(hash: Hasher, time: u64, rs: seq<Request>): (cs: seq<Commit>)
    ensures |cs| == |rs| + 1
  {
    if rs == [] then [Sealed(hash, ZERO, 0, time, Genesis, None)]
    else
      var earlier := Everything(hash, time, rs[..|rs| - 1]);
      var r := rs[|rs| - 1];
      earlier + [Sealed(hash, earlier[|earlier| - 1].id, |earlier|, r.time, r.commitType, r.causedBy)]
  }

  lemma {:induction false} EverythingIsChained(hash: Hasher, time: u64, rs: seq<Request>)
    requires IgnoresId(hash)
    ensures Chained(hash, ZERO, Everything(hash, time, rs))
  {
    if rs == [] {
      ChainedSnoc(hash, ZERO, [], Sealed(hash, ZERO, 0, time, Genesis, None));
    } else {
      var earlier, r := Everything(hash, time, rs[..|rs| - 1]), rs[|rs| - 1];
      EverythingIsChained(hash, time, rs[..|rs| - 1]);
      ChainedSnoc(hash, ZERO, earlier,
                  Sealed(hash, earlier[|earlier| - 1].id, |earlier|, r.time, r.commitType, r.causedBy));
    }
  }

  lemma {:induction false} EverythingIsNumbered(hash: Hasher, time: u64, rs: seq<Request>)
    ensures Consecutive(Everything(hash, time, rs), 0)
  {
    if rs != [] {
      EverythingIsNumbered(hash, time, rs[..|rs| - 1]);
    }
  }

  lemma {:induction false} EverythingRecordsRequests(hash: Hasher, time: u64, rs: seq<Request>, i: nat)
    requires i < |rs|
    ensures var c := Everything(hash, time, rs)[i + 1];
      c.commitType == rs[i].commitType && c.causedBy == rs[i].causedBy && c.timestamp == rs[i].time
  {
    if i < |rs| - 1 {
      EverythingRecordsRequests(hash, time, rs[..|rs| - 1], i);
    }
  }

  lemma LatestOfLatest<T>(s: seq<T>, x: T, n: nat)
    requires n > 0
    ensures Latest(Latest(s, n) + [x], n) == Latest(s + [x], n)
  {
  }

  /** After any number of appends the log holds exactly the latest 100000 commits of the unbounded log. */
  lemma {:induction false} LogIsWindow(hash: Hasher, time: u64, rs: seq<Request>)
    ensures var all := Everything(hash, time, rs);
      LogOf(hash, time, rs) == Log(Latest(all, 100000), |all|, all[|rs|].id)
  {
    if rs != [] {
      LogIsWindow(hash, time, rs[..|rs| - 1]);
      var earlier, r := Everything(hash, time, rs[..|rs| - 1]), rs[|rs| - 1];
      var c := Sealed(hash, earlier[|earlier| - 1].id, |earlier|, r.time, r.commitType, r.causedBy);
      LatestOfLatest(earlier, c, MAX_COMMITLOG_ENTRIES);
    }
  }

  /** The verifier accepts a log exactly when nothing has been trimmed, or the last trimmed commit
      happens to hash to 32 zero bytes. */
  lemma VerifiedExactlyUntrimmed(hash: Hasher, time: u64, rs: seq<Request>)
    requires IgnoresId(hash)
    ensures Verified(hash, LogOf(hash, time, rs)) <==>
      |rs| < 100000 || Everything(hash, time, rs)[|rs| - 100000].id == ZERO
  {
    LogIsWindow(hash, time, rs);
    EverythingIsChained(hash, time, rs);
    SuffixVerified(hash, Everything(hash, time, rs), LogOf(hash, time, rs));
  }

  lemma SuffixVerified(hash: Hasher, all: seq<Commit>, l: Log)
    requires all != [] && Chained(hash, ZERO, all)
    requires l.commits == Latest(all, MAX_COMMITLOG_ENTRIES) && l.lastHash == all[|all| - 1].id
    ensures Verified(hash, l) <==>
      |all| <= MAX_COMMITLOG_ENTRIES || all[|all| - MAX_COMMITLOG_ENTRIES - 1].id == ZERO
  {
    var dropped := |all| - MAX_COMMITLOG_ENTRIES;
    if dropped > 0 {
      assert l.commits == all[dropped..];
      ChainedSuffix(hash, all, dropped);
    } else {
      assert l.commits == all;
    }
    assert l.commits[|l.commits| - 1] == all[|all| - 1];
  }

  /** The genesis commit at time 0 is hashed from zero bytes alone, so it does not hash to zero. */
  lemma GenesisHashIsNotZero()
    ensures Sealed(Hash, ZERO, 0, 0, Genesis, None).id != ZERO
  {
    var draft := Commit(ZERO, ZERO, 0, 0, Genesis, None);
    GenesisBytesAreZero();
    ZeroBytesKeepNonZero(OFFSET, Encode(draft));
    NonZeroDigest(Fold(OFFSET, Encode(draft)));
  }

  lemma GenesisBytesAreZero()
    ensures AllZero(Encode(Commit(ZERO, ZERO, 0, 0, Genesis, None)))
  {
    LittleEndianOfZero(32);
    LittleEndianOfZero(8);
    var word: seq<byte> := LittleEndian(0, 8);
    var last: seq<byte> := [0] + [];
    AllZeroAppend(word, last);
    AllZeroAppend(word, word + last);
    AllZeroAppend(ZERO, word + (word + last));
  }

  lemma {:induction false} EverythingStartsAtGenesis(hash: Hasher, time: u64, rs: seq<Request>)
    ensures Everything(hash, time, rs)[0] == Sealed(hash, ZERO, 0, time, Genesis, None)
  {
    if rs != [] { EverythingStartsAtGenesis(hash, time, rs[..|rs| - 1]); }
  }

  /** Verification does reject: a log that starts at time 0 fails as soon as its genesis commit is trimmed,
      whatever was appended. */
  lemma FirstTrimIsRejected(rs: seq<Request>)
    requires |rs| == 100000
    ensures !Verified(Hash, LogOf(Hash, 0, rs))
  {
    CommitHashAdequate();
    VerifiedExactlyUntrimmed(Hash, 0, rs);
    EverythingStartsAtGenesis(Hash, 0, rs);
    GenesisHashIsNotZero();
  }

  // ---------------------------------------------------------------- what verification does not see

  ghost predicate IgnoresCause(hash: Hasher) {
    forall c: Commit, cause: Option<EventId> :: hash(c.(causedBy := cause)) == hash(c)
  }

  function WithCause(l: Log, i: nat, cause: Option<EventId>): Log
    requires i < |l.commits|
  {
    l.(commits := l.commits[i := l.commits[i].(causedBy := cause)])
  }

  lemma LinkIgnoresCause(hash: Hasher, l: Log, i: nat, cause: Option<EventId>, j: nat)
    requires IgnoresCause(hash) && i < |l.commits| && j < |l.commits|
    ensures LinkOk(hash, ZERO, WithCause(l, i, cause).commits, j) <==> LinkOk(hash, ZERO, l.commits, j)
  {
  }

  lemma VerifiedIgnoresCause(hash: Hasher, l: Log, i: nat, cause: Option<EventId>)
    requires IgnoresCause(hash) && i < |l.commits|
    ensures Verified(hash, WithCause(l, i, cause)) <==> Verified(hash, l)
  {
    var k := WithCause(l, i, cause);
    forall j | 0 <= j < |l.commits|
      ensures LinkOk(hash, ZERO, k.commits, j) <==> LinkOk(hash, ZERO, l.commits, j)
    {
      LinkIgnoresCause(hash, l, i, cause, j);
    }
    ChainsAlike(hash, l.commits, k.commits);
  }

  lemma ChainsAlike(hash: Hasher, a: seq<Commit>, b: seq<Commit>)
    requires |a| == |b| && forall j :: 0 <= j < |a| ==> (LinkOk(hash, ZERO, b, j) <==> LinkOk(hash, ZERO, a, j))
    ensures Chained(hash, ZERO, a) <==> Chained(hash, ZERO, b)
  {
  }

  /** The cause of a commit is recorded but not hashed: rewriting the cause of any commit of any log leaves the
      verdict as it was. */
  lemma CauseIsNotVerified(l: Log, i: nat, cause: Option<EventId>)
    requires i < |l.commits|
    ensures Verified(Hash, WithCause(l, i, cause)) <==> Verified(Hash, l)
  {
    forall c: Commit, other: Option<EventId>
      ensures Hash(c.(causedBy := other)) == Hash(c)
    {
      assert Encode(c.(causedBy := other)) == Encode(c);
    }
    VerifiedIgnoresCause(Hash, l, i, cause);
  }

  // ---------------------------------------------------------------- range queries

  function InRange(cs: seq<Commit>, start: nat, end: nat): seq<Commit> {
    if cs == [] then []
    else
      var last := cs[|cs| - 1];
      InRange(cs[..|cs| - 1], start, end) + if start <= last.seqNo < end then [last] else []
  }

  /** The elements at positions `start` to `end`, as far as they lie within the sequence. */
  function Between<T>(s: seq<T>, start: int, end: int): seq<T> {
    var a := if start < 0 then 0 else start;
    var b := if end > |s| then |s| else end;
    if a <= b then s[a..b] else []
  }

  lemma BetweenSnoc<T>(s: seq<T>, start: int, end: int)
    requires s != []
    ensures Between(s, start, end) ==
      Between(s[..|s| - 1], start, end) + if start <= |s| - 1 < end then [s[|s| - 1]] else []
  {
  }

  /** Sequence numbers count up from `first`. */
  ghost predicate Consecutive(cs: seq<Commit>, first: nat) {
    forall i :: 0 <= i < |cs| ==> cs[i].seqNo == first + i
  }

  lemma {:induction false} RangeOfConsecutive(cs: seq<Commit>, first: nat, start: nat, end: nat)
    requires Consecutive(cs, first)
    ensures InRange(cs, start, end) == Between(cs, start - first, end - first)
  {
    if cs != [] {
      var earlier, last := cs[..|cs| - 1], cs[|cs| - 1];
      assert Consecutive(earlier, first) && last.seqNo == first + |cs| - 1;
      RangeOfConsecutive(earlier, first, start, end);
      BetweenSnoc(cs, start - first, end - first);
    }
  }

  /** Positions `start` to `end` of `all`, as far as they are among its last `n` elements. */
  function WindowSlice<T>(all: seq<T>, n: nat, start: nat, end: nat): seq<T> {
    var first := if |all| <= n then 0 else |all| - n;
    Between(all[first..], start - first, end - first)
  }

  /** A range query returns the slice of the retained window that the sequence numbers name: the
      `i`-th commit ever appended has sequence number `i`. */
  lemma RangeIsSlice(hash: Hasher, time: u64, rs: seq<Request>, start: nat, end: nat)
    ensures InRange(LogOf(hash, time, rs).commits, start, end) ==
      WindowSlice(Everything(hash, time, rs), MAX_COMMITLOG_ENTRIES, start, end)
  {
    LogIsWindow(hash, time, rs);
    EverythingIsNumbered(hash, time, rs);
    RangeOfWindow(Everything(hash, time, rs), MAX_COMMITLOG_ENTRIES, start, end);
  }

  lemma RangeOfWindow(all: seq<Commit>, n: nat, start: nat, end: nat)
    requires Consecutive(all, 0)
    ensures InRange(Latest(all, n), start, end) == WindowSlice(all, n, start, end)
  {
    var first := if |all| <= n then 0 else |all| - n;
    assert Latest(all, n) == all[first..];
    RangeOfConsecutive(all[first..], first, start, end);
  }

  // ---------------------------------------------------------------- what a head binds

  ghost predicate WordSized(cs: seq<Commit>) {
    forall i :: 0 <= i < |cs| ==> cs[i].seqNo < TWO64
  }

  /** `input` determines the hash and, for word-sized sequence numbers, every hashed field. */
  ghost predicate HashesInput(hash: Hasher, input: Commit -> seq<byte>) {
    && (forall x, y :: input(x) == input(y) ==> hash(x) == hash(y))
    && (forall x, y :: input(x) == input(y) && x.seqNo < TWO64 && y.seqNo < TWO64 ==> SameHashedFields(x, y))
  }

  ghost predicate SameChain(a: seq<Commit>, b: seq<Commit>) {
    |a| == |b| && forall i :: 0 <= i < |a| ==> a[i].id == b[i].id && SameHashedFields(a[i], b[i])
  }

  /** Two commits of the logs with different hash inputs and the same hash. */
  ghost predicate Collides(hash: Hasher, input: Commit -> seq<byte>, a: seq<Commit>, b: seq<Commit>) {
    exists i, j :: 0 <= i < |a| && 0 <= j < |b| && input(a[i]) != input(b[j]) && hash(a[i]) == hash(b[j])
  }

  ghost predicate HitsZero(hash: Hasher, cs: seq<Commit>) {
    exists i :: 0 <= i < |cs| && hash(cs[i]) == ZERO
  }

  ghost predicate Bound(hash: Hasher, input: Commit -> seq<byte>, a: seq<Commit>, b: seq<Commit>) {
    SameChain(a, b) || Collides(hash, input, a, b) || HitsZero(hash, a) || HitsZero(hash, b)
  }

  /** One head binds one history: two chains that end in the same id agree on every hashed field of
      every commit, unless the logs themselves exhibit a collision or a commit hashing to zero. */
  lemma {:induction false} ChainBinding(hash: Hasher, input: Commit -> seq<byte>, a: seq<Commit>, b: seq<Commit>)
    requires HashesInput(hash, input)
    requires Chained(hash, ZERO, a) && Chained(hash, ZERO, b) && a != [] && b != []
    requires a[|a| - 1].id == b[|b| - 1].id
    requires WordSized(a) && WordSized(b)
    ensures Bound(hash, input, a, b)
  {
    var n, m := |a| - 1, |b| - 1;
    assert LinkOk(hash, ZERO, a, n) && LinkOk(hash, ZERO, b, m);
    if input(a[n]) == input(b[m]) {
      assert SameHashedFields(a[n], b[m]);
      if n == 0 && m == 0 {
        assert SameChain(a, b);
      } else if n == 0 {
        ZeroPredecessor(hash, b);
      } else if m == 0 {
        ZeroPredecessor(hash, a);
      } else {
        ChainedPrefix(hash, ZERO, a, n);
        ChainedPrefix(hash, ZERO, b, m);
        ChainBinding(hash, input, a[..n], b[..m]);
        BindingExtends(hash, input, a, b, n, m);
      }
    } else {
      assert Collides(hash, input, a, b);
    }
  }

  /** A commit that names zero as its predecessor, yet has one, follows a commit that hashes to zero. */
  lemma ZeroPredecessor(hash: Hasher, cs: seq<Commit>)
    requires Chained(hash, ZERO, cs) && |cs| >= 2 && cs[|cs| - 1].prev == ZERO
    ensures HitsZero(hash, cs)
  {
    var n := |cs| - 1;
    assert LinkOk(hash, ZERO, cs, n) && LinkOk(hash, ZERO, cs, n - 1);
  }

  lemma BindingExtends(hash: Hasher, input: Commit -> seq<byte>, a: seq<Commit>, b: seq<Commit>, n: nat, m: nat)
    requires n == |a| - 1 && m == |b| - 1 && Bound(hash, input, a[..n], b[..m])
    requires a[n].id == b[m].id && SameHashedFields(a[n], b[m])
    ensures Bound(hash, input, a, b)
  {
    if SameChain(a[..n], b[..m]) {
      SameChainExtends(a, b, n);
    } else if Collides(hash, input, a[..n], b[..m]) {
      CollidesExtends(hash, input, a, b, n, m);
    } else if HitsZero(hash, a[..n]) {
      HitsZeroExtends(hash, a, n);
    } else {
      HitsZeroExtends(hash, b, m);
    }
  }

  lemma SameChainExtends(a: seq<Commit>, b: seq<Commit>, n: nat)
    requires n == |a| - 1 == |b| - 1 && SameChain(a[..n], b[..n]) && a[n].id == b[n].id && SameHashedFields(a[n], b[n])
    ensures SameChain(a, b)
  {
    assert forall i :: 0 <= i < n ==> a[i] == a[..n][i] && b[i] == b[..n][i];
  }

  lemma CollidesExtends(hash: Hasher, input: Commit -> seq<byte>, a: seq<Commit>, b: seq<Commit>, n: nat, m: nat)
    requires n <= |a| && m <= |b| && Collides(hash, input, a[..n], b[..m])
    ensures Collides(hash, input, a, b)
  {
    var i, j :| 0 <= i < n && 0 <= j < m && input(a[..n][i]) != input(b[..m][j]) && hash(a[..n][i]) == hash(b[..m][j]);
    assert input(a[i]) != input(b[j]) && hash(a[i]) == hash(b[j]);
  }

  lemma HitsZeroExtends(hash: Hasher, cs: seq<Commit>, n: nat)
    requires n <= |cs| && HitsZero(hash, cs[..n])
    ensures HitsZero(hash, cs)
  {
    var i :| 0 <= i < n && hash(cs[..n][i]) == ZERO;
    assert hash(cs[i]) == ZERO;
  }

  /** The hash of the commit log meets these assumptions. */
  lemma CommitHashAdequate()
    ensures IgnoresId(Hash) && HashesInput(Hash, Encode)
  {
    forall x, y | Encode(x) == Encode(y) && x.seqNo < TWO64 && y.seqNo < TWO64
      ensures SameHashedFields(x, y)
    {
      EncodeInjective(x, y);
    }
    forall c: Commit, id: CommitId
      ensures Hash(c.(id := id)) == Hash(c)
    {
      assert Encode(c.(id := id)) == Encode(c);
    }
  }

  /** Two commit logs that pass verification with the same head hold the same history, or exhibit an
      FNV collision or a zero hash. An empty log passes with any head, so it binds nothing. */
  lemma HeadBindsLog(l: Log, k: Log)
    requires Verified(Hash, l) && Verified(Hash, k) && l.lastHash == k.lastHash
    requires l.commits != [] && k.commits != []
    requires WordSized(l.commits) && WordSized(k.commits)
    ensures Bound(Hash, Encode, l.commits, k.commits)
  {
    CommitHashAdequate();
    ChainBinding(Hash, Encode, l.commits, k.commits);
  }

  /** The head alone binds all that was ever appended, trimmed or not: two logs with one head were grown by the same
      commits, or those commits exhibit a collision or a zero hash. */
  lemma HeadBindsEverything(time: u64, rs: seq<Request>, time': u64, rs': seq<Request>)
    requires |rs| < TWO64 && |rs'| < TWO64
    requires LogOf(Hash, time, rs).lastHash == LogOf(Hash, time', rs').lastHash
    ensures Bound(Hash, Encode, Everything(Hash, time, rs), Everything(Hash, time', rs'))
  {
    CommitHashAdequate();
    EverythingReady(Hash, time, rs);
    EverythingReady(Hash, time', rs');
    ChainBinding(Hash, Encode, Everything(Hash, time, rs), Everything(Hash, time', rs'));
  }

  lemma EverythingReady(hash: Hasher, time: u64, rs: seq<Request>)
    requires IgnoresId(hash) && |rs| < TWO64
    ensures Chained(hash, ZERO, Everything(hash, time, rs)) && WordSized(Everything(hash, time, rs))
    ensures Everything(hash, time, rs)[|rs|].id == LogOf(hash, time, rs).lastHash
  {
    EverythingIsChained(hash, time, rs);
    EverythingIsNumbered(hash, time, rs);
    LogIsWindow(hash, time, rs);
  }

  lemma BrokenLink(hash: Hasher, l: Log, i: nat)
    requires i < |l.commits| && !LinkOk(hash, ZERO, l.commits, i)
    ensures !Verified(hash, l)
  {
  }

  ghost predicate ChainedUpTo(hash: Hasher, cs: seq<Commit>, n: nat)
    requires n <= |cs|
  {
    forall j :: 0 <= j < n ==> LinkOk(hash, ZERO, cs, j)
  }

  lemma ChainGrows(hash: Hasher, cs: seq<Commit>, n: nat)
    requires n < |cs| && ChainedUpTo(hash, cs, n) && LinkOk(hash, ZERO, cs, n)
    ensures ChainedUpTo(hash, cs, n + 1)
  {
  }

  lemma WholeChain(hash: Hasher, l: Log)
    requires l.commits != [] && ChainedUpTo(hash, l.commits, |l.commits|)
    ensures Verified(hash, l) <==> l.commits[|l.commits| - 1].id == l.lastHash
  {
  }

  // ---------------------------------------------------------------- the log object

  class CommitLog {
    var commits: seq<Commit>
    var nextSeq: nat
    var lastHash: CommitId

    function Value(): Log
      reads this
    {
      Log(commits, nextSeq, lastHash)
    }

    constructor (time: u64)
      ensures Value() == NewLog(Hash, time)
    {
      var genesis := Commit(ZERO, ZERO, 0, time, Genesis, None);
      var id := ComputeHash(genesis);
      commits := [genesis.(id := id)];
      nextSeq := 1;
      lastHash := id;
    }

    method AppendCommit(commitType: CommitType, causedBy: Option<EventId>, time: u64) returns (id: CommitId)
      modifies this
      ensures Value() == Append(Hash, old(Value()), Request(commitType, causedBy, time))
      ensures id == lastHash
    {
      var draft := Commit(ZERO, lastHash, nextSeq, time, commitType, causedBy);
      id := ComputeHash(draft);
      lastHash := id;
      nextSeq := nextSeq + 1;
      commits := commits + [draft.(id := id)];
      TrimIfNeeded();
    }

    method TrimIfNeeded()
      modifies this`commits
      ensures commits == Latest(old(commits), MAX_COMMITLOG_ENTRIES)
    {
      if |commits| > MAX_COMMITLOG_ENTRIES {
        var drain := |commits| - MAX_COMMITLOG_ENTRIES;
        commits := commits[drain..];
      }
    }

    method VerifyLink(i: nat, expected: CommitId) returns (ok: bool)
      requires i < |commits| && expected == if i == 0 then ZERO else commits[i - 1].id
      ensures ok <==> LinkOk(Hash, ZERO, commits, i)
    {
      if commits[i].prev != expected {
        return false;
      }
      var computed := ComputeHash(commits[i]);
      ok := computed == commits[i].id;
    }

    /** The loop: the first commit that breaks the chain, and the predecessor id expected there. */
    method FirstBroken() returns (i: nat, expected: CommitId)
      ensures i <= |commits| && ChainedUpTo(Hash, commits, i)
      ensures i < |commits| ==> !LinkOk(Hash, ZERO, commits, i)
      ensures expected == if i == 0 then ZERO else commits[i - 1].id
    {
      i, expected := 0, ZERO;
      while i < |commits|
        invariant i <= |commits| && ChainedUpTo(Hash, commits, i)
        invariant expected == if i == 0 then ZERO else commits[i - 1].id
      {
        var ok := VerifyLink(i, expected);
        if !ok {
          return;
        }
        ChainGrows(Hash, commits, i);
        expected := commits[i].id;
        i := i + 1;
      }
    }

    method VerifyIntegrity() returns (intact: bool)
      ensures intact <==> Verified(Hash, Value())
    {
      if commits == [] {
        return true;
      }
      var i, expected := FirstBroken();
      if i < |commits| {
        BrokenLink(Hash, Value(), i);
        return false;
      }
      WholeChain(Hash, Value());
      intact := expected == lastHash;
    }
  }
}
