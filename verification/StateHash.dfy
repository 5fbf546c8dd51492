/** The canonical state hash: the byte stream it absorbs, and that the stream determines the state. */
module StateHash {
  import opened Words
  import opened Tables
  import opened Fnv
  import opened Commits
  import opened Replay

  /** A table as the list of its entries in key order. */
  function Entries<V>(m: map<nat, V>): (es: seq<(nat, V)>)
    ensures |es| == |m.Keys|
  {
    var ks := SortedKeys(m.Keys);
    seq(|ks|, i requires 0 <= i < |ks| => assert ks[i] in ks; (ks[i], m[ks[i]]))
  }

  function Concat<T>(code: T -> seq<byte>, xs: seq<T>): seq<byte> {
    if xs == [] then [] else Concat(code, xs[..|xs| - 1]) + code(xs[|xs| - 1])
  }

  /** A list is its length followed by its elements. */
  function Listed<T>(code: T -> seq<byte>, xs: seq<T>): seq<byte> {
    LittleEndian(|xs|, 8) + Concat(code, xs)
  }

  function StatusByte(s: Status): byte {
    match s
    case Running => 0
    case Blocked => 1
    case Zombie => 2
  }

  function ProcCode(e: (nat, Proc)): seq<byte> {
    LittleEndian(e.0, 8) + (LittleEndian(|e.1.name|, 8) + (e.1.name + [StatusByte(e.1.status)]))
  }

  function CapCode(e: (nat, Cap)): seq<byte> {
    LittleEndian(e.0, 4) + (Bytes8(e.1.id) + ([e.1.objectType.ToByte()] + (Bytes8(e.1.objectId) +
      ([e.1.permissions.ToByte()] + (Bytes4(e.1.generation) + Bytes8(e.1.expiresAt))))))
  }

  function SlotsOf(space: Space): map<u32, Cap> { space.slots }

  function SlotsCode(e: (nat, map<u32, Cap>)): seq<byte> {
    LittleEndian(e.0, 8) + Listed(CapCode, Entries(e.1))
  }

  function OwnerCode(e: (nat, u64)): seq<byte> {
    LittleEndian(e.0, 8) + Bytes8(e.1)
  }

  function Stream(s: Replica): seq<byte> {
    Listed(ProcCode, Entries(s.processes)) +
    (Listed(SlotsCode, Entries(Image(s.capSpaces, SlotsOf))) + Listed(OwnerCode, Entries(s.endpoints)))
  }

  function StateDigest(s: Replica): Digest {
    Expand(Fold(OFFSET, Stream(s)))
  }

  // ---------------------------------------------------------------- where each field lies

  lemma SevenParts(a: seq<byte>, b: seq<byte>, c: seq<byte>, d: seq<byte>, e: seq<byte>, f: seq<byte>, g: seq<byte>)
    requires |a| == 4 && |b| == 8 && |c| == 1 && |d| == 8 && |e| == 1 && |f| == 4 && |g| == 8
    ensures var s := a + (b + (c + (d + (e + (f + g)))));
      && |s| == 34 && s[..4] == a && s[4..12] == b && s[12..13] == c && s[13..21] == d && s[21..22] == e
      && s[22..26] == f && s[26..34] == g
  {
  }

  /** A capability in the stream: slot, id, type, object, rights, generation and expiry at fixed places. */
  lemma CapLayout(slot: u32, c: Cap)
    ensures var code := CapCode((slot, c));
      && |code| == 34 && Word4(code[..4]) == slot && Word8(code[4..12]) == c.id
      && code[12..13] == [c.objectType.ToByte()] && Word8(code[13..21]) == c.objectId
      && code[21..22] == [c.permissions.ToByte()] && Word4(code[22..26]) == c.generation
      && Word8(code[26..34]) == c.expiresAt
  {
    SevenParts(Bytes4(slot), Bytes8(c.id), [c.objectType.ToByte()], Bytes8(c.objectId), [c.permissions.ToByte()],
      Bytes4(c.generation), Bytes8(c.expiresAt));
    Word4Reads(slot);
    Word8Reads(c.id);
    Word8Reads(c.objectId);
    Word4Reads(c.generation);
    Word8Reads(c.expiresAt);
  }

  /** An endpoint in the stream: its id, then its owner. */
  lemma OwnerLayout(e: u64, owner: u64)
    ensures var code := OwnerCode((e, owner));
      |code| == 16 && Word8(code[..8]) == e && Word8(code[8..16]) == owner
  {
    var code := OwnerCode((e, owner));
    assert code[..8] == Bytes8(e) && code[8..16] == Bytes8(owner);
    Word8Reads(e);
    Word8Reads(owner);
  }

  /** A process in the stream: pid, length of the name, name, and a last byte 0, 1 or 2 for running, blocked, zombie. */
  lemma ProcLayout(pid: u64, p: Proc)
    requires |p.name| < TWO64
    ensures var code := ProcCode((pid, p));
      && |code| == |p.name| + 17 && Word8(code[..8]) == pid && Word8(code[8..16]) == |p.name|
      && code[16..16 + |p.name|] == p.name
      && code[16 + |p.name|] == (if p.status == Running then 0 else if p.status == Blocked then 1 else 2)
  {
    Word8Reads(pid);
    Word8Reads(|p.name|);
    ProcParts(Bytes8(pid), Bytes8(|p.name|), p.name, StatusByte(p.status));
  }

  lemma ProcParts(a: seq<byte>, b: seq<byte>, name: seq<byte>, last: byte)
    requires |a| == |b| == 8
    ensures var s := a + (b + (name + [last]));
      && |s| == |name| + 17 && s[..8] == a && s[8..16] == b && s[16..16 + |name|] == name && s[16 + |name|] == last
  {
  }

  /** The stream opens with the number of processes, and closes with the endpoints. */
  lemma StreamLayout(s: Replica)
    requires |s.processes.Keys| < TWO64
    ensures |Stream(s)| >= 24 && Word8(Stream(s)[..8]) == |s.processes.Keys|
    ensures var tail := Listed(OwnerCode, Entries(s.endpoints));
      |tail| <= |Stream(s)| && Stream(s)[|Stream(s)| - |tail|..] == tail
  {
    var spaces := Listed(SlotsCode, Entries(Image(s.capSpaces, SlotsOf)));
    var tail := Listed(OwnerCode, Entries(s.endpoints));
    StreamParts(s);
    AtLeastEight(SlotsCode, Entries(Image(s.capSpaces, SlotsOf)));
    AtLeastEight(OwnerCode, Entries(s.endpoints));
    Framed(Stream(s), |s.processes.Keys|, Concat(ProcCode, Entries(s.processes)), spaces, tail);
  }

  lemma Framed(stream: seq<byte>, n: u64, procs: seq<byte>, spaces: seq<byte>, tail: seq<byte>)
    requires stream == (LittleEndian(n, 8) + procs) + (spaces + tail) && |spaces| >= 8 && |tail| >= 8
    ensures |stream| >= 24 && Word8(stream[..8]) == n && stream[|stream| - |tail|..] == tail
  {
    Word8Reads(n);
    Ends(LittleEndian(n, 8), procs, spaces, tail);
  }

  lemma StreamParts(s: Replica)
    ensures Stream(s) == (LittleEndian(|s.processes.Keys|, 8) + Concat(ProcCode, Entries(s.processes))) +
      (Listed(SlotsCode, Entries(Image(s.capSpaces, SlotsOf))) + Listed(OwnerCode, Entries(s.endpoints)))
  {
  }

  lemma AtLeastEight<T>(code: T -> seq<byte>, xs: seq<T>)
    ensures |Listed(code, xs)| >= 8
  {
  }

  lemma Ends(a: seq<byte>, b: seq<byte>, c: seq<byte>, d: seq<byte>)
    ensures var s := (a + b) + (c + d); s[..|a|] == a && s[|s| - |d|..] == d
  {
  }

  // ---------------------------------------------------------------- unique decoding

  /** Codes that can be told apart whatever follows them. */
  ghost predicate PrefixFree<T(!new)>(code: T -> seq<byte>, valid: T -> bool) {
    forall x, y, r, t :: valid(x) && valid(y) && code(x) + r == code(y) + t ==> x == y && r == t
  }

  lemma {:induction false} ConcatCons<T>(code: T -> seq<byte>, xs: seq<T>)
    requires xs != []
    ensures Concat(code, xs) == code(xs[0]) + Concat(code, xs[1..])
  {
    if |xs| == 1 {
      assert xs[..0] == [] && xs[1..] == [];
    } else {
      var front, rest := xs[..|xs| - 1], xs[1..];
      ConcatCons(code, front);
      assert front[1..] == rest[..|rest| - 1] && rest[|rest| - 1] == xs[|xs| - 1];
      AppendAssoc(code(xs[0]), Concat(code, front[1..]), code(xs[|xs| - 1]));
    }
  }

  lemma {:induction false} ConcatUnique<T(!new)>(code: T -> seq<byte>, valid: T -> bool, xs: seq<T>, ys: seq<T>,
                                                 r: seq<byte>, t: seq<byte>)
    requires PrefixFree(code, valid) && |xs| == |ys|
    requires forall i :: 0 <= i < |xs| ==> valid(xs[i]) && valid(ys[i])
    requires Concat(code, xs) + r == Concat(code, ys) + t
    ensures xs == ys && r == t
  {
    if xs == [] {
      assert [] + r == r && [] + t == t;
    } else {
      ConcatCons(code, xs);
      ConcatCons(code, ys);
      var xr, yt := Concat(code, xs[1..]) + r, Concat(code, ys[1..]) + t;
      AppendAssoc(code(xs[0]), Concat(code, xs[1..]), r);
      AppendAssoc(code(ys[0]), Concat(code, ys[1..]), t);
      assert code(xs[0]) + xr == code(ys[0]) + yt;
      ConcatUnique(code, valid, xs[1..], ys[1..], r, t);
      assert xs == [xs[0]] + xs[1..] && ys == [ys[0]] + ys[1..];
    }
  }

  lemma WordUnique(x: nat, y: nat, n: nat, r: seq<byte>, t: seq<byte>)
    requires x < Pow256(n) && y < Pow256(n)
    requires LittleEndian(x, n) + r == LittleEndian(y, n) + t
    ensures x == y && r == t
  {
    SplitEqual(LittleEndian(x, n), LittleEndian(y, n), r, t);
    LittleEndianInjective(x, y, n);
  }

  lemma ListedUnique<T(!new)>(code: T -> seq<byte>, valid: T -> bool, xs: seq<T>, ys: seq<T>,
                              r: seq<byte>, t: seq<byte>)
    requires PrefixFree(code, valid) && |xs| < TWO64 && |ys| < TWO64
    requires forall i :: 0 <= i < |xs| ==> valid(xs[i])
    requires forall i :: 0 <= i < |ys| ==> valid(ys[i])
    requires Listed(code, xs) + r == Listed(code, ys) + t
    ensures xs == ys && r == t
  {
    WordSizes();
    var cx, cy := Concat(code, xs), Concat(code, ys);
    AppendAssoc(LittleEndian(|xs|, 8), cx, r);
    AppendAssoc(LittleEndian(|ys|, 8), cy, t);
    WordUnique(|xs|, |ys|, 8, cx + r, cy + t);
    ConcatUnique(code, valid, xs, ys, r, t);
  }

  lemma EntryAt<V>(m: map<nat, V>, i: nat)
    requires i < |Entries(m)|
    ensures var ks := SortedKeys(m.Keys);
      |ks| == |Entries(m)| && ks[i] in m && Entries(m)[i] == (ks[i], m[ks[i]])
  {
    var ks := SortedKeys(m.Keys);
    assert ks[i] in ks;
  }

  lemma EntriesDetermine<V>(m: map<nat, V>, m': map<nat, V>)
    requires Entries(m) == Entries(m')
    ensures m == m'
  {
    forall k | k in m
      ensures k in m' && m[k] == m'[k]
    {
      EntryOf(m, m', k);
    }
    forall k | k in m'
      ensures k in m
    {
      EntryOf(m', m, k);
    }
  }

  lemma EntryOf<V>(m: map<nat, V>, m': map<nat, V>, k: nat)
    requires k in m && Entries(m) == Entries(m')
    ensures k in m' && m[k] == m'[k]
  {
    var ks, ks' := SortedKeys(m.Keys), SortedKeys(m'.Keys);
    assert k in ks;
    var i :| 0 <= i < |ks| && ks[i] == k;
    assert Entries(m)[i] == (k, m[k]);
    assert ks'[i] in ks';
    assert Entries(m')[i] == (ks'[i], m'[ks'[i]]);
  }

  predicate ProcValid(e: (nat, Proc)) { e.0 < TWO64 && |e.1.name| < TWO64 }
  predicate CapValid(e: (nat, Cap)) { e.0 < TWO32 }
  predicate SlotsValid(e: (nat, map<u32, Cap>)) { e.0 < TWO64 && |e.1.Keys| < TWO64 }
  predicate OwnerValid(e: (nat, u64)) { e.0 < TWO64 }

  lemma ProcPrefixFree()
    ensures PrefixFree(ProcCode, ProcValid)
  {
    forall x, y, r, t | ProcValid(x) && ProcValid(y) && ProcCode(x) + r == ProcCode(y) + t
      ensures x == y && r == t
    {
      ProcUnique(x, y, r, t);
    }
  }

  lemma ProcNested(x: (nat, Proc), r: seq<byte>)
    ensures ProcCode(x) + r ==
      LittleEndian(x.0, 8) + (LittleEndian(|x.1.name|, 8) + (x.1.name + ([StatusByte(x.1.status)] + r)))
  {
    var status := [StatusByte(x.1.status)];
    var named := x.1.name + status;
    AppendAssoc(x.1.name, status, r);
    AppendAssoc(LittleEndian(|x.1.name|, 8), named, r);
    AppendAssoc(LittleEndian(x.0, 8), LittleEndian(|x.1.name|, 8) + named, r);
  }

  lemma ProcUnique(x: (nat, Proc), y: (nat, Proc), r: seq<byte>, t: seq<byte>)
    requires ProcValid(x) && ProcValid(y) && ProcCode(x) + r == ProcCode(y) + t
    ensures x == y && r == t
  {
    WordSizes();
    var n, m := x.1.name, y.1.name;
    var sx, sy := [StatusByte(x.1.status)] + r, [StatusByte(y.1.status)] + t;
    ProcNested(x, r);
    ProcNested(y, t);
    WordUnique(x.0, y.0, 8, LittleEndian(|n|, 8) + (n + sx), LittleEndian(|m|, 8) + (m + sy));
    WordUnique(|n|, |m|, 8, n + sx, m + sy);
    SplitEqual(n, m, sx, sy);
    Take1(StatusByte(x.1.status), StatusByte(y.1.status), r, t);
  }

  lemma CapPrefixFree()
    ensures PrefixFree(CapCode, CapValid)
  {
    forall x, y, r, t | CapValid(x) && CapValid(y) && CapCode(x) + r == CapCode(y) + t
      ensures x == y && r == t
    {
      CapUnique(x, y, r, t);
    }
  }

  /** The bytes of one capability entry with whatever follows, one field at a time. */
  function CapTail6(c: Cap, r: seq<byte>): seq<byte> { Bytes8(c.expiresAt) + r }
  function CapTail5(c: Cap, r: seq<byte>): seq<byte> { Bytes4(c.generation) + CapTail6(c, r) }
  function CapTail4(c: Cap, r: seq<byte>): seq<byte> { [c.permissions.ToByte()] + CapTail5(c, r) }
  function CapTail3(c: Cap, r: seq<byte>): seq<byte> { Bytes8(c.objectId) + CapTail4(c, r) }
  function CapTail2(c: Cap, r: seq<byte>): seq<byte> { [c.objectType.ToByte()] + CapTail3(c, r) }
  function CapTail1(c: Cap, r: seq<byte>): seq<byte> { Bytes8(c.id) + CapTail2(c, r) }

  lemma CapNested(e: (nat, Cap), r: seq<byte>)
    ensures CapCode(e) + r == LittleEndian(e.0, 4) + CapTail1(e.1, r)
  {
    var c := e.1;
    var g := Bytes4(c.generation) + Bytes8(c.expiresAt);
    var p := [c.permissions.ToByte()] + g;
    var o := Bytes8(c.objectId) + p;
    var ty := [c.objectType.ToByte()] + o;
    AppendAssoc(Bytes4(c.generation), Bytes8(c.expiresAt), r);
    AppendAssoc([c.permissions.ToByte()], g, r);
    AppendAssoc(Bytes8(c.objectId), p, r);
    AppendAssoc([c.objectType.ToByte()], o, r);
    AppendAssoc(Bytes8(c.id), ty, r);
    AppendAssoc(LittleEndian(e.0, 4), Bytes8(c.id) + ty, r);
  }

  lemma CapUnique(x: (nat, Cap), y: (nat, Cap), r: seq<byte>, t: seq<byte>)
    requires CapValid(x) && CapValid(y) && CapCode(x) + r == CapCode(y) + t
    ensures x == y && r == t
  {
    WordSizes();
    CapNested(x, r);
    CapNested(y, t);
    var a, b := x.1, y.1;
    WordUnique(x.0, y.0, 4, CapTail1(a, r), CapTail1(b, t));
    Take8(a.id, b.id, CapTail2(a, r), CapTail2(b, t));
    Take1(a.objectType.ToByte(), b.objectType.ToByte(), CapTail3(a, r), CapTail3(b, t));
    Take8(a.objectId, b.objectId, CapTail4(a, r), CapTail4(b, t));
    Take1(a.permissions.ToByte(), b.permissions.ToByte(), CapTail5(a, r), CapTail5(b, t));
    Take4(a.generation, b.generation, CapTail6(a, r), CapTail6(b, t));
    Take8(a.expiresAt, b.expiresAt, r, t);
    PermissionsFromByte(a.permissions, b.permissions);
  }

  lemma SlotsPrefixFree()
    ensures PrefixFree(SlotsCode, SlotsValid)
  {
    forall x, y, r, t | SlotsValid(x) && SlotsValid(y) && SlotsCode(x) + r == SlotsCode(y) + t
      ensures x == y && r == t
    {
      SlotsUnique(x, y, r, t);
    }
  }

  lemma SlotsUnique(x: (nat, map<u32, Cap>), y: (nat, map<u32, Cap>), r: seq<byte>, t: seq<byte>)
    requires SlotsValid(x) && SlotsValid(y) && SlotsCode(x) + r == SlotsCode(y) + t
    ensures x == y && r == t
  {
    WordSizes();
    var lx, ly := Listed(CapCode, Entries(x.1)), Listed(CapCode, Entries(y.1));
    AppendAssoc(LittleEndian(x.0, 8), lx, r);
    AppendAssoc(LittleEndian(y.0, 8), ly, t);
    WordUnique(x.0, y.0, 8, lx + r, ly + t);
    CapPrefixFree();
    SlotEntriesValid(x.1);
    SlotEntriesValid(y.1);
    ListedUnique(CapCode, CapValid, Entries(x.1), Entries(y.1), r, t);
    EntriesDetermine(x.1, y.1);
  }

  lemma SlotEntriesValid(m: map<u32, Cap>)
    ensures forall i :: 0 <= i < |Entries(m)| ==> CapValid(Entries(m)[i])
  {
    var ks := SortedKeys(m.Keys);
    forall i | 0 <= i < |Entries(m)|
      ensures CapValid(Entries(m)[i])
    {
      assert ks[i] in ks;
    }
  }

  lemma OwnerPrefixFree()
    ensures PrefixFree(OwnerCode, OwnerValid)
  {
    forall x, y, r, t | OwnerValid(x) && OwnerValid(y) && OwnerCode(x) + r == OwnerCode(y) + t
      ensures x == y && r == t
    {
      WordSizes();
      AppendAssoc(LittleEndian(x.0, 8), Bytes8(x.1), r);
      AppendAssoc(LittleEndian(y.0, 8), Bytes8(y.1), t);
      WordUnique(x.0, y.0, 8, Bytes8(x.1) + r, Bytes8(y.1) + t);
      Take8(x.1, y.1, r, t);
    }
  }

  /** Every length fits the 64-bit word it is written as. */
  ghost predicate Sized(s: Replica) {
    && |s.processes.Keys| < TWO64 && |s.capSpaces.Keys| < TWO64 && |s.endpoints.Keys| < TWO64
    && (forall p :: p in s.processes ==> |s.processes[p].name| < TWO64)
    && (forall p :: p in s.capSpaces ==> |s.capSpaces[p].slots.Keys| < TWO64)
  }

  /** The same processes with the same names and states, the same capability in every slot, and the same
      owner of every endpoint. */
  ghost predicate SameHashedState(s: Replica, t: Replica) {
    && s.processes == t.processes && s.endpoints == t.endpoints
    && Image(s.capSpaces, SlotsOf) == Image(t.capSpaces, SlotsOf)
  }

  lemma EntriesValid(s: Replica)
    requires Sized(s)
    ensures forall i :: 0 <= i < |Entries(s.processes)| ==> ProcValid(Entries(s.processes)[i])
    ensures forall i :: 0 <= i < |Entries(s.endpoints)| ==> OwnerValid(Entries(s.endpoints)[i])
  {
    var ps, es := SortedKeys(s.processes.Keys), SortedKeys(s.endpoints.Keys);
    forall i | 0 <= i < |Entries(s.processes)|
      ensures ProcValid(Entries(s.processes)[i])
    {
      assert ps[i] in ps;
    }
    forall i | 0 <= i < |Entries(s.endpoints)|
      ensures OwnerValid(Entries(s.endpoints)[i])
    {
      assert es[i] in es;
    }
  }

  lemma SpaceEntriesValid(s: Replica)
    requires Sized(s)
    ensures var es := Entries(Image(s.capSpaces, SlotsOf));
      |es| < TWO64 && forall i :: 0 <= i < |es| ==> SlotsValid(es[i])
  {
    var m := Image(s.capSpaces, SlotsOf);
    assert m.Keys == s.capSpaces.Keys;
    forall i | 0 <= i < |Entries(m)|
      ensures SlotsValid(Entries(m)[i])
    {
      EntryAt(m, i);
    }
  }

  /** The hashed byte stream can be decoded in only one way. */
  lemma StreamDetermines(s: Replica, t: Replica)
    requires Sized(s) && Sized(t) && Stream(s) == Stream(t)
    ensures SameHashedState(s, t)
  {
    var ps, pt := Entries(s.processes), Entries(t.processes);
    var cs, ct := Entries(Image(s.capSpaces, SlotsOf)), Entries(Image(t.capSpaces, SlotsOf));
    var os, ot := Entries(s.endpoints), Entries(t.endpoints);
    EntriesValid(s);
    EntriesValid(t);
    SpaceEntriesValid(s);
    SpaceEntriesValid(t);
    ProcPrefixFree();
    ListedUnique(ProcCode, ProcValid, ps, pt, Listed(SlotsCode, cs) + Listed(OwnerCode, os),
      Listed(SlotsCode, ct) + Listed(OwnerCode, ot));
    SlotsPrefixFree();
    ListedUnique(SlotsCode, SlotsValid, cs, ct, Listed(OwnerCode, os), Listed(OwnerCode, ot));
    OwnerPrefixFree();
    assert Listed(OwnerCode, os) + [] == Listed(OwnerCode, ot) + [];
    ListedUnique(OwnerCode, OwnerValid, os, ot, [], []);
    EntriesDetermine(s.processes, t.processes);
    EntriesDetermine(Image(s.capSpaces, SlotsOf), Image(t.capSpaces, SlotsOf));
    EntriesDetermine(s.endpoints, t.endpoints);
  }

  /** Equal state hashes mean equal hashed state, or two different streams that FNV folds to one word. */
  lemma DigestBinds(s: Replica, t: Replica)
    requires Sized(s) && Sized(t) && StateDigest(s) == StateDigest(t)
    ensures SameHashedState(s, t) || (Stream(s) != Stream(t) && Fold(OFFSET, Stream(s)) == Fold(OFFSET, Stream(t)))
  {
    ExpandInjective(Fold(OFFSET, Stream(s)), Fold(OFFSET, Stream(t)));
    if Stream(s) == Stream(t) { StreamDetermines(s, t); }
  }

  // ---------------------------------------------------------------- an exit always shows

  lemma {:induction false} ConcatAppend<T>(code: T -> seq<byte>, xs: seq<T>, ys: seq<T>)
    ensures Concat(code, xs + ys) == Concat(code, xs) + Concat(code, ys)
  {
    if ys == [] {
      assert xs + ys == xs;
    } else {
      ConcatAppend(code, xs, ys[..|ys| - 1]);
      assert (xs + ys)[..|xs + ys| - 1] == xs + ys[..|ys| - 1];
    }
  }

  lemma ConcatSnoc<T>(code: T -> seq<byte>, xs: seq<T>, i: nat)
    requires i < |xs|
    ensures Concat(code, xs[..i + 1]) == Concat(code, xs[..i]) + code(xs[i])
  {
    assert xs[..i + 1][..i] == xs[..i];
  }

  /** A process's code up to its state byte. */
  function ProcHead(e: (nat, Proc)): seq<byte> {
    LittleEndian(e.0, 8) + (LittleEndian(|e.1.name|, 8) + e.1.name)
  }

  lemma ProcCodeSplit(e: (nat, Proc))
    ensures ProcCode(e) == ProcHead(e) + [StatusByte(e.1.status)]
  {
  }

  /** The stream around the state byte of the `i`-th process. */
  lemma StreamAround(es: seq<(nat, Proc)>, i: nat, rest: seq<byte>)
    requires i < |es|
    ensures Listed(ProcCode, es) + rest ==
      (LittleEndian(|es|, 8) + Concat(ProcCode, es[..i]) + ProcHead(es[i])) + [StatusByte(es[i].1.status)] +
      (Concat(ProcCode, es[i + 1..]) + rest)
  {
    ConcatAround(ProcCode, es, i);
    ProcCodeSplit(es[i]);
    Around(LittleEndian(|es|, 8), Concat(ProcCode, es[..i]), ProcHead(es[i]), [StatusByte(es[i].1.status)],
      Concat(ProcCode, es[i + 1..]), rest);
  }

  lemma ConcatAround<T>(code: T -> seq<byte>, xs: seq<T>, i: nat)
    requires i < |xs|
    ensures Concat(code, xs) == Concat(code, xs[..i]) + code(xs[i]) + Concat(code, xs[i + 1..])
  {
    assert xs == xs[..i + 1] + xs[i + 1..];
    ConcatAppend(code, xs[..i + 1], xs[i + 1..]);
    ConcatSnoc(code, xs, i);
  }

  lemma Around<T>(n: seq<T>, a: seq<T>, h: seq<T>, x: seq<T>, b: seq<T>, rest: seq<T>)
    ensures n + (a + (h + x) + b) + rest == (n + a + h) + x + (b + rest)
  {
  }

  lemma BuriedEntries(m: map<u64, Proc>, pid: u64) returns (i: nat)
    requires pid in m
    ensures i < |Entries(m)| && Entries(m)[i] == (pid, m[pid])
    ensures Entries(m[pid := m[pid].(status := Zombie)]) == Entries(m)[i := (pid, m[pid].(status := Zombie))]
  {
    var v := m[pid].(status := Zombie);
    i := IndexOf(m, pid);
    UpdatedEntries(m, pid, v, i);
  }

  lemma IndexOf<V>(m: map<nat, V>, k: nat) returns (i: nat)
    requires k in m
    ensures i < |Entries(m)| && Entries(m)[i] == (k, m[k])
  {
    var ks := SortedKeys(m.Keys);
    assert k in ks;
    i :| 0 <= i < |ks| && ks[i] == k;
    EntryAt(m, i);
  }

  lemma UpdatedEntries<V>(m: map<nat, V>, k: nat, v: V, i: nat)
    requires k in m && i < |Entries(m)| && Entries(m)[i] == (k, m[k])
    ensures Entries(m[k := v]) == Entries(m)[i := (k, v)]
  {
    assert m[k := v].Keys == m.Keys;
    forall j | 0 <= j < |Entries(m)|
      ensures Entries(m[k := v])[j] == if j == i then (k, v) else Entries(m)[j]
    {
      UpdatedEntry(m, k, v, i, j);
    }
  }

  lemma UpdatedEntry<V>(m: map<nat, V>, k: nat, v: V, i: nat, j: nat)
    requires k in m && i < |Entries(m)| && Entries(m)[i] == (k, m[k]) && j < |Entries(m)|
    requires m[k := v].Keys == m.Keys
    ensures |Entries(m[k := v])| == |Entries(m)|
    ensures Entries(m[k := v])[j] == if j == i then (k, v) else Entries(m)[j]
  {
    EntryAt(m, i);
    EntryAt(m, j);
    EntryAt(m[k := v], j);
    var ks := SortedKeys(m.Keys);
    assert ks[i] == k && (j != i ==> ks[j] != ks[i]);
  }

  /** Replaying the exit or fault of a process that is not a zombie always changes the state hash. */
  lemma ExitShowsInDigest(s: Replica, pid: u64)
    requires pid in s.processes && s.processes[pid].status != Zombie
    ensures StateDigest(Buried(s, pid).value) != StateDigest(s)
  {
    var s' := Buried(s, pid).value;
    var i := BuriedEntries(s.processes, pid);
    var es, es' := Entries(s.processes), Entries(s'.processes);
    var rest := Listed(SlotsCode, Entries(Image(s.capSpaces, SlotsOf))) + Listed(OwnerCode, Entries(s.endpoints));
    StreamAround(es, i, rest);
    StreamAround(es', i, rest);
    assert es'[..i] == es[..i] && es'[i + 1..] == es[i + 1..];
    var before := LittleEndian(|es|, 8) + Concat(ProcCode, es[..i]) + ProcHead(es[i]);
    OneByteBetween(OFFSET, before, StatusByte(es[i].1.status), StatusByte(Zombie),
      Concat(ProcCode, es[i + 1..]) + rest);
  }

  // ---------------------------------------------------------------- the hasher

  class StateHasher {
    var hash: u64
    ghost var absorbed: seq<byte>

    ghost predicate Valid()
      reads this
    {
      hash == Fold(OFFSET, absorbed)
    }

    constructor ()
      ensures Valid() && absorbed == []
    {
      hash, absorbed := OFFSET, [];
    }

    method WriteU8(v: byte)
      requires Valid()
      modifies this
      ensures Valid() && absorbed == old(absorbed) + [v]
    {
      OneByte(OFFSET, absorbed, v);
      hash := Absorb(hash, v);
      absorbed := absorbed + [v];
    }

    /** The loop shared by all multi-byte writes. */
    method WriteAll(bytes: seq<byte>)
      requires Valid()
      modifies this
      ensures Valid() && absorbed == old(absorbed) + bytes
    {
      for i := 0 to |bytes|
        invariant Valid() && absorbed == old(absorbed) + bytes[..i]
      {
        WriteU8(bytes[i]);
        assert bytes[..i + 1] == bytes[..i] + [bytes[i]];
      }
      assert bytes[..|bytes|] == bytes;
    }

    method WriteStr(s: seq<byte>)
      requires Valid()
      modifies this
      ensures Valid() && absorbed == old(absorbed) + LittleEndian(|s|, 8) + s
    {
      WriteAll(LittleEndian(|s|, 8));
      WriteAll(s);
    }

    method WriteProcess(e: (nat, Proc))
      requires Valid()
      modifies this
      ensures Valid() && absorbed == old(absorbed) + ProcCode(e)
    {
      WriteAll(LittleEndian(e.0, 8));
      WriteStr(e.1.name);
      WriteU8(StatusByte(e.1.status));
      Regroup4(old(absorbed), LittleEndian(e.0, 8), LittleEndian(|e.1.name|, 8), e.1.name, [StatusByte(e.1.status)]);
    }

    method WriteCapability(e: (nat, Cap))
      requires Valid()
      modifies this
      ensures Valid() && absorbed == old(absorbed) + CapCode(e)
    {
      var c := e.1;
      WriteAll(LittleEndian(e.0, 4));
      WriteAll(Bytes8(c.id));
      WriteU8(c.objectType.ToByte());
      WriteAll(Bytes8(c.objectId));
      WriteU8(c.permissions.ToByte());
      WriteAll(Bytes4(c.generation));
      WriteAll(Bytes8(c.expiresAt));
      Regroup7(old(absorbed), LittleEndian(e.0, 4), Bytes8(c.id), [c.objectType.ToByte()], Bytes8(c.objectId),
        [c.permissions.ToByte()], Bytes4(c.generation), Bytes8(c.expiresAt));
    }

    method WriteCapabilities(es: seq<(nat, Cap)>)
      requires Valid()
      modifies this
      ensures Valid() && absorbed == old(absorbed) + Listed(CapCode, es)
    {
      WriteAll(LittleEndian(|es|, 8));
      ghost var start := absorbed;
      for i := 0 to |es|
        invariant Valid() && absorbed == start + Concat(CapCode, es[..i])
      {
        WriteCapability(es[i]);
        ConcatSnoc(CapCode, es, i);
        AppendAssoc(start, Concat(CapCode, es[..i]), CapCode(es[i]));
      }
      assert es[..|es|] == es;
      AppendAssoc(old(absorbed), LittleEndian(|es|, 8), Concat(CapCode, es));
    }

    method WriteSlots(e: (nat, map<u32, Cap>))
      requires Valid()
      modifies this
      ensures Valid() && absorbed == old(absorbed) + SlotsCode(e)
    {
      var caps := Entries(e.1);
      WriteAll(LittleEndian(e.0, 8));
      WriteCapabilities(caps);
      AppendAssoc(old(absorbed), LittleEndian(e.0, 8), Listed(CapCode, caps));
    }

    method WriteOwner(e: (nat, u64))
      requires Valid()
      modifies this
      ensures Valid() && absorbed == old(absorbed) + OwnerCode(e)
    {
      WriteAll(LittleEndian(e.0, 8));
      WriteAll(Bytes8(e.1));
      AppendAssoc(old(absorbed), LittleEndian(e.0, 8), Bytes8(e.1));
    }

    method WriteProcesses(es: seq<(nat, Proc)>)
      requires Valid()
      modifies this
      ensures Valid() && absorbed == old(absorbed) + Listed(ProcCode, es)
    {
      WriteAll(LittleEndian(|es|, 8));
      ghost var start := absorbed;
      for i := 0 to |es|
        invariant Valid() && absorbed == start + Concat(ProcCode, es[..i])
      {
        WriteProcess(es[i]);
        ConcatSnoc(ProcCode, es, i);
        AppendAssoc(start, Concat(ProcCode, es[..i]), ProcCode(es[i]));
      }
      assert es[..|es|] == es;
      AppendAssoc(old(absorbed), LittleEndian(|es|, 8), Concat(ProcCode, es));
    }

    method WriteSpaces(es: seq<(nat, map<u32, Cap>)>)
      requires Valid()
      modifies this
      ensures Valid() && absorbed == old(absorbed) + Listed(SlotsCode, es)
    {
      WriteAll(LittleEndian(|es|, 8));
      ghost var start := absorbed;
      for i := 0 to |es|
        invariant Valid() && absorbed == start + Concat(SlotsCode, es[..i])
      {
        WriteSlots(es[i]);
        ConcatSnoc(SlotsCode, es, i);
        AppendAssoc(start, Concat(SlotsCode, es[..i]), SlotsCode(es[i]));
      }
      assert es[..|es|] == es;
      AppendAssoc(old(absorbed), LittleEndian(|es|, 8), Concat(SlotsCode, es));
    }

    method WriteEndpoints(es: seq<(nat, u64)>)
      requires Valid()
      modifies this
      ensures Valid() && absorbed == old(absorbed) + Listed(OwnerCode, es)
    {
      WriteAll(LittleEndian(|es|, 8));
      ghost var start := absorbed;
      for i := 0 to |es|
        invariant Valid() && absorbed == start + Concat(OwnerCode, es[..i])
      {
        WriteOwner(es[i]);
        ConcatSnoc(OwnerCode, es, i);
        AppendAssoc(start, Concat(OwnerCode, es[..i]), OwnerCode(es[i]));
      }
      assert es[..|es|] == es;
      AppendAssoc(old(absorbed), LittleEndian(|es|, 8), Concat(OwnerCode, es));
    }

    method WriteState(s: Replica)
      requires Valid() && absorbed == []
      modifies this
      ensures Valid() && absorbed == Stream(s)
    {
      WriteProcesses(Entries(s.processes));
      WriteSpaces(Entries(Image(s.capSpaces, SlotsOf)));
      WriteEndpoints(Entries(s.endpoints));
      FromEmpty(Listed(ProcCode, Entries(s.processes)), Listed(SlotsCode, Entries(Image(s.capSpaces, SlotsOf))),
        Listed(OwnerCode, Entries(s.endpoints)));
    }
  }

  lemma FromEmpty<T>(a: seq<T>, b: seq<T>, c: seq<T>)
    ensures [] + a + b + c == a + (b + c)
  {
  }
}
