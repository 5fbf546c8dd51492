/** Axiom commits, the bytes each of them is hashed from, and what those bytes determine. */
module Commits {
  import opened Words
  import opened Fnv
  import opened Common

  type CommitId = Digest
  type EventId = nat

  datatype CommitType =
    | Genesis
    | ProcessCreated(pid: u64, parent: u64, name: seq<byte>)
    | ProcessExited(pid: u64, code: i32)
    | ProcessFaulted(pid: u64, reason: u32, description: seq<byte>)
    | CapInserted(pid: u64, slot: u32, capId: u64, objectType: byte, objectId: u64, perms: byte)
    | CapRemoved(pid: u64, slot: u32)
    | CapGranted(fromPid: u64, toPid: u64, fromSlot: u32, toSlot: u32, newCapId: u64, granted: Permissions)
    | EndpointCreated(id: u64, owner: u64)
    | EndpointDestroyed(id: u64)
    | MessageSent(fromPid: u64, toEndpoint: u64, tag: u32, size: u64)

  datatype Commit = Commit(
    id: CommitId, prev: CommitId, seqNo: nat, timestamp: u64,
    commitType: CommitType, causedBy: Option<EventId>)

  function Discriminant(ct: CommitType): byte {
    match ct
    case Genesis => 0
    case ProcessCreated(_, _, _) => 1
    case ProcessExited(_, _) => 2
    case ProcessFaulted(_, _, _) => 3
    case CapInserted(_, _, _, _, _, _) => 4
    case CapRemoved(_, _) => 5
    case CapGranted(_, _, _, _, _, _) => 6
    case EndpointCreated(_, _) => 7
    case EndpointDestroyed(_) => 8
    case MessageSent(_, _, _, _) => 9
  }

  /** Two's complement of a signed 32-bit code. */
  function Unsigned(code: i32): u32 {
    if code < 0 then code + 0x1_0000_0000 else code
  }

  function Payload(ct: CommitType): seq<byte> {
    match ct
    case Genesis => []
    case ProcessCreated(pid, parent, name) => Bytes8(pid) + (Bytes8(parent) + name)
    case ProcessExited(pid, code) => Bytes8(pid) + Bytes4(Unsigned(code))
    case ProcessFaulted(pid, reason, description) => Bytes8(pid) + (Bytes4(reason) + description)
    case CapInserted(pid, slot, capId, objectType, objectId, perms) =>
      Bytes8(pid) + (Bytes4(slot) + (Bytes8(capId) + ([objectType] + (Bytes8(objectId) + [perms]))))
    case CapRemoved(pid, slot) => Bytes8(pid) + Bytes4(slot)
    case CapGranted(fromPid, toPid, fromSlot, toSlot, newCapId, granted) =>
      Bytes8(fromPid) + (Bytes8(toPid) +
        (Bytes4(fromSlot) + (Bytes4(toSlot) + (Bytes8(newCapId) + [granted.ToByte()]))))
    case EndpointCreated(id, owner) => Bytes8(id) + Bytes8(owner)
    case EndpointDestroyed(id) => Bytes8(id)
    case MessageSent(fromPid, toEndpoint, tag, size) =>
      Bytes8(fromPid) + (Bytes8(toEndpoint) + (Bytes4(tag) + Bytes8(size)))
  }

  /** Everything the hash covers, in order. The cause of a commit is not part of it. */
  function Encode(c: Commit): seq<byte> {
    c.prev + (LittleEndian(c.seqNo, 8) + (Bytes8(c.timestamp) + ([Discriminant(c.commitType)] + Payload(c.commitType))))
  }

  function Hash(c: Commit): CommitId {
    Expand(Fold(OFFSET, Encode(c)))
  }

  ghost predicate SameHashedFields(a: Commit, b: Commit) {
    a.prev == b.prev && a.seqNo == b.seqNo && a.timestamp == b.timestamp && a.commitType == b.commitType
  }

  // ---------------------------------------------------------------- injectivity

  lemma Take8(x: u64, y: u64, r: seq<byte>, s: seq<byte>)
    requires Bytes8(x) + r == Bytes8(y) + s
    ensures x == y && r == s
  {
    SplitEqual(Bytes8(x), Bytes8(y), r, s);
    Bytes8Injective(x, y);
  }

  lemma Take4(x: u32, y: u32, r: seq<byte>, s: seq<byte>)
    requires Bytes4(x) + r == Bytes4(y) + s
    ensures x == y && r == s
  {
    SplitEqual(Bytes4(x), Bytes4(y), r, s);
    Bytes4Injective(x, y);
  }

  lemma Take1(x: byte, y: byte, r: seq<byte>, s: seq<byte>)
    requires [x] + r == [y] + s
    ensures x == y && r == s
  {
    SplitEqual([x], [y], r, s);
  }

  lemma CapInsertedInjective(a: CommitType, b: CommitType)
    requires a.CapInserted? && b.CapInserted? && Payload(a) == Payload(b)
    ensures a == b
  {
    var a5, b5 := Bytes8(a.objectId) + [a.perms], Bytes8(b.objectId) + [b.perms];
    var a4, b4 := [a.objectType] + a5, [b.objectType] + b5;
    var a3, b3 := Bytes8(a.capId) + a4, Bytes8(b.capId) + b4;
    var a2, b2 := Bytes4(a.slot) + a3, Bytes4(b.slot) + b3;
    Take8(a.pid, b.pid, a2, b2);
    Take4(a.slot, b.slot, a3, b3);
    Take8(a.capId, b.capId, a4, b4);
    Take1(a.objectType, b.objectType, a5, b5);
    Take8(a.objectId, b.objectId, [a.perms], [b.perms]);
  }

  lemma CapGrantedInjective(a: CommitType, b: CommitType)
    requires a.CapGranted? && b.CapGranted? && Payload(a) == Payload(b)
    ensures a == b
  {
    var a5, b5 := Bytes8(a.newCapId) + [a.granted.ToByte()], Bytes8(b.newCapId) + [b.granted.ToByte()];
    var a4, b4 := Bytes4(a.toSlot) + a5, Bytes4(b.toSlot) + b5;
    var a3, b3 := Bytes4(a.fromSlot) + a4, Bytes4(b.fromSlot) + b4;
    var a2, b2 := Bytes8(a.toPid) + a3, Bytes8(b.toPid) + b3;
    Take8(a.fromPid, b.fromPid, a2, b2);
    Take8(a.toPid, b.toPid, a3, b3);
    Take4(a.fromSlot, b.fromSlot, a4, b4);
    Take4(a.toSlot, b.toSlot, a5, b5);
    Take8(a.newCapId, b.newCapId, [a.granted.ToByte()], [b.granted.ToByte()]);
    PermissionsFromByte(a.granted, b.granted);
  }

  lemma PermissionsFromByte(a: Permissions, b: Permissions)
    requires [a.ToByte()] == [b.ToByte()]
    ensures a == b
  {
    assert [a.ToByte()][0] == [b.ToByte()][0];
    var p := Permissions.FromByte(a.ToByte());
  }

  lemma MessageSentInjective(a: CommitType, b: CommitType)
    requires a.MessageSent? && b.MessageSent? && Payload(a) == Payload(b)
    ensures a == b
  {
    var a3, b3 := Bytes4(a.tag) + Bytes8(a.size), Bytes4(b.tag) + Bytes8(b.size);
    Take8(a.fromPid, b.fromPid, Bytes8(a.toEndpoint) + a3, Bytes8(b.toEndpoint) + b3);
    Take8(a.toEndpoint, b.toEndpoint, a3, b3);
    Take4(a.tag, b.tag, Bytes8(a.size), Bytes8(b.size));
    Bytes8Injective(a.size, b.size);
  }

  /** Within a variant the payload determines every field. */
  lemma PayloadInjective(a: CommitType, b: CommitType)
    requires Discriminant(a) == Discriminant(b) && Payload(a) == Payload(b)
    ensures a == b
  {
    match a
    case Genesis =>
    case ProcessCreated(pid, parent, name) =>
      Take8(pid, b.pid, Bytes8(parent) + name, Bytes8(b.parent) + b.name);
      Take8(parent, b.parent, name, b.name);
    case ProcessExited(pid, code) =>
      Take8(pid, b.pid, Bytes4(Unsigned(code)), Bytes4(Unsigned(b.code)));
      Bytes4Injective(Unsigned(code), Unsigned(b.code));
    case ProcessFaulted(pid, reason, description) =>
      Take8(pid, b.pid, Bytes4(reason) + description, Bytes4(b.reason) + b.description);
      Take4(reason, b.reason, description, b.description);
    case CapInserted(_, _, _, _, _, _) => CapInsertedInjective(a, b);
    case CapRemoved(pid, slot) =>
      Take8(pid, b.pid, Bytes4(slot), Bytes4(b.slot));
      Bytes4Injective(slot, b.slot);
    case CapGranted(_, _, _, _, _, _) => CapGrantedInjective(a, b);
    case EndpointCreated(id, owner) =>
      Take8(id, b.id, Bytes8(owner), Bytes8(b.owner));
      Bytes8Injective(owner, b.owner);
    case EndpointDestroyed(id) => Bytes8Injective(id, b.id);
    case MessageSent(_, _, _, _) => MessageSentInjective(a, b);
  }

  /** The bytes a commit is hashed from determine every hashed field. */
  lemma EncodeInjective(a: Commit, b: Commit)
    requires a.seqNo < TWO64 && b.seqNo < TWO64
    requires Encode(a) == Encode(b)
    ensures SameHashedFields(a, b)
  {
    var a4 := [Discriminant(a.commitType)] + Payload(a.commitType);
    var b4 := [Discriminant(b.commitType)] + Payload(b.commitType);
    var a3, b3 := Bytes8(a.timestamp) + a4, Bytes8(b.timestamp) + b4;
    SplitEqual(a.prev, b.prev, Bytes8(a.seqNo) + a3, Bytes8(b.seqNo) + b3);
    Take8(a.seqNo, b.seqNo, a3, b3);
    Take8(a.timestamp, b.timestamp, a4, b4);
    Take1(Discriminant(a.commitType), Discriminant(b.commitType), Payload(a.commitType), Payload(b.commitType));
    PayloadInjective(a.commitType, b.commitType);
  }

  /** Altering one byte of what a commit is hashed from always alters its hash. */
  lemma OneByteTamperingShows(a: Commit, b: Commit, k: nat)
    requires |Encode(a)| == |Encode(b)| && k < |Encode(a)| && Encode(a)[k] != Encode(b)[k]
    requires forall i :: 0 <= i < |Encode(a)| && i != k ==> Encode(a)[i] == Encode(b)[i]
    ensures Hash(a) != Hash(b)
  {
    OneByteChangesDigest(OFFSET, Encode(a), Encode(b), k);
  }

  // ---------------------------------------------------------------- reading a commit back

  /** Two's complement read back. */
  function Signed(word: u32): i32 {
    if word >= 0x8000_0000 then word - 0x1_0000_0000 else word
  }

  /** The payload of each commit kind, read from its bytes in order. */
  function ReadPayload(tag: byte, bs: seq<byte>): Option<CommitType> {
    match tag
    case 0 => if bs == [] then Some(Genesis) else None
    case 1 => if |bs| < 16 then None else Some(ProcessCreated(Word8(bs[..8]), Word8(bs[8..][..8]), bs[8..][8..]))
    case 2 => if |bs| != 12 then None else Some(ProcessExited(Word8(bs[..8]), Signed(Word4(bs[8..]))))
    case 3 => if |bs| < 12 then None else Some(ProcessFaulted(Word8(bs[..8]), Word4(bs[8..][..4]), bs[8..][4..]))
    case 4 => if |bs| != 30 then None else ReadInserted(bs)
    case 5 => if |bs| != 12 then None else Some(CapRemoved(Word8(bs[..8]), Word4(bs[8..])))
    case 6 => if |bs| != 33 then None else ReadGranted(bs)
    case 7 => if |bs| != 16 then None else Some(EndpointCreated(Word8(bs[..8]), Word8(bs[8..])))
    case 8 => if |bs| != 8 then None else Some(EndpointDestroyed(Word8(bs)))
    case 9 => if |bs| != 28 then None else ReadMessage(bs)
    case _ => None
  }

  function ReadInserted(bs: seq<byte>): Option<CommitType>
    requires |bs| == 30
  {
    var r1 := bs[8..];
    var r2 := r1[4..];
    var r3 := r2[8..];
    var r4 := r3[1..];
    var r5 := r4[8..];
    Some(CapInserted(Word8(bs[..8]), Word4(r1[..4]), Word8(r2[..8]), r3[..1][0], Word8(r4[..8]), r5[0]))
  }

  function ReadGranted(bs: seq<byte>): Option<CommitType>
    requires |bs| == 33
  {
    var r1 := bs[8..];
    var r2 := r1[8..];
    var r3 := r2[4..];
    var r4 := r3[4..];
    var r5 := r4[8..];
    Some(CapGranted(Word8(bs[..8]), Word8(r1[..8]), Word4(r2[..4]), Word4(r3[..4]), Word8(r4[..8]),
                    Permissions.FromByte(r5[0])))
  }

  function ReadMessage(bs: seq<byte>): Option<CommitType>
    requires |bs| == 28
  {
    var r1 := bs[8..];
    var r2 := r1[8..];
    var r3 := r2[4..];
    Some(MessageSent(Word8(bs[..8]), Word8(r1[..8]), Word4(r2[..4]), Word8(r3)))
  }

  lemma InsertedReads(ct: CommitType)
    requires ct.CapInserted?
    ensures |Payload(ct)| == 30 && ReadInserted(Payload(ct)) == Some(ct)
  {
    var r5: seq<byte> := [ct.perms];
    var r4 := Bytes8(ct.objectId) + r5;
    var r3 := [ct.objectType] + r4;
    var r2 := Bytes8(ct.capId) + r3;
    var r1 := Bytes4(ct.slot) + r2;
    Cut(Bytes8(ct.pid), r1);
    Cut(Bytes4(ct.slot), r2);
    Cut(Bytes8(ct.capId), r3);
    Cut([ct.objectType], r4);
    Cut(Bytes8(ct.objectId), r5);
    Word8Reads(ct.pid);
    Word4Reads(ct.slot);
    Word8Reads(ct.capId);
    Word8Reads(ct.objectId);
  }

  lemma GrantedReads(ct: CommitType)
    requires ct.CapGranted?
    ensures |Payload(ct)| == 33 && ReadGranted(Payload(ct)) == Some(ct)
  {
    var r5: seq<byte> := [ct.granted.ToByte()];
    var r4 := Bytes8(ct.newCapId) + r5;
    var r3 := Bytes4(ct.toSlot) + r4;
    var r2 := Bytes4(ct.fromSlot) + r3;
    var r1 := Bytes8(ct.toPid) + r2;
    Cut(Bytes8(ct.fromPid), r1);
    Cut(Bytes8(ct.toPid), r2);
    Cut(Bytes4(ct.fromSlot), r3);
    Cut(Bytes4(ct.toSlot), r4);
    Cut(Bytes8(ct.newCapId), r5);
    Word8Reads(ct.fromPid);
    Word8Reads(ct.toPid);
    Word4Reads(ct.fromSlot);
    Word4Reads(ct.toSlot);
    Word8Reads(ct.newCapId);
    PermissionBits(ct.granted);
  }

  lemma MessageReads(ct: CommitType)
    requires ct.MessageSent?
    ensures |Payload(ct)| == 28 && ReadMessage(Payload(ct)) == Some(ct)
  {
    var r3 := Bytes8(ct.size);
    var r2 := Bytes4(ct.tag) + r3;
    var r1 := Bytes8(ct.toEndpoint) + r2;
    Cut(Bytes8(ct.fromPid), r1);
    Cut(Bytes8(ct.toEndpoint), r2);
    Cut(Bytes4(ct.tag), r3);
    Word8Reads(ct.fromPid);
    Word8Reads(ct.toEndpoint);
    Word4Reads(ct.tag);
    Word8Reads(ct.size);
  }

  lemma TextReads(ct: CommitType)
    requires ct.ProcessCreated? || ct.ProcessFaulted?
    ensures ReadPayload(Discriminant(ct), Payload(ct)) == Some(ct)
  {
    Word8Reads(ct.pid);
    match ct
    case ProcessCreated(pid, parent, name) =>
      Cut(Bytes8(pid), Bytes8(parent) + name);
      Cut(Bytes8(parent), name);
      Word8Reads(parent);
    case ProcessFaulted(pid, reason, description) =>
      Cut(Bytes8(pid), Bytes4(reason) + description);
      Cut(Bytes4(reason), description);
      Word4Reads(reason);
  }

  lemma PairReads(ct: CommitType)
    requires ct.ProcessExited? || ct.CapRemoved? || ct.EndpointCreated?
    ensures ReadPayload(Discriminant(ct), Payload(ct)) == Some(ct)
  {
    match ct
    case ProcessExited(pid, code) =>
      Cut(Bytes8(pid), Bytes4(Unsigned(code)));
      Word8Reads(pid);
      Word4Reads(Unsigned(code));
    case CapRemoved(pid, slot) =>
      Cut(Bytes8(pid), Bytes4(slot));
      Word8Reads(pid);
      Word4Reads(slot);
    case EndpointCreated(id, owner) =>
      Cut(Bytes8(id), Bytes8(owner));
      Word8Reads(id);
      Word8Reads(owner);
  }

  lemma PayloadReads(ct: CommitType)
    ensures ReadPayload(Discriminant(ct), Payload(ct)) == Some(ct)
  {
    match ct
    case Genesis =>
    case CapInserted(_, _, _, _, _, _) => InsertedReads(ct);
    case CapGranted(_, _, _, _, _, _) => GrantedReads(ct);
    case EndpointDestroyed(id) => Word8Reads(id);
    case MessageSent(_, _, _, _) => MessageReads(ct);
    case ProcessCreated(_, _, _) => TextReads(ct);
    case ProcessFaulted(_, _, _) => TextReads(ct);
    case _ => PairReads(ct);
  }

  /** The hashed part of a commit. */
  datatype Hashed = Hashed(prev: CommitId, seqNo: nat, timestamp: u64, commitType: CommitType)

  /** A reader of hash inputs: 32 bytes of predecessor, sequence number, time, kind, payload. */
  function ReadCommit(bs: seq<byte>): Option<Hashed> {
    if |bs| < 49 then None
    else
      var r1 := bs[32..];
      var r2 := r1[8..];
      var r3 := r2[8..];
      match ReadPayload(r3[..1][0], r3[1..])
      case None => None
      case Some(ct) => Some(Hashed(bs[..32], Word8(r1[..8]), Word8(r2[..8]), ct))
  }

  /** Every commit can be read back from the bytes it is hashed from. */
  lemma EncodeRoundTrip(c: Commit)
    requires c.seqNo < TWO64
    ensures ReadCommit(Encode(c)) == Some(Hashed(c.prev, c.seqNo, c.timestamp, c.commitType))
  {
    var r3 := [Discriminant(c.commitType)] + Payload(c.commitType);
    var r2 := Bytes8(c.timestamp) + r3;
    var r1 := LittleEndian(c.seqNo, 8) + r2;
    Cut(c.prev, r1);
    Cut(LittleEndian(c.seqNo, 8), r2);
    Cut(Bytes8(c.timestamp), r3);
    Cut([Discriminant(c.commitType)], Payload(c.commitType));
    Word8Reads(c.seqNo);
    Word8Reads(c.timestamp);
    PayloadReads(c.commitType);
  }

  // ---------------------------------------------------------------- the hashing loops

  /** Absorbing the fields one after another is one fold over the encoding. */
  method ComputeHash(c: Commit) returns (id: CommitId)
    ensures id == Hash(c)
  {
    var hash := AbsorbAll(OFFSET, c.prev);
    hash := AbsorbAll(hash, LittleEndian(c.seqNo, 8));
    hash := AbsorbAll(hash, Bytes8(c.timestamp));
    hash := AbsorbAll(hash, [Discriminant(c.commitType)]);
    hash := AbsorbAll(hash, Payload(c.commitType));
    FoldsInSequence(c.prev, LittleEndian(c.seqNo, 8), Bytes8(c.timestamp),
      [Discriminant(c.commitType)], Payload(c.commitType));
    id := Finalize(hash);
  }

  lemma FoldsInSequence(a: seq<byte>, b: seq<byte>, c: seq<byte>, d: seq<byte>, e: seq<byte>)
    ensures Fold(Fold(Fold(Fold(Fold(OFFSET, a), b), c), d), e) == Fold(OFFSET, a + (b + (c + (d + e))))
  {
    FoldAppend(OFFSET, a, b + (c + (d + e)));
    FoldAppend(Fold(OFFSET, a), b, c + (d + e));
    FoldAppend(Fold(Fold(OFFSET, a), b), c, d + e);
    FoldAppend(Fold(Fold(Fold(OFFSET, a), b), c), d, e);
  }
}
