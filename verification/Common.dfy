/** Types the kernel and the audit layer share. */
module Common {
  import opened Words

  datatype Option<+T> = None | Some(value: T)
  datatype Result<+T, +E> = Success(value: T) | Failure(error: E)

  datatype Permissions = Permissions(read: bool, write: bool, grant: bool) {
    predicate SubsetOf(other: Permissions) {
      (!read || other.read) && (!write || other.write) && (!grant || other.grant)
    }

    function ToByte(): (b: byte) {
      (if read then 1 else 0) + (if write then 2 else 0) + (if grant then 4 else 0)
    }

    static function FromByte(b: byte): (p: Permissions)
      ensures b < 8 ==> p.ToByte() == b
      ensures forall q: Permissions :: q.ToByte() == b ==> q == p
    {
      Permissions(b % 2 == 1, (b / 2) % 2 == 1, (b / 4) % 2 == 1)
    }
  }

  const FULL := Permissions(true, true, true)
  const READ_ONLY := Permissions(true, false, false)
  const WRITE_ONLY := Permissions(false, true, false)
  const GRANT_ONLY := Permissions(false, false, true)

  datatype ObjectType = EndpointObject | ProcessObject | MemoryObject | IrqObject | IoPortObject | ConsoleObject {
    function ToByte(): (b: byte) {
      match this
      case EndpointObject => 1
      case ProcessObject => 2
      case MemoryObject => 3
      case IrqObject => 4
      case IoPortObject => 5
      case ConsoleObject => 6
    }
  }

  /** Read, write and grant are bits 0, 1 and 2. */
  lemma PermissionBits(p: Permissions)
    ensures p.read <==> Bit(p.ToByte(), 0) == 1
    ensures p.write <==> Bit(p.ToByte(), 1) == 1
    ensures p.grant <==> Bit(p.ToByte(), 2) == 1
    ensures p.ToByte() < 8 && Permissions.FromByte(p.ToByte()) == p
  {
  }

  /** The subset test compares the bytes bit by bit. */
  lemma SubsetIsBitwise(p: Permissions, q: Permissions)
    ensures p.SubsetOf(q) <==> forall k :: 0 <= k < 3 ==> Bit(p.ToByte(), k) <= Bit(q.ToByte(), k)
  {
    PermissionBits(p);
    PermissionBits(q);
    if !p.SubsetOf(q) {
      var k := if p.read && !q.read then 0 else if p.write && !q.write then 1 else 2;
      assert Bit(p.ToByte(), k) > Bit(q.ToByte(), k);
    }
  }
}
