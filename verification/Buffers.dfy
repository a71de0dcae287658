/** Writing into fixed-size byte buffers in place. */
module Buffers {
  import opened Base

  /** `copy_from_slice` / `Buffer.copy`: everything outside the written range stays. */
  method CopyInto(buf: array<byte>, at: nat, bytes: seq<byte>)
    requires at + |bytes| <= buf.Length
    modifies buf
    ensures buf[..at + |bytes|] == old(buf[..at]) + bytes
    ensures buf[at + |bytes|..] == old(buf[at + |bytes|..])
  {
    for i := 0 to |bytes|
      invariant buf[..at + i] == old(buf[..at]) + bytes[..i]
      invariant buf[at + |bytes|..] == old(buf[at + |bytes|..])
    {
      ghost var before := buf[..at + i];
      buf[at + i] := bytes[i];
      assert buf[..at + i + 1] == before + [bytes[i]];
      assert bytes[..i + 1] == bytes[..i] + [bytes[i]];
    }
  }

  /** Filling a range with zeros. */
  method FillZero(buf: array<byte>, from: nat)
    requires from <= buf.Length
    modifies buf
    ensures buf[..] == old(buf[..from]) + Zeros(buf.Length - from)
  {
    for i := from to buf.Length
      invariant buf[..from] == old(buf[..from])
      invariant forall j :: from <= j < i ==> buf[j] == 0
    {
      buf[i] := 0;
    }
    assert buf[from..] == Zeros(buf.Length - from);
    assert buf[..] == buf[..from] + buf[from..];
  }
}
