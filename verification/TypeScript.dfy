/** The TypeScript client's hand-written encoders: byte buffers filled at running offsets. */
module TypeScript {
  import opened Base
  import opened Records
  import opened Borsh
  import opened Wire
  import opened Buffers

  /** `writeUInt8`, `writeUInt16LE`, `writeUInt32LE`, `writeBigUInt64LE`, by width. */
  method WriteUInt(buf: array<byte>, n: nat, width: nat, at: nat)
    requires at + width <= buf.Length && n < Pow256(width)
    modifies buf
    ensures buf[..at + width] == old(buf[..at]) + LE(n, width)
    ensures buf[at + width..] == old(buf[at + width..])
  {
    CopyInto(buf, at, LE(n, width));
  }

  lemma OneByte(n: byte)
    ensures n < Pow256(1) && LE(n, 1) == [n]
  {
    assert LE(n / 256, 0) == [];
  }

  /** A single-byte instruction. */
  method EncodeTag(tag: byte) returns (buf: array<byte>)
    ensures fresh(buf) && buf[..] == [tag]
  {
    buf := new byte[1](_ => tag);
  }

  method EncodeRevokeAdmin() returns (buf: array<byte>)
    ensures fresh(buf) && buf[..] == EncodeInstruction(RevokeSplitterAdmin)
    ensures InstructionWire(buf[..], RevokeSplitterAdmin)
  {
    buf := EncodeTag(3);
    InstructionBytes(buf[..], RevokeSplitterAdmin);
  }

  method EncodeDistributeSOL() returns (buf: array<byte>)
    ensures fresh(buf) && buf[..] == EncodeInstruction(DistributeSOL)
    ensures InstructionWire(buf[..], DistributeSOL)
  {
    buf := EncodeTag(4);
    InstructionBytes(buf[..], DistributeSOL);
  }

  method EncodeDistributeToken() returns (buf: array<byte>)
    ensures fresh(buf) && buf[..] == EncodeInstruction(DistributeToken)
    ensures InstructionWire(buf[..], DistributeToken)
  {
    buf := EncodeTag(5);
    InstructionBytes(buf[..], DistributeToken);
  }

  method EncodeCloseSellConfig() returns (buf: array<byte>)
    ensures fresh(buf) && buf[..] == EncodeInstruction(CloseSellConfig)
    ensures InstructionWire(buf[..], CloseSellConfig)
  {
    buf := EncodeTag(9);
    InstructionBytes(buf[..], CloseSellConfig);
  }

  lemma CreateSplitterLayout(nonce: u64, name: seq<byte>)
    ensures EncodeInstruction(CreateSplitter(nonce, name)) == [0] + LE(nonce, 8) + LE(|name|, 4) + name
  {
    hide LE;
  }

  method EncodeCreateSplitter(nonce: u64, name: seq<byte>) returns (buf: array<byte>)
    requires |name| < U32_LIMIT
    ensures fresh(buf) && buf[..] == EncodeInstruction(CreateSplitter(nonce, name))
    ensures InstructionWire(buf[..], CreateSplitter(nonce, name))
  {
    hide EncodeInstruction, InstructionWire, LE, Pow256;
    Widths();
    OneByte(0);
    buf := new byte[1 + 8 + 4 + |name|](_ => 0);
    var offset := 0;
    WriteUInt(buf, 0, 1, offset);
    offset := offset + 1;
    WriteUInt(buf, nonce, 8, offset);
    offset := offset + 8;
    WriteUInt(buf, |name|, 4, offset);
    offset := offset + 4;
    CopyInto(buf, offset, name);
    assert buf[..] == buf[..offset + |name|];
    CreateSplitterLayout(nonce, name);
    InstructionBytes(buf[..], CreateSplitter(nonce, name));
  }

  /** A list body grows by one item per iteration. */
  lemma SharesGrow(es: seq<Share>, i: nat)
    requires i < |es|
    ensures PutShares(es[..i + 1]) == PutShares(es[..i]) + es[i].to.bytes + LE(es[i].units, 2)
  {
    assert ShareParts(es[..i + 1]) == ShareParts(es[..i]) + [PutShare(es[i])];
    JoinSnoc(ShareParts(es[..i]), PutShare(es[i]));
  }

  lemma KeysGrow(ks: seq<Key>, i: nat)
    requires i < |ks|
    ensures PutKeys(ks[..i + 1]) == PutKeys(ks[..i]) + ks[i].bytes
  {
    assert KeyParts(ks[..i + 1]) == KeyParts(ks[..i]) + [ks[i].bytes];
    JoinSnoc(KeyParts(ks[..i]), ks[i].bytes);
  }

  /** One entry: 32 address bytes, then the share. */
  method WriteShare(buf: array<byte>, e: Share, at: nat) returns (offset: nat)
    requires at + 34 <= buf.Length
    modifies buf
    ensures offset == at + 34 && buf[..offset] == old(buf[..at]) + e.to.bytes + LE(e.units, 2)
  {
    Widths();
    CopyInto(buf, at, e.to.bytes);
    offset := at + 32;
    WriteUInt(buf, e.units, 2, offset);
    offset := offset + 2;
  }

  method EncodeSetDistribution(recipients: seq<Share>) returns (buf: array<byte>)
    requires |recipients| < U32_LIMIT
    ensures fresh(buf) && buf[..] == EncodeInstruction(SetSplitterDistribution(recipients))
    ensures InstructionWire(buf[..], SetSplitterDistribution(recipients))
  {
    hide PutShares, LE, Pow256, EncodeInstruction, InstructionWire;
    Widths();
    OneByte(1);
    var vecLen := |recipients|;
    buf := new byte[1 + 4 + vecLen * (32 + 2)](_ => 0);
    var offset := 0;
    WriteUInt(buf, 1, 1, offset);
    offset := offset + 1;
    WriteUInt(buf, vecLen, 4, offset);
    offset := offset + 4;
    ghost var head := buf[..offset];
    assert head == [1] + LE(vecLen, 4);
    assert PutShares(recipients[..0]) == [];
    for i := 0 to vecLen
      invariant offset == 5 + 34 * i
      invariant buf[..offset] == head + PutShares(recipients[..i])
    {
      SharesGrow(recipients, i);
      offset := WriteShare(buf, recipients[i], offset);
    }
    assert recipients[..vecLen] == recipients;
    assert buf[..] == buf[..offset];
    SetDistributionLayout(recipients);
    InstructionBytes(buf[..], SetSplitterDistribution(recipients));
  }

  lemma SetDistributionLayout(recipients: seq<Share>)
    ensures EncodeInstruction(SetSplitterDistribution(recipients)) == [1] + LE(|recipients|, 4) + PutShares(recipients)
  {
    hide LE, PutShares;
  }

  method EncodeSetAdmin(newAdmin: Key) returns (buf: array<byte>)
    ensures fresh(buf) && buf[..] == EncodeInstruction(SetSplitterAdmin(newAdmin))
    ensures InstructionWire(buf[..], SetSplitterAdmin(newAdmin))
  {
    OneByte(2);
    buf := new byte[1 + 32](_ => 0);
    WriteUInt(buf, 2, 1, 0);
    CopyInto(buf, 1, newAdmin.bytes);
    assert buf[..] == buf[..33];
    InstructionBytes(buf[..], SetSplitterAdmin(newAdmin));
  }

  method EncodeLockRecipient(minShare: u16) returns (buf: array<byte>)
    ensures fresh(buf) && buf[..] == EncodeInstruction(LockRecipient(minShare))
    ensures InstructionWire(buf[..], LockRecipient(minShare))
  {
    Widths();
    OneByte(6);
    buf := new byte[1 + 2](_ => 0);
    WriteUInt(buf, 6, 1, 0);
    WriteUInt(buf, minShare, 2, 1);
    assert buf[..] == buf[..3];
    InstructionBytes(buf[..], LockRecipient(minShare));
  }

  /** A tag, a u32 length and that many bytes. */
  method EncodeTaggedBytes(tag: byte, bytes: seq<byte>) returns (buf: array<byte>)
    requires |bytes| < U32_LIMIT
    ensures fresh(buf) && buf[..] == [tag] + Counted(|bytes|, bytes)
  {
    hide LE, Pow256;
    Widths();
    OneByte(tag);
    buf := new byte[1 + 4 + |bytes|](_ => 0);
    WriteUInt(buf, tag, 1, 0);
    WriteUInt(buf, |bytes|, 4, 1);
    CopyInto(buf, 5, bytes);
    assert buf[..] == buf[..5 + |bytes|];
    assert [tag] + LE(|bytes|, 4) + bytes == [tag] + (LE(|bytes|, 4) + bytes);
  }

  method EncodeSetSplitterName(name: seq<byte>) returns (buf: array<byte>)
    requires |name| < U32_LIMIT
    ensures fresh(buf) && buf[..] == EncodeInstruction(SetSplitterName(name))
    ensures InstructionWire(buf[..], SetSplitterName(name))
  {
    buf := EncodeTaggedBytes(7, name);
    InstructionBytes(buf[..], SetSplitterName(name));
  }

  method EncodeSwapToken(swapData: seq<byte>) returns (buf: array<byte>)
    requires |swapData| < U32_LIMIT
    ensures fresh(buf) && buf[..] == EncodeInstruction(SwapToken(swapData))
    ensures InstructionWire(buf[..], SwapToken(swapData))
  {
    buf := EncodeTaggedBytes(10, swapData);
    InstructionBytes(buf[..], SwapToken(swapData));
  }

  /** Writes one key list at `at`: its length, then its keys. */
  method WriteKeys(buf: array<byte>, ks: seq<Key>, at: nat) returns (offset: nat)
    requires |ks| < U32_LIMIT && at + 4 + 32 * |ks| <= buf.Length
    modifies buf
    ensures offset == at + 4 + 32 * |ks|
    ensures buf[..offset] == old(buf[..at]) + Counted(|ks|, PutKeys(ks))
  {
    hide PutKeys, LE, Pow256;
    Widths();
    ghost var before := buf[..at];
    offset := at;
    WriteUInt(buf, |ks|, 4, offset);
    offset := offset + 4;
    ghost var head := before + LE(|ks|, 4);
    assert PutKeys(ks[..0]) == [];
    for i := 0 to |ks|
      invariant offset == at + 4 + 32 * i
      invariant buf[..offset] == head + PutKeys(ks[..i])
    {
      KeysGrow(ks, i);
      CopyInto(buf, offset, ks[i].bytes);
      offset := offset + 32;
    }
    assert ks[..|ks|] == ks;
    assert before + LE(|ks|, 4) + PutKeys(ks) == before + (LE(|ks|, 4) + PutKeys(ks));
  }

  lemma SetSellConfigLayout(mints: seq<Key>, programs: seq<Key>)
    ensures EncodeInstruction(SetSellConfig(mints, programs))
            == [8] + Counted(|mints|, PutKeys(mints)) + Counted(|programs|, PutKeys(programs))
    ensures |Counted(|mints|, PutKeys(mints))| == 4 + 32 * |mints|
  {
    hide LE, PutKeys;
  }

  method EncodeSetSellConfig(mints: seq<Key>, approvedPrograms: seq<Key>) returns (buf: array<byte>)
    requires |mints| < U32_LIMIT && |approvedPrograms| < U32_LIMIT
    ensures fresh(buf) && buf[..] == EncodeInstruction(SetSellConfig(mints, approvedPrograms))
    ensures InstructionWire(buf[..], SetSellConfig(mints, approvedPrograms))
  {
    hide PutKeys, LE, Counted, EncodeInstruction, InstructionWire;
    OneByte(8);
    SetSellConfigLayout(mints, approvedPrograms);
    var totalSize := 1 + 4 + |mints| * 32 + 4 + |approvedPrograms| * 32;
    buf := new byte[totalSize](_ => 0);
    WriteUInt(buf, 8, 1, 0);
    var offset := WriteKeys(buf, mints, 1);
    offset := WriteKeys(buf, approvedPrograms, offset);
    assert buf[..] == buf[..offset];
    InstructionBytes(buf[..], SetSellConfig(mints, approvedPrograms));
  }
}
