/**
  The wire formats: instruction data, the two fixed-size accounts and the
  distribution event, all in Borsh (little-endian integers, u32 length prefixes).
 */
module Borsh {
  import opened Base
  import opened Ledgers
  import opened Records

  // --------------------------------------------------------------- integers

  function Pow256(w: nat): (p: nat)
    ensures p > 0
  {
    if w == 0 then 1 else 256 * Pow256(w - 1)
  }

  /** The low `w` bytes of `n`, least significant first. */
  function LE(n: nat, w: nat): (s: seq<byte>)
    ensures |s| == w
  {
    if w == 0 then [] else [n % 256] + LE(n / 256, w - 1)
  }

  function FromLE(s: seq<byte>): nat {
    if s == [] then 0 else s[0] + 256 * FromLE(s[1..])
  }

  lemma {:induction false} FromLERange(s: seq<byte>)
    ensures FromLE(s) < Pow256(|s|)
  {
    if s != [] {
      FromLERange(s[1..]);
    }
  }

  lemma {:induction false} ReadWritten(n: nat, w: nat)
    requires n < Pow256(w)
    ensures FromLE(LE(n, w)) == n
  {
    if w > 0 {
      ReadWritten(n / 256, w - 1);
      assert LE(n, w)[1..] == LE(n / 256, w - 1);
    }
  }

  lemma {:induction false} WriteRead(s: seq<byte>)
    ensures LE(FromLE(s), |s|) == s
  {
    if s != [] {
      WriteRead(s[1..]);
      assert FromLE(s) % 256 == s[0] && FromLE(s) / 256 == FromLE(s[1..]);
    }
  }

  lemma Widths()
    ensures Pow256(2) == 0x1_0000 && Pow256(4) == U32_LIMIT && Pow256(8) == U64_LIMIT
  {
    assert Pow256(2) == 0x1_0000;
    assert Pow256(4) == 256 * (256 * Pow256(2));
    assert Pow256(6) == 256 * (256 * Pow256(4));
    assert Pow256(8) == 256 * (256 * Pow256(6));
  }

  function ReadU16(s: seq<byte>): (n: u16)
    requires |s| == 2
  {
    FromLERange(s);
    Widths();
    FromLE(s)
  }

  function ReadU64(s: seq<byte>): (n: u64)
    requires |s| == 8
  {
    FromLERange(s);
    Widths();
    FromLE(s)
  }

  // ------------------------------------------------- runs of equal-size items

  function Join(parts: seq<seq<byte>>): seq<byte> {
    if parts == [] then [] else parts[0] + Join(parts[1..])
  }

  ghost function Cut(b: seq<byte>, size: nat, count: nat): (parts: seq<seq<byte>>)
    requires |b| == size * count
    ensures |parts| == count && forall i :: 0 <= i < count ==> |parts[i]| == size
    decreases count
  {
    if count == 0 then [] else
      OneMore(size, count);
      [b[..size]] + Cut(b[size..], size, count - 1)
  }

  /** The i-th item lies at offset size * i. */
  lemma {:induction false} CutAt(b: seq<byte>, size: nat, count: nat, i: nat)
    requires |b| == size * count && i < count
    ensures 0 <= size * i <= size * i + size <= |b| && Cut(b, size, count)[i] == b[size * i..size * i + size]
    decreases count
  {
    OneMore(size, count);
    if i > 0 {
      OneMore(size, i);
      CutAt(b[size..], size, count - 1, i - 1);
      assert b[size..][size * (i - 1)..size * (i - 1) + size] == b[size * i..size * i + size];
    }
  }

  lemma OneMore(size: nat, count: nat)
    requires count > 0
    ensures size * count == size + size * (count - 1) && size * (count - 1) >= 0
  {
  }

  lemma {:induction false} JoinLength(parts: seq<seq<byte>>, size: nat)
    requires forall i :: 0 <= i < |parts| ==> |parts[i]| == size
    ensures |Join(parts)| == size * |parts|
  {
    if parts != [] {
      JoinLength(parts[1..], size);
      OneMore(size, |parts|);
    }
  }

  lemma {:induction false} CutJoin(parts: seq<seq<byte>>, size: nat)
    requires forall i :: 0 <= i < |parts| ==> |parts[i]| == size
    ensures |Join(parts)| == size * |parts|
    ensures Cut(Join(parts), size, |parts|) == parts
  {
    JoinLength(parts, size);
    if parts != [] {
      CutJoin(parts[1..], size);
      assert Join(parts)[..size] == parts[0] && Join(parts)[size..] == Join(parts[1..]);
    }
  }

  lemma {:induction false} JoinCut(b: seq<byte>, size: nat, count: nat)
    requires |b| == size * count
    ensures Join(Cut(b, size, count)) == b
    decreases count
  {
    if count > 0 {
      OneMore(size, count);
      JoinCut(b[size..], size, count - 1);
      assert Cut(b, size, count)[1..] == Cut(b[size..], size, count - 1);
      assert b == b[..size] + b[size..];
    }
  }

  lemma {:induction false} JoinSnoc(parts: seq<seq<byte>>, last: seq<byte>)
    ensures Join(parts + [last]) == Join(parts) + last
  {
    if parts == [] {
      assert parts + [last] == [last];
      assert Join([last]) == last + Join([]);
    } else {
      JoinSnoc(parts[1..], last);
      assert (parts + [last])[1..] == parts[1..] + [last];
    }
  }

  // ------------------------------------------------------------------- keys

  function KeyParts(ks: seq<Key>): (parts: seq<seq<byte>>)
    ensures |parts| == |ks| && forall i :: 0 <= i < |ks| ==> parts[i] == ks[i].bytes && |parts[i]| == 32
  {
    seq(|ks|, i requires 0 <= i < |ks| => ks[i].bytes)
  }

  function PutKeys(ks: seq<Key>): (b: seq<byte>)
    ensures |b| == 32 * |ks|
  {
    JoinLength(KeyParts(ks), 32);
    Join(KeyParts(ks))
  }

  function GetKeys(b: seq<byte>, count: nat): (ks: seq<Key>)
    requires |b| == 32 * count
    ensures |ks| == count
  {
    seq(count, i requires 0 <= i < count => Key(b[32 * i..32 * i + 32]))
  }

  lemma KeysRoundTrip(ks: seq<Key>)
    ensures GetKeys(PutKeys(ks), |ks|) == ks
  {
    CutJoin(KeyParts(ks), 32);
    forall i | 0 <= i < |ks| ensures GetKeys(PutKeys(ks), |ks|)[i] == ks[i] {
      CutAt(PutKeys(ks), 32, |ks|, i);
    }
  }

  lemma KeysCanonical(b: seq<byte>, count: nat)
    requires |b| == 32 * count
    ensures PutKeys(GetKeys(b, count)) == b
  {
    JoinCut(b, 32, count);
    forall i | 0 <= i < count ensures KeyParts(GetKeys(b, count))[i] == Cut(b, 32, count)[i] {
      CutAt(b, 32, count, i);
    }
    assert KeyParts(GetKeys(b, count)) == Cut(b, 32, count);
  }

  // --------------------------------------------------------- splitter account

  const SPLITTER_LEN: nat := 507
  const SELL_CONFIG_LEN: nat := 523

  function PutRecipient(r: Recipient): (b: seq<byte>)
    ensures |b| == 36
  {
    r.address.bytes + LE(r.share, 2) + LE(r.lockedShare, 2)
  }

  function GetRecipient(b: seq<byte>): Recipient
    requires |b| == 36
  {
    Recipient(Key(b[..32]), ReadU16(b[32..34]), ReadU16(b[34..]))
  }

  lemma RecipientRoundTrip(r: Recipient)
    ensures GetRecipient(PutRecipient(r)) == r
  {
    Widths();
    ReadWritten(r.share, 2);
    ReadWritten(r.lockedShare, 2);
    var b := PutRecipient(r);
    assert b[..32] == r.address.bytes && b[32..34] == LE(r.share, 2) && b[34..] == LE(r.lockedShare, 2);
  }

  lemma RecipientCanonical(b: seq<byte>)
    requires |b| == 36
    ensures PutRecipient(GetRecipient(b)) == b
  {
    WriteRead(b[32..34]);
    WriteRead(b[34..]);
    assert b == b[..32] + b[32..34] + b[34..];
  }

  function RecipientParts(rs: seq<Recipient>): (parts: seq<seq<byte>>)
    ensures |parts| == |rs| && forall i :: 0 <= i < |rs| ==> parts[i] == PutRecipient(rs[i]) && |parts[i]| == 36
  {
    seq(|rs|, i requires 0 <= i < |rs| => PutRecipient(rs[i]))
  }

  function PutTable(t: Table): (b: seq<byte>)
    ensures |b| == 360
  {
    JoinLength(RecipientParts(t), 36);
    Join(RecipientParts(t))
  }

  function GetTable(b: seq<byte>): Table
    requires |b| == 360
  {
    seq(10, i requires 0 <= i < 10 => GetRecipient(b[36 * i..36 * i + 36]))
  }

  lemma TableRoundTrip(t: Table)
    ensures GetTable(PutTable(t)) == t
  {
    hide GetRecipient, PutRecipient, Cut, Join;
    CutJoin(RecipientParts(t), 36);
    forall i | 0 <= i < 10 ensures GetTable(PutTable(t))[i] == t[i] {
      CutAt(PutTable(t), 36, 10, i);
      RecipientRoundTrip(t[i]);
    }
  }

  lemma TableCanonical(b: seq<byte>)
    requires |b| == 360
    ensures PutTable(GetTable(b)) == b
  {
    hide GetRecipient, PutRecipient, Cut, Join;
    JoinCut(b, 36, 10);
    var parts := Cut(b, 36, 10);
    forall i | 0 <= i < 10 ensures RecipientParts(GetTable(b))[i] == parts[i] {
      CutAt(b, 36, 10, i);
      RecipientCanonical(parts[i]);
    }
    assert RecipientParts(GetTable(b)) == parts;
  }

  function EncodeSplitter(s: Splitter): (b: seq<byte>)
    ensures |b| == SPLITTER_LEN
  {
    s.discriminator + s.creator.bytes + s.admin.bytes + LE(s.nonce, 8) + [s.bump] + [s.numRecipients]
    + PutTable(s.recipients) + [s.nameLen] + s.name
  }

  /** `Splitter::try_from_slice`: any 507 bytes are a record, and nothing else is. */
  function DecodeSplitter(b: seq<byte>): (o: Option<Splitter>)
    ensures o.Some? <==> |b| == SPLITTER_LEN
  {
    if |b| != SPLITTER_LEN then None else
      Some(Splitter(b[..8], Key(b[8..40]), Key(b[40..72]), ReadU64(b[72..80]), b[80], b[81],
                    GetTable(b[82..442]), b[442], b[443..]))
  }

  /** Where the fields of a splitter account lie. */
  lemma SplitterLayout(
    discriminator: Bytes8, creator: Bytes32, admin: Bytes32, nonce: Bytes8, bump: byte, num: byte,
    table: seq<byte>, nameLen: byte, name: Bytes64)
    requires |table| == 360
    ensures var b := discriminator + creator + admin + nonce + [bump] + [num] + table + [nameLen] + name;
            && |b| == SPLITTER_LEN
            && b[..8] == discriminator && b[8..40] == creator && b[40..72] == admin && b[72..80] == nonce
            && b[80] == bump && b[81] == num && b[82..442] == table && b[442] == nameLen && b[443..] == name
  {
  }

  lemma SplitterRoundTrip(s: Splitter)
    ensures DecodeSplitter(EncodeSplitter(s)) == Some(s)
  {
    Widths();
    ReadWritten(s.nonce, 8);
    TableRoundTrip(s.recipients);
    SplitterLayout(s.discriminator, s.creator.bytes, s.admin.bytes, LE(s.nonce, 8), s.bump, s.numRecipients,
                   PutTable(s.recipients), s.nameLen, s.name);
  }

  lemma SplitterCanonical(b: seq<byte>)
    requires |b| == SPLITTER_LEN
    ensures EncodeSplitter(DecodeSplitter(b).value) == b
  {
    WriteRead(b[72..80]);
    TableCanonical(b[82..442]);
    assert b == b[..8] + b[8..40] + b[40..72] + b[72..80] + [b[80]] + [b[81]] + b[82..442] + [b[442]] + b[443..];
  }

  // ------------------------------------------------------ sell config account

  function EncodeSellConfig(c: SellConfig): (b: seq<byte>)
    ensures |b| == SELL_CONFIG_LEN
  {
    c.discriminator + c.splitter.bytes + [c.numWhitelisted] + PutKeys(c.whitelistedMints)
    + [c.numApprovedPrograms] + PutKeys(c.approvedPrograms) + [c.bump]
  }

  function DecodeSellConfig(b: seq<byte>): (o: Option<SellConfig>)
    ensures o.Some? <==> |b| == SELL_CONFIG_LEN
  {
    if |b| != SELL_CONFIG_LEN then None else
      Some(SellConfig(b[..8], Key(b[8..40]), b[40], GetKeys(b[41..361], 10), b[361], GetKeys(b[362..522], 5), b[522]))
  }

  lemma SellConfigRoundTrip(c: SellConfig)
    ensures DecodeSellConfig(EncodeSellConfig(c)) == Some(c)
  {
    var b := EncodeSellConfig(c);
    KeysRoundTrip(c.whitelistedMints);
    KeysRoundTrip(c.approvedPrograms);
    assert b[..8] == c.discriminator;
    assert b[8..40] == c.splitter.bytes;
    assert b[41..361] == PutKeys(c.whitelistedMints);
    assert b[362..522] == PutKeys(c.approvedPrograms);
  }

  lemma SellConfigCanonical(b: seq<byte>)
    requires |b| == SELL_CONFIG_LEN
    ensures EncodeSellConfig(DecodeSellConfig(b).value) == b
  {
    KeysCanonical(b[41..361], 10);
    KeysCanonical(b[362..522], 5);
    assert b == b[..8] + b[8..40] + [b[40]] + b[41..361] + [b[361]] + b[362..522] + [b[522]];
  }

  /** The bytes of a closed configuration still decode, to a record that is not initialised. */
  lemma ZerosAreNoSellConfig()
    ensures var o := DecodeSellConfig(Zeros(SELL_CONFIG_LEN));
            o.Some? && o.value.discriminator != SELL_CONFIG_DISCRIMINATOR
  {
    var b := Zeros(SELL_CONFIG_LEN);
    assert b[..8][0] == 0 && SELL_CONFIG_DISCRIMINATOR[0] != 0;
  }

  // ------------------------------------------------------------ instructions

  function PutShare(e: Share): (b: seq<byte>)
    ensures |b| == 34
  {
    e.to.bytes + LE(e.units, 2)
  }

  function GetShare(b: seq<byte>): Share
    requires |b| == 34
  {
    Entry(Key(b[..32]), ReadU16(b[32..]))
  }

  function ShareParts(es: seq<Share>): (parts: seq<seq<byte>>)
    ensures |parts| == |es| && forall i :: 0 <= i < |es| ==> parts[i] == PutShare(es[i]) && |parts[i]| == 34
  {
    seq(|es|, i requires 0 <= i < |es| => PutShare(es[i]))
  }

  function PutShares(es: seq<Share>): (b: seq<byte>)
    ensures |b| == 34 * |es|
  {
    JoinLength(ShareParts(es), 34);
    Join(ShareParts(es))
  }

  function GetShares(b: seq<byte>, count: nat): (es: seq<Share>)
    requires |b| == 34 * count
    ensures |es| == count
  {
    seq(count, i requires 0 <= i < count => GetShare(b[34 * i..34 * i + 34]))
  }

  lemma SharesRoundTrip(es: seq<Share>)
    ensures GetShares(PutShares(es), |es|) == es
  {
    CutJoin(ShareParts(es), 34);
    Widths();
    forall i | 0 <= i < |es| ensures GetShares(PutShares(es), |es|)[i] == es[i] {
      CutAt(PutShares(es), 34, |es|, i);
      ReadWritten(es[i].units, 2);
      assert PutShare(es[i])[..32] == es[i].to.bytes && PutShare(es[i])[32..] == LE(es[i].units, 2);
    }
  }

  lemma SharesCanonical(b: seq<byte>, count: nat)
    requires |b| == 34 * count
    ensures PutShares(GetShares(b, count)) == b
  {
    JoinCut(b, 34, count);
    var parts := Cut(b, 34, count);
    forall i | 0 <= i < count ensures ShareParts(GetShares(b, count))[i] == parts[i] {
      CutAt(b, 34, count, i);
      WriteRead(parts[i][32..]);
      assert parts[i] == parts[i][..32] + parts[i][32..];
    }
    assert ShareParts(GetShares(b, count)) == parts;
  }

  /** A u32 count and what follows it. */
  function Counted(count: nat, items: seq<byte>): seq<byte> {
    LE(count, 4) + items
  }

  /** The items of a counted list of `size`-byte items, and the bytes after it. */
  function TakeList(b: seq<byte>, size: nat): Option<(nat, seq<byte>, seq<byte>)> {
    if |b| < 4 then None else
      var count := FromLE(b[..4]);
      if |b| - 4 < size * count then None
      else Some((count, b[4..4 + size * count], b[4 + size * count..]))
  }

  lemma TakeListRoundTrip(count: nat, items: seq<byte>, rest: seq<byte>, size: nat)
    requires count < U32_LIMIT && |items| == size * count
    ensures TakeList(Counted(count, items) + rest, size) == Some((count, items, rest))
  {
    Widths();
    ReadWritten(count, 4);
    hide LE, FromLE;
    var b := Counted(count, items) + rest;
    assert b[..4] == LE(count, 4) && b[4..4 + |items|] == items && b[4 + |items|..] == rest;
  }

  lemma TakeListCanonical(b: seq<byte>, size: nat)
    requires TakeList(b, size).Some?
    ensures var (count, items, rest) := TakeList(b, size).value;
            |items| == size * count && count < U32_LIMIT && b == Counted(count, items) + rest
  {
    var (count, items, rest) := TakeList(b, size).value;
    FromLERange(b[..4]);
    Widths();
    WriteRead(b[..4]);
    assert b == b[..4] + items + rest;
  }

  /**
    The instructions Rust can hold: names are valid UTF-8 (`utf8` decides that)
    and no list is longer than a u32 can say.
   */
  predicate Encodable(ix: Instruction, utf8: seq<byte> -> bool) {
    match ix
    case CreateSplitter(_, name) => utf8(name) && |name| < U32_LIMIT
    case SetSplitterDistribution(recipients) => |recipients| < U32_LIMIT
    case SetSplitterName(name) => utf8(name) && |name| < U32_LIMIT
    case SetSellConfig(mints, programs) => |mints| < U32_LIMIT && |programs| < U32_LIMIT
    case SwapToken(data) => |data| < U32_LIMIT
    case SnsProxy(data) => |data| < U32_LIMIT
    case _ => true
  }

  function EncodeInstruction(ix: Instruction): seq<byte> {
    match ix
    case CreateSplitter(nonce, name) => [0] + (LE(nonce, 8) + Counted(|name|, name))
    case SetSplitterDistribution(es) => [1] + Counted(|es|, PutShares(es))
    case SetSplitterAdmin(k) => [2] + k.bytes
    case RevokeSplitterAdmin => [3]
    case DistributeSOL => [4]
    case DistributeToken => [5]
    case LockRecipient(m) => [6] + LE(m, 2)
    case SetSplitterName(name) => [7] + Counted(|name|, name)
    case SetSellConfig(mints, programs) =>
      [8] + (Counted(|mints|, PutKeys(mints)) + Counted(|programs|, PutKeys(programs)))
    case CloseSellConfig => [9]
    case SwapToken(data) => [10] + Counted(|data|, data)
    case SnsProxy(data) => [11] + Counted(|data|, data)
  }

  /** A counted byte string that ends the input. */
  function LastBlob(b: seq<byte>): Option<seq<byte>> {
    match TakeList(b, 1)
    case None => None
    case Some((_, items, rest)) => if rest == [] then Some(items) else None
  }

  function DecodeBody(tag: byte, b: seq<byte>, utf8: seq<byte> -> bool): Option<Instruction> {
    match tag
    case 0 =>
      if |b| < 8 then None else
        (match LastBlob(b[8..])
         case None => None
         case Some(name) => if utf8(name) then Some(CreateSplitter(ReadU64(b[..8]), name)) else None)
    case 1 =>
      (match TakeList(b, 34)
       case None => None
       case Some((count, items, rest)) =>
         if rest == [] then Some(SetSplitterDistribution(GetShares(items, count))) else None)
    case 2 => if |b| == 32 then Some(SetSplitterAdmin(Key(b))) else None
    case 3 => if b == [] then Some(RevokeSplitterAdmin) else None
    case 4 => if b == [] then Some(DistributeSOL) else None
    case 5 => if b == [] then Some(DistributeToken) else None
    case 6 => if |b| == 2 then Some(LockRecipient(ReadU16(b))) else None
    case 7 =>
      (match LastBlob(b)
       case None => None
       case Some(name) => if utf8(name) then Some(SetSplitterName(name)) else None)
    case 8 =>
      (match TakeList(b, 32)
       case None => None
       case Some((n, mints, more)) =>
         match TakeList(more, 32)
         case None => None
         case Some((m, programs, rest)) =>
           if rest == [] then Some(SetSellConfig(GetKeys(mints, n), GetKeys(programs, m))) else None)
    case 9 => if b == [] then Some(CloseSellConfig) else None
    case 10 => (match LastBlob(b) case None => None case Some(data) => Some(SwapToken(data)))
    case 11 => (match LastBlob(b) case None => None case Some(data) => Some(SnsProxy(data)))
    case _ => None
  }

  /** `SplitterInstruction::try_from_slice`: every byte must be used. */
  function DecodeInstruction(b: seq<byte>, utf8: seq<byte> -> bool): Option<Instruction> {
    if b == [] then None else DecodeBody(b[0], b[1..], utf8)
  }

  lemma LastBlobRoundTrip(data: seq<byte>)
    requires |data| < U32_LIMIT
    ensures LastBlob(Counted(|data|, data)) == Some(data)
  {
    hide Counted, TakeList;
    TakeListRoundTrip(|data|, data, [], 1);
    assert Counted(|data|, data) + [] == Counted(|data|, data);
  }

  lemma LastBlobCanonical(b: seq<byte>)
    requires LastBlob(b).Some?
    ensures var data := LastBlob(b).value; |data| < U32_LIMIT && b == Counted(|data|, data)
  {
    hide Counted, TakeList;
    TakeListCanonical(b, 1);
  }

  lemma CreateRoundTrip(nonce: u64, name: seq<byte>)
    requires |name| < U32_LIMIT
    ensures var b := LE(nonce, 8) + Counted(|name|, name);
            ReadU64(b[..8]) == nonce && LastBlob(b[8..]) == Some(name)
  {
    hide Counted, LastBlob, LE, FromLE, Pow256;
    Widths();
    ReadWritten(nonce, 8);
    LastBlobRoundTrip(name);
    var b := LE(nonce, 8) + Counted(|name|, name);
    assert b[..8] == LE(nonce, 8) && b[8..] == Counted(|name|, name);
  }

  lemma ListsRoundTrip(mints: seq<Key>, programs: seq<Key>)
    requires |mints| < U32_LIMIT && |programs| < U32_LIMIT
    ensures var last := Counted(|programs|, PutKeys(programs));
            && TakeList(Counted(|mints|, PutKeys(mints)) + last, 32) == Some((|mints|, PutKeys(mints), last))
            && TakeList(last, 32) == Some((|programs|, PutKeys(programs), []))
            && GetKeys(PutKeys(mints), |mints|) == mints && GetKeys(PutKeys(programs), |programs|) == programs
  {
    hide Counted, TakeList, PutKeys, GetKeys;
    var last := Counted(|programs|, PutKeys(programs));
    TakeListRoundTrip(|mints|, PutKeys(mints), last, 32);
    TakeListRoundTrip(|programs|, PutKeys(programs), [], 32);
    assert last + [] == last;
    KeysRoundTrip(mints);
    KeysRoundTrip(programs);
  }

  lemma DistributionRoundTrip(es: seq<Share>)
    requires |es| < U32_LIMIT
    ensures TakeList(Counted(|es|, PutShares(es)), 34) == Some((|es|, PutShares(es), []))
    ensures GetShares(PutShares(es), |es|) == es
  {
    hide Counted, TakeList, PutShares, GetShares;
    TakeListRoundTrip(|es|, PutShares(es), [], 34);
    assert Counted(|es|, PutShares(es)) + [] == Counted(|es|, PutShares(es));
    SharesRoundTrip(es);
  }

  /** Decoding an encoded instruction returns it. */
  lemma InstructionRoundTrip(ix: Instruction, utf8: seq<byte> -> bool)
    requires Encodable(ix, utf8)
    ensures DecodeInstruction(EncodeInstruction(ix), utf8) == Some(ix)
  {
    hide Counted, TakeList, LastBlob, LE, FromLE, Pow256, PutKeys, GetKeys, PutShares, GetShares;
    var b := EncodeInstruction(ix);
    assert b == [b[0]] + b[1..];
    if ix.CreateSplitter? {
      CreateRoundTrip(ix.nonce, ix.name);
      assert b[1..] == LE(ix.nonce, 8) + Counted(|ix.name|, ix.name);
    } else if ix.SetSplitterDistribution? {
      DistributionRoundTrip(ix.recipients);
    } else if ix.SetSplitterName? {
      LastBlobRoundTrip(ix.name);
    } else if ix.SetSellConfig? {
      ListsRoundTrip(ix.mints, ix.programs);
    } else if ix.SwapToken? {
      LastBlobRoundTrip(ix.swapData);
    } else if ix.SnsProxy? {
      LastBlobRoundTrip(ix.snsData);
    } else if ix.LockRecipient? {
      Widths();
      ReadWritten(ix.minShare, 2);
    }
  }

  lemma CreateCanonical(b: seq<byte>)
    requires |b| >= 8 && LastBlob(b[8..]).Some?
    ensures var name := LastBlob(b[8..]).value;
            |name| < U32_LIMIT && b == LE(ReadU64(b[..8]), 8) + Counted(|name|, name)
  {
    hide Counted, LastBlob, LE, FromLE, Pow256;
    WriteRead(b[..8]);
    LastBlobCanonical(b[8..]);
    assert b == b[..8] + b[8..];
  }

  lemma ListsCanonical(b: seq<byte>)
    requires TakeList(b, 32).Some? && TakeList(TakeList(b, 32).value.2, 32).Some?
    requires TakeList(TakeList(b, 32).value.2, 32).value.2 == []
    ensures var (n, first, more) := TakeList(b, 32).value;
            var (m, second, rest) := TakeList(more, 32).value;
            && n < U32_LIMIT && m < U32_LIMIT && |first| == 32 * n && |second| == 32 * m
            && b == Counted(n, PutKeys(GetKeys(first, n))) + Counted(m, PutKeys(GetKeys(second, m)))
  {
    hide Counted, TakeList, PutKeys, GetKeys;
    TakeListCanonical(b, 32);
    var (n, first, more) := TakeList(b, 32).value;
    TakeListCanonical(more, 32);
    var (m, second, rest) := TakeList(more, 32).value;
    KeysCanonical(first, n);
    KeysCanonical(second, m);
    assert more == Counted(m, second);
  }

  lemma DistributionCanonical(b: seq<byte>)
    requires TakeList(b, 34).Some? && TakeList(b, 34).value.2 == []
    ensures var (n, items, rest) := TakeList(b, 34).value;
            n < U32_LIMIT && |items| == 34 * n && b == Counted(n, PutShares(GetShares(items, n)))
  {
    hide Counted, TakeList, PutShares, GetShares;
    TakeListCanonical(b, 34);
    var (n, items, rest) := TakeList(b, 34).value;
    SharesCanonical(items, n);
  }

  /** Every accepted byte string is the encoding of its result, so nothing may trail it. */
  lemma InstructionCanonical(b: seq<byte>, utf8: seq<byte> -> bool)
    requires DecodeInstruction(b, utf8).Some?
    ensures var ix := DecodeInstruction(b, utf8).value; Encodable(ix, utf8) && EncodeInstruction(ix) == b
  {
    hide Counted, TakeList, LastBlob, LE, FromLE, Pow256, PutKeys, GetKeys, PutShares, GetShares;
    var body := b[1..];
    assert b == [b[0]] + body;
    var ix := DecodeInstruction(b, utf8).value;
    if ix.CreateSplitter? {
      CreateCanonical(body);
    } else if ix.SetSplitterDistribution? {
      DistributionCanonical(body);
    } else if ix.LockRecipient? {
      WriteRead(body);
    } else if ix.SetSellConfig? {
      ListsCanonical(body);
    } else if ix.SetSplitterName? || ix.SwapToken? || ix.SnsProxy? {
      LastBlobCanonical(body);
    }
  }

  // ------------------------------------------------------------------ events

  const DISTRIBUTION_DISCRIMINATOR: Bytes8 := [0xa7, 0x3e, 0x5c, 0x1d, 0x8b, 0x4f, 0x2a, 0x69]

  datatype Event = Event(splitter: Key, recipient: Key, amount: u64, isToken: bool)

  function EncodeEvent(e: Event): (b: seq<byte>)
    ensures |b| == 81
  {
    DISTRIBUTION_DISCRIMINATOR + e.splitter.bytes + e.recipient.bytes + LE(e.amount, 8)
    + [if e.isToken then 1 else 0]
  }

  /** What an indexer reads out of an 81-byte record. */
  function DecodeEvent(b: seq<byte>): Option<Event> {
    if |b| != 81 || b[..8] != DISTRIBUTION_DISCRIMINATOR || b[80] > 1 then None
    else Some(Event(Key(b[8..40]), Key(b[40..72]), ReadU64(b[72..80]), b[80] == 1))
  }

  lemma EventLayout(discriminator: Bytes8, splitter: Bytes32, recipient: Bytes32, amount: Bytes8, last: byte)
    ensures var b := discriminator + splitter + recipient + amount + [last];
            && b[..8] == discriminator && b[8..40] == splitter && b[40..72] == recipient
            && b[72..80] == amount && b[80] == last
  {
  }

  lemma EventRoundTrip(e: Event)
    ensures DecodeEvent(EncodeEvent(e)) == Some(e)
  {
    Widths();
    ReadWritten(e.amount, 8);
    EventLayout(DISTRIBUTION_DISCRIMINATOR, e.splitter.bytes, e.recipient.bytes, LE(e.amount, 8),
                if e.isToken then 1 else 0);
  }
}
