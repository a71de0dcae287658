/**
  Where every byte of the wire formats lies: numbers byte by byte, fields by
  offset. Nothing here mentions an encoder except to be compared with it.
 */
module Wire {
  import opened Base
  import opened Records
  import opened Borsh

  /** `s` lies at offset `at`. */
  predicate BytesAt(b: seq<byte>, at: nat, s: seq<byte>) {
    at + |s| <= |b| && b[at..at + |s|] == s
  }

  /** `n` lies at offset `at` in `w` bytes, least significant first. */
  predicate IntAt(b: seq<byte>, at: nat, w: nat, n: nat) {
    at + w <= |b| && forall i :: 0 <= i < w ==> b[at + i] == n / Pow256(i) % 256
  }

  /** Byte i of a little-endian number is its i-th digit to the base 256. */
  lemma {:induction false} LEDigit(n: nat, w: nat, i: nat)
    requires i < w
    ensures LE(n, w)[i] == n / Pow256(i) % 256
  {
    if i > 0 {
      LEDigit(n / 256, w - 1, i - 1);
      DivDiv(n, Pow256(i - 1));
    }
  }

  lemma DivDiv(n: nat, p: nat)
    requires p > 0
    ensures n / 256 / p == n / (256 * p)
  {
    var q, r := n / 256 / p, n / 256 % p;
    assert n == 256 * (q * p + r) + n % 256;
    assert 256 * r + n % 256 < 256 * p;
    DivUnique(n, 256 * p, q, 256 * r + n % 256);
  }

  lemma DivUnique(n: nat, d: nat, q: nat, r: nat)
    requires d > 0 && r < d && n == q * d + r
    ensures n / d == q
  {
    var e := n / d - q;
    assert n == (n / d) * d + n % d;
    assert e * d == r - n % d;
    if e != 0 {
      FarFromZero(e, d);
    }
  }

  lemma FarFromZero(e: int, d: nat)
    requires e != 0
    ensures e * d >= d || e * d + d <= 0
  {
    if e > 0 {
      assert (e - 1) * d >= 0;
    } else {
      assert (-e - 1) * d >= 0;
    }
  }

  lemma IntAtExactly(b: seq<byte>, at: nat, w: nat, n: nat)
    ensures IntAt(b, at, w, n) <==> BytesAt(b, at, LE(n, w))
  {
    hide LE, Pow256;
    if at + w <= |b| {
      forall i | 0 <= i < w
        ensures LE(n, w)[i] == n / Pow256(i) % 256
        ensures b[at..at + w][i] == b[at + i]
      {
        LEDigit(n, w, i);
      }
      if IntAt(b, at, w, n) {
        assert b[at..at + w] == LE(n, w);
      }
      if BytesAt(b, at, LE(n, w)) {
        forall i | 0 <= i < w ensures b[at + i] == n / Pow256(i) % 256 {
          assert b[at + i] == LE(n, w)[i];
        }
      }
    }
  }

  // ------------------------------------------------------------------- lists

  /** `ks` lie one after the other from offset `at` on. */
  predicate KeysAt(b: seq<byte>, at: nat, ks: seq<Key>) {
    at + 32 * |ks| <= |b| && forall i :: 0 <= i < |ks| ==> BytesAt(b, at + 32 * i, ks[i].bytes)
  }

  /** Address, then share, 34 bytes for each entry. */
  predicate SharesAt(b: seq<byte>, at: nat, es: seq<Share>) {
    && at + 34 * |es| <= |b|
    && forall i :: 0 <= i < |es| ==> BytesAt(b, at + 34 * i, es[i].to.bytes) && IntAt(b, at + 34 * i + 32, 2, es[i].units)
  }

  /** Address, share and lock, 36 bytes for each of the ten slots. */
  predicate TableAt(b: seq<byte>, at: nat, t: Table) {
    && at + 360 <= |b|
    && forall i :: 0 <= i < 10 ==>
         && BytesAt(b, at + 36 * i, t[i].address.bytes)
         && IntAt(b, at + 36 * i + 32, 2, t[i].share)
         && IntAt(b, at + 36 * i + 34, 2, t[i].lockedShare)
  }

  /** Joined items are the bytes with every item in its place. */
  lemma JoinedExactly(b: seq<byte>, parts: seq<seq<byte>>, size: nat)
    requires |b| == size * |parts| && forall i :: 0 <= i < |parts| ==> |parts[i]| == size
    ensures b == Join(parts) <==> forall i :: 0 <= i < |parts| ==> ItemAt(b, size, i, parts[i])
  {
    hide Join;
    CutJoin(parts, size);
    JoinCut(b, size, |parts|);
    forall i | 0 <= i < |parts|
      ensures ItemAt(b, size, i, parts[i]) <==> Cut(b, size, |parts|)[i] == parts[i]
    {
      CutAt(b, size, |parts|, i);
    }
    if forall i :: 0 <= i < |parts| ==> ItemAt(b, size, i, parts[i]) {
      assert Cut(b, size, |parts|) == parts;
    }
  }

  predicate ItemAt(b: seq<byte>, size: nat, i: nat, item: seq<byte>) {
    0 <= size * i <= size * i + size <= |b| && b[size * i..size * i + size] == item
  }

  lemma Inside(b: seq<byte>, at: nat, n: nat, lo: nat, hi: nat)
    requires at + n <= |b| && lo <= hi <= n
    ensures b[at..at + n][lo..hi] == b[at + lo..at + hi]
  {
    var x, y := b[at..at + n][lo..hi], b[at + lo..at + hi];
    assert |x| == |y|;
    forall i | 0 <= i < |x| ensures x[i] == y[i] {
      assert x[i] == b[at..at + n][lo + i] == b[at + lo + i];
    }
  }

  lemma KeysExactly(b: seq<byte>, at: nat, ks: seq<Key>)
    ensures KeysAt(b, at, ks) <==> BytesAt(b, at, PutKeys(ks))
  {
    hide Join;
    if at + 32 * |ks| <= |b| {
      var slice := b[at..at + 32 * |ks|];
      JoinedExactly(slice, KeyParts(ks), 32);
      forall i | 0 <= i < |ks|
        ensures BytesAt(b, at + 32 * i, ks[i].bytes) <==> ItemAt(slice, 32, i, KeyParts(ks)[i])
      {
        Inside(b, at, |slice|, 32 * i, 32 * i + 32);
      }
    }
  }

  lemma ShareExactly(b: seq<byte>, at: nat, e: Share)
    ensures BytesAt(b, at, e.to.bytes) && IntAt(b, at + 32, 2, e.units) <==> BytesAt(b, at, PutShare(e))
  {
    hide LE;
    IntAtExactly(b, at + 32, 2, e.units);
    if at + 34 <= |b| {
      assert b[at..at + 34] == b[at..at + 32] + b[at + 32..at + 34];
      assert PutShare(e)[..32] == e.to.bytes && PutShare(e)[32..] == LE(e.units, 2);
      assert b[at..at + 34][..32] == b[at..at + 32] && b[at..at + 34][32..] == b[at + 32..at + 34];
    }
  }

  lemma SharesExactly(b: seq<byte>, at: nat, es: seq<Share>)
    ensures SharesAt(b, at, es) <==> BytesAt(b, at, PutShares(es))
  {
    hide Join, PutShare, IntAt;
    if at + 34 * |es| <= |b| {
      var slice := b[at..at + 34 * |es|];
      JoinedExactly(slice, ShareParts(es), 34);
      forall i | 0 <= i < |es|
        ensures BytesAt(b, at + 34 * i, es[i].to.bytes) && IntAt(b, at + 34 * i + 32, 2, es[i].units)
                <==> ItemAt(slice, 34, i, ShareParts(es)[i])
      {
        ShareExactly(b, at + 34 * i, es[i]);
        Inside(b, at, |slice|, 34 * i, 34 * i + 34);
      }
    }
  }

  lemma RecipientExactly(b: seq<byte>, at: nat, r: Recipient)
    ensures BytesAt(b, at, r.address.bytes) && IntAt(b, at + 32, 2, r.share) && IntAt(b, at + 34, 2, r.lockedShare)
            <==> BytesAt(b, at, PutRecipient(r))
  {
    hide LE;
    IntAtExactly(b, at + 32, 2, r.share);
    IntAtExactly(b, at + 34, 2, r.lockedShare);
    if at + 36 <= |b| {
      var p, s := PutRecipient(r), b[at..at + 36];
      assert s[..32] == b[at..at + 32] && s[32..34] == b[at + 32..at + 34] && s[34..] == b[at + 34..at + 36];
      assert p[..32] == r.address.bytes && p[32..34] == LE(r.share, 2) && p[34..] == LE(r.lockedShare, 2);
      assert s == s[..32] + s[32..34] + s[34..] && p == p[..32] + p[32..34] + p[34..];
    }
  }

  lemma TableExactly(b: seq<byte>, at: nat, t: Table)
    ensures TableAt(b, at, t) <==> BytesAt(b, at, PutTable(t))
  {
    hide Join, PutRecipient, IntAt;
    if at + 360 <= |b| {
      var slice := b[at..at + 360];
      JoinedExactly(slice, RecipientParts(t), 36);
      forall i | 0 <= i < 10
        ensures BytesAt(b, at + 36 * i, t[i].address.bytes) && IntAt(b, at + 36 * i + 32, 2, t[i].share)
                && IntAt(b, at + 36 * i + 34, 2, t[i].lockedShare)
                <==> ItemAt(slice, 36, i, RecipientParts(t)[i])
      {
        RecipientExactly(b, at + 36 * i, t[i]);
        Inside(b, at, |slice|, 36 * i, 36 * i + 36);
      }
    }
  }

  // ------------------------------------------------------------ instructions

  /** A four-byte count, then the keys. */
  predicate KeyListAt(b: seq<byte>, at: nat, ks: seq<Key>) {
    IntAt(b, at, 4, |ks|) && KeysAt(b, at + 4, ks)
  }

  /** A number byte, then a four-byte length and that many bytes. */
  predicate BlobWire(b: seq<byte>, variant: byte, data: seq<byte>) {
    |b| == 5 + |data| && b[0] == variant && IntAt(b, 1, 4, |data|) && BytesAt(b, 5, data)
  }

  /** The bytes of each instruction: the number of its variant first, then its fields. */
  predicate InstructionWire(b: seq<byte>, ix: Instruction) {
    match ix
    case CreateSplitter(nonce, name) =>
      |b| == 13 + |name| && b[0] == 0 && IntAt(b, 1, 8, nonce) && IntAt(b, 9, 4, |name|) && BytesAt(b, 13, name)
    case SetSplitterDistribution(es) =>
      |b| == 5 + 34 * |es| && b[0] == 1 && IntAt(b, 1, 4, |es|) && SharesAt(b, 5, es)
    case SetSplitterAdmin(newAdmin) => |b| == 33 && b[0] == 2 && BytesAt(b, 1, newAdmin.bytes)
    case RevokeSplitterAdmin => b == [3]
    case DistributeSOL => b == [4]
    case DistributeToken => b == [5]
    case LockRecipient(minShare) => |b| == 3 && b[0] == 6 && IntAt(b, 1, 2, minShare)
    case SetSplitterName(name) => BlobWire(b, 7, name)
    case SetSellConfig(mints, programs) =>
      && |b| == 9 + 32 * |mints| + 32 * |programs| && b[0] == 8
      && KeyListAt(b, 1, mints) && KeyListAt(b, 5 + 32 * |mints|, programs)
    case CloseSellConfig => b == [9]
    case SwapToken(data) => BlobWire(b, 10, data)
    case SnsProxy(data) => BlobWire(b, 11, data)
  }

  /** A number byte and `rest`. */
  lemma Tagged(b: seq<byte>, tag: byte, rest: seq<byte>)
    ensures b == [tag] + rest <==> |b| == 1 + |rest| && b[0] == tag && BytesAt(b, 1, rest)
  {
    if |b| == 1 + |rest| {
      assert b == [b[0]] + b[1..];
      assert b[1..1 + |rest|] == b[1..];
    }
  }

  lemma Two(b: seq<byte>, at: nat, x: seq<byte>, y: seq<byte>)
    ensures BytesAt(b, at, x + y) <==> BytesAt(b, at, x) && BytesAt(b, at + |x|, y)
  {
    if at + |x| + |y| <= |b| {
      var s := b[at..at + |x| + |y|];
      assert s[..|x|] == b[at..at + |x|] && s[|x|..] == b[at + |x|..at + |x| + |y|];
      assert (x + y)[..|x|] == x && (x + y)[|x|..] == y;
      assert s == s[..|x|] + s[|x|..];
    }
  }

  lemma CountedExactly(b: seq<byte>, at: nat, count: nat, items: seq<byte>)
    ensures BytesAt(b, at, Counted(count, items)) <==> IntAt(b, at, 4, count) && BytesAt(b, at + 4, items)
  {
    hide LE, IntAt;
    Two(b, at, LE(count, 4), items);
    IntAtExactly(b, at, 4, count);
  }

  lemma BlobExactly(b: seq<byte>, variant: byte, data: seq<byte>)
    ensures BlobWire(b, variant, data) <==> b == [variant] + Counted(|data|, data)
  {
    hide LE, IntAt;
    Tagged(b, variant, Counted(|data|, data));
    CountedExactly(b, 1, |data|, data);
    assert |Counted(|data|, data)| == 4 + |data|;
  }

  lemma CreateExactly(b: seq<byte>, nonce: u64, name: seq<byte>)
    ensures InstructionWire(b, CreateSplitter(nonce, name)) <==> b == EncodeInstruction(CreateSplitter(nonce, name))
  {
    hide LE, IntAt;
    Tagged(b, 0, LE(nonce, 8) + Counted(|name|, name));
    Two(b, 1, LE(nonce, 8), Counted(|name|, name));
    CountedExactly(b, 9, |name|, name);
    IntAtExactly(b, 1, 8, nonce);
    assert |Counted(|name|, name)| == 4 + |name|;
  }

  lemma SetSellConfigExactly(b: seq<byte>, mints: seq<Key>, programs: seq<Key>)
    ensures InstructionWire(b, SetSellConfig(mints, programs)) <==> b == EncodeInstruction(SetSellConfig(mints, programs))
  {
    hide Counted, KeyListAt, PutKeys, BytesAt;
    var first, last := Counted(|mints|, PutKeys(mints)), Counted(|programs|, PutKeys(programs));
    CountedLength(|mints|, PutKeys(mints));
    CountedLength(|programs|, PutKeys(programs));
    Tagged(b, 8, first + last);
    Two(b, 1, first, last);
    KeyListExactly(b, 1, mints);
    KeyListExactly(b, 1 + |first|, programs);
  }

  lemma KeyListExactly(b: seq<byte>, at: nat, ks: seq<Key>)
    ensures KeyListAt(b, at, ks) <==> BytesAt(b, at, Counted(|ks|, PutKeys(ks)))
  {
    hide Counted, IntAt, KeysAt, PutKeys, BytesAt;
    CountedExactly(b, at, |ks|, PutKeys(ks));
    KeysExactly(b, at + 4, ks);
  }

  /** Exactly these bytes are what an instruction encodes to, variant by variant. */
  lemma InstructionBytes(b: seq<byte>, ix: Instruction)
    ensures InstructionWire(b, ix) <==> b == EncodeInstruction(ix)
  {
    hide LE, IntAt, SharesAt, PutShares, Counted;
    match ix {
      case CreateSplitter(nonce, name) => CreateExactly(b, nonce, name);
      case SetSplitterDistribution(es) =>
        Tagged(b, 1, Counted(|es|, PutShares(es)));
        CountedExactly(b, 1, |es|, PutShares(es));
        SharesExactly(b, 5, es);
        CountedLength(|es|, PutShares(es));
      case SetSplitterAdmin(newAdmin) => Tagged(b, 2, newAdmin.bytes);
      case LockRecipient(minShare) =>
        Tagged(b, 6, LE(minShare, 2));
        IntAtExactly(b, 1, 2, minShare);
      case SetSplitterName(name) => BlobExactly(b, 7, name);
      case SetSellConfig(mints, programs) => SetSellConfigExactly(b, mints, programs);
      case SwapToken(data) => BlobExactly(b, 10, data);
      case SnsProxy(data) => BlobExactly(b, 11, data);
      case _ =>
    }
  }

  lemma CountedLength(count: nat, items: seq<byte>)
    ensures |Counted(count, items)| == 4 + |items|
  {
  }

  /** So the program runs an instruction exactly on its wire bytes. */
  lemma WireIsDecoded(b: seq<byte>, ix: Instruction, utf8: seq<byte> -> bool)
    ensures DecodeInstruction(b, utf8) == Some(ix) <==> Encodable(ix, utf8) && InstructionWire(b, ix)
  {
    hide DecodeInstruction, EncodeInstruction, InstructionWire, Encodable;
    InstructionBytes(b, ix);
    if Encodable(ix, utf8) && InstructionWire(b, ix) {
      InstructionRoundTrip(ix, utf8);
    }
    if DecodeInstruction(b, utf8) == Some(ix) {
      InstructionCanonical(b, utf8);
    }
  }

  // ---------------------------------------------------------------- accounts

  predicate SplitterWire(b: seq<byte>, s: Splitter) {
    && |b| == 507
    && BytesAt(b, 0, s.discriminator)
    && BytesAt(b, 8, s.creator.bytes)
    && BytesAt(b, 40, s.admin.bytes)
    && IntAt(b, 72, 8, s.nonce)
    && b[80] == s.bump
    && b[81] == s.numRecipients
    && TableAt(b, 82, s.recipients)
    && b[442] == s.nameLen
    && BytesAt(b, 443, s.name)
  }

  lemma SplitterBytes(b: seq<byte>, s: Splitter)
    ensures DecodeSplitter(b) == Some(s) <==> SplitterWire(b, s)
  {
    hide LE, IntAt, TableAt, PutTable, EncodeSplitter, DecodeSplitter;
    IntAtExactly(b, 72, 8, s.nonce);
    TableExactly(b, 82, s.recipients);
    SplitterFields(b, s);
    SplitterRoundTrip(s);
    if DecodeSplitter(b) == Some(s) {
      assert |b| == SPLITTER_LEN by {
        DecodedLength(b);
      }
      SplitterCanonical(b);
    }
  }

  lemma DecodedLength(b: seq<byte>)
    ensures DecodeSplitter(b).Some? ==> |b| == SPLITTER_LEN
  {
  }

  lemma SplitterFields(b: seq<byte>, s: Splitter)
    ensures b == EncodeSplitter(s) <==>
            && |b| == 507
            && BytesAt(b, 0, s.discriminator) && BytesAt(b, 8, s.creator.bytes) && BytesAt(b, 40, s.admin.bytes)
            && BytesAt(b, 72, LE(s.nonce, 8)) && b[80] == s.bump && b[81] == s.numRecipients
            && BytesAt(b, 82, PutTable(s.recipients)) && b[442] == s.nameLen && BytesAt(b, 443, s.name)
  {
    hide LE, PutTable;
    SplitterLayout(s.discriminator, s.creator.bytes, s.admin.bytes, LE(s.nonce, 8), s.bump, s.numRecipients,
                   PutTable(s.recipients), s.nameLen, s.name);
    if |b| == 507 {
      assert b == b[0..8] + b[8..40] + b[40..72] + b[72..80] + [b[80]] + [b[81]] + b[82..442] + [b[442]] + b[443..507];
    }
  }

  predicate SellConfigWire(b: seq<byte>, c: SellConfig) {
    && |b| == 523
    && BytesAt(b, 0, c.discriminator)
    && BytesAt(b, 8, c.splitter.bytes)
    && b[40] == c.numWhitelisted
    && KeysAt(b, 41, c.whitelistedMints)
    && b[361] == c.numApprovedPrograms
    && KeysAt(b, 362, c.approvedPrograms)
    && b[522] == c.bump
  }

  lemma SellConfigBytes(b: seq<byte>, c: SellConfig)
    ensures DecodeSellConfig(b) == Some(c) <==> SellConfigWire(b, c)
  {
    hide KeysAt, PutKeys, EncodeSellConfig, DecodeSellConfig;
    KeysExactly(b, 41, c.whitelistedMints);
    KeysExactly(b, 362, c.approvedPrograms);
    SellConfigFields(b, c);
    SellConfigRoundTrip(c);
    if DecodeSellConfig(b) == Some(c) {
      assert |b| == SELL_CONFIG_LEN by {
        DecodedConfigLength(b);
      }
      SellConfigCanonical(b);
    }
  }

  lemma DecodedConfigLength(b: seq<byte>)
    ensures DecodeSellConfig(b).Some? ==> |b| == SELL_CONFIG_LEN
  {
  }

  lemma SellConfigFields(b: seq<byte>, c: SellConfig)
    ensures b == EncodeSellConfig(c) <==>
            && |b| == 523
            && BytesAt(b, 0, c.discriminator) && BytesAt(b, 8, c.splitter.bytes) && b[40] == c.numWhitelisted
            && BytesAt(b, 41, PutKeys(c.whitelistedMints)) && b[361] == c.numApprovedPrograms
            && BytesAt(b, 362, PutKeys(c.approvedPrograms)) && b[522] == c.bump
  {
    hide PutKeys;
    var e := EncodeSellConfig(c);
    assert e[0..8] == c.discriminator && e[8..40] == c.splitter.bytes && e[41..361] == PutKeys(c.whitelistedMints);
    assert e[362..522] == PutKeys(c.approvedPrograms);
    if |b| == 523 {
      assert b == b[0..8] + b[8..40] + [b[40]] + b[41..361] + [b[361]] + b[362..522] + [b[522]];
    }
  }

  // ------------------------------------------------------------------ events

  predicate EventWire(b: seq<byte>, e: Event) {
    && |b| == 81
    && BytesAt(b, 0, DISTRIBUTION_DISCRIMINATOR)
    && BytesAt(b, 8, e.splitter.bytes)
    && BytesAt(b, 40, e.recipient.bytes)
    && IntAt(b, 72, 8, e.amount)
    && b[80] == if e.isToken then 1 else 0
  }

  lemma EventBytes(b: seq<byte>, e: Event)
    ensures b == EncodeEvent(e) <==> EventWire(b, e)
  {
    hide LE, IntAt;
    IntAtExactly(b, 72, 8, e.amount);
    EventLayout(DISTRIBUTION_DISCRIMINATOR, e.splitter.bytes, e.recipient.bytes, LE(e.amount, 8),
                if e.isToken then 1 else 0);
    if |b| == 81 {
      assert b == b[0..8] + b[8..40] + b[40..72] + b[72..80] + [b[80]];
    }
  }
}
