/**
  The two account records, the instruction set, and what each instruction does
  to a splitter record. Nothing here knows about bytes or balances.
 */
module Records {
  import opened Base
  import opened Ledgers

  const MAX_RECIPIENTS: nat := 10
  const MAX_NAME_LEN: nat := 64
  const MAX_WHITELIST: nat := 10
  const MAX_APPROVED_PROGRAMS: nat := 5

  const SPLITTER_DISCRIMINATOR: Bytes8 := [0xf1, 0x3a, 0x7c, 0x5e, 0x2b, 0x8d, 0x4f, 0x91]
  const SELL_CONFIG_DISCRIMINATOR: Bytes8 := [0xb2, 0x4d, 0x6a, 0x1f, 0x8c, 0x3e, 0x57, 0xa0]

  /** One `(address, share)` pair of a requested distribution. */
  type Share = e: Entry | e.units < 0x1_0000 witness Entry(DEFAULT_KEY, 0)

  datatype Instruction =
    | CreateSplitter(nonce: u64, name: seq<byte>)
    | SetSplitterDistribution(recipients: seq<Share>)
    | SetSplitterAdmin(newAdmin: Key)
    | RevokeSplitterAdmin
    | DistributeSOL
    | DistributeToken
    | LockRecipient(minShare: u16)
    | SetSplitterName(name: seq<byte>)
    | SetSellConfig(mints: seq<Key>, programs: seq<Key>)
    | CloseSellConfig
    | SwapToken(swapData: seq<byte>)
    | SnsProxy(snsData: seq<byte>)

  // ---------------------------------------------------------------- records

  datatype Recipient = Recipient(address: Key, share: u16, lockedShare: u16)

  const NO_RECIPIENT: Recipient := Recipient(DEFAULT_KEY, 0, 0)

  type Table = t: seq<Recipient> | |t| == 10 witness seq(10, _ => NO_RECIPIENT)

  datatype Splitter = Splitter(
    discriminator: Bytes8,
    creator: Key,
    admin: Key,
    nonce: u64,
    bump: byte,
    numRecipients: byte,
    recipients: Table,
    nameLen: byte,
    name: Bytes64)
  {
    /** The slots the handlers' `0..num_recipients` loops can visit before they trap. */
    function Active(): seq<Recipient> {
      if numRecipients <= 10 then recipients[..numRecipients] else recipients
    }
  }

  type Mints = t: seq<Key> | |t| == 10 witness seq(10, _ => DEFAULT_KEY)
  type Programs = t: seq<Key> | |t| == 5 witness seq(5, _ => DEFAULT_KEY)

  datatype SellConfig = SellConfig(
    discriminator: Bytes8,
    splitter: Key,
    numWhitelisted: byte,
    whitelistedMints: Mints,
    numApprovedPrograms: byte,
    approvedPrograms: Programs,
    bump: byte)

  // ------------------------------------------------------------------ locks

  /** The first slot with this address, or the length of the table. */
  function FirstMatch(rs: seq<Recipient>, a: Key): (j: nat)
    ensures j <= |rs|
    ensures forall i :: 0 <= i < j ==> rs[i].address != a
    ensures j < |rs| ==> rs[j].address == a
  {
    if rs == [] then 0
    else if rs[0].address == a then 0
    else 1 + FirstMatch(rs[1..], a)
  }

  /** The lock a reconfiguration carries over: the first match's. */
  function FirstLock(rs: seq<Recipient>, a: Key): u16 {
    var j := FirstMatch(rs, a);
    if j < |rs| then rs[j].lockedShare else 0
  }

  /** The guarantee an address has been given: the largest lock of any of its entries. */
  function EffectiveLock(rs: seq<Recipient>, a: Key): u16 {
    if rs == [] then 0 else
      var rest := EffectiveLock(rs[1..], a);
      if rs[0].address == a && rs[0].lockedShare > rest then rs[0].lockedShare else rest
  }

  function LockSum(rs: seq<Recipient>): nat {
    if rs == [] then 0 else rs[0].lockedShare + LockSum(rs[1..])
  }

  ghost predicate Listed(rs: seq<Recipient>, a: Key) {
    exists i :: 0 <= i < |rs| && rs[i].address == a
  }

  lemma {:induction false} EffectiveLockIsMax(rs: seq<Recipient>, a: Key)
    ensures forall i :: 0 <= i < |rs| && rs[i].address == a ==> rs[i].lockedShare <= EffectiveLock(rs, a)
    ensures EffectiveLock(rs, a) > 0 ==>
              exists i :: 0 <= i < |rs| && rs[i].address == a && rs[i].lockedShare == EffectiveLock(rs, a)
  {
    if rs != [] {
      EffectiveLockIsMax(rs[1..], a);
      forall i | 0 <= i < |rs| && rs[i].address == a
        ensures rs[i].lockedShare <= EffectiveLock(rs, a)
      {
        if i > 0 {
          assert rs[i] == rs[1..][i - 1];
        }
      }
      if EffectiveLock(rs[1..], a) > 0 {
        var i :| 0 <= i < |rs[1..]| && rs[1..][i].address == a && rs[1..][i].lockedShare == EffectiveLock(rs[1..], a);
        assert rs[i + 1] == rs[1..][i];
      }
    }
  }

  lemma EffectiveLockUnique(rs: seq<Recipient>, a: Key, v: u16)
    requires forall i :: 0 <= i < |rs| && rs[i].address == a ==> rs[i].lockedShare <= v
    requires v == 0 || exists i :: 0 <= i < |rs| && rs[i].address == a && rs[i].lockedShare == v
    ensures EffectiveLock(rs, a) == v
  {
    EffectiveLockIsMax(rs, a);
  }

  /** The unstated invariant: an address's first entry holds its largest lock. */
  ghost predicate FirstHoldsMax(rs: seq<Recipient>) {
    forall a: Key :: FirstLock(rs, a) == EffectiveLock(rs, a)
  }

  // --------------------------------------------------------- well-formedness

  function Weights(rs: seq<Recipient>): (ws: seq<Entry>)
    ensures |ws| == |rs|
    ensures forall i :: 0 <= i < |ws| ==> ws[i] == Entry(rs[i].address, rs[i].share)
  {
    seq(|rs|, i requires 0 <= i < |rs| => Entry(rs[i].address, rs[i].share))
  }

  ghost predicate TableWellFormed(s: Splitter) {
    && 1 <= s.numRecipients <= 10
    && Sum(Weights(s.Active())) == 10000
    && (forall i :: 0 <= i < s.numRecipients ==> 0 < s.recipients[i].share)
    && (forall i :: 0 <= i < s.numRecipients ==> s.recipients[i].lockedShare <= s.recipients[i].share)
    && (forall i :: s.numRecipients <= i < 10 ==> s.recipients[i] == NO_RECIPIENT)
    && FirstHoldsMax(s.Active())
  }

  ghost predicate NameWellFormed(s: Splitter) {
    s.nameLen <= 64 && forall i :: s.nameLen <= i < 64 ==> s.name[i] == 0
  }

  ghost predicate WellFormed(s: Splitter) {
    s.discriminator == SPLITTER_DISCRIMINATOR && TableWellFormed(s) && NameWellFormed(s)
  }

  // -------------------------------------------------------------- operations

  function PadName(name: seq<byte>): Bytes64
    requires |name| <= 64
  {
    name + Zeros(64 - |name|)
  }

  /** `set_name` cuts a longer name off at 64 bytes. */
  function WithName(s: Splitter, name: seq<byte>): Splitter {
    var kept := if |name| <= 64 then name else name[..64];
    s.(nameLen := |kept|, name := PadName(kept))
  }

  function PadTable(rs: seq<Recipient>): Table
    requires |rs| <= 10
  {
    rs + seq(10 - |rs|, _ => NO_RECIPIENT)
  }

  function NewSplitter(creator: Key, nonce: u64, bump: byte, name: seq<byte>): Splitter {
    WithName(
      Splitter(SPLITTER_DISCRIMINATOR, creator, creator, nonce, bump,
               1, PadTable([Recipient(creator, TOTAL_SHARES, 0)]), 0, Zeros(64)),
      name)
  }

  /** Some old entry of the same address is locked above the new share. */
  predicate LockViolated(cur: seq<Recipient>, e: Share) {
    exists j :: 0 <= j < |cur| && cur[j].address == e.to && cur[j].lockedShare > 0 && e.units < cur[j].lockedShare
  }

  function Rebuild(cur: seq<Recipient>, recipients: seq<Share>): (rs: seq<Recipient>)
    ensures |rs| == |recipients|
    ensures forall i :: 0 <= i < |rs| ==>
              rs[i] == Recipient(recipients[i].to, recipients[i].units, FirstLock(cur, recipients[i].to))
  {
    seq(|recipients|, i requires 0 <= i < |recipients| =>
      Recipient(recipients[i].to, recipients[i].units, FirstLock(cur, recipients[i].to)))
  }

  function SetDistribution(s: Splitter, recipients: seq<Share>): Result<Splitter> {
    if |recipients| > 10 then Err(TooManyRecipients)
    else if Sum(recipients) != 10000 then Err(InvalidShareTotal)
    else if exists i :: 0 <= i < |recipients| && recipients[i].units == 0 then Err(ZeroShare)
    else if s.numRecipients > 10 then
      (if recipients != [] && LockViolated(s.recipients, recipients[0]) then Err(LockedShareViolation) else Err(Aborted))
    else if exists i :: 0 <= i < |recipients| && LockViolated(s.Active(), recipients[i]) then Err(LockedShareViolation)
    else Ok(s.(numRecipients := |recipients|, recipients := PadTable(Rebuild(s.Active(), recipients))))
  }

  function Lock(s: Splitter, signer: Key, minShare: u16): Result<Splitter> {
    var j := FirstMatch(s.Active(), signer);
    if j == |s.Active()| then Err(if s.numRecipients > 10 then Aborted else NotARecipient)
    else if minShare > s.recipients[j].share then Err(LockShareExceedsCurrent)
    else if minShare <= s.recipients[j].lockedShare then Err(LockShareNotIncreased)
    else Ok(s.(recipients := s.recipients[j := s.recipients[j].(lockedShare := minShare)]))
  }

  function CheckAdmin(s: Splitter, signer: Key): Result<Unit> {
    if s.admin == DEFAULT_KEY then Err(AdminRevoked)
    else if signer != s.admin then Err(InvalidAuthority)
    else Ok(Unit)
  }

  /** The instructions that rewrite a splitter record and nothing else. */
  predicate Rewrites(ix: Instruction) {
    ix.SetSplitterDistribution? || ix.SetSplitterAdmin? || ix.RevokeSplitterAdmin? || ix.LockRecipient? || ix.SetSplitterName?
  }

  function Modify(s: Splitter, ix: Instruction, signer: Key): Result<Splitter>
    requires Rewrites(ix)
  {
    if ix.LockRecipient? then Lock(s, signer, ix.minShare) else
      var _ :- CheckAdmin(s, signer);
      match ix
      case SetSplitterDistribution(recipients) => SetDistribution(s, recipients)
      case SetSplitterAdmin(newAdmin) => Ok(s.(admin := newAdmin))
      case RevokeSplitterAdmin => Ok(s.(admin := DEFAULT_KEY))
      case SetSplitterName(name) => Ok(WithName(s, name))
  }

  // ------------------------------------------------------- locks: main facts

  /** Rejection by the check over all matches is rejection below the effective lock. */
  lemma LockViolatedIffBelow(cur: seq<Recipient>, e: Share)
    ensures LockViolated(cur, e) <==> e.units < EffectiveLock(cur, e.to)
  {
    EffectiveLockIsMax(cur, e.to);
    if e.units < EffectiveLock(cur, e.to) {
      var j :| 0 <= j < |cur| && cur[j].address == e.to && cur[j].lockedShare == EffectiveLock(cur, e.to);
      assert cur[j].lockedShare > 0 && e.units < cur[j].lockedShare;
    }
  }

  /** No entry is below its address's effective lock. */
  ghost predicate RespectsLocks(cur: seq<Recipient>, es: seq<Share>) {
    forall i :: 0 <= i < |es| ==> es[i].units >= EffectiveLock(cur, es[i].to)
  }

  lemma ViolationFreeIffRespectsLocks(cur: seq<Recipient>, es: seq<Share>)
    ensures RespectsLocks(cur, es) <==> !exists i :: 0 <= i < |es| && LockViolated(cur, es[i])
  {
    forall i | 0 <= i < |es|
      ensures LockViolated(cur, es[i]) <==> es[i].units < EffectiveLock(cur, es[i].to)
    {
      LockViolatedIffBelow(cur, es[i]);
    }
  }

  /** A rebuilt table gives every listed address the carried lock, on all of its entries. */
  lemma RebuiltLocks(cur: seq<Recipient>, recipients: seq<Share>, a: Key)
    ensures var rs := Rebuild(cur, recipients);
            && FirstLock(rs, a) == EffectiveLock(rs, a)
            && EffectiveLock(rs, a) == if Listed(rs, a) then FirstLock(cur, a) else 0
  {
    var rs := Rebuild(cur, recipients);
    var v := if Listed(rs, a) then FirstLock(cur, a) else 0;
    if Listed(rs, a) {
      var i :| 0 <= i < |rs| && rs[i].address == a;
      assert rs[i].lockedShare == v;
    }
    EffectiveLockUnique(rs, a, v);
  }

  lemma ActiveOfPad(s: Splitter, rs: seq<Recipient>)
    requires |rs| <= 10
    ensures s.(numRecipients := |rs|, recipients := PadTable(rs)).Active() == rs
  {
  }

  lemma NewIsWellFormed(creator: Key, nonce: u64, bump: byte, name: seq<byte>)
    ensures WellFormed(NewSplitter(creator, nonce, bump, name))
  {
    var s := NewSplitter(creator, nonce, bump, name);
    assert s.Active() == [Recipient(creator, 10000, 0)];
    var rs := s.Active();
    forall a: Key ensures FirstLock(rs, a) == EffectiveLock(rs, a) {
      EffectiveLockUnique(rs, a, 0);
    }
    var ws := Weights(rs);
    assert Sum(ws[1..]) == 0;
  }

  lemma DistributionIsWellFormed(s: Splitter, recipients: seq<Share>)
    requires WellFormed(s) && SetDistribution(s, recipients).Ok?
    ensures WellFormed(SetDistribution(s, recipients).value)
    ensures Weights(SetDistribution(s, recipients).value.Active()) == recipients
  {
    var t := SetDistribution(s, recipients).value;
    var rs := Rebuild(s.Active(), recipients);
    ActiveOfPad(s, rs);
    assert Weights(rs) == recipients;
    forall a: Key ensures FirstLock(rs, a) == EffectiveLock(rs, a) {
      RebuiltLocks(s.Active(), recipients, a);
    }
    forall i | 0 <= i < |recipients|
      ensures t.recipients[i].lockedShare <= t.recipients[i].share && 0 < t.recipients[i].share
    {
      LockViolatedIffBelow(s.Active(), recipients[i]);
      assert FirstLock(s.Active(), recipients[i].to) == EffectiveLock(s.Active(), recipients[i].to);
    }
  }

  /**
    Exactly what is accepted: an authorised reconfiguration goes through if and only if
    the list is short, complete, positive and below nobody's effective lock.
   */
  lemma DistributionAccepted(s: Splitter, recipients: seq<Share>, signer: Key)
    requires WellFormed(s)
    ensures Modify(s, SetSplitterDistribution(recipients), signer).Ok? <==>
              && CheckAdmin(s, signer).Ok?
              && |recipients| <= 10
              && Sum(recipients) == 10000
              && (forall i :: 0 <= i < |recipients| ==> recipients[i].units > 0)
              && RespectsLocks(s.Active(), recipients)
  {
    ViolationFreeIffRespectsLocks(s.Active(), recipients);
  }

  /** A reconfiguration keeps every retained address's effective lock to the unit, and only theirs. */
  lemma DistributionKeepsLocks(s: Splitter, recipients: seq<Share>, a: Key)
    requires WellFormed(s) && SetDistribution(s, recipients).Ok?
    ensures var t := SetDistribution(s, recipients).value;
            && (Listed(t.Active(), a) <==> exists i :: 0 <= i < |recipients| && recipients[i].to == a)
            && EffectiveLock(t.Active(), a) == if Listed(t.Active(), a) then EffectiveLock(s.Active(), a) else 0
  {
    var rs := Rebuild(s.Active(), recipients);
    ActiveOfPad(s, rs);
    RebuiltLocks(s.Active(), recipients, a);
    assert FirstLock(s.Active(), a) == EffectiveLock(s.Active(), a);
    if i :| 0 <= i < |recipients| && recipients[i].to == a {
      assert rs[i].address == a;
    }
  }

  lemma {:induction false} LockSumUpdate(rs: seq<Recipient>, j: nat, r: Recipient)
    requires j < |rs|
    ensures LockSum(rs[j := r]) == LockSum(rs) - rs[j].lockedShare + r.lockedShare
  {
    if j == 0 {
      assert rs[j := r][1..] == rs[1..];
    } else {
      assert rs[j := r][1..] == rs[1..][j - 1 := r];
      LockSumUpdate(rs[1..], j - 1, r);
    }
  }

  function Raised(rs: seq<Recipient>, j: nat, m: u16): seq<Recipient>
    requires j < |rs|
  {
    rs[j := rs[j].(lockedShare := m)]
  }

  lemma SameAddressesSameMatch(rs: seq<Recipient>, ts: seq<Recipient>, a: Key)
    requires |rs| == |ts| && forall i :: 0 <= i < |rs| ==> rs[i].address == ts[i].address
    ensures FirstMatch(rs, a) == FirstMatch(ts, a)
  {
  }

  /** Raising the first match above the maximum makes it the new maximum. */
  lemma RaisedOwn(rs: seq<Recipient>, j: nat, m: u16)
    requires j < |rs| && FirstMatch(rs, rs[j].address) == j && EffectiveLock(rs, rs[j].address) <= m
    ensures var a := rs[j].address;
            EffectiveLock(Raised(rs, j, m), a) == m && FirstLock(Raised(rs, j, m), a) == m
  {
    hide EffectiveLock, FirstMatch;
    var a := rs[j].address;
    EffectiveLockIsMax(rs, a);
    assert Raised(rs, j, m)[j].lockedShare == m;
    EffectiveLockUnique(Raised(rs, j, m), a, m);
    SameAddressesSameMatch(rs, Raised(rs, j, m), a);
  }

  lemma RaisedOther(rs: seq<Recipient>, j: nat, m: u16, a: Key)
    requires j < |rs| && rs[j].address != a
    ensures EffectiveLock(Raised(rs, j, m), a) == EffectiveLock(rs, a)
    ensures FirstLock(Raised(rs, j, m), a) == FirstLock(rs, a)
  {
    hide EffectiveLock, FirstMatch;
    var v := EffectiveLock(rs, a);
    EffectiveLockIsMax(rs, a);
    if v > 0 {
      var i :| 0 <= i < |rs| && rs[i].address == a && rs[i].lockedShare == v;
      assert Raised(rs, j, m)[i] == rs[i];
    }
    EffectiveLockUnique(Raised(rs, j, m), a, v);
    SameAddressesSameMatch(rs, Raised(rs, j, m), a);
  }

  /** What the scan found, in terms of the table. */
  lemma LockShape(s: Splitter, signer: Key, m: u16)
    requires s.numRecipients <= 10 && Lock(s, signer, m).Ok?
    ensures var rs := s.Active();
            var t := Lock(s, signer, m).value;
            var j := FirstMatch(rs, signer);
            && j < |rs| && rs[j].address == signer && rs[j].lockedShare < m <= rs[j].share
            && t == s.(recipients := t.recipients)
            && t.Active() == Raised(rs, j, m)
            && forall i :: s.numRecipients <= i < 10 ==> t.recipients[i] == s.recipients[i]
  {
    hide FirstMatch;
  }

  /**
    A successful lock sets the signer's effective lock to exactly the amount
    asked for, above what it was, and leaves every other address's alone.
   */
  lemma LockRaises(s: Splitter, signer: Key, m: u16)
    requires WellFormed(s) && Lock(s, signer, m).Ok?
    ensures var t := Lock(s, signer, m).value;
            && EffectiveLock(s.Active(), signer) < m == EffectiveLock(t.Active(), signer)
            && (forall a: Key :: a != signer ==> EffectiveLock(t.Active(), a) == EffectiveLock(s.Active(), a))
            && LockSum(t.Active()) > LockSum(s.Active())
            && Weights(t.Active()) == Weights(s.Active())
            && Listed(t.Active(), signer)
            && WellFormed(t)
  {
    hide Lock, EffectiveLock, FirstMatch, LockSum, Sum;
    LockShape(s, signer, m);
    var t := Lock(s, signer, m).value;
    var rs, ts := s.Active(), t.Active();
    var j := FirstMatch(rs, signer);
    LockSumUpdate(rs, j, rs[j].(lockedShare := m));
    assert FirstLock(rs, signer) == EffectiveLock(rs, signer);
    RaisedOwn(rs, j, m);
    forall a: Key
      ensures a != signer ==> EffectiveLock(ts, a) == EffectiveLock(rs, a)
      ensures FirstLock(ts, a) == EffectiveLock(ts, a)
    {
      if a != signer {
        RaisedOther(rs, j, m, a);
        assert FirstLock(rs, a) == EffectiveLock(rs, a);
      }
    }
    assert Weights(ts) == Weights(rs);
    assert ts[j].address == signer;
    forall i | 0 <= i < t.numRecipients
      ensures 0 < t.recipients[i].share && t.recipients[i].lockedShare <= t.recipients[i].share
    {
      assert ts[i] == t.recipients[i] && rs[i] == s.recipients[i];
    }
  }

  /** A lock is accepted exactly from a listed address, above its effective lock and within its first entry's share. */
  lemma LockAccepted(s: Splitter, signer: Key, m: u16)
    requires WellFormed(s)
    ensures Lock(s, signer, m).Ok? <==>
              && Listed(s.Active(), signer)
              && EffectiveLock(s.Active(), signer) < m <= s.Active()[FirstMatch(s.Active(), signer)].share
    ensures Lock(s, signer, m) == Err(NotARecipient) <==> !Listed(s.Active(), signer)
  {
    hide EffectiveLock;
    var j := FirstMatch(s.Active(), signer);
    assert FirstLock(s.Active(), signer) == EffectiveLock(s.Active(), signer);
    if Listed(s.Active(), signer) {
      var i :| 0 <= i < |s.Active()| && s.Active()[i].address == signer;
      assert j <= i;
    }
  }

  /** A lock does not survive being left off the list: A locks 5000, and a list without A is accepted. */
  lemma LockIsLostOffTheList(a: Key, b: Key, nonce: u64, bump: byte)
    requires a != b
    ensures var s0 := NewSplitter(a, nonce, bump, []);
            var s1 := Lock(s0, a, 5000);
            && s1.Ok? && EffectiveLock(s1.value.Active(), a) == 5000
            && var s2 := SetDistribution(s1.value, [Entry(b, 10000)]);
               s2.Ok? && EffectiveLock(s2.value.Active(), a) == 0
  {
    var s0 := NewSplitter(a, nonce, bump, []);
    NewIsWellFormed(a, nonce, bump, []);
    assert s0.Active() == [Recipient(a, 10000, 0)];
    var s1 := Lock(s0, a, 5000).value;
    LockRaises(s0, a, 5000);
    LockShape(s0, a, 5000);
    assert s1.Active() == [Recipient(a, 10000, 5000)];
    var es: seq<Share> := [Entry(b, 10000)];
    assert Sum(es[1..]) == 0;
    DistributionKeepsLocks(s1, es, a);
  }

  lemma {:induction false} LockSumBound(rs: seq<Recipient>)
    requires forall i :: 0 <= i < |rs| ==> rs[i].lockedShare <= rs[i].share
    ensures LockSum(rs) <= Sum(Weights(rs))
  {
    if rs != [] {
      assert Weights(rs)[1..] == Weights(rs[1..]);
      LockSumBound(rs[1..]);
    }
  }

  /** An effective lock is covered by the shares of that address. */
  lemma LockCovered(s: Splitter, a: Key)
    requires WellFormed(s)
    ensures Listed(s.Active(), a) ==>
              exists i :: 0 <= i < |s.Active()| && s.Active()[i].address == a
                          && s.Active()[i].share >= EffectiveLock(s.Active(), a)
  {
    var rs := s.Active();
    if Listed(rs, a) {
      var j := FirstMatch(rs, a);
      var i :| 0 <= i < |rs| && rs[i].address == a;
      assert FirstLock(rs, a) == EffectiveLock(rs, a);
      assert rs[j].address == a && rs[j].share >= rs[j].lockedShare;
    }
  }

  // ------------------------------------------------- resubmitting the table

  /** The current table as a request. */
  function Resubmission(s: Splitter): (es: seq<Share>)
    ensures |es| == |s.Active()|
  {
    seq(|s.Active()|, i requires 0 <= i < |s.Active()| => Entry(s.Active()[i].address, s.Active()[i].share))
  }

  /** Resubmission is accepted exactly when every entry's share covers its address's effective lock. */
  lemma ResubmissionAccepted(s: Splitter)
    requires WellFormed(s)
    ensures SetDistribution(s, Resubmission(s)).Ok? <==> RespectsLocks(s.Active(), Resubmission(s))
  {
    ViolationFreeIffRespectsLocks(s.Active(), Resubmission(s));
    assert Resubmission(s) == Weights(s.Active());
  }

  /** It changes nothing exactly when, besides, all entries of an address carry the same lock. */
  lemma ResubmissionIsIdentity(s: Splitter)
    requires WellFormed(s)
    ensures SetDistribution(s, Resubmission(s)) == Ok(s) <==>
            forall i :: 0 <= i < s.numRecipients ==>
              s.recipients[i].lockedShare == EffectiveLock(s.Active(), s.recipients[i].address)
  {
    hide EffectiveLock, RespectsLocks;
    ResubmissionAccepted(s);
    RebuiltFromItself(s);
    if UniformLocks(s) {
      UniformIsCovered(s);
    }
  }

  /** All entries of an address carry its effective lock. */
  predicate UniformLocks(s: Splitter)
    requires s.numRecipients <= 10
  {
    forall i :: 0 <= i < s.numRecipients ==> s.recipients[i].lockedShare == EffectiveLock(s.Active(), s.recipients[i].address)
  }

  lemma RebuiltFromItself(s: Splitter)
    requires WellFormed(s)
    ensures PadTable(Rebuild(s.Active(), Resubmission(s))) == s.recipients <==> UniformLocks(s)
  {
    hide EffectiveLock;
    var rs := s.Active();
    var again := Rebuild(rs, Resubmission(s));
    forall i | 0 <= i < |rs|
      ensures again[i] == Recipient(rs[i].address, rs[i].share, EffectiveLock(rs, rs[i].address))
    {
      assert FirstLock(rs, rs[i].address) == EffectiveLock(rs, rs[i].address);
    }
    if UniformLocks(s) {
      assert again == rs;
      assert PadTable(again) == s.recipients;
    } else {
      assert forall i :: 0 <= i < |rs| ==> PadTable(again)[i] == again[i];
    }
  }

  lemma UniformIsCovered(s: Splitter)
    requires WellFormed(s) && UniformLocks(s)
    ensures RespectsLocks(s.Active(), Resubmission(s))
  {
    hide EffectiveLock;
    assert Resubmission(s) == Weights(s.Active());
  }

  /** Without repeated addresses resubmission always succeeds and changes nothing. */
  lemma ResubmissionOfDistinct(s: Splitter)
    requires WellFormed(s)
    requires forall i, j :: 0 <= i < j < s.numRecipients ==> s.recipients[i].address != s.recipients[j].address
    ensures SetDistribution(s, Resubmission(s)) == Ok(s)
  {
    forall i | 0 <= i < s.numRecipients
      ensures s.recipients[i].lockedShare == EffectiveLock(s.Active(), s.recipients[i].address)
    {
      EffectiveLockUnique(s.Active(), s.recipients[i].address, s.recipients[i].lockedShare);
    }
    ResubmissionIsIdentity(s);
  }

  /**
    With repeated addresses it can fail: list A twice as 6000 and 4000, let A
    lock 5000, and the same table is no longer accepted.
   */
  lemma ResubmissionCanFail(a: Key, nonce: u64, bump: byte)
    ensures var s0 := NewSplitter(a, nonce, bump, []);
            var s1 := SetDistribution(s0, [Entry(a, 6000), Entry(a, 4000)]);
            && s1.Ok?
            && var s2 := Lock(s1.value, a, 5000);
               s2.Ok? && SetDistribution(s2.value, Resubmission(s2.value)) == Err(LockedShareViolation)
  {
    var s0 := NewSplitter(a, nonce, bump, []);
    NewIsWellFormed(a, nonce, bump, []);
    var es: seq<Share> := [Entry(a, 6000), Entry(a, 4000)];
    assert es[1..][1..] == [];
    assert Sum(es) == 6000 + Sum(es[1..]) && Sum(es[1..]) == 4000 + Sum(es[1..][1..]);
    assert s0.Active() == [Recipient(a, 10000, 0)];
    var rs := Rebuild(s0.Active(), es);
    ActiveOfPad(s0, rs);
    assert rs == [Recipient(a, 6000, 0), Recipient(a, 4000, 0)];
    var s1 := SetDistribution(s0, es).value;
    DistributionIsWellFormed(s0, es);
    assert s1.recipients[0] == rs[0];
    assert FirstMatch(s1.Active(), a) == 0;
    var s2 := Lock(s1, a, 5000).value;
    LockRaises(s1, a, 5000);
    assert s2.recipients[1] == rs[1];
    ResubmissionAccepted(s2);
    assert Sum(Resubmission(s2)) == 10000 by {
      assert Resubmission(s2) == Weights(s2.Active());
    }
  }

  // ----------------------------------------------------------------- names

  /** What a reader of the account sees as the name. */
  function NameOf(s: Splitter): seq<byte> {
    if s.nameLen <= 64 then s.name[..s.nameLen] else s.name
  }

  lemma NameReadsBack(s: Splitter, name: seq<byte>)
    ensures NameWellFormed(WithName(s, name))
    ensures NameOf(WithName(s, name)) == if |name| <= 64 then name else name[..64]
    ensures WithName(s, name) == s.(nameLen := WithName(s, name).nameLen, name := WithName(s, name).name)
  {
  }

  lemma DistributionShape(s: Splitter, recipients: seq<Share>)
    requires SetDistribution(s, recipients).Ok?
    ensures var t := SetDistribution(s, recipients).value;
            t == s.(numRecipients := t.numRecipients, recipients := t.recipients)
  {
  }

  /** Every rewriting instruction keeps a splitter well-formed and never touches its identity. */
  lemma ModifyKeepsWellFormed(s: Splitter, ix: Instruction, signer: Key)
    requires WellFormed(s) && Rewrites(ix) && Modify(s, ix, signer).Ok?
    ensures var t := Modify(s, ix, signer).value;
            WellFormed(t) && t.creator == s.creator && t.nonce == s.nonce && t.bump == s.bump
  {
    hide FirstMatch, EffectiveLock, Lock, SetDistribution, Sum, LockSum;
    var t := Modify(s, ix, signer).value;
    if ix.SetSplitterDistribution? {
      DistributionIsWellFormed(s, ix.recipients);
      DistributionShape(s, ix.recipients);
    } else if ix.LockRecipient? {
      LockRaises(s, signer, ix.minShare);
      LockShape(s, signer, ix.minShare);
    } else {
      assert t.Active() == s.Active();
    }
  }

  /**
    Who may act afterwards: a transfer hands all authority to exactly the new
    admin, revocation (or a transfer to the default key) leaves it to nobody,
    and the other rewriting instructions leave it where it was. Only the current
    admin gets any of them through, except locks, which need no admin.
   */
  lemma AuthorityAfter(s: Splitter, ix: Instruction, signer: Key, who: Key)
    requires Rewrites(ix) && Modify(s, ix, signer).Ok?
    ensures !ix.LockRecipient? ==> signer == s.admin && CheckAdmin(s, signer).Ok?
    ensures var t := Modify(s, ix, signer).value;
            CheckAdmin(t, who).Ok? <==>
              match ix
              case SetSplitterAdmin(n) => who == n && n != DEFAULT_KEY
              case RevokeSplitterAdmin => false
              case _ => CheckAdmin(s, who).Ok?
  {
    hide SetDistribution, WithName;
    if ix.SetSplitterDistribution? {
      DistributionShape(s, ix.recipients);
    } else if ix.SetSplitterName? {
      NameReadsBack(s, ix.name);
    }
  }

  /** A new splitter pays any amount entirely to its creator. */
  lemma NewPaysCreator(creator: Key, nonce: u64, bump: byte, name: seq<byte>, amount: nat)
    ensures var s := NewSplitter(creator, nonce, bump, name);
            Payouts(amount, Weights(s.Active())) == [Entry(creator, amount)]
  {
    var s := NewSplitter(creator, nonce, bump, name);
    assert s.Active() == [Recipient(creator, 10000, 0)];
    assert Weights(s.Active()) == [Entry(creator, 10000)];
    assert amount * 10000 / 10000 == amount;
  }

  // ------------------------------------------------------------ sell config

  function PadKeys(ks: seq<Key>, n: nat): (p: seq<Key>)
    requires |ks| <= n
    ensures |p| == n
  {
    ks + seq(n - |ks|, _ => DEFAULT_KEY)
  }

  function NewSellConfig(splitter: Key, bump: byte, mints: seq<Key>, programs: seq<Key>): SellConfig
    requires |mints| <= 10 && |programs| <= 5
  {
    SellConfig(SELL_CONFIG_DISCRIMINATOR, splitter, |mints|, PadKeys(mints, 10), |programs|, PadKeys(programs, 5), bump)
  }

  /** A linear scan of the first `n` slots; past the end of the table it traps. */
  function Scan(table: seq<Key>, n: nat, k: Key): Result<bool> {
    if n <= |table| then Ok(k in table[..n])
    else if k in table then Ok(true) else Err(Aborted)
  }

  /** The scans of a written configuration answer membership in the lists it was written from. */
  lemma ScanAnswersMembership(splitter: Key, bump: byte, mints: seq<Key>, programs: seq<Key>, k: Key)
    requires |mints| <= 10 && |programs| <= 5
    ensures var c := NewSellConfig(splitter, bump, mints, programs);
            && Scan(c.whitelistedMints, c.numWhitelisted, k) == Ok(k in mints)
            && Scan(c.approvedPrograms, c.numApprovedPrograms, k) == Ok(k in programs)
  {
    assert PadKeys(mints, 10)[..|mints|] == mints;
    assert PadKeys(programs, 5)[..|programs|] == programs;
  }
}
