/** What refuses a call, and with which error. */
module Refusals {
  import opened Base
  import opened Ledgers
  import opened Records
  import opened Borsh
  import opened Worlds
  import opened Invariant
  import opened Reach
  import opened Swaps
  import opened TokenCranks
  import opened Instructions

  function AccountsNeeded(ix: Instruction): nat {
    match ix
    case DistributeSOL => 1
    case DistributeToken => 4
    case SetSellConfig(_, _) => 5
    case SwapToken(_) => 8
    case CreateSplitter(_, _) => 3
    case CloseSellConfig => 3
    case SnsProxy(_) => 3
    case _ => 2
  }

  /** The account that has to sign; nobody has to for the cranks and the swap. */
  function SignerOf(ix: Instruction): Option<nat> {
    if ix.DistributeSOL? || ix.DistributeToken? || ix.SwapToken? then None
    else if ix.SetSellConfig? || ix.CloseSellConfig? then Some(2)
    else Some(1)
  }

  /** Too few accounts and a missing signature are found first, by every instruction. */
  lemma FirstErrors(env: Env, w: World, ix: Instruction, metas: seq<Meta>, cpi: Cpi)
    ensures var r := Handle(env, w, ix, metas, cpi);
            && (r == Err(NotEnoughAccountKeys) <==> |metas| < AccountsNeeded(ix))
            && (r == Err(MissingRequiredSigner) <==>
                  |metas| >= AccountsNeeded(ix) && SignerOf(ix).Some? && !metas[SignerOf(ix).value].isSigner)
  {
    hide HandleCreate, HandleRewrite, HandleDistributeSol, HandleDistributeTokens, HandleSetSellConfig, HandleCloseSellConfig;
    hide HandleSwap, HandleSnsProxy;
    match ix {
      case CreateSplitter(nonce, name) => CreateFirstErrors(env, w, metas, nonce, name);
      case DistributeSOL => SolFirstErrors(env, w, metas);
      case DistributeToken => TokenFirstErrors(env, w, metas);
      case SetSellConfig(mints, programs) => SetSellConfigFirstErrors(env, w, metas, mints, programs);
      case CloseSellConfig => CloseFirstErrors(env, w, metas);
      case SwapToken(_) => SwapFirstErrors(env, w, metas, cpi);
      case SnsProxy(_) => SnsFirstErrors(w, metas, cpi);
      case _ => RewriteFirstErrors(w, metas, ix);
    }
  }

  /** The result of a call of an instruction that needs `n` accounts, of which `signer` signs. */
  ghost predicate FirstErrorsOf(r: Result<World>, metas: seq<Meta>, n: nat, signer: Option<nat>)
    requires signer.Some? ==> signer.value < n
  {
    && (r == Err(NotEnoughAccountKeys) <==> |metas| < n)
    && (r == Err(MissingRequiredSigner) <==> |metas| >= n && signer.Some? && !metas[signer.value].isSigner)
  }

  lemma CreateFirstErrors(env: Env, w: World, metas: seq<Meta>, nonce: u64, name: seq<byte>)
    ensures FirstErrorsOf(HandleCreate(env, w, metas, nonce, name), metas, 3, Some(1))
  {
    hide EncodeSplitter, NewSplitter;
  }

  lemma RewriteFirstErrors(w: World, metas: seq<Meta>, ix: Instruction)
    requires Rewrites(ix)
    ensures FirstErrorsOf(HandleRewrite(w, metas, ix), metas, 2, Some(1))
  {
    hide EncodeSplitter, DecodeSplitter, LockViolated, Sum, FirstMatch, Rebuild;
  }

  lemma SolFirstErrors(env: Env, w: World, metas: seq<Meta>)
    ensures FirstErrorsOf(HandleDistributeSol(env, w, metas), metas, 1, None)
  {
    hide DecodeSplitter, Pay, Events, SolPayments, Sum;
    if metas != [] && LoadSplitter(w, metas[0].key).Ok? {
      MismatchErrors(LoadSplitter(w, metas[0].key).value, metas, 0);
    }
  }

  lemma {:induction false} MismatchErrors(s: Splitter, metas: seq<Meta>, i: nat)
    ensures var e := FirstMismatch(s, metas, i); e in {RecipientCountMismatch, RecipientAddressMismatch, Aborted}
    decreases 10 - i
  {
    if i < 10 {
      MismatchErrors(s, metas, i + 1);
    }
  }

  lemma TokenFirstErrors(env: Env, w: World, metas: seq<Meta>)
    ensures FirstErrorsOf(HandleDistributeTokens(env, w, metas), metas, 4, None)
  {
    hide DecodeSplitter, Pay, Events, TokenPayments, Sum, AllTransferable;
  }

  lemma SetSellConfigFirstErrors(env: Env, w: World, metas: seq<Meta>, mints: seq<Key>, programs: seq<Key>)
    ensures FirstErrorsOf(HandleSetSellConfig(env, w, metas, mints, programs), metas, 5, Some(2))
  {
    hide DecodeSplitter, EncodeSellConfig, NewSellConfig;
  }

  lemma CloseFirstErrors(env: Env, w: World, metas: seq<Meta>)
    ensures FirstErrorsOf(HandleCloseSellConfig(env, w, metas), metas, 3, Some(2))
  {
    hide DecodeSplitter, DecodeSellConfig;
  }

  lemma SwapFirstErrors(env: Env, w: World, metas: seq<Meta>, cpi: Cpi)
    ensures FirstErrorsOf(HandleSwap(env, w, metas, cpi), metas, 8, None)
  {
    hide DecodeSplitter, DecodeSellConfig, Move;
    hide AfterSwap;
    if |metas| >= 8 && SwapGuards(env, w, metas).Ok? && cpi.CpiEffect? {
      LateSwapErrors(env, w, Apply(w, cpi).value, metas, SwapGuards(env, w, metas).value);
    }
  }

  lemma LateSwapErrors(env: Env, w: World, swapped: World, metas: seq<Meta>, s: Splitter)
    requires |metas| >= 8
    ensures FirstErrorsOf(AfterSwap(env, w, swapped, metas, s), metas, 8, None)
  {
    hide Move;
  }

  lemma SnsFirstErrors(w: World, metas: seq<Meta>, cpi: Cpi)
    ensures FirstErrorsOf(HandleSnsProxy(w, metas, cpi), metas, 3, Some(1))
  {
    hide DecodeSplitter;
  }

  /** What refuses a rewriting call at the record, and with which error. */
  lemma RecordErrors(s: Splitter, ix: Instruction, signer: Key)
    requires WellFormed(s) && Rewrites(ix)
    ensures var r := Modify(s, ix, signer);
            && (r == Err(AdminRevoked) <==> !ix.LockRecipient? && s.admin == DEFAULT_KEY)
            && (r == Err(InvalidAuthority) <==> !ix.LockRecipient? && s.admin != DEFAULT_KEY && signer != s.admin)
            && (ix.SetSplitterDistribution? && IsAdmin(s, signer) ==>
                  var es := ix.recipients;
                  var complete := |es| <= 10 && Sum(es) == 10000;
                  var positive := forall i :: 0 <= i < |es| ==> es[i].units > 0;
                  && (r == Err(TooManyRecipients) <==> |es| > 10)
                  && (r == Err(InvalidShareTotal) <==> |es| <= 10 && Sum(es) != 10000)
                  && (r == Err(ZeroShare) <==> complete && !positive)
                  && (r == Err(LockedShareViolation) <==> complete && positive && !RespectsLocks(s.Active(), es)))
            && (ix.LockRecipient? ==>
                  && (r == Err(NotARecipient) <==> !Listed(s.Active(), signer))
                  && (r == Err(LockShareExceedsCurrent) <==>
                        exists j: nat :: FirstEntry(s, signer, j) && ix.minShare > s.recipients[j].share)
                  && (r == Err(LockShareNotIncreased) <==>
                        exists j: nat :: FirstEntry(s, signer, j) && ix.minShare <= s.recipients[j].share
                                         && ix.minShare <= EffectiveLock(s.Active(), signer)))
  {
    hide EffectiveLock, Sum, LockViolated, RespectsLocks;
    if ix.LockRecipient? {
      LockErrors(s, ix.minShare, signer);
    } else if ix.SetSplitterDistribution? {
      ViolationFreeIffRespectsLocks(s.Active(), ix.recipients);
    }
  }

  lemma LockErrors(s: Splitter, m: u16, signer: Key)
    requires WellFormed(s)
    ensures var r := Lock(s, signer, m);
            && (r == Err(NotARecipient) <==> !Listed(s.Active(), signer))
            && (r == Err(LockShareExceedsCurrent) <==> exists j: nat :: FirstEntry(s, signer, j) && m > s.recipients[j].share)
            && (r == Err(LockShareNotIncreased) <==>
                  exists j: nat :: FirstEntry(s, signer, j) && m <= s.recipients[j].share && m <= EffectiveLock(s.Active(), signer))
  {
    hide EffectiveLock, Sum;
    LockAccepted(s, signer, m);
    var j := FirstMatch(s.Active(), signer);
    assert FirstLock(s.Active(), signer) == EffectiveLock(s.Active(), signer);
    if j < |s.Active()| {
      assert FirstEntry(s, signer, j);
    }
    forall i: nat | FirstEntry(s, signer, i)
      ensures i == j
    {
    }
  }

  /** What refuses a crank of a live splitter, and with which error. */
  lemma SolCrankErrors(env: Env, w: World, metas: seq<Meta>)
    requires Inv(env, w) && metas != [] && LoadSplitter(w, metas[0].key).Ok?
    ensures var k, rs := metas[0].key, LoadSplitter(w, metas[0].key).value.Active();
            var r := HandleDistributeSol(env, w, metas);
            var wrong := exists i :: 0 <= i < |rs| && 1 + i < |metas| && metas[1 + i].key != rs[i].address;
            && (r == Err(NothingToDistribute) <==> Bal(w.lamports, k) <= env.splitterRent)
            && (r == Err(RecipientAddressMismatch) <==> Bal(w.lamports, k) > env.splitterRent && wrong)
            && (r == Err(RecipientCountMismatch) <==> Bal(w.lamports, k) > env.splitterRent && !wrong && |metas| < 1 + |rs|)
  {
    hide LoadSplitter, WellFormed, Pay, Events, SolPayments, Sum;
    var s := LoadSplitter(w, metas[0].key).value;
    LoadedIsOk(env, w, metas[0].key);
    AtMostTen(s);
    HasRecipients(s);
    if !InTableOrder(s, metas) {
      FirstMismatchIs(s, metas, 0);
    }
  }

  lemma {:induction false} FirstMismatchIs(s: Splitter, metas: seq<Meta>, i: nat)
    requires s.numRecipients <= 10 && i <= s.numRecipients && metas != []
    requires forall j :: 0 <= j < i ==> 1 + j < |metas| && metas[1 + j].key == s.recipients[j].address
    requires !InTableOrder(s, metas)
    ensures var wrong := exists j :: 0 <= j < s.numRecipients && 1 + j < |metas| && metas[1 + j].key != s.recipients[j].address;
            FirstMismatch(s, metas, i) == if wrong then RecipientAddressMismatch else RecipientCountMismatch
    decreases 10 - i
  {
    if 1 + i < |metas| && i < s.numRecipients && metas[1 + i].key == s.recipients[i].address {
      FirstMismatchIs(s, metas, i + 1);
    }
  }

  /** Which list refuses a call that is otherwise in order so far, and with which error. */
  lemma SwapListErrors(env: Env, genesis: World, steps: seq<Step>, metas: seq<Meta>)
    requires Genesis(genesis) && |metas| >= 8
    requires LoadSplitter(After(env, genesis, steps), metas[0].key).Ok?
    requires metas[1].key == env.configAddress(metas[0].key) && LoadSellConfig(After(env, genesis, steps), metas[1].key).Ok?
    ensures var last := Latest(env, genesis, steps, metas[1].key, None);
            var r := SwapGuards(env, After(env, genesis, steps), metas);
            && last.Some?
            && (r == Err(SellConfigSplitterMismatch) <==> last.value.splitter != metas[0].key)
            && (last.value.splitter == metas[0].key ==>
                  var allowed := env.IsNativeMint(metas[5].key) || metas[5].key in last.value.mints;
                  && (r == Err(TokenWhitelisted) <==> metas[2].key in last.value.mints)
                  && (r == Err(DestinationNotAllowed) <==> metas[2].key !in last.value.mints && !allowed)
                  && (r == Err(SwapProgramNotApproved) <==>
                        metas[2].key !in last.value.mints && allowed && metas[6].key !in last.value.programs))
  {
    hide LoadSplitter, LoadSellConfig, Scan, After, Latest;
    ScansAnswerLatest(env, genesis, steps, metas[1].key, metas[2].key);
    ScansAnswerLatest(env, genesis, steps, metas[1].key, metas[5].key);
    ScansAnswerLatest(env, genesis, steps, metas[1].key, metas[6].key);
  }
}
