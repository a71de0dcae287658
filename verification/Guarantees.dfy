/** Promises about one splitter over whole runs: identity, locks, payouts, revocation. */
module Guarantees {
  import opened Base
  import opened Ledgers
  import opened Records
  import opened Borsh
  import opened Worlds
  import opened Invariant
  import opened Cranks
  import opened Reach

  // -------------------------------------------------- one step of a splitter

  /** A successful call of one of the five rewriting instructions on splitter `k`. */
  ghost predicate Rewriting(env: Env, w: World, step: Step, k: Key) {
    Outcome(env, w, step).Some? && Rewrites(step.ix) && step.metas != [] && step.metas[0].key == k
  }

  ghost predicate Reconfiguring(env: Env, w: World, step: Step, k: Key) {
    Rewriting(env, w, step, k) && step.ix.SetSplitterDistribution?
  }

  ghost predicate Locking(env: Env, w: World, step: Step, k: Key) {
    Rewriting(env, w, step, k) && step.ix.LockRecipient?
  }

  /** A splitter changes only through its own rewriting instructions, signed, and never goes away. */
  lemma SplitterStep(env: Env, w: World, step: Step, k: Key)
    requires Inv(env, w) && LoadSplitter(w, k).Ok?
    ensures LoadSplitter(Next(env, w, step), k).Ok?
    ensures Rewriting(env, w, step, k) ==>
              && |step.metas| >= 2 && step.metas[1].isSigner
              && Modify(LoadSplitter(w, k).value, step.ix, step.metas[1].key) == LoadSplitter(Next(env, w, step), k)
    ensures !Rewriting(env, w, step, k) ==> LoadSplitter(Next(env, w, step), k) == LoadSplitter(w, k)
  {
    hide Handle, HandleRewrite, Modify, SplitterOk, ConfigOk, LoadSplitter, Exec;
    LoadedIsOk(env, w, k);
    SplitterData(w, k);
    var next := Next(env, w, step);
    if step.Outside? && OutsideAllowed(w, step.next) {
      OutsideKeepsSplitter(env, w, next, k);
    } else if step.Call? && Outcome(env, w, step).Some? {
      SuccessIsHandled(env, w, step);
      if Rewriting(env, w, step, k) {
        RewriteIsHandled(env, w, step);
        RewriteFrame(w, step.metas, step.ix);
        RewrittenIsOk(env, w, step.metas, step.ix);
      } else {
        OthersDoNotWrite(env, w, step, k);
        Frame(env, w, step.ix, step.metas, step.cpi, k);
        SameDataLoadsSame(w, next, k);
      }
    }
  }

  lemma SuccessIsHandled(env: Env, w: World, step: Step)
    requires Outcome(env, w, step).Some?
    ensures step.Call? && CpiAllowed(w, step.cpi)
    ensures Handle(env, w, step.ix, step.metas, step.cpi) == Ok(Next(env, w, step))
  {
    hide Handle;
  }

  lemma RewriteIsHandled(env: Env, w: World, step: Step)
    requires step.Call? && Rewrites(step.ix)
    ensures Handle(env, w, step.ix, step.metas, step.cpi) == HandleRewrite(w, step.metas, step.ix)
  {
    hide HandleRewrite;
  }

  lemma SameDataLoadsSame(w: World, next: World, k: Key)
    requires Data(next, k) == Data(w, k)
    ensures LoadSplitter(next, k) == LoadSplitter(w, k)
  {
  }

  lemma OutsideKeepsSplitter(env: Env, w: World, next: World, k: Key)
    requires SplitterOk(env, w, k) && OutsideAllowed(w, next)
    ensures LoadSplitter(next, k) == LoadSplitter(w, k)
    ensures Bal(next.lamports, k) >= Bal(w.lamports, k)
  {
    SplitterOwned(env, w, k);
    assert Data(next, k) == Data(w, k);
  }

  /** No other instruction can aim its write at a live splitter. */
  lemma OthersDoNotWrite(env: Env, w: World, step: Step, k: Key)
    requires Inv(env, w) && |Data(w, k)| == SPLITTER_LEN
    requires Outcome(env, w, step).Some? && !Rewriting(env, w, step, k)
    ensures !WritesTo(step.ix, step.metas, k)
    ensures !(step.ix.CloseSellConfig? && |step.metas| > 1 && step.metas[1].key == k)
  {
    hide HandleCreate, HandleRewrite, HandleSetSellConfig, HandleCloseSellConfig, HandleDistributeSol, HandleDistributeTokens;
    hide HandleSwap, HandleSnsProxy, Inv, LoadSplitter, LoadSellConfig, ConfigBytes, Exec;
    SuccessIsHandled(env, w, step);
    match step.ix {
      case CreateSplitter(nonce, name) => CreateFrame(env, w, step.metas, nonce, name);
      case SetSellConfig(mints, programs) => SetSellConfigFrame(env, w, step.metas, mints, programs);
      case CloseSellConfig =>
        CloseSellConfigFrame(env, w, step.metas);
        SellConfigData(w, step.metas[1].key);
      case _ =>
    }
  }

  /** Creator, nonce and bump are for ever, so the address always re-derives. */
  lemma {:induction false} IdentityIsForever(env: Env, w: World, steps: seq<Step>, k: Key)
    requires Inv(env, w) && LoadSplitter(w, k).Ok?
    ensures var end := LoadSplitter(After(env, w, steps), k);
            var s := LoadSplitter(w, k).value;
            && end.Ok? && end.value.creator == s.creator && end.value.nonce == s.nonce && end.value.bump == s.bump
            && env.derive(end.value.creator, end.value.nonce, end.value.bump) == k
    decreases |steps|
  {
    hide LoadSplitter, Next, WellFormed, Modify;
    LoadedIsOk(env, w, k);
    if steps != [] {
      SplitterStep(env, w, steps[0], k);
      NextKeepsInv(env, w, steps[0]);
      if Rewriting(env, w, steps[0], k) {
        ModifyKeepsWellFormed(LoadSplitter(w, k).value, steps[0].ix, steps[0].metas[1].key);
      }
      IdentityIsForever(env, Next(env, w, steps[0]), steps[1..], k);
    }
  }

  /**
    A rewriting call goes through exactly when its signer signs, the account is
    a splitter and the record-level operation accepts: no other account, funds
    or signature is needed.
   */
  lemma RewriteSucceedsExactly(env: Env, w: World, ix: Instruction, metas: seq<Meta>, cpi: Cpi)
    requires Inv(env, w) && Rewrites(ix) && |metas| >= 2 && CpiAllowed(w, cpi)
    ensures Outcome(env, w, Call(ix, metas, cpi)).Some? <==>
              && metas[1].isSigner
              && LoadSplitter(w, metas[0].key).Ok?
              && (ix.SetSplitterName? ==> |ix.name| <= 64)
              && Modify(LoadSplitter(w, metas[0].key).value, ix, metas[1].key).Ok?
  {
    hide LoadSplitter, Modify, EncodeSplitter, Inv, Total, CpiAllowed;
    RewriteIsHandled(env, w, Call(ix, metas, cpi));
    hide Handle;
    if HandleRewrite(w, metas, ix).Ok? {
      HandlersConserve(env, w, ix, metas, cpi);
    }
  }

  /**
    On its own signature alone a recipient can lock exactly what lies above its
    effective lock and within its first entry's share.
   */
  lemma RecipientCanLock(env: Env, w: World, k: Key, a: Key, m: u16)
    requires Inv(env, w) && LoadSplitter(w, k).Ok?
    ensures var rs := LoadSplitter(w, k).value.Active();
            Outcome(env, w, Call(LockRecipient(m), [Meta(k, false, true), Meta(a, true, false)], CpiFails)).Some? <==>
              Listed(rs, a) && EffectiveLock(rs, a) < m <= rs[FirstMatch(rs, a)].share
  {
    hide LoadSplitter, Outcome, WellFormed, EffectiveLock, Listed, Lock;
    LoadedIsOk(env, w, k);
    LockAccepted(LoadSplitter(w, k).value, a, m);
    RewriteSucceedsExactly(env, w, LockRecipient(m), [Meta(k, false, true), Meta(a, true, false)], CpiFails);
  }

  // ------------------------------------------------------------------- locks

  /** Every successful reconfiguration of `k` in the run keeps `a` on the list. */
  ghost predicate KeepsListed(env: Env, w: World, steps: seq<Step>, k: Key, a: Key)
    decreases |steps|
  {
    steps == [] ||
    ( && (Reconfiguring(env, w, steps[0], k) ==>
            exists i :: 0 <= i < |steps[0].ix.recipients| && steps[0].ix.recipients[i].to == a)
      && KeepsListed(env, Next(env, w, steps[0]), steps[1..], k, a))
  }

  lemma ModifyKeepsLock(s: Splitter, ix: Instruction, signer: Key, a: Key)
    requires WellFormed(s) && Rewrites(ix) && Modify(s, ix, signer).Ok? && Listed(s.Active(), a)
    requires ix.SetSplitterDistribution? ==> exists i :: 0 <= i < |ix.recipients| && ix.recipients[i].to == a
    ensures var t := Modify(s, ix, signer).value;
            Listed(t.Active(), a) && EffectiveLock(t.Active(), a) >= EffectiveLock(s.Active(), a)
  {
    hide WellFormed, SetDistribution, Lock, EffectiveLock, FirstMatch;
    var t := Modify(s, ix, signer).value;
    if ix.SetSplitterDistribution? {
      DistributionKeepsLocks(s, ix.recipients, a);
    } else if ix.LockRecipient? {
      LockRaises(s, signer, ix.minShare);
      var i :| 0 <= i < |s.Active()| && s.Active()[i].address == a;
      assert Weights(t.Active())[i] == Weights(s.Active())[i];
    } else {
      assert t.Active() == s.Active();
    }
  }

  /** While an address stays listed, what it has been guaranteed never falls. */
  lemma {:induction false} LockNeverFalls(env: Env, w: World, steps: seq<Step>, k: Key, a: Key)
    requires Inv(env, w) && LoadSplitter(w, k).Ok? && Listed(LoadSplitter(w, k).value.Active(), a)
    requires KeepsListed(env, w, steps, k, a)
    ensures var end := LoadSplitter(After(env, w, steps), k);
            && end.Ok?
            && Listed(end.value.Active(), a)
            && EffectiveLock(end.value.Active(), a) >= EffectiveLock(LoadSplitter(w, k).value.Active(), a)
    decreases |steps|
  {
    hide LoadSplitter, Next, WellFormed, Modify, Listed, EffectiveLock;
    if steps != [] {
      LoadedIsOk(env, w, k);
      SplitterStep(env, w, steps[0], k);
      NextKeepsInv(env, w, steps[0]);
      if Rewriting(env, w, steps[0], k) {
        ModifyKeepsLock(LoadSplitter(w, k).value, steps[0].ix, steps[0].metas[1].key, a);
      }
      LockNeverFalls(env, Next(env, w, steps[0]), steps[1..], k, a);
    }
  }

  lemma CreditHonoursLock(amount: nat, s: Splitter, a: Key)
    requires WellFormed(s) && Listed(s.Active(), a)
    ensures Credit(Payouts(amount, Weights(s.Active())), a) >= ShareOf(amount, EffectiveLock(s.Active(), a))
  {
    hide WellFormed, EffectiveLock, ShareOf;
    LockCovered(s, a);
    var lock := EffectiveLock(s.Active(), a);
    var i :| 0 <= i < |s.Active()| && s.Active()[i].address == a && s.Active()[i].share >= lock;
    ShareMonotone(amount, lock, s.Active()[i].share);
    CreditAtLeastEntry(Payouts(amount, Weights(s.Active())), i);
  }

  /** A crank pays every listed address at least its effective lock's share of what is there. */
  lemma CrankHonoursLock(env: Env, w: World, metas: seq<Meta>, a: Key)
    requires metas != [] && SplitterOk(env, w, metas[0].key)
    requires a != metas[0].key && Listed(LoadSplitter(w, metas[0].key).value.Active(), a)
    ensures var k := metas[0].key;
            var lock := EffectiveLock(LoadSplitter(w, k).value.Active(), a);
            HandleDistributeSol(env, w, metas).Ok? ==>
            Bal(HandleDistributeSol(env, w, metas).value.lamports, a)
            >= Bal(w.lamports, a) + ShareOf(Distributable(env, w, k), lock)
  {
    hide HandleDistributeSol, LoadSplitter, WellFormed, EffectiveLock, ShareOf, Payouts, Listed, Weights, Credit;
    CrankIsSimultaneous(env, w, metas);
    CreditHonoursLock(Distributable(env, w, metas[0].key), LoadSplitter(w, metas[0].key).value, a);
  }

  /**
    The guarantee behind a lock: once an address (other than the splitter) has
    locked `m`, then after any run whose reconfigurations keep it listed, every
    successful crank raises its balance by at least m/10000 of what is there.
   */
  lemma LockedPayoutIsGuaranteed(
    env: Env, w: World, lock: Step, steps: seq<Step>, crank: Step, k: Key, a: Key, m: u16)
    requires Inv(env, w) && LoadSplitter(w, k).Ok? && a != k
    requires lock.Call? && lock.ix == LockRecipient(m) && |lock.metas| > 1 && lock.metas[1].key == a
    requires crank.Call? && crank.ix == DistributeSOL && crank.metas != [] && crank.metas[0].key == k
    ensures var locked := Next(env, w, lock);
            var before := After(env, locked, steps);
            Locking(env, w, lock, k) && KeepsListed(env, locked, steps, k, a) && Outcome(env, before, crank).Some? ==>
              Bal(Next(env, before, crank).lamports, a)
              >= Bal(before.lamports, a) + ShareOf(Distributable(env, before, k), m)
  {
    hide LoadSplitter, Next, WellFormed, EffectiveLock, ShareOf, Listed, HandleDistributeSol, Lock, SplitterOk;
    hide HandleRewrite, Outcome;
    var locked := Next(env, w, lock);
    var before := After(env, locked, steps);
    if Locking(env, w, lock, k) && KeepsListed(env, locked, steps, k, a) && Outcome(env, before, crank).Some? {
      LoadedIsOk(env, w, k);
      SplitterStep(env, w, lock, k);
      LockTakes(env, w, k, a, m);
      NextKeepsInv(env, w, lock);
      LockNeverFalls(env, locked, steps, k, a);
      RunKeepsInv(env, locked, steps);
      LoadedIsOk(env, before, k);
      SuccessIsHandled(env, before, crank);
      CrankHonoursLock(env, before, crank.metas, a);
      ShareMonotone(Distributable(env, before, k), m, EffectiveLock(LoadSplitter(before, k).value.Active(), a));
    }
  }

  lemma LockTakes(env: Env, w: World, k: Key, a: Key, m: u16)
    requires SplitterOk(env, w, k) && Lock(LoadSplitter(w, k).value, a, m).Ok?
    ensures var t := Lock(LoadSplitter(w, k).value, a, m).value;
            Listed(t.Active(), a) && EffectiveLock(t.Active(), a) == m
  {
    hide LoadSplitter, WellFormed, Lock, Listed, EffectiveLock;
    LockRaises(LoadSplitter(w, k).value, a, m);
  }

  // ------------------------------------------------------- fixed distributions

  /** No reconfiguration of `k` succeeds during the run. */
  ghost predicate NeverReconfigured(env: Env, w: World, steps: seq<Step>, k: Key)
    decreases |steps|
  {
    steps == [] || (!Reconfiguring(env, w, steps[0], k) && NeverReconfigured(env, Next(env, w, steps[0]), steps[1..], k))
  }

  lemma ModifyKeepsWeights(s: Splitter, ix: Instruction, signer: Key)
    requires WellFormed(s) && Rewrites(ix) && !ix.SetSplitterDistribution? && Modify(s, ix, signer).Ok?
    ensures var t := Modify(s, ix, signer).value;
            Weights(t.Active()) == Weights(s.Active()) && t.numRecipients == s.numRecipients
            && LockSum(t.Active()) >= LockSum(s.Active()) + (if ix.LockRecipient? then 1 else 0)
  {
    hide WellFormed, Lock, LockSum;
    var t := Modify(s, ix, signer).value;
    if ix.LockRecipient? {
      LockRaises(s, signer, ix.minShare);
      LockKeepsCount(s, signer, ix.minShare);
    } else {
      assert t.Active() == s.Active();
    }
  }

  lemma LockKeepsCount(s: Splitter, signer: Key, m: u16)
    requires Lock(s, signer, m).Ok?
    ensures Lock(s, signer, m).value.numRecipients == s.numRecipients
  {
  }

  /** How many successful `LockRecipient` calls on `k` the run contains. */
  ghost function LockCount(env: Env, w: World, steps: seq<Step>, k: Key): nat
    decreases |steps|
  {
    if steps == [] then 0 else
      (if Locking(env, w, steps[0], k) then 1 else 0) + LockCount(env, Next(env, w, steps[0]), steps[1..], k)
  }

  /** Without reconfiguration, shares stand still and every lock uses up lockable shares. */
  lemma {:induction false} LocksAccumulate(env: Env, w: World, steps: seq<Step>, k: Key)
    requires Inv(env, w) && LoadSplitter(w, k).Ok? && NeverReconfigured(env, w, steps, k)
    ensures var s := LoadSplitter(w, k).value;
            var end := LoadSplitter(After(env, w, steps), k);
            && end.Ok?
            && Weights(end.value.Active()) == Weights(s.Active())
            && LockSum(end.value.Active()) >= LockSum(s.Active()) + LockCount(env, w, steps, k)
    decreases |steps|
  {
    hide LoadSplitter, Next, WellFormed, Modify, LockSum, Weights;
    if steps != [] {
      LoadedIsOk(env, w, k);
      SplitterStep(env, w, steps[0], k);
      NextKeepsInv(env, w, steps[0]);
      if Rewriting(env, w, steps[0], k) {
        ModifyKeepsWeights(LoadSplitter(w, k).value, steps[0].ix, steps[0].metas[1].key);
      }
      LocksAccumulate(env, Next(env, w, steps[0]), steps[1..], k);
    }
  }

  /** So between two reconfigurations there are at most 10000 successful locks, by all recipients together. */
  lemma AtMostTenThousandLocks(env: Env, w: World, steps: seq<Step>, k: Key)
    requires Inv(env, w) && LoadSplitter(w, k).Ok? && NeverReconfigured(env, w, steps, k)
    ensures LockCount(env, w, steps, k) <= 10000 - LockSum(LoadSplitter(w, k).value.Active())
  {
    hide LoadSplitter, LockSum, LockCount;
    LocksAccumulate(env, w, steps, k);
    RunKeepsInv(env, w, steps);
    LoadedIsOk(env, After(env, w, steps), k);
    LocksWithinTotal(LoadSplitter(After(env, w, steps), k).value);
  }

  lemma LocksWithinTotal(s: Splitter)
    requires WellFormed(s)
    ensures LockSum(s.Active()) <= 10000
  {
    LockSumBound(s.Active());
  }

  // -------------------------------------------------------------- revocation

  ghost predicate SameButLocks(s: Splitter, t: Splitter) {
    && t == s.(recipients := t.recipients)
    && Weights(t.Active()) == Weights(s.Active())
    && forall a: Key :: EffectiveLock(t.Active(), a) >= EffectiveLock(s.Active(), a)
  }

  lemma RevokedModify(s: Splitter, ix: Instruction, signer: Key)
    requires WellFormed(s) && Rewrites(ix) && s.admin == DEFAULT_KEY && Modify(s, ix, signer).Ok?
    ensures SameButLocks(s, Modify(s, ix, signer).value)
  {
    hide WellFormed, EffectiveLock;
    LockRaises(s, signer, ix.minShare);
    forall a: Key
      ensures EffectiveLock(Modify(s, ix, signer).value.Active(), a) >= EffectiveLock(s.Active(), a)
    {
    }
  }

  lemma KeepsAdmin(s: Splitter, t: Splitter)
    requires SameButLocks(s, t)
    ensures t.admin == s.admin
  {
  }

  /**
    Revocation is absorbing. Once the admin is the default key, by revocation or
    by transfer, no later run changes admin, identity, name, addresses or
    shares, whoever signs; locks only grow. So the payouts of any amount are
    fixed for ever.
   */
  lemma {:induction false} RevocationIsForever(env: Env, w: World, steps: seq<Step>, k: Key, amount: nat)
    requires Inv(env, w) && LoadSplitter(w, k).Ok? && LoadSplitter(w, k).value.admin == DEFAULT_KEY
    ensures var s := LoadSplitter(w, k).value;
            var end := LoadSplitter(After(env, w, steps), k);
            && end.Ok?
            && SameButLocks(s, end.value)
            && Payouts(amount, Weights(end.value.Active())) == Payouts(amount, Weights(s.Active()))
    decreases |steps|
  {
    hide LoadSplitter, Next, WellFormed, Modify, EffectiveLock, Payouts, Weights;
    if steps != [] {
      LoadedIsOk(env, w, k);
      SplitterStep(env, w, steps[0], k);
      NextKeepsInv(env, w, steps[0]);
      if Rewriting(env, w, steps[0], k) {
        RevokedModify(LoadSplitter(w, k).value, steps[0].ix, steps[0].metas[1].key);
      }
      RevocationIsForever(env, Next(env, w, steps[0]), steps[1..], k, amount);
    }
  }

  // ----------------------------------------------- configurations step by step

  ghost predicate Writing(env: Env, w: World, step: Step, c: Key) {
    Outcome(env, w, step).Some? && step.ix.SetSellConfig? && |step.metas| > 1 && step.metas[1].key == c
  }

  ghost predicate Closing(env: Env, w: World, step: Step, c: Key) {
    Outcome(env, w, step).Some? && step.ix.CloseSellConfig? && |step.metas| > 1 && step.metas[1].key == c
  }

  /** The admin of the splitter named in the call, and only it, writes or closes that splitter's configuration. */
  lemma WritingIsAuthorised(env: Env, w: World, step: Step, c: Key)
    requires Inv(env, w)
    ensures Writing(env, w, step, c) || Closing(env, w, step, c) ==>
              && |step.metas| >= 3 && step.metas[2].isSigner
              && LoadSplitter(w, step.metas[0].key).Ok?
              && CheckAdmin(LoadSplitter(w, step.metas[0].key).value, step.metas[2].key).Ok?
              && c == env.configAddress(step.metas[0].key)
    ensures Writing(env, w, step, c) ==>
              WrittenFor(env, Data(Next(env, w, step), c), c, step.metas[0].key, step.ix.mints, step.ix.programs)
    ensures Closing(env, w, step, c) ==> LoadSellConfig(Next(env, w, step), c) == Err(SellConfigNotFound)
  {
    hide HandleSetSellConfig, HandleCloseSellConfig, Inv, LoadSplitter, LoadSellConfig, CheckAdmin, ConfigBytes, Outcome, Zeros;
    if Writing(env, w, step, c) {
      SuccessIsHandled(env, w, step);
      SetSellConfigFrame(env, w, step.metas, step.ix.mints, step.ix.programs);
    } else if Closing(env, w, step, c) {
      SuccessIsHandled(env, w, step);
      CloseSellConfigFrame(env, w, step.metas);
      ZerosDoNotLoad(Next(env, w, step), c);
    }
  }

  lemma ZerosDoNotLoad(w: World, c: Key)
    requires Data(w, c) == Zeros(SELL_CONFIG_LEN)
    ensures LoadSellConfig(w, c) == Err(SellConfigNotFound)
  {
    hide DecodeSellConfig, Zeros;
    ZerosAreNoSellConfig();
  }

  lemma SameConfigLoads(w: World, next: World, c: Key)
    requires Data(next, c) == Data(w, c)
    ensures LoadSellConfig(next, c) == LoadSellConfig(w, c)
  {
  }

  /** A configuration just written can be loaded, with exactly the lists given. */
  lemma WrittenConfigLoads(env: Env, w: World, step: Step, c: Key)
    requires Inv(env, w) && Writing(env, w, step, c)
    ensures |step.ix.mints| <= 10 && |step.ix.programs| <= 5
    ensures var k := step.metas[0].key;
            LoadSellConfig(Next(env, w, step), c)
            == Ok(NewSellConfig(k, env.configBump(k), step.ix.mints, step.ix.programs))
  {
    hide HandleSetSellConfig, EncodeSellConfig, DecodeSellConfig, Inv, LoadSplitter;
    SuccessIsHandled(env, w, step);
    SetSellConfigFrame(env, w, step.metas, step.ix.mints, step.ix.programs);
    var k := step.metas[0].key;
    SellConfigRoundTrip(NewSellConfig(k, env.configBump(k), step.ix.mints, step.ix.programs));
  }

  /** Splitter data is no configuration. */
  lemma SplitterWriteIsNoConfig(env: Env, w: World, step: Step, c: Key)
    requires Inv(env, w) && step.Call? && (step.ix.CreateSplitter? || Rewrites(step.ix)) && WritesTo(step.ix, step.metas, c)
    ensures Outcome(env, w, step).Some? ==> !LoadSellConfig(Next(env, w, step), c).Ok?
  {
    hide HandleCreate, HandleRewrite, Inv, LoadSplitter, LoadSellConfig, Outcome, EncodeSplitter, NewSplitter, Modify;
    if !Outcome(env, w, step).Some? {
      return;
    }
    SuccessIsHandled(env, w, step);
    if step.ix.CreateSplitter? {
      CreateFrame(env, w, step.metas, step.ix.nonce, step.ix.name);
    } else {
      RewriteIsHandled(env, w, step);
      RewriteFrame(w, step.metas, step.ix);
    }
    if LoadSellConfig(Next(env, w, step), c).Ok? {
      SellConfigData(Next(env, w, step), c);
    }
  }

  /** A configuration that loads after a step was just written, or was there before, byte for byte. */
  lemma ConfigStep(env: Env, w: World, step: Step, c: Key)
    requires Inv(env, w) && LoadSellConfig(Next(env, w, step), c).Ok?
    ensures !Closing(env, w, step, c)
    ensures !Writing(env, w, step, c) ==> Data(Next(env, w, step), c) == Data(w, c)
  {
    hide Handle, Inv, LoadSellConfig, Outcome;
    var next := Next(env, w, step);
    if Outcome(env, w, step).Some? {
      SuccessIsHandled(env, w, step);
      WritingIsAuthorised(env, w, step, c);
      Frame(env, w, step.ix, step.metas, step.cpi, c);
      if WritesTo(step.ix, step.metas, c) && !step.ix.SetSellConfig? && !step.ix.CloseSellConfig? {
        SplitterWriteIsNoConfig(env, w, step, c);
      }
    } else if step.Outside? && OutsideAllowed(w, next) {
      SellConfigData(next, c);
      assert Owned(next, c) && Data(next, c) == Data(w, c);
    }
  }

  // ------------------------------------------- the configuration after revocation

  /** Nobody else's configuration shares this splitter's configuration address. */
  ghost predicate OwnConfigAddress(env: Env, k: Key) {
    forall other: Key :: other != k ==> env.configAddress(other) != env.configAddress(k)
  }

  ghost predicate Revoked(env: Env, w: World, k: Key) {
    Inv(env, w) && LoadSplitter(w, k).Ok? && LoadSplitter(w, k).value.admin == DEFAULT_KEY
  }

  lemma RevokedStep(env: Env, w: World, step: Step, k: Key)
    requires Revoked(env, w, k)
    ensures Revoked(env, Next(env, w, step), k)
    ensures OwnConfigAddress(env, k) ==>
              !Writing(env, w, step, env.configAddress(k)) && !Closing(env, w, step, env.configAddress(k))
  {
    hide LoadSplitter, Inv, Outcome, SameButLocks, Handle;
    var next := Next(env, w, step);
    NextKeepsInv(env, w, step);
    RevocationIsForever(env, w, [step], k, 0);
    assert After(env, w, [step]) == After(env, next, []) == next;
    KeepsAdmin(LoadSplitter(w, k).value, LoadSplitter(next, k).value);
    var c := env.configAddress(k);
    if OwnConfigAddress(env, k) && (Writing(env, w, step, c) || Closing(env, w, step, c)) {
      SuccessIsHandled(env, w, step);
      WritingIsAuthorised(env, w, step, c);
      assert false;
    }
  }

  /** A revoked splitter's sell configuration, if it is still there, is the one it had. */
  lemma {:induction false} RevokedConfigIsFrozen(env: Env, w: World, steps: seq<Step>, k: Key)
    requires Revoked(env, w, k) && OwnConfigAddress(env, k)
    ensures var c := env.configAddress(k);
            LoadSellConfig(After(env, w, steps), c).Ok? ==> Data(After(env, w, steps), c) == Data(w, c)
    decreases |steps|
  {
    hide LoadSplitter, LoadSellConfig, Next, Data, OwnConfigAddress, Inv;
    var c := env.configAddress(k);
    if steps != [] {
      var next := Next(env, w, steps[0]);
      RevokedStep(env, w, steps[0], k);
      RevokedConfigIsFrozen(env, next, steps[1..], k);
      if LoadSellConfig(After(env, w, steps), c).Ok? {
        SameConfigLoads(next, After(env, w, steps), c);
        ConfigStep(env, w, steps[0], c);
      }
    }
  }

  ghost predicate FundedConfig(w: World, c: Key) {
    LoadSellConfig(w, c).Ok? && Bal(w.lamports, c) > 0
  }

  /** Unless it is written or closed, a funded configuration keeps its data and stays funded. */
  lemma FundedConfigStep(env: Env, w: World, step: Step, c: Key)
    requires Inv(env, w) && FundedConfig(w, c) && !Writing(env, w, step, c) && !Closing(env, w, step, c)
    ensures FundedConfig(Next(env, w, step), c) && Data(Next(env, w, step), c) == Data(w, c)
  {
    hide Handle, LoadSellConfig, LoadSplitter, Inv, Outcome;
    var next := Next(env, w, step);
    SellConfigData(w, c);
    assert Owned(w, c);
    if Outcome(env, w, step).Some? {
      SuccessIsHandled(env, w, step);
      Frame(env, w, step.ix, step.metas, step.cpi, c);
      LeavesConfigAlone(env, w, step, c);
    } else if step.Outside? && OutsideAllowed(w, next) {
      assert Data(next, c) == Data(w, c);
    }
    SameConfigLoads(w, next, c);
  }

  /** No other instruction can aim its write or its debit at a configuration. */
  lemma LeavesConfigAlone(env: Env, w: World, step: Step, c: Key)
    requires Inv(env, w) && |Data(w, c)| == SELL_CONFIG_LEN
    ensures Outcome(env, w, step).Some? && !Writing(env, w, step, c) && !Closing(env, w, step, c) ==>
              !WritesTo(step.ix, step.metas, c) && !Debits(step.ix, step.metas, c)
  {
    hide HandleCreate, HandleRewrite, HandleDistributeSol, HandleSetSellConfig, HandleCloseSellConfig, HandleDistributeTokens;
    hide HandleSwap, HandleSnsProxy, Inv, LoadSplitter, Outcome, NewSplitter, EncodeSplitter, Modify;
    if !Outcome(env, w, step).Some? {
      return;
    }
    SuccessIsHandled(env, w, step);
    if step.ix.CreateSplitter? {
      CreateFrame(env, w, step.metas, step.ix.nonce, step.ix.name);
    } else if Rewrites(step.ix) {
      RewriteFrame(w, step.metas, step.ix);
      SplitterData(w, step.metas[0].key);
    } else if step.ix.DistributeSOL? {
      SolFrame(env, w, step.metas);
      SplitterData(w, step.metas[0].key);
    }
  }

  lemma {:induction false} RevokedRunKeepsFunded(env: Env, w: World, steps: seq<Step>, k: Key)
    requires Revoked(env, w, k) && OwnConfigAddress(env, k) && FundedConfig(w, env.configAddress(k))
    ensures var c := env.configAddress(k);
            FundedConfig(After(env, w, steps), c) && Data(After(env, w, steps), c) == Data(w, c)
    decreases |steps|
  {
    hide LoadSplitter, FundedConfig, Next, Data, OwnConfigAddress, Inv;
    if steps != [] {
      RevokedStep(env, w, steps[0], k);
      FundedConfigStep(env, w, steps[0], env.configAddress(k));
      RevokedRunKeepsFunded(env, Next(env, w, steps[0]), steps[1..], k);
    }
  }

  /** An account of the program without lamports may be gone at the next step. */
  lemma UnfundedCanBeDropped(env: Env, w: World, c: Key) returns (drop: Step)
    requires Inv(env, w) && Owned(w, c) && Bal(w.lamports, c) == 0
    ensures !Owned(Next(env, w, drop), c)
  {
    hide SplitterOk, ConfigOk;
    var next := w.(data := w.data - {c});
    assert forall x: Key :: x != c ==> Data(next, x) == Data(w, x);
    drop := Outside(next);
    assert OutsideAllowed(w, next);
  }

  /** After the run the configuration loads and has the bytes it had before. */
  ghost predicate ConfigKept(env: Env, w: World, steps: seq<Step>, c: Key) {
    LoadSellConfig(After(env, w, steps), c).Ok? && Data(After(env, w, steps), c) == Data(w, c)
  }

  /**
    The exact condition: a revoked splitter's configuration is there, byte for
    byte, after every run if and only if it has lamports.
   */
  lemma RevokedConfigStaysIffFunded(env: Env, w: World, k: Key)
    requires Revoked(env, w, k) && OwnConfigAddress(env, k) && LoadSellConfig(w, env.configAddress(k)).Ok?
    ensures Bal(w.lamports, env.configAddress(k)) > 0 <==>
            forall steps: seq<Step> :: ConfigKept(env, w, steps, env.configAddress(k))
  {
    hide LoadSplitter, LoadSellConfig, OwnConfigAddress, Inv, ConfigKept;
    var c := env.configAddress(k);
    if Bal(w.lamports, c) > 0 {
      forall steps: seq<Step>
        ensures ConfigKept(env, w, steps, c)
      {
        FundedIsKept(env, w, steps, k);
      }
    } else {
      var drop := UnfundedIsNotKept(env, w, c);
      assert !ConfigKept(env, w, [drop], c);
    }
  }

  lemma FundedIsKept(env: Env, w: World, steps: seq<Step>, k: Key)
    requires Revoked(env, w, k) && OwnConfigAddress(env, k) && FundedConfig(w, env.configAddress(k))
    ensures ConfigKept(env, w, steps, env.configAddress(k))
  {
    hide Revoked, OwnConfigAddress, LoadSellConfig, After;
    RevokedRunKeepsFunded(env, w, steps, k);
  }

  lemma UnfundedIsNotKept(env: Env, w: World, c: Key) returns (drop: Step)
    requires Inv(env, w) && LoadSellConfig(w, c).Ok? && Bal(w.lamports, c) == 0
    ensures !ConfigKept(env, w, [drop], c)
  {
    hide LoadSellConfig, Inv, Next;
    SellConfigData(w, c);
    drop := UnfundedCanBeDropped(env, w, c);
    assert After(env, w, [drop]) == After(env, Next(env, w, drop), []) == Next(env, w, drop);
  }

  /** The accounts of a call by `admin` on splitter `k` and its configuration. */
  function ConfigMetas(env: Env, k: Key, admin: Key): seq<Meta> {
    [ Meta(k, false, true), Meta(env.configAddress(k), false, true), Meta(admin, true, true), Meta(admin, true, true),
      Meta(DEFAULT_KEY, false, false)]
  }

  /** The admin can close its configuration into any account but the configuration itself, here its own. */
  lemma AdminCanClose(env: Env, w: World, k: Key) returns (close: Step)
    requires Inv(env, w) && LoadSplitter(w, k).Ok? && LoadSellConfig(w, env.configAddress(k)).Ok?
    requires var s, c := LoadSplitter(w, k).value, env.configAddress(k);
             s.admin != DEFAULT_KEY && s.admin != c && Bal(w.lamports, s.admin) + Bal(w.lamports, c) < U64_LIMIT
    ensures var next, c := Next(env, w, close), env.configAddress(k);
            && close.Call? && Inv(env, next) && LoadSplitter(next, k) == LoadSplitter(w, k)
            && Data(next, c) == Zeros(SELL_CONFIG_LEN) && Bal(next.lamports, c) == 0
  {
    hide LoadSplitter, LoadSellConfig, Inv, Zeros, Total;
    var admin := LoadSplitter(w, k).value.admin;
    var metas := ConfigMetas(env, k, admin);
    close := Call(CloseSellConfig, metas, CpiFails);
    NextKeepsInv(env, w, close);
    SellConfigData(w, metas[1].key);
    SplitterData(w, k);
    HandlersConserve(env, w, CloseSellConfig, metas, CpiFails);
    SameDataLoadsSame(w, Next(env, w, close), k);
  }

  /** And the account, still there for the rest of the transaction, can be written again. */
  lemma AdminCanRewrite(env: Env, w: World, k: Key) returns (rewrite: Step)
    requires Inv(env, w) && LoadSplitter(w, k).Ok? && LoadSplitter(w, k).value.admin != DEFAULT_KEY
    requires |Data(w, env.configAddress(k))| == SELL_CONFIG_LEN
    ensures var next, c := Next(env, w, rewrite), env.configAddress(k);
            && rewrite.Call? && Inv(env, next) && LoadSplitter(next, k) == LoadSplitter(w, k)
            && LoadSellConfig(next, c).Ok? && Bal(next.lamports, c) == Bal(w.lamports, c)
  {
    hide LoadSplitter, LoadSellConfig, Inv, Total;
    var metas := ConfigMetas(env, k, LoadSplitter(w, k).value.admin);
    rewrite := Call(SetSellConfig([], []), metas, CpiFails);
    NextKeepsInv(env, w, rewrite);
    SplitterData(w, k);
    HandlersConserve(env, w, SetSellConfig([], []), metas, CpiFails);
    SameDataLoadsSame(w, Next(env, w, rewrite), k);
    WrittenConfigLoads(env, w, rewrite, metas[1].key);
  }

  lemma AdminCanRevoke(env: Env, w: World, k: Key) returns (revoke: Step)
    requires Inv(env, w) && LoadSplitter(w, k).Ok? && LoadSplitter(w, k).value.admin != DEFAULT_KEY
    requires LoadSellConfig(w, env.configAddress(k)).Ok?
    ensures var next, c := Next(env, w, revoke), env.configAddress(k);
            && revoke.Call? && Revoked(env, next, k)
            && LoadSellConfig(next, c).Ok? && Bal(next.lamports, c) == Bal(w.lamports, c)
  {
    hide LoadSplitter, LoadSellConfig, Inv, Total, HandleRewrite;
    var admin := LoadSplitter(w, k).value.admin;
    var metas := ConfigMetas(env, k, admin);
    metas := [metas[0], metas[2]];
    revoke := Call(RevokeSplitterAdmin, metas, CpiFails);
    RewriteSucceedsExactly(env, w, RevokeSplitterAdmin, metas, CpiFails);
    NextKeepsInv(env, w, revoke);
    RewriteFrame(w, metas, RevokeSplitterAdmin);
    SplitterStep(env, w, revoke, k);
    SplitterData(w, k);
    SellConfigData(w, env.configAddress(k));
    SameConfigLoads(w, Next(env, w, revoke), env.configAddress(k));
  }

  /**
    And such a configuration occurs: its admin closes a configuration, writes it
    again in the same transaction, and revokes. It loads, without lamports, and
    the next step may drop it.
   */
  lemma UnfundedIsReachable(env: Env, w: World, k: Key) returns (steps: seq<Step>, drop: Step)
    requires Inv(env, w) && LoadSplitter(w, k).Ok? && LoadSellConfig(w, env.configAddress(k)).Ok?
    requires var s, c := LoadSplitter(w, k).value, env.configAddress(k);
             s.admin != DEFAULT_KEY && s.admin != c && Bal(w.lamports, s.admin) + Bal(w.lamports, c) < U64_LIMIT
    ensures forall i :: 0 <= i < |steps| ==> steps[i].Call?
    ensures var end, c := After(env, w, steps), env.configAddress(k);
            && Revoked(env, end, k) && LoadSellConfig(end, c).Ok? && Bal(end.lamports, c) == 0
            && !Owned(Next(env, end, drop), c)
  {
    hide LoadSplitter, LoadSellConfig, Inv, Next, Zeros, Outcome, Modify;
    var c := env.configAddress(k);
    var close := AdminCanClose(env, w, k);
    var closed := Next(env, w, close);
    var rewrite := AdminCanRewrite(env, closed, k);
    var written := Next(env, closed, rewrite);
    var revoke := AdminCanRevoke(env, written, k);
    var end := Next(env, written, revoke);
    steps := [close, rewrite, revoke];
    assert After(env, w, steps) == After(env, closed, [rewrite, revoke]) == After(env, written, [revoke])
        == After(env, end, []) == end;
    SellConfigData(end, c);
    drop := UnfundedCanBeDropped(env, end, c);
  }
}
