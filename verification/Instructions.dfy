/**
  Instruction by instruction: exactly when a call succeeds, and exactly what the
  world is afterwards, in terms of the accounts and the records in them.
 */
module Instructions {
  import opened Base
  import opened Ledgers
  import opened Records
  import opened Borsh
  import opened Worlds
  import opened Invariant
  import opened Cranks
  import opened Reach
  import opened Guarantees
  import opened Swaps
  import opened TokenCranks

  predicate IsAdmin(s: Splitter, signer: Key) {
    s.admin != DEFAULT_KEY && signer == s.admin
  }

  /** Data of other accounts, tokens, token amounts and the log are as before. */
  ghost predicate OnlyWrites(w: World, after: World, k: Key) {
    && (forall x: Key :: x != k ==> Data(after, x) == Data(w, x))
    && after.tokens == w.tokens && after.amounts == w.amounts && after.log == w.log
  }

  ghost predicate SameLamportsBut(w: World, after: World, ks: set<Key>) {
    forall x: Key :: x !in ks ==> Bal(after.lamports, x) == Bal(w.lamports, x)
  }

  // --------------------------------------------- the five rewriting instructions

  /** What a rewriting instruction asks of the splitter and its signer. */
  ghost predicate Granted(s: Splitter, ix: Instruction, signer: Key)
    requires Rewrites(ix)
  {
    match ix
    case SetSplitterDistribution(es) =>
      && IsAdmin(s, signer)
      && |es| <= 10 && Sum(es) == 10000
      && (forall i :: 0 <= i < |es| ==> es[i].units > 0 && es[i].units >= EffectiveLock(s.Active(), es[i].to))
    case SetSplitterAdmin(_) => IsAdmin(s, signer)
    case RevokeSplitterAdmin => IsAdmin(s, signer)
    case SetSplitterName(name) => IsAdmin(s, signer) && |name| <= 64
    case LockRecipient(m) =>
      exists j: nat :: FirstEntry(s, signer, j) && EffectiveLock(s.Active(), signer) < m <= s.recipients[j].share
  }

  /** The first table entry of `a` is the j-th. */
  ghost predicate FirstEntry(s: Splitter, a: Key, j: nat) {
    && j < |s.Active()| && s.recipients[j].address == a
    && forall i :: 0 <= i < j ==> s.recipients[i].address != a
  }

  /** What it makes of the splitter. */
  ghost predicate Rewritten(s: Splitter, t: Splitter, ix: Instruction, signer: Key)
    requires Rewrites(ix)
  {
    match ix
    case SetSplitterDistribution(es) =>
      && |es| <= 10
      && t == s.(numRecipients := |es|, recipients := t.recipients)
      && (forall i :: 0 <= i < |es| ==>
            t.recipients[i] == Recipient(es[i].to, es[i].units, EffectiveLock(s.Active(), es[i].to)))
      && (forall i :: |es| <= i < 10 ==> t.recipients[i] == NO_RECIPIENT)
    case SetSplitterAdmin(newAdmin) => t == s.(admin := newAdmin)
    case RevokeSplitterAdmin => t == s.(admin := DEFAULT_KEY)
    case SetSplitterName(name) =>
      && t == s.(nameLen := t.nameLen, name := t.name)
      && NameOf(t) == name && t.nameLen == |name|
      && (forall i :: |name| <= i < 64 ==> t.name[i] == 0)
    case LockRecipient(m) =>
      exists j: nat :: FirstEntry(s, signer, j) && t == s.(recipients := s.recipients[j := s.recipients[j].(lockedShare := m)])
  }

  lemma DistributionExactly(s: Splitter, es: seq<Share>, signer: Key)
    requires WellFormed(s)
    ensures var ix := SetSplitterDistribution(es);
            && (Modify(s, ix, signer).Ok? <==> Granted(s, ix, signer))
            && (Modify(s, ix, signer).Ok? ==> Rewritten(s, Modify(s, ix, signer).value, ix, signer))
  {
    hide EffectiveLock, Sum, LockViolated;
    DistributionAccepted(s, es, signer);
    forall i | 0 <= i < |es|
      ensures FirstLock(s.Active(), es[i].to) == EffectiveLock(s.Active(), es[i].to)
    {
    }
  }

  lemma LockExactly(s: Splitter, m: u16, signer: Key)
    requires WellFormed(s)
    ensures var ix := LockRecipient(m);
            && (Modify(s, ix, signer).Ok? <==> Granted(s, ix, signer))
            && (Modify(s, ix, signer).Ok? ==> Rewritten(s, Modify(s, ix, signer).value, ix, signer))
  {
    hide EffectiveLock, Sum, Weights, FirstHoldsMax, FirstMatch;
    LockAccepted(s, signer, m);
    var j := FirstMatch(s.Active(), signer);
    if j < |s.Active()| {
      assert FirstEntry(s, signer, j);
    }
    if i: nat :| FirstEntry(s, signer, i) {
      assert i == j;
    }
  }

  lemma ModifyExactly(s: Splitter, ix: Instruction, signer: Key)
    requires WellFormed(s) && Rewrites(ix) && (ix.SetSplitterName? ==> |ix.name| <= 64)
    ensures Modify(s, ix, signer).Ok? <==> Granted(s, ix, signer)
    ensures Modify(s, ix, signer).Ok? ==> Rewritten(s, Modify(s, ix, signer).value, ix, signer)
  {
    hide WellFormed, SetDistribution, Lock;
    match ix {
      case SetSplitterDistribution(es) => DistributionExactly(s, es, signer);
      case LockRecipient(m) => LockExactly(s, m, signer);
      case SetSplitterName(name) => NameReadsBack(s, name);
      case _ =>
    }
  }

  /**
    The five rewriting instructions: a call succeeds if and only if its signer
    signs and what it asks is granted; then only the splitter's record changes,
    as the instruction says.
   */
  lemma RewriteExactly(env: Env, w: World, ix: Instruction, metas: seq<Meta>, cpi: Cpi)
    requires Inv(env, w) && Rewrites(ix) && CpiAllowed(w, cpi)
    ensures var r := Outcome(env, w, Call(ix, metas, cpi));
            && (r.Some? <==>
                  && |metas| >= 2 && metas[1].isSigner && LoadSplitter(w, metas[0].key).Ok?
                  && Granted(LoadSplitter(w, metas[0].key).value, ix, metas[1].key))
            && (r.Some? ==>
                  && LoadSplitter(r.value, metas[0].key).Ok?
                  && Rewritten(LoadSplitter(w, metas[0].key).value, LoadSplitter(r.value, metas[0].key).value, ix, metas[1].key)
                  && r.value.lamports == w.lamports
                  && OnlyWrites(w, r.value, metas[0].key))
  {
    hide LoadSplitter, Modify, EncodeSplitter, Inv, CpiAllowed, Granted, Rewritten, Outcome, WellFormed;
    var step := Call(ix, metas, cpi);
    if |metas| < 2 {
      ShortRewriteFails(env, w, ix, metas, cpi);
    } else {
      RewriteSucceedsExactly(env, w, ix, metas, cpi);
      if LoadSplitter(w, metas[0].key).Ok? {
        LoadedIsOk(env, w, metas[0].key);
        if ix.SetSplitterName? && |ix.name| > 64 {
          LongNameIsRefused(LoadSplitter(w, metas[0].key).value, ix, metas[1].key);
        } else {
          ModifyExactly(LoadSplitter(w, metas[0].key).value, ix, metas[1].key);
        }
      }
      if Outcome(env, w, step).Some? {
        RewriteOutcome(env, w, step);
      }
    }
  }

  lemma ShortRewriteFails(env: Env, w: World, ix: Instruction, metas: seq<Meta>, cpi: Cpi)
    requires Rewrites(ix) && |metas| < 2
    ensures Outcome(env, w, Call(ix, metas, cpi)) == None
  {
    hide Modify, LoadSplitter;
  }

  lemma LongNameIsRefused(s: Splitter, ix: Instruction, signer: Key)
    requires ix.SetSplitterName? && |ix.name| > 64
    ensures !Granted(s, ix, signer)
  {
  }

  lemma RewriteOutcome(env: Env, w: World, step: Step)
    requires Inv(env, w) && step.Call? && Rewrites(step.ix)
    ensures Outcome(env, w, step).Some? ==>
              var after := Outcome(env, w, step).value;
              && |step.metas| >= 2 && LoadSplitter(w, step.metas[0].key).Ok?
              && LoadSplitter(after, step.metas[0].key) == Modify(LoadSplitter(w, step.metas[0].key).value, step.ix, step.metas[1].key)
              && after.lamports == w.lamports
              && OnlyWrites(w, after, step.metas[0].key)
  {
    hide LoadSplitter, Modify, EncodeSplitter, Inv, Outcome, HandleRewrite;
    if Outcome(env, w, step).Some? {
      SuccessIsHandled(env, w, step);
      RewriteIsHandled(env, w, step);
      RewriteFrame(w, step.metas, step.ix);
      RewrittenIsOk(env, w, step.metas, step.ix);
    }
  }

  // ------------------------------------------------------------ CreateSplitter

  /**
    `CreateSplitter`, besides `CreateSucceedsExactly`: the creator pays exactly the
    rent, the record names the creator as admin and only recipient, and nothing
    else changes.
   */
  lemma CreateDoes(env: Env, w: World, nonce: u64, name: seq<byte>, metas: seq<Meta>, cpi: Cpi)
    requires Inv(env, w)
    ensures var r := Outcome(env, w, Call(CreateSplitter(nonce, name), metas, cpi));
            r.Some? ==>
            |metas| >= 3 &&
            var k, creator := metas[0].key, metas[1].key;
            && k == env.derive(creator, nonce, env.findBump(creator, nonce))
            && Bal(r.value.lamports, k) == env.splitterRent
            && Bal(r.value.lamports, creator) == Bal(w.lamports, creator) - env.splitterRent
            && SameLamportsBut(w, r.value, {k, creator})
            && OnlyWrites(w, r.value, k)
            && LoadSplitter(r.value, k).Ok?
            && var s := LoadSplitter(r.value, k).value;
               && s.creator == creator && s.admin == creator && s.nonce == nonce && s.bump == env.findBump(creator, nonce)
               && s.Active() == [Recipient(creator, 10000, 0)]
               && NameOf(s) == name
  {
    hide Inv, EncodeSplitter, DecodeSplitter, NewSplitter, CreateAccount;
    var r := Outcome(env, w, Call(CreateSplitter(nonce, name), metas, cpi));
    if r.Some? {
      var s := NewSplitter(metas[1].key, nonce, env.findBump(metas[1].key, nonce), name);
      CreateFrame(env, w, metas, nonce, name);
      CreatedFresh(w, metas[1].key, metas[0].key, env.splitterRent);
      SplitterRoundTrip(s);
      NewRecord(metas[1].key, nonce, s.bump, name);
      NewIdentity(metas[1].key, nonce, env.findBump(metas[1].key, nonce), name);
    }
  }

  lemma CreatedFresh(w: World, payer: Key, k: Key, rent: Rent)
    ensures CreateAccount(w, payer, k, rent, SPLITTER_LEN).Ok? ==>
              var after := CreateAccount(w, payer, k, rent, SPLITTER_LEN).value;
              Bal(after.lamports, payer) == Bal(w.lamports, payer) - rent && payer != k && after.amounts == w.amounts && after.log == w.log
  {
  }

  lemma NewRecord(creator: Key, nonce: u64, bump: byte, name: seq<byte>)
    ensures var s := NewSplitter(creator, nonce, bump, name);
            s.discriminator == SPLITTER_DISCRIMINATOR && s.bump == bump && s.Active() == [Recipient(creator, 10000, 0)]
  {
  }

  // ------------------------------------------------------------- SetSellConfig

  /** An account with nothing at its address. */
  ghost predicate Vacant(w: World, k: Key) {
    !Owned(w, k) && k !in w.tokens && Bal(w.lamports, k) == 0
  }

  /** A wallet that can spend `rent`. */
  ghost predicate CanPay(w: World, payer: Key, rent: Rent) {
    !Owned(w, payer) && payer !in w.tokens && Bal(w.lamports, payer) >= rent
  }

  /**
    `SetSellConfig` succeeds if and only if the admin signs, the lists fit, the
    address is the splitter's configuration address, and a configuration-sized
    account is there or a wallet signs that can pay for a new one.
   */
  lemma SetSellConfigSucceeds(env: Env, w: World, mints: seq<Key>, programs: seq<Key>, metas: seq<Meta>, cpi: Cpi)
    requires Inv(env, w) && CpiAllowed(w, cpi)
    ensures Outcome(env, w, Call(SetSellConfig(mints, programs), metas, cpi)).Some? <==>
              && |metas| >= 5 && metas[2].isSigner
              && LoadSplitter(w, metas[0].key).Ok? && IsAdmin(LoadSplitter(w, metas[0].key).value, metas[2].key)
              && |mints| <= 10 && |programs| <= 5
              && metas[1].key == env.configAddress(metas[0].key)
              && if Owned(w, metas[1].key) then |Data(w, metas[1].key)| == 523
                 else Vacant(w, metas[1].key) && metas[3].isSigner && CanPay(w, metas[3].key, env.configRent)
  {
    hide Inv, LoadSplitter, WriteSellConfig, CpiAllowed, Total, Outcome, EncodeSellConfig;
    var ix := SetSellConfig(mints, programs);
    if |metas| >= 5 && |mints| <= 10 && |programs| <= 5 && metas[1].key == env.configAddress(metas[0].key) {
      WriteAccepted(env, w, metas[0].key, metas[1].key, metas[3].key, metas[3].isSigner, mints, programs);
    }
    if HandleSetSellConfig(env, w, metas, mints, programs).Ok? {
      HandlersConserve(env, w, ix, metas, cpi);
      assert Outcome(env, w, Call(ix, metas, cpi)).Some? by {
        HandledSucceeds(env, w, Call(ix, metas, cpi));
      }
    } else {
      FailureIsNone(env, w, Call(ix, metas, cpi));
    }
  }

  lemma HandledSucceeds(env: Env, w: World, step: Step)
    requires step.Call?
    ensures CpiAllowed(w, step.cpi) && Exec(env, w, step.ix, step.metas, step.cpi).Ok? ==> Outcome(env, w, step).Some?
  {
    hide Exec;
  }

  lemma FailureIsNone(env: Env, w: World, step: Step)
    requires step.Call? && !Handle(env, w, step.ix, step.metas, step.cpi).Ok?
    ensures Outcome(env, w, step) == None
  {
    hide Handle;
  }

  lemma WriteAccepted(
    env: Env, w: World, k: Key, c: Key, payer: Key, payerSigns: bool, mints: seq<Key>, programs: seq<Key>)
    requires Inv(env, w) && |mints| <= 10 && |programs| <= 5
    ensures WriteSellConfig(env, w, k, c, payer, payerSigns, mints, programs).Ok? <==>
              if Owned(w, c) then |Data(w, c)| == 523
              else Vacant(w, c) && payerSigns && CanPay(w, payer, env.configRent)
  {
    hide Inv, EncodeSellConfig, NewSellConfig, Zeros;
    if Owned(w, c) {
      OwnedConfigSize(env, w, c, ConfigBytes(env, k, mints, programs));
    }
  }

  /**
    And it leaves the lists given, read back from the account; a new account is
    funded with exactly the rent, by the payer, an existing one moves no lamports.
   */
  lemma SetSellConfigDoes(env: Env, w: World, mints: seq<Key>, programs: seq<Key>, metas: seq<Meta>, cpi: Cpi)
    requires Inv(env, w)
    ensures var r := Outcome(env, w, Call(SetSellConfig(mints, programs), metas, cpi));
            r.Some? ==>
            |metas| >= 5 && |mints| <= 10 && |programs| <= 5 &&
            var k, c, payer := metas[0].key, metas[1].key, metas[3].key;
            && OnlyWrites(w, r.value, c)
            && LoadSellConfig(r.value, c).Ok?
            && ListsOf(LoadSellConfig(r.value, c).value, mints, programs)
            && LoadSellConfig(r.value, c).value.splitter == k
            && LoadSellConfig(r.value, c).value.bump == env.configBump(k)
            && (Owned(w, c) ==> r.value.lamports == w.lamports)
            && (!Owned(w, c) ==>
                  && Bal(r.value.lamports, c) == env.configRent
                  && Bal(r.value.lamports, payer) == Bal(w.lamports, payer) - env.configRent
                  && SameLamportsBut(w, r.value, {c, payer}))
  {
    hide Inv, LoadSplitter, LoadSellConfig, EncodeSellConfig, WriteSellConfig, Outcome, ConfigBytes, NewSellConfig;
    var step := Call(SetSellConfig(mints, programs), metas, cpi);
    if Outcome(env, w, step).Some? {
      SuccessIsHandled(env, w, step);
      SetSellConfigFrame(env, w, metas, mints, programs);
      WriteFunds(env, w, metas[0].key, metas[1].key, metas[3].key, metas[3].isSigner, mints, programs);
      assert Writing(env, w, step, metas[1].key);
      WrittenConfigLoads(env, w, step, metas[1].key);
      NewLists(metas[0].key, env.configBump(metas[0].key), mints, programs);
    }
  }

  /** The lists fill the counted slots, and the other slots are empty. */
  ghost predicate ListsOf(c: SellConfig, mints: seq<Key>, programs: seq<Key>)
    requires |mints| <= 10 && |programs| <= 5
  {
    && c.numWhitelisted == |mints| && c.whitelistedMints[..|mints|] == mints
    && (forall i :: |mints| <= i < 10 ==> c.whitelistedMints[i] == DEFAULT_KEY)
    && c.numApprovedPrograms == |programs| && c.approvedPrograms[..|programs|] == programs
    && (forall i :: |programs| <= i < 5 ==> c.approvedPrograms[i] == DEFAULT_KEY)
  }

  lemma NewLists(k: Key, bump: byte, mints: seq<Key>, programs: seq<Key>)
    requires |mints| <= 10 && |programs| <= 5
    ensures var c := NewSellConfig(k, bump, mints, programs); ListsOf(c, mints, programs) && c.splitter == k && c.bump == bump
  {
  }

  lemma WriteFunds(
    env: Env, w: World, k: Key, c: Key, payer: Key, payerSigns: bool, mints: seq<Key>, programs: seq<Key>)
    requires |mints| <= 10 && |programs| <= 5
    ensures WriteSellConfig(env, w, k, c, payer, payerSigns, mints, programs).Ok? ==>
              var after := WriteSellConfig(env, w, k, c, payer, payerSigns, mints, programs).value;
              && (Owned(w, c) ==> after.lamports == w.lamports)
              && (!Owned(w, c) ==>
                    && Bal(after.lamports, c) == env.configRent
                    && Bal(after.lamports, payer) == Bal(w.lamports, payer) - env.configRent
                    && forall x: Key :: x != c && x != payer ==> Bal(after.lamports, x) == Bal(w.lamports, x))
  {
    hide EncodeSellConfig, NewSellConfig, WriteInto, Zeros;
  }

  // ----------------------------------------------------------- CloseSellConfig

  /**
    `CloseSellConfig` succeeds if and only if the admin signs, the configuration
    is there, and its lamports, if any, can go to another account.
   */
  lemma CloseSucceeds(env: Env, w: World, metas: seq<Meta>, cpi: Cpi)
    requires Inv(env, w) && CpiAllowed(w, cpi)
    ensures Outcome(env, w, Call(CloseSellConfig, metas, cpi)).Some? <==>
              && |metas| >= 3 && metas[2].isSigner
              && LoadSplitter(w, metas[0].key).Ok? && IsAdmin(LoadSplitter(w, metas[0].key).value, metas[2].key)
              && metas[1].key == env.configAddress(metas[0].key)
              && LoadSellConfig(w, metas[1].key).Ok?
              && Bal(w.lamports, metas[2].key) + Bal(w.lamports, metas[1].key) < U64_LIMIT
              && !(metas[2].key == metas[1].key && Bal(w.lamports, metas[1].key) > 0)
  {
    hide Inv, LoadSplitter, LoadSellConfig, CpiAllowed, Total, Outcome, Zeros;
    if HandleCloseSellConfig(env, w, metas).Ok? {
      HandlersConserve(env, w, CloseSellConfig, metas, cpi);
      if Exec(env, w, CloseSellConfig, metas, cpi).Ok? {
        HandledSucceeds(env, w, Call(CloseSellConfig, metas, cpi));
      } else {
        UnbalancedIsNone(env, w, Call(CloseSellConfig, metas, cpi));
      }
    } else {
      FailureIsNone(env, w, Call(CloseSellConfig, metas, cpi));
    }
  }

  lemma UnbalancedIsNone(env: Env, w: World, step: Step)
    requires step.Call?
    ensures !Exec(env, w, step.ix, step.metas, step.cpi).Ok? ==> Outcome(env, w, step) == None
  {
    hide Exec;
  }

  /** And it moves all lamports of the configuration to the admin, and leaves an account of zeros that does not load. */
  lemma CloseDoes(env: Env, w: World, metas: seq<Meta>, cpi: Cpi)
    requires Inv(env, w) && CpiAllowed(w, cpi)
    ensures var r := Outcome(env, w, Call(CloseSellConfig, metas, cpi));
            r.Some? ==>
            |metas| >= 3 &&
            var c, admin := metas[1].key, metas[2].key;
            && OnlyWrites(w, r.value, c)
            && |Data(r.value, c)| == 523 && (forall i :: 0 <= i < 523 ==> Data(r.value, c)[i] == 0)
            && LoadSellConfig(r.value, c) == Err(SellConfigNotFound)
            && Bal(r.value.lamports, c) == 0
            && (admin != c ==> Bal(r.value.lamports, admin) == Bal(w.lamports, admin) + Bal(w.lamports, c))
            && SameLamportsBut(w, r.value, {c, admin})
  {
    hide Inv, LoadSplitter, LoadSellConfig, CpiAllowed, Outcome, HandleCloseSellConfig;
    var step := Call(CloseSellConfig, metas, cpi);
    if Outcome(env, w, step).Some? {
      SuccessIsHandled(env, w, step);
      CloseSellConfigFrame(env, w, metas);
      ZerosDoNotLoad(Outcome(env, w, step).value, metas[1].key);
    }
  }

  // ------------------------------------------------------------- DistributeSOL

  /**
    `DistributeSOL`, for every account list: what it needs, no signature among it,
    and what it does.
   */
  lemma SolCrankExactly(env: Env, w: World, metas: seq<Meta>, cpi: Cpi)
    requires Inv(env, w) && CpiAllowed(w, cpi)
    ensures var r := Outcome(env, w, Call(DistributeSOL, metas, cpi));
            && (r.Some? <==>
                  && metas != [] && LoadSplitter(w, metas[0].key).Ok?
                  && var k, rs := metas[0].key, LoadSplitter(w, metas[0].key).value.Active();
                     && Bal(w.lamports, k) > env.splitterRent
                     && |metas| >= 1 + |rs|
                     && (forall i :: 0 <= i < |rs| ==> metas[1 + i].key == rs[i].address)
                     && Fits(w.lamports, k, Payouts(Bal(w.lamports, k) - env.splitterRent, Weights(rs))))
            && (r.Some? ==>
                  && PaidAtOnce(w.lamports, r.value.lamports, metas[0].key,
                                Payouts(Bal(w.lamports, metas[0].key) - env.splitterRent,
                                        Weights(LoadSplitter(w, metas[0].key).value.Active())))
                  && r.value == w.(lamports := r.value.lamports, log := r.value.log))
  {
    hide Inv, LoadSplitter, CpiAllowed, Total, Outcome, HandleDistributeSol, Fits, PaidAtOnce, Payouts, Weights, Events;
    var step := Call(DistributeSOL, metas, cpi);
    CrankIsSolHandler(env, w, metas, cpi);
    if metas != [] && LoadSplitter(w, metas[0].key).Ok? {
      LoadedIsOk(env, w, metas[0].key);
      AtMostTen(LoadSplitter(w, metas[0].key).value);
      CrankIsSimultaneous(env, w, metas);
    } else {
      NoSplitterNoCrank(env, w, metas);
    }
    if HandleDistributeSol(env, w, metas).Ok? {
      CrankConserves(env, w, metas);
      SolFrame(env, w, metas);
      HandledSucceeds(env, w, step);
      SuccessIsHandled(env, w, step);
    } else {
      FailureIsNone(env, w, step);
    }
  }

  lemma CrankIsSolHandler(env: Env, w: World, metas: seq<Meta>, cpi: Cpi)
    ensures Handle(env, w, DistributeSOL, metas, cpi) == HandleDistributeSol(env, w, metas)
  {
  }

  lemma NoSplitterNoCrank(env: Env, w: World, metas: seq<Meta>)
    requires metas == [] || !LoadSplitter(w, metas[0].key).Ok?
    ensures !HandleDistributeSol(env, w, metas).Ok?
  {
    hide LoadSplitter;
  }

  // ----------------------------------------------------------- DistributeToken

  /** What a token crank asks of its accounts before it pays anybody; both token programs are served. */
  ghost predicate TokenCrankReady(env: Env, w: World, metas: seq<Meta>) {
    && |metas| >= 4
    && (metas[3].key == SPL_TOKEN_PROGRAM_ID || metas[3].key == env.token2022)
    && LoadSplitter(w, metas[0].key).Ok?
    && TokenOf(w, metas[2].key) == Some(Holding(metas[3].key, metas[1].key, metas[0].key))
    && Bal(w.amounts, metas[2].key) > 0
    && (exists program :: TokenOf(w, metas[1].key) == Some(Mint(program)))
    && |metas| >= 4 + LoadSplitter(w, metas[0].key).value.numRecipients
  }

  lemma TokenGuardsExactly(env: Env, w: World, metas: seq<Meta>)
    requires Inv(env, w)
    ensures TokenGuards(env, w, metas).Ok? <==> TokenCrankReady(env, w, metas)
  {
    hide LoadSplitter, Inv, WellFormed;
    if |metas| >= 4 && LoadSplitter(w, metas[0].key).Ok? {
      LoadedIsOk(env, w, metas[0].key);
      HasRecipients(LoadSplitter(w, metas[0].key).value);
      var t := TokenOf(w, metas[1].key);
      if t.Some? && t.value.Mint? {
        assert t == Some(Mint(t.value.program));
      }
    }
  }

  /**
    `DistributeToken`: a call succeeds if and only if its accounts are ready, all
    accounts that are to get something can receive it, and no balance overflows.
    (What it does is `TokenCrank`; besides token amounts and the log nothing changes.)
   */
  lemma TokenCrankExactly(env: Env, w: World, metas: seq<Meta>, cpi: Cpi)
    requires Inv(env, w) && CpiAllowed(w, cpi)
    ensures var r := Outcome(env, w, Call(DistributeToken, metas, cpi));
            && (r.Some? <==> TokenCrankReady(env, w, metas) && CanBePaid(w, metas))
            && (r.Some? ==>
                  && HandleDistributeTokens(env, w, metas) == Ok(r.value)
                  && r.value == w.(amounts := r.value.amounts, log := r.value.log))
  {
    hide Inv, LoadSplitter, CpiAllowed, Total, Outcome, HandleDistributeTokens, Fits, TokenOwed, TokenGuards, WellFormed;
    var step := Call(DistributeToken, metas, cpi);
    AnyTokenCrankIsHandled(env, w, step);
    TokenGuardsExactly(env, w, metas);
    if TokenCrankReady(env, w, metas) {
      GuardedSplitter(env, w, metas);
      LoadedIsOk(env, w, metas[0].key);
      AtMostTen(LoadSplitter(w, metas[0].key).value);
      TokenCrankAccepted(env, w, metas);
    } else {
      UnguardedFails(env, w, metas);
    }
    if HandleDistributeTokens(env, w, metas).Ok? {
      TokensFrame(env, w, metas);
      HandlersConserve(env, w, DistributeToken, metas, cpi);
      HandledSucceeds(env, w, step);
      SuccessIsHandled(env, w, step);
    } else {
      FailureIsNone(env, w, step);
    }
  }

  lemma UnguardedFails(env: Env, w: World, metas: seq<Meta>)
    requires !TokenGuards(env, w, metas).Ok?
    ensures !HandleDistributeTokens(env, w, metas).Ok?
  {
    hide TokenGuards;
  }

  /** Every account something is owed to is a token account of the mint under the program, and has room. */
  ghost predicate CanBePaid(w: World, metas: seq<Meta>) {
    && |metas| >= 4 && LoadSplitter(w, metas[0].key).Ok?
    && |metas[4..]| >= |LoadSplitter(w, metas[0].key).value.Active()|
    && var owed := TokenOwed(w, metas[2].key, LoadSplitter(w, metas[0].key).value, metas[4..]);
       && (forall i :: 0 <= i < |owed| && owed[i].units > 0 ==>
             && TokenOf(w, metas[1].key) == Some(Mint(metas[3].key))
             && exists owner :: TokenOf(w, owed[i].to) == Some(Holding(metas[3].key, metas[1].key, owner)))
       && Fits(w.amounts, metas[2].key, owed)
  }

  // ----------------------------------------------------------------- SwapToken

  /** What a swap asks of its accounts and of the lists, before it calls the swap program. */
  ghost predicate SwapAsked(env: Env, w: World, metas: seq<Meta>, last: Lists) {
    && |metas| >= 8
    && LoadSplitter(w, metas[0].key).Ok?
    && metas[1].key == env.configAddress(metas[0].key)
    && LoadSellConfig(w, metas[1].key).Ok?
    && last.splitter == metas[0].key
    && metas[2].key !in last.mints
    && (metas[5].key == SPL_NATIVE_MINT || metas[5].key == env.nativeMint2022 || metas[5].key in last.mints)
    && metas[6].key in last.programs
    && HeldBy(w, metas[3].key, metas[2].key, metas[0].key)
    && Bal(w.amounts, metas[3].key) > 0
    && IsHolding(w, metas[4].key)
  }

  /** A token account of `mint` that belongs to `owner`, under any program. */
  ghost predicate HeldBy(w: World, k: Key, mint: Key, owner: Key) {
    exists program :: TokenOf(w, k) == Some(Holding(program, mint, owner))
  }

  ghost predicate IsHolding(w: World, k: Key) {
    exists program, mint, owner :: TokenOf(w, k) == Some(Holding(program, mint, owner))
  }

  /**
    Over all runs: the guards of `SwapToken` let a call through if and only if it
    is what the latest lists allow. Native destinations need no listing.
   */
  lemma SwapGuardsExactly(env: Env, genesis: World, steps: seq<Step>, metas: seq<Meta>)
    requires Genesis(genesis)
    ensures var w := After(env, genesis, steps);
            SwapGuards(env, w, metas).Ok? <==>
              |metas| >= 8
              && var last := Latest(env, genesis, steps, metas[1].key, None);
                 last.Some? && SwapAsked(env, w, metas, last.value)
  {
    hide LoadSplitter, LoadSellConfig, Scan, After, Latest;
    var w := After(env, genesis, steps);
    if |metas| >= 8 && LoadSellConfig(w, metas[1].key).Ok? {
      ScansAnswerLatest(env, genesis, steps, metas[1].key, metas[2].key);
      ScansAnswerLatest(env, genesis, steps, metas[1].key, metas[5].key);
      ScansAnswerLatest(env, genesis, steps, metas[1].key, metas[6].key);
      Holdings(w, metas[3].key, metas[2].key, metas[0].key);
      Holdings(w, metas[4].key, metas[2].key, metas[0].key);
    }
  }

  lemma Holdings(w: World, k: Key, mint: Key, owner: Key)
    ensures HeldBy(w, k, mint, owner) <==>
              ReadHolding(w, k).Ok? && ReadHolding(w, k).value.mint == mint && ReadHolding(w, k).value.owner == owner
    ensures IsHolding(w, k) <==> ReadHolding(w, k).Ok?
  {
    if ReadHolding(w, k).Ok? {
      var t := ReadHolding(w, k).value;
      assert TokenOf(w, k) == Some(Holding(t.program, t.mint, t.owner));
    }
  }

  /** Two accounts, room for one unit, and a token program to close the account with. */
  predicate NativeSwapReady(env: Env, w: World, metas: seq<Meta>)
    requires |metas| >= 8
  {
    && metas[3].key != metas[4].key
    && Bal(w.amounts, metas[4].key) + 1 < U64_LIMIT
    && (metas[7].key == SPL_TOKEN_PROGRAM_ID || metas[7].key == env.token2022)
  }

  /**
    The native half of `SwapPossible`. While the lamport supply fits 64 bits, past
    the guards some effect leads a swap for native SOL to success exactly with two
    accounts, room for one unit and a token program; and some effect that leaves
    the destination's mint and owner alone exactly if that account is, besides, a
    native one of the splitter under this program.
   */
  lemma NativeSwapPossible(env: Env, w: World, metas: seq<Meta>, data: seq<byte>)
    requires Inv(env, w) && Total(w.lamports) < U64_LIMIT
    requires SwapGuards(env, w, metas).Ok? && (metas[5].key == SPL_NATIVE_MINT || metas[5].key == env.nativeMint2022)
    ensures (exists cpi :: Outcome(env, w, Call(SwapToken(data), metas, cpi)).Some?) <==> NativeSwapReady(env, w, metas)
    ensures IsHolding(w, metas[4].key)
    ensures (exists cpi :: KeepsView(w, cpi, metas[4].key) && Outcome(env, w, Call(SwapToken(data), metas, cpi)).Some?)
            <==> NativeSwapReady(env, w, metas) && NativeOf(env, w.tokens[metas[4].key], metas)
  {
    hide SwapGuards, Outcome, Inv, Total, CpiAllowed;
    DestinationIsToken(env, w, metas);
    Holdings(w, metas[4].key, metas[5].key, metas[0].key);
    var d := metas[4].key;
    var native := Holding(metas[7].key, metas[5].key, metas[0].key);
    forall cpi | Outcome(env, w, Call(SwapToken(data), metas, cpi)).Some?
      ensures NativeSwapReady(env, w, metas)
      ensures KeepsView(w, cpi, d) ==> NativeOf(env, w.tokens[d], metas)
    {
      NativeSwapNeeds(env, w, metas, data, cpi);
    }
    if NativeSwapReady(env, w, metas) {
      SwapSource(env, w, metas);
      NativeUnitIsAccepted(env, w, metas, data, native);
      assert Outcome(env, w, Call(SwapToken(data), metas, OneUnit(w, metas[3].key, d, native))).Some?;
      if NativeOf(env, w.tokens[d], metas) {
        NativeUnitIsAccepted(env, w, metas, data, w.tokens[d]);
        var cpi := OneUnit(w, metas[3].key, d, w.tokens[d]);
        assert KeepsView(w, cpi, d) && Outcome(env, w, Call(SwapToken(data), metas, cpi)).Some?;
      }
    }
  }

  /** A native token account of the splitter, under the program passed. */
  predicate NativeOf(env: Env, view: TokenView, metas: seq<Meta>)
    requires |metas| >= 8
  {
    view.Holding? && view.program == metas[7].key && view.owner == metas[0].key
    && (view.mint == SPL_NATIVE_MINT || view.mint == env.nativeMint2022)
  }

  lemma NativeSwapNeeds(env: Env, w: World, metas: seq<Meta>, data: seq<byte>, cpi: Cpi)
    requires SwapGuards(env, w, metas).Ok? && env.IsNativeMint(metas[5].key)
    requires metas[4].key in w.tokens
    ensures Outcome(env, w, Call(SwapToken(data), metas, cpi)).Some? ==>
              && NativeSwapReady(env, w, metas)
              && cpi.CpiEffect? && metas[4].key in cpi.tokens && NativeOf(env, cpi.tokens[metas[4].key], metas)
  {
    hide SwapGuards, Total, CpiAllowed, Move;
  }

  lemma NativeUnitIsAccepted(env: Env, w: World, metas: seq<Meta>, data: seq<byte>, view: TokenView)
    requires |metas| >= 8 && env.IsNativeMint(metas[5].key)
    requires NativeSwapReady(env, w, metas) && Bal(w.amounts, metas[3].key) > 0 && NativeOf(env, view, metas)
    ensures Inv(env, w) && Total(w.lamports) < U64_LIMIT && SwapGuards(env, w, metas).Ok? ==>
              Outcome(env, w, Call(SwapToken(data), metas, OneUnit(w, metas[3].key, metas[4].key, view))).Some?
  {
    if !(Inv(env, w) && Total(w.lamports) < U64_LIMIT && SwapGuards(env, w, metas).Ok?) {
      return;
    }
    hide SwapGuards, Inv, Total, CpiAllowed, HandleSwap, Handle, Outcome, OneUnit, NativeOf;
    var cpi := OneUnit(w, metas[3].key, metas[4].key, view);
    DestinationIsToken(env, w, metas);
    NativeUnitIsHandled(env, w, metas, view);
    UnitIsAllowed(env, w, metas[3].key, metas[4].key, view);
    BalancedSwapSucceeds(env, w, metas, data, cpi);
  }

  lemma BalancedSwapSucceeds(env: Env, w: World, metas: seq<Meta>, data: seq<byte>, cpi: Cpi)
    ensures var r := HandleSwap(env, w, metas, cpi);
            CpiAllowed(w, cpi) && r.Ok? && Total(r.value.lamports) == Total(w.lamports) ==>
              Outcome(env, w, Call(SwapToken(data), metas, cpi)).Some?
  {
    hide HandleSwap, CpiAllowed, Total;
  }

  lemma NativeUnitIsHandled(env: Env, w: World, metas: seq<Meta>, view: TokenView)
    requires |metas| >= 8 && env.IsNativeMint(metas[5].key)
    requires NativeSwapReady(env, w, metas) && Bal(w.amounts, metas[3].key) > 0 && NativeOf(env, view, metas)
    ensures Inv(env, w) && Total(w.lamports) < U64_LIMIT && SwapGuards(env, w, metas).Ok? ==>
              var r := HandleSwap(env, w, metas, OneUnit(w, metas[3].key, metas[4].key, view));
              r.Ok? && Total(r.value.lamports) == Total(w.lamports)
  {
    if !(Inv(env, w) && Total(w.lamports) < U64_LIMIT && SwapGuards(env, w, metas).Ok?) {
      return;
    }
    hide SwapGuards, Inv, Total, CloseNative, LoadSplitter, WellFormed, HandleSwap, Move;
    var k, d := metas[0].key, metas[4].key;
    var cpi := OneUnit(w, metas[3].key, d, view);
    SwapSource(env, w, metas);
    DestinationIsToken(env, w, metas);
    GuardsGiveSplitter(env, w, metas);
    LoadedIsOk(env, w, k);
    SplitterIsNoToken(env, w, k, d);
    TwoFit(w.lamports, d, k);
    NativeCloses(env, Apply(w, cpi).value, metas[7].key, d, k, LoadSplitter(w, k).value);
    MoveKeepsTotal(w.lamports, d, k, Bal(w.lamports, d));
    assert metas[3].key in w.tokens;
    NativeHandled(env, w, metas, cpi);
  }

  lemma NativeHandled(env: Env, w: World, metas: seq<Meta>, cpi: Cpi)
    requires SwapGuards(env, w, metas).Ok? && env.IsNativeMint(metas[5].key) && cpi.CpiEffect?
    requires ReadHolding(Apply(w, cpi).value, metas[3].key).Ok? && ReadHolding(Apply(w, cpi).value, metas[4].key).Ok?
    requires Bal(cpi.amounts, metas[3].key) < Bal(w.amounts, metas[3].key)
    requires Bal(cpi.amounts, metas[4].key) > Bal(w.amounts, metas[4].key)
    ensures HandleSwap(env, w, metas, cpi)
            == CloseNative(env, Apply(w, cpi).value, metas[7].key, metas[4].key, metas[0].key, SwapGuards(env, w, metas).value)
  {
    hide SwapGuards, CloseNative;
  }

  lemma GuardsGiveSplitter(env: Env, w: World, metas: seq<Meta>)
    requires SwapGuards(env, w, metas).Ok?
    ensures LoadSplitter(w, metas[0].key) == SwapGuards(env, w, metas)
  {
    hide LoadSplitter, LoadSellConfig, Scan;
  }

  lemma SplitterIsNoToken(env: Env, w: World, k: Key, d: Key)
    requires Inv(env, w) && LoadSplitter(w, k).Ok? && d in w.tokens
    ensures d != k
  {
    hide LoadSplitter;
    SplitterData(w, k);
  }

  /** Two balances of a ledger whose supply fits fit together. */
  lemma TwoFit(ledger: Ledger, x: Key, y: Key)
    requires Total(ledger) < U64_LIMIT && x != y
    ensures Bal(ledger, x) + Bal(ledger, y) < U64_LIMIT
    ensures Move(ledger, x, y, Bal(ledger, x)).Some?
  {
    var ks := ledger.Keys + {x, y};
    TotalIsSupply(ledger, ks);
    SupplyPick(ledger, ks, x);
    SupplyPick(ledger, ks - {x}, y);
  }

  lemma NativeCloses(env: Env, swapped: World, program: Key, d: Key, k: Key, s: Splitter)
    requires env.IsTokenProgram(program) && d != k && env.derive(s.creator, s.nonce, s.bump) == k
    requires d in swapped.tokens && swapped.tokens[d].Holding? && swapped.tokens[d].program == program
    requires swapped.tokens[d].owner == k && env.IsNativeMint(swapped.tokens[d].mint)
    requires Move(swapped.lamports, d, k, Bal(swapped.lamports, d)).Some?
    ensures CloseNative(env, swapped, program, d, k, s).Ok?
    ensures CloseNative(env, swapped, program, d, k, s).value.lamports == Move(swapped.lamports, d, k, Bal(swapped.lamports, d)).value
  {
    hide Move;
  }

  lemma UnitIsAllowed(env: Env, w: World, source: Key, dest: Key, view: TokenView)
    requires Inv(env, w) && dest in w.tokens && Bal(w.amounts, source) > 0 && Bal(w.amounts, dest) + 1 < U64_LIMIT
    ensures CpiAllowed(w, OneUnit(w, source, dest, view))
  {
    TokensNotOwned(env, w);
  }

  /**
    What a successful swap leaves: what the swap program left, no data or log
    changed; for native SOL the destination is then closed and its lamports are
    the splitter's.
   */
  lemma SwapDoes(env: Env, w: World, metas: seq<Meta>, data: seq<byte>, cpi: Cpi)
    ensures var r := Outcome(env, w, Call(SwapToken(data), metas, cpi));
            r.Some? ==>
            |metas| >= 8 && cpi.CpiEffect? &&
            var k, source, dest := metas[0].key, metas[3].key, metas[4].key;
            && Bal(cpi.amounts, source) < Bal(w.amounts, source) && Bal(cpi.amounts, dest) > Bal(w.amounts, dest)
            && r.value.data == w.data && r.value.log == w.log
            && if env.IsNativeMint(metas[5].key) then
                 && r.value.tokens == cpi.tokens - {dest}
                 && r.value.amounts == cpi.amounts[dest := 0]
                 && Bal(r.value.lamports, dest) == 0
                 && Bal(r.value.lamports, k) == Bal(cpi.lamports, k) + Bal(cpi.lamports, dest)
                 && forall x: Key :: x != k && x != dest ==> Bal(r.value.lamports, x) == Bal(cpi.lamports, x)
               else
                 r.value == w.(lamports := cpi.lamports, tokens := cpi.tokens, amounts := cpi.amounts)
  {
    hide SwapGuards, Total, CpiAllowed;
  }

  // ------------------------------------------------------------------ SnsProxy

  /** `SnsProxy` reaches only the two name-service programs, and only for the admin; what they leave is left. */
  lemma SnsProxyExactly(env: Env, w: World, metas: seq<Meta>, data: seq<byte>, cpi: Cpi)
    requires CpiAllowed(w, cpi)
    ensures var r := Outcome(env, w, Call(SnsProxy(data), metas, cpi));
            && (r.Some? <==>
                  && |metas| >= 3 && metas[1].isSigner
                  && LoadSplitter(w, metas[0].key).Ok? && IsAdmin(LoadSplitter(w, metas[0].key).value, metas[1].key)
                  && (metas[2].key == SNS_PROGRAM_ID || metas[2].key == SNS_NAME_OFFERS_ID)
                  && cpi.CpiEffect? && Total(cpi.lamports) == Total(w.lamports))
            && (r.Some? ==> r.value == w.(lamports := cpi.lamports, tokens := cpi.tokens, amounts := cpi.amounts))
  {
    hide LoadSplitter, CpiAllowed, Total;
  }
}
