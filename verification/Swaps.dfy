/** Sell configurations over whole runs, and the guarded swap. */
module Swaps {
  import opened Base
  import opened Ledgers
  import opened Records
  import opened Borsh
  import opened Worlds
  import opened Invariant
  import opened Reach
  import opened Guarantees

  // ------------------------------------------------ configurations over runs

  /** What a configuration account was last told. */
  datatype Lists = Lists(splitter: Key, mints: seq<Key>, programs: seq<Key>)

  ghost function Told(env: Env, w: World, step: Step, c: Key, last: Option<Lists>): Option<Lists> {
    if Writing(env, w, step, c) then Some(Lists(step.metas[0].key, step.ix.mints, step.ix.programs))
    else if Closing(env, w, step, c) then None
    else last
  }

  /** The lists of the latest successful `SetSellConfig` on `c` not closed since. */
  ghost function Latest(env: Env, w: World, steps: seq<Step>, c: Key, last: Option<Lists>): Option<Lists>
    decreases |steps|
  {
    if steps == [] then last else Latest(env, Next(env, w, steps[0]), steps[1..], c, Told(env, w, steps[0], c, last))
  }

  /** If a configuration can be loaded, it is the latest one, byte for byte. */
  ghost predicate Agrees(env: Env, w: World, c: Key, last: Option<Lists>) {
    LoadSellConfig(w, c).Ok? ==>
      && last.Some?
      && WrittenFor(env, Data(w, c), c, last.value.splitter, last.value.mints, last.value.programs)
  }

  lemma GenesisAgrees(env: Env, w: World, c: Key)
    requires Genesis(w)
    ensures Inv(env, w) && Agrees(env, w, c, None)
  {
    GenesisInv(env, w);
    assert !Owned(w, c);
  }

  lemma StepAgrees(env: Env, w: World, step: Step, c: Key, last: Option<Lists>)
    requires Inv(env, w) && Agrees(env, w, c, last)
    ensures Agrees(env, Next(env, w, step), c, Told(env, w, step, c, last))
  {
    hide Inv, LoadSellConfig, WrittenFor, Outcome, Next, Data;
    var next := Next(env, w, step);
    if LoadSellConfig(next, c).Ok? {
      ConfigStep(env, w, step, c);
      if Writing(env, w, step, c) {
        WritingIsAuthorised(env, w, step, c);
      } else {
        SameConfigLoads(w, next, c);
      }
    }
  }

  lemma {:induction false} RunAgrees(env: Env, w: World, steps: seq<Step>, c: Key, last: Option<Lists>)
    requires Inv(env, w) && Agrees(env, w, c, last)
    ensures Agrees(env, After(env, w, steps), c, Latest(env, w, steps, c, last))
    decreases |steps|
  {
    hide Inv, Agrees, Next, Told;
    if steps != [] {
      StepAgrees(env, w, steps[0], c, last);
      NextKeepsInv(env, w, steps[0]);
      RunAgrees(env, Next(env, w, steps[0]), steps[1..], c, Told(env, w, steps[0], c, last));
    }
  }

  /** Over all runs the scans answer membership in the latest lists; padding never counts. */
  lemma ScansAnswerLatest(env: Env, genesis: World, steps: seq<Step>, c: Key, x: Key)
    requires Genesis(genesis) && LoadSellConfig(After(env, genesis, steps), c).Ok?
    ensures var config := LoadSellConfig(After(env, genesis, steps), c).value;
            var last := Latest(env, genesis, steps, c, None);
            && last.Some?
            && config.splitter == last.value.splitter
            && Scan(config.whitelistedMints, config.numWhitelisted, x) == Ok(x in last.value.mints)
            && Scan(config.approvedPrograms, config.numApprovedPrograms, x) == Ok(x in last.value.programs)
  {
    hide DecodeSellConfig, EncodeSellConfig, Scan, After, Latest;
    GenesisAgrees(env, genesis, c);
    RunAgrees(env, genesis, steps, c, None);
    var l := Latest(env, genesis, steps, c, None).value;
    SellConfigRoundTrip(NewSellConfig(l.splitter, env.configBump(l.splitter), l.mints, l.programs));
    ScanAnswersMembership(l.splitter, env.configBump(l.splitter), l.mints, l.programs, x);
  }

  /** With no configuration told since the last closing, swapping and closing again are both refused. */
  lemma ClosedMeansNoSwap(env: Env, genesis: World, steps: seq<Step>, step: Step)
    requires Genesis(genesis) && step.Call? && (step.ix.SwapToken? || step.ix.CloseSellConfig?) && |step.metas| > 1
    requires Latest(env, genesis, steps, step.metas[1].key, None) == None
    ensures Outcome(env, After(env, genesis, steps), step) == None
  {
    hide LoadSellConfig, After, Latest, Apply, LoadSplitter, CloseNative, Scan, Inv;
    GenesisAgrees(env, genesis, step.metas[1].key);
    RunAgrees(env, genesis, steps, step.metas[1].key, None);
  }

  // -------------------------------------------------------------------- swaps

  ghost predicate Swapping(env: Env, w: World, step: Step, source: Key) {
    Outcome(env, w, step).Some? && step.ix.SwapToken? && |step.metas| >= 8 && step.metas[3].key == source
  }

  /**
    Whatever the swap program did to whichever balances, a swap that succeeded
    used two different accounts and sold strictly something; and unless it was
    for native SOL, the destination has strictly more than before.
   */
  lemma SwapSells(env: Env, w: World, metas: seq<Meta>, cpi: Cpi)
    ensures HandleSwap(env, w, metas, cpi).Ok? ==> |metas| >= 8 && cpi.CpiEffect?
    ensures HandleSwap(env, w, metas, cpi).Ok? ==>
            var source, dest := metas[3].key, metas[4].key;
            var after := HandleSwap(env, w, metas, cpi).value;
            && source != dest
            && Bal(after.amounts, source) < Bal(w.amounts, source)
            && (!env.IsNativeMint(metas[5].key) ==>
                  Bal(after.amounts, dest) > Bal(w.amounts, dest) && after.lamports == cpi.lamports)
  {
    hide SwapGuards, ReadHolding, Move;
  }

  /** A swap for native SOL ends with the splitter's own native account closed and all its lamports on the splitter. */
  lemma SwapUnwraps(env: Env, w: World, metas: seq<Meta>, cpi: Cpi)
    requires |metas| >= 8 && env.IsNativeMint(metas[5].key)
    ensures HandleSwap(env, w, metas, cpi).Ok? ==>
            cpi.CpiEffect? &&
            var k, dest := metas[0].key, metas[4].key;
            var after := HandleSwap(env, w, metas, cpi).value;
            && dest in cpi.tokens && cpi.tokens[dest].Holding? && cpi.tokens[dest].owner == k
            && env.IsNativeMint(cpi.tokens[dest].mint)
            && dest !in after.tokens
            && Bal(after.lamports, k) == Bal(cpi.lamports, k) + Bal(cpi.lamports, dest)
            && Bal(after.lamports, dest) == 0
  {
    hide SwapGuards, LoadSplitter, LoadSellConfig, Scan;
  }

  lemma SwapSource(env: Env, w: World, metas: seq<Meta>)
    requires SwapGuards(env, w, metas).Ok?
    ensures |metas| >= 8
    ensures exists program :: TokenOf(w, metas[3].key) == Some(Holding(program, metas[2].key, metas[0].key))
    ensures Bal(w.amounts, metas[3].key) > 0
    ensures metas[1].key == env.configAddress(metas[0].key)
    ensures LoadSellConfig(w, metas[1].key).Ok?
    ensures var config := LoadSellConfig(w, metas[1].key).value;
            && config.splitter == metas[0].key
            && Scan(config.whitelistedMints, config.numWhitelisted, metas[2].key) == Ok(false)
            && (env.IsNativeMint(metas[5].key) || Scan(config.whitelistedMints, config.numWhitelisted, metas[5].key) == Ok(true))
            && Scan(config.approvedPrograms, config.numApprovedPrograms, metas[6].key) == Ok(true)
  {
    hide LoadSplitter, LoadSellConfig, Scan;
    var t := ReadHolding(w, metas[3].key).value;
    assert TokenOf(w, metas[3].key) == Some(Holding(t.program, metas[2].key, metas[0].key));
  }

  /**
    And it obeyed the latest lists: an approved program, a source mint outside
    the whitelist, and a stated destination mint that is native or inside it,
    hence another mint. Of the destination account's own mint this says nothing;
    see `SwapOutputExactly`.
   */
  lemma SwapObeysLatest(env: Env, genesis: World, steps: seq<Step>, step: Step)
    requires Genesis(genesis) && step.Call? && step.ix.SwapToken?
    ensures Outcome(env, After(env, genesis, steps), step).Some? ==>
              && |step.metas| >= 8
              && var last := Latest(env, genesis, steps, step.metas[1].key, None);
                 && last.Some?
                 && last.value.splitter == step.metas[0].key
                 && step.metas[2].key !in last.value.mints
                 && (env.IsNativeMint(step.metas[5].key) || step.metas[5].key in last.value.mints)
                 && (!env.IsNativeMint(step.metas[5].key) ==> step.metas[5].key != step.metas[2].key)
                 && step.metas[6].key in last.value.programs
  {
    hide LoadSplitter, LoadSellConfig, Scan, After, Latest, SwapGuards, AfterSwap, Outcome;
    var w := After(env, genesis, steps);
    var metas := step.metas;
    if Outcome(env, w, step).Some? {
      SuccessIsHandled(env, w, step);
      SwapSource(env, w, metas);
      ScansAnswerLatest(env, genesis, steps, metas[1].key, metas[2].key);
      ScansAnswerLatest(env, genesis, steps, metas[1].key, metas[5].key);
      ScansAnswerLatest(env, genesis, steps, metas[1].key, metas[6].key);
    }
  }

  // ------------------------------------------------------ what a swap can end in

  /** The swap program leaves every token account of `k` at least what it had. */
  ghost predicate TakesNothingFrom(w: World, cpi: Cpi, k: Key) {
    forall x: Key :: x in w.tokens && w.tokens[x].Holding? && w.tokens[x].owner == k && cpi.CpiEffect? ==>
      Bal(cpi.amounts, x) >= Bal(w.amounts, x)
  }

  /**
    The call carries no signature of the splitter. A token program that debits
    nobody without the owner's signature therefore lets no swap succeed; all
    successful ones rest on features such as the permanent delegate of a
    Token-2022 mint. The statements below that some effect succeeds mean effects
    of that kind.
   */
  lemma SwapNeedsDebit(env: Env, w: World, metas: seq<Meta>, data: seq<byte>, cpi: Cpi)
    requires metas != [] && TakesNothingFrom(w, cpi, metas[0].key)
    ensures Outcome(env, w, Call(SwapToken(data), metas, cpi)) == None
  {
    hide SwapGuards, AfterSwap, CpiAllowed, Total;
    if HandleSwap(env, w, metas, cpi).Ok? {
      SwapSource(env, w, metas);
      SwapSells(env, w, metas, cpi);
      EffectStays(env, w, metas, cpi);
    }
  }

  /** After the call the source keeps the amount the swap program left there. */
  lemma EffectStays(env: Env, w: World, metas: seq<Meta>, cpi: Cpi)
    ensures HandleSwap(env, w, metas, cpi).Ok? ==>
              |metas| >= 8 && cpi.CpiEffect? && Bal(cpi.amounts, metas[3].key) < Bal(w.amounts, metas[3].key)
  {
    hide SwapGuards, ReadHolding, CloseNative;
  }

  /** The guards pass for a mint that is not native, the accounts differ, and the destination has room for one unit. */
  predicate SwapReady(env: Env, w: World, metas: seq<Meta>) {
    && SwapGuards(env, w, metas).Ok?
    && !env.IsNativeMint(metas[5].key)
    && metas[3].key != metas[4].key
    && Bal(w.amounts, metas[4].key) + 1 < U64_LIMIT
  }

  /** One unit leaves the source and one reaches the destination, which then reads as `view`. */
  ghost function OneUnit(w: World, source: Key, dest: Key, view: TokenView): Cpi
    requires Bal(w.amounts, source) > 0 && Bal(w.amounts, dest) + 1 < U64_LIMIT
  {
    CpiEffect(w.lamports, w.tokens[dest := view],
              w.amounts[source := Bal(w.amounts, source) - 1][dest := Bal(w.amounts, dest) + 1])
  }

  /**
    Whatever mint and owner the destination had before the call, it can have any
    others after it: only its amount is read again. So no check of the
    destination before the call could keep the output native or whitelisted.
   */
  lemma SwapMayReplaceDestination(env: Env, w: World, metas: seq<Meta>, data: seq<byte>, view: TokenView)
    returns (cpi: Cpi)
    requires Inv(env, w) && SwapReady(env, w, metas) && view.Holding?
    ensures Outcome(env, w, Call(SwapToken(data), metas, cpi)).Some?
    ensures var after := Next(env, w, Call(SwapToken(data), metas, cpi));
            && TokenOf(after, metas[4].key) == Some(view)
            && Bal(after.amounts, metas[4].key) == Bal(w.amounts, metas[4].key) + 1
            && Bal(after.amounts, metas[3].key) == Bal(w.amounts, metas[3].key) - 1
  {
    hide LoadSplitter, LoadSellConfig, Scan, CloseNative, SwapGuards, Total;
    SwapSource(env, w, metas);
    DestinationIsToken(env, w, metas);
    cpi := OneUnit(w, metas[3].key, metas[4].key, view);
    OneUnitIsAccepted(env, w, metas, data, view);
  }

  lemma OneUnitIsAccepted(env: Env, w: World, metas: seq<Meta>, data: seq<byte>, view: TokenView)
    requires Inv(env, w) && SwapReady(env, w, metas) && view.Holding? && Bal(w.amounts, metas[3].key) > 0
    ensures var cpi := OneUnit(w, metas[3].key, metas[4].key, view);
            Outcome(env, w, Call(SwapToken(data), metas, cpi)) == Some(w.(tokens := cpi.tokens, amounts := cpi.amounts))
  {
    hide LoadSplitter, LoadSellConfig, Scan, CloseNative, SwapGuards, Total, Inv;
    SwapSource(env, w, metas);
    DestinationIsToken(env, w, metas);
    var cpi := OneUnit(w, metas[3].key, metas[4].key, view);
    assert CpiAllowed(w, cpi) by {
      TokensNotOwned(env, w);
    }
    assert metas[3].key in w.tokens;
  }

  lemma TokensNotOwned(env: Env, w: World)
    requires Inv(env, w)
    ensures forall x: Key :: x in w.tokens ==> !Owned(w, x)
  {
  }

  /**
    Exactly what stands between the guards and a swap to a mint that is not
    native, over everything the swap program may do: two accounts, and room for
    one unit. Mint and owner of the destination account do not matter. (Effects
    that take from the splitter's account: see `SwapNeedsDebit`.)
   */
  lemma SwapPossible(env: Env, w: World, metas: seq<Meta>, data: seq<byte>)
    requires Inv(env, w) && SwapGuards(env, w, metas).Ok? && !env.IsNativeMint(metas[5].key)
    ensures (exists cpi :: Outcome(env, w, Call(SwapToken(data), metas, cpi)).Some?) <==>
              metas[3].key != metas[4].key && Bal(w.amounts, metas[4].key) + 1 < U64_LIMIT
  {
    hide SwapGuards, Outcome, HandleSwap;
    if metas[3].key != metas[4].key && Bal(w.amounts, metas[4].key) + 1 < U64_LIMIT {
      var cpi := SwapMayReplaceDestination(env, w, metas, data, Holding(DEFAULT_KEY, DEFAULT_KEY, DEFAULT_KEY));
    }
    if cpi :| Outcome(env, w, Call(SwapToken(data), metas, cpi)).Some? {
      var step := Call(SwapToken(data), metas, cpi);
      SuccessIsHandled(env, w, step);
      SwapSells(env, w, metas, cpi);
      assert Bal(Next(env, w, step).amounts, metas[4].key) > Bal(w.amounts, metas[4].key);
    }
  }

  /** A mint the configuration `c` lets a swap end in. */
  predicate Welcome(env: Env, w: World, c: Key, mint: Key) {
    || env.IsNativeMint(mint)
    || (&& LoadSellConfig(w, c).Ok?
        && var config := LoadSellConfig(w, c).value;
           Scan(config.whitelistedMints, config.numWhitelisted, mint) == Ok(true))
  }

  /** The swap program changes the destination's amount, and neither its mint nor its owner. */
  ghost predicate KeepsView(w: World, cpi: Cpi, dest: Key) {
    cpi.CpiEffect? && dest in cpi.tokens && TokenOf(w, dest) == Some(cpi.tokens[dest])
  }

  /** The call ends, if it succeeds, with the destination account of a mint that was welcome. */
  ghost predicate EndsWelcome(env: Env, w: World, step: Step) {
    Outcome(env, w, step).Some? && |step.metas| >= 8 ==>
      var dest := TokenOf(Outcome(env, w, step).value, step.metas[4].key);
      dest.Some? && dest.value.Holding? && Welcome(env, w, step.metas[1].key, dest.value.mint)
  }

  /** The call ends, if it succeeds, with the destination account the splitter's. */
  ghost predicate EndsAtSplitter(env: Env, w: World, step: Step) {
    Outcome(env, w, step).Some? && |step.metas| >= 8 ==>
      var dest := TokenOf(Outcome(env, w, step).value, step.metas[4].key);
      dest.Some? && dest.value.Holding? && dest.value.owner == step.metas[0].key
  }

  /**
    The documented promises, of the account after the swap: over swap programs
    that leave mint and owner of the destination alone, every successful swap
    ends in native or whitelisted tokens if and only if the destination's own
    mint is native or whitelisted (`ScansAnswerLatest` says which mints those
    are), and at the splitter if and only if the account was the splitter's.
   */
  lemma SwapOutputExactly(env: Env, w: World, metas: seq<Meta>, data: seq<byte>)
    requires Inv(env, w) && SwapReady(env, w, metas)
    ensures TokenOf(w, metas[4].key).Some? && TokenOf(w, metas[4].key).value.Holding?
    ensures (forall cpi :: KeepsView(w, cpi, metas[4].key) ==> EndsWelcome(env, w, Call(SwapToken(data), metas, cpi)))
            <==> Welcome(env, w, metas[1].key, TokenOf(w, metas[4].key).value.mint)
    ensures (forall cpi :: KeepsView(w, cpi, metas[4].key) ==> EndsAtSplitter(env, w, Call(SwapToken(data), metas, cpi)))
            <==> TokenOf(w, metas[4].key).value.owner == metas[0].key
  {
    hide SwapGuards, Welcome, Outcome, Inv, HandleSwap;
    DestinationIsToken(env, w, metas);
    var d := metas[4].key;
    var view := w.tokens[d];
    forall cpi | KeepsView(w, cpi, d)
      ensures Welcome(env, w, metas[1].key, view.mint) ==> EndsWelcome(env, w, Call(SwapToken(data), metas, cpi))
      ensures view.owner == metas[0].key ==> EndsAtSplitter(env, w, Call(SwapToken(data), metas, cpi))
    {
      ViewAfterSwap(env, w, metas, data, cpi);
    }
    SwapSource(env, w, metas);
    OneUnitIsAccepted(env, w, metas, data, view);
    var cpi := OneUnit(w, metas[3].key, d, view);
    assert KeepsView(w, cpi, d);
    assert !Welcome(env, w, metas[1].key, view.mint) ==> !EndsWelcome(env, w, Call(SwapToken(data), metas, cpi));
    assert view.owner != metas[0].key ==> !EndsAtSplitter(env, w, Call(SwapToken(data), metas, cpi));
  }

  lemma ViewAfterSwap(env: Env, w: World, metas: seq<Meta>, data: seq<byte>, cpi: Cpi)
    requires |metas| >= 8 && !env.IsNativeMint(metas[5].key)
    ensures var r := Outcome(env, w, Call(SwapToken(data), metas, cpi));
            r.Some? ==> cpi.CpiEffect? && r.value.tokens == cpi.tokens
  {
    hide SwapGuards, ReadHolding, CloseNative, CpiAllowed, Total;
  }

  /**
    So both promises fail: wherever such a swap is possible, it is so too after
    somebody else put in the destination's place an account of the source mint
    that belongs to `owner`; and it ends there.
   */
  lemma SwapIntoSourceMint(env: Env, w: World, metas: seq<Meta>, data: seq<byte>, owner: Key)
    returns (replace: Step, swap: Step)
    requires Inv(env, w) && SwapReady(env, w, metas)
    ensures replace.Outside? && swap.Call? && swap.ix == SwapToken(data) && swap.metas == metas
    ensures var before := Next(env, w, replace);
            var after := Next(env, before, swap);
            && before.data == w.data
            && Outcome(env, before, swap).Some?
            && Bal(after.amounts, metas[4].key) == Bal(before.amounts, metas[4].key) + 1
            && TokenOf(before, metas[4].key) == TokenOf(after, metas[4].key)
            && TokenOf(after, metas[4].key).Some?
            && var dest := TokenOf(after, metas[4].key).value;
               dest.Holding? && dest.owner == owner && dest.mint == metas[2].key
    ensures !env.IsNativeMint(metas[2].key) ==> !EndsWelcome(env, Next(env, w, replace), swap)
  {
    hide Outcome, SwapGuards, LoadSplitter, Scan, DecodeSellConfig;
    var d := metas[4].key;
    DestinationIsToken(env, w, metas);
    var before := w.(tokens := w.tokens[d := Holding(w.tokens[d].program, metas[2].key, owner)]);
    replace := Outside(before);
    assert forall x: Key :: Data(before, x) == Data(w, x);
    assert Next(env, w, replace) == before;
    NextKeepsInv(env, w, replace);
    SwapSource(env, w, metas);
    GuardsIgnoreDestination(env, w, before, metas);
    OneUnitIsAccepted(env, before, metas, data, before.tokens[d]);
    swap := Call(SwapToken(data), metas, OneUnit(before, metas[3].key, d, before.tokens[d]));
  }

  lemma DestinationIsToken(env: Env, w: World, metas: seq<Meta>)
    requires SwapGuards(env, w, metas).Ok?
    ensures metas[4].key in w.tokens && w.tokens[metas[4].key].Holding?
  {
    hide LoadSplitter, LoadSellConfig, Scan;
  }

  /** All the guards ask of the destination is that it is a token account. */
  lemma GuardsIgnoreDestination(env: Env, w: World, next: World, metas: seq<Meta>)
    requires SwapGuards(env, w, metas).Ok? && next.data == w.data && next.amounts == w.amounts
    requires TokenOf(next, metas[3].key) == TokenOf(w, metas[3].key)
    requires metas[4].key in next.tokens && next.tokens[metas[4].key].Holding?
    ensures SwapGuards(env, next, metas).Ok?
  {
    hide Scan, DecodeSplitter, DecodeSellConfig;
  }

  /** Besides swaps from it, nothing in the run refills the source account. */
  ghost predicate NeverRefilled(env: Env, w: World, steps: seq<Step>, source: Key)
    decreases |steps|
  {
    steps == [] ||
    ( && (!Swapping(env, w, steps[0], source) ==>
            Bal(Next(env, w, steps[0]).amounts, source) <= Bal(w.amounts, source))
      && NeverRefilled(env, Next(env, w, steps[0]), steps[1..], source))
  }

  ghost function SwapCount(env: Env, w: World, steps: seq<Step>, source: Key): nat
    decreases |steps|
  {
    if steps == [] then 0 else
      (if Swapping(env, w, steps[0], source) then 1 else 0) + SwapCount(env, Next(env, w, steps[0]), steps[1..], source)
  }

  /** Each swap sells something, so an account that is never refilled bounds their number. */
  lemma {:induction false} SwapsAreBounded(env: Env, w: World, steps: seq<Step>, source: Key)
    requires NeverRefilled(env, w, steps, source)
    ensures SwapCount(env, w, steps, source) + Bal(After(env, w, steps).amounts, source) <= Bal(w.amounts, source)
    decreases |steps|
  {
    hide Exec, HandleSwap, CpiAllowed;
    if steps != [] {
      if Swapping(env, w, steps[0], source) {
        SuccessIsHandled(env, w, steps[0]);
        SwapSells(env, w, steps[0].metas, steps[0].cpi);
      }
      SwapsAreBounded(env, Next(env, w, steps[0]), steps[1..], source);
    }
  }
}
