/**
  What every reachable world satisfies, what one instruction can touch, and the
  exact effect of the SOL crank.
 */
module Invariant {
  import opened Base
  import opened Ledgers
  import opened Records
  import opened Borsh
  import opened Worlds

  /** A live splitter: well-formed, at the address its own fields derive, and rent-exempt. */
  ghost predicate SplitterOk(env: Env, w: World, k: Key) {
    var r := LoadSplitter(w, k);
    && r.Ok?
    && WellFormed(r.value)
    && k == env.SplitterAddress(r.value.creator, r.value.nonce)
    && r.value.bump == env.findBump(r.value.creator, r.value.nonce)
    && Bal(w.lamports, k) >= env.splitterRent
  }

  /** The bytes `SetSellConfig` leaves for splitter `k`. */
  function ConfigBytes(env: Env, k: Key, mints: seq<Key>, programs: seq<Key>): seq<byte>
    requires |mints| <= 10 && |programs| <= 5
  {
    EncodeSellConfig(NewSellConfig(k, env.configBump(k), mints, programs))
  }

  ghost predicate WrittenFor(env: Env, b: seq<byte>, c: Key, k: Key, mints: seq<Key>, programs: seq<Key>) {
    |mints| <= 10 && |programs| <= 5 && c == env.configAddress(k) && b == ConfigBytes(env, k, mints, programs)
  }

  /** A sell configuration: as last written, or zeroed. */
  ghost predicate ConfigOk(env: Env, w: World, c: Key) {
    || Data(w, c) == Zeros(SELL_CONFIG_LEN)
    || exists k, mints, programs :: WrittenFor(env, Data(w, c), c, k, mints, programs)
  }

  ghost predicate Inv(env: Env, w: World) {
    && (forall k: Key :: Owned(w, k) ==> SplitterOk(env, w, k) || ConfigOk(env, w, k))
    && (forall k: Key :: k in w.tokens ==> !Owned(w, k))
  }

  lemma SplitterData(w: World, k: Key)
    requires LoadSplitter(w, k).Ok?
    ensures |Data(w, k)| == SPLITTER_LEN && Owned(w, k)
  {
  }

  lemma ConfigData(env: Env, w: World, k: Key)
    requires ConfigOk(env, w, k)
    ensures |Data(w, k)| == SELL_CONFIG_LEN
  {
  }

  /** The two kinds of account cannot be confused: they differ in size. */
  lemma LoadedIsOk(env: Env, w: World, k: Key)
    requires Inv(env, w) && LoadSplitter(w, k).Ok?
    ensures SplitterOk(env, w, k)
  {
    SplitterData(w, k);
    if ConfigOk(env, w, k) {
      ConfigData(env, w, k);
    }
  }

  lemma StoredSplitterLoads(w: World, k: Key, s: Splitter)
    requires s.discriminator == SPLITTER_DISCRIMINATOR
    ensures LoadSplitter(Store(w, k, EncodeSplitter(s)), k) == Ok(s)
  {
    SplitterRoundTrip(s);
  }

  // ------------------------------------------------------------------ frames

  lemma CreateAccountEffect(w: World, payer: Key, k: Key, rent: Rent, size: nat)
    requires CreateAccount(w, payer, k, rent, size).Ok?
    ensures var after := CreateAccount(w, payer, k, rent, size).value;
            && !Owned(w, k) && k !in w.tokens && Bal(after.lamports, k) == rent
            && (forall x: Key :: Owned(w, x) ==> Bal(after.lamports, x) == Bal(w.lamports, x))
            && after == w.(lamports := after.lamports, data := w.data[k := Zeros(size)])
            && Move(w.lamports, payer, k, rent) == Some(after.lamports)
  {
  }

  lemma CreateFrame(env: Env, w: World, metas: seq<Meta>, nonce: u64, name: seq<byte>)
    requires HandleCreate(env, w, metas, nonce, name).Ok?
    ensures |metas| >= 3
    ensures var after := HandleCreate(env, w, metas, nonce, name).value;
            var k, creator := metas[0].key, metas[1].key;
            && !Owned(w, k) && k !in w.tokens && Bal(after.lamports, k) == env.splitterRent
            && (forall x: Key :: Owned(w, x) ==> Bal(after.lamports, x) == Bal(w.lamports, x))
            && Move(w.lamports, creator, k, env.splitterRent) == Some(after.lamports)
            && k == env.SplitterAddress(creator, nonce)
            && after.tokens == w.tokens
            && after.data == w.data[k := EncodeSplitter(NewSplitter(creator, nonce, env.findBump(creator, nonce), name))]
  {
    hide EncodeSplitter, NewSplitter;
    CreateAccountEffect(w, metas[1].key, metas[0].key, env.splitterRent, SPLITTER_LEN);
    assert w.data[metas[0].key := Zeros(SPLITTER_LEN)][metas[0].key := []] == w.data[metas[0].key := []];
  }

  lemma RewriteFrame(w: World, metas: seq<Meta>, ix: Instruction)
    requires Rewrites(ix) && HandleRewrite(w, metas, ix).Ok?
    ensures |metas| >= 2
    ensures var k := metas[0].key;
            && LoadSplitter(w, k).Ok? && metas[1].isSigner
            && Modify(LoadSplitter(w, k).value, ix, metas[1].key).Ok?
            && HandleRewrite(w, metas, ix).value
               == Store(w, k, EncodeSplitter(Modify(LoadSplitter(w, k).value, ix, metas[1].key).value))
  {
  }

  lemma ExactWrite(buffer: seq<byte>, b: seq<byte>)
    requires |buffer| == |b|
    ensures WriteInto(buffer, b) == Ok(b)
  {
    assert buffer[|b|..] == [] && b + [] == b;
  }

  /** A configuration does not fit into a splitter account, whatever the addresses. */
  lemma OwnedConfigSize(env: Env, w: World, c: Key, b: seq<byte>)
    requires Inv(env, w) && Owned(w, c) && |b| == SELL_CONFIG_LEN
    ensures WriteInto(Data(w, c), b).Ok? ==>
              |Data(w, c)| == SELL_CONFIG_LEN && c !in w.tokens && WriteInto(Data(w, c), b) == Ok(b)
  {
    if SplitterOk(env, w, c) {
      SplitterData(w, c);
    } else {
      ConfigData(env, w, c);
      ExactWrite(Data(w, c), b);
    }
  }

  lemma SetSellConfigFrame(env: Env, w: World, metas: seq<Meta>, mints: seq<Key>, programs: seq<Key>)
    requires Inv(env, w) && HandleSetSellConfig(env, w, metas, mints, programs).Ok?
    ensures |metas| >= 5
    ensures var after := HandleSetSellConfig(env, w, metas, mints, programs).value;
            var k, c := metas[0].key, metas[1].key;
            && LoadSplitter(w, k).Ok? && CheckAdmin(LoadSplitter(w, k).value, metas[2].key).Ok? && metas[2].isSigner
            && |mints| <= 10 && |programs| <= 5 && c == env.configAddress(k) && c !in w.tokens
            && (Owned(w, c) ==> |Data(w, c)| == SELL_CONFIG_LEN)
            && (forall x: Key :: Owned(w, x) ==> Bal(after.lamports, x) == Bal(w.lamports, x))
            && (after.lamports == w.lamports || Move(w.lamports, metas[3].key, c, env.configRent) == Some(after.lamports))
            && after == w.(lamports := after.lamports, data := w.data[c := ConfigBytes(env, k, mints, programs)])
  {
    hide EncodeSellConfig, NewSellConfig, WriteInto, CreateAccount, DecodeSplitter, Zeros;
    var c := metas[1].key;
    var b := ConfigBytes(env, metas[0].key, mints, programs);
    if Owned(w, c) {
      OwnedConfigSize(env, w, c, b);
    } else {
      CreateAccountEffect(w, metas[3].key, c, env.configRent, SELL_CONFIG_LEN);
      ExactWrite(Zeros(SELL_CONFIG_LEN), b);
      assert w.data[c := Zeros(SELL_CONFIG_LEN)][c := b] == w.data[c := b];
    }
  }

  lemma SellConfigData(w: World, c: Key)
    requires LoadSellConfig(w, c).Ok?
    ensures |Data(w, c)| == SELL_CONFIG_LEN
  {
  }

  lemma CloseSellConfigFrame(env: Env, w: World, metas: seq<Meta>)
    requires HandleCloseSellConfig(env, w, metas).Ok?
    ensures |metas| >= 3
    ensures var after := HandleCloseSellConfig(env, w, metas).value;
            var k, c, admin := metas[0].key, metas[1].key, metas[2].key;
            && LoadSplitter(w, k).Ok? && CheckAdmin(LoadSplitter(w, k).value, admin).Ok? && metas[2].isSigner
            && LoadSellConfig(w, c).Ok? && c == env.configAddress(k)
            && Bal(w.lamports, admin) + Bal(w.lamports, c) < U64_LIMIT
            && after.lamports == w.lamports[admin := Bal(w.lamports, admin) + Bal(w.lamports, c)][c := 0]
            && after == w.(lamports := after.lamports, data := w.data[c := Zeros(SELL_CONFIG_LEN)])
  {
    hide LoadSellConfig, LoadSplitter, CheckAdmin, Zeros;
    SellConfigData(w, metas[1].key);
  }

  lemma SolFrame(env: Env, w: World, metas: seq<Meta>)
    ensures HandleDistributeSol(env, w, metas).Ok? ==>
            metas != [] &&
            var after := HandleDistributeSol(env, w, metas).value;
            && LoadSplitter(w, metas[0].key).Ok?
            && (forall x: Key :: x != metas[0].key ==> Bal(after.lamports, x) >= Bal(w.lamports, x))
            && after == w.(lamports := after.lamports, log := after.log)
  {
    if !HandleDistributeSol(env, w, metas).Ok? {
      return;
    }
    var k := metas[0].key;
    var ps := SolPayments(env, w, k, LoadSplitter(w, k).value);
    forall x: Key | x != k
      ensures Bal(Pay(w.lamports, k, ps).value, x) >= Bal(w.lamports, x)
    {
      PayFrame(w.lamports, k, ps, x);
    }
  }

  lemma TokensFrame(env: Env, w: World, metas: seq<Meta>)
    ensures HandleDistributeTokens(env, w, metas).Ok? ==>
            var after := HandleDistributeTokens(env, w, metas).value;
            after == w.(amounts := after.amounts, log := after.log)
  {
  }

  lemma SwapFrame(env: Env, w: World, metas: seq<Meta>, cpi: Cpi)
    requires CpiAllowed(w, cpi)
    ensures HandleSwap(env, w, metas, cpi).Ok? ==>
            var after := HandleSwap(env, w, metas, cpi).value;
            && after.data == w.data && after.log == w.log
            && (forall x: Key :: Owned(w, x) ==> Bal(after.lamports, x) >= Bal(w.lamports, x))
            && (forall x: Key :: x in after.tokens ==> !Owned(w, x))
  {
    hide SwapGuards;
  }

  // ------------------------------------------------------- all instructions

  /** The one account whose data an instruction rewrites. */
  ghost predicate WritesTo(ix: Instruction, metas: seq<Meta>, k: Key) {
    if ix.CreateSplitter? || Rewrites(ix) then metas != [] && metas[0].key == k
    else if ix.SetSellConfig? || ix.CloseSellConfig? then |metas| > 1 && metas[1].key == k
    else false
  }

  /** The one account of the program that an instruction may debit. */
  ghost predicate Debits(ix: Instruction, metas: seq<Meta>, k: Key) {
    || (ix.DistributeSOL? && metas != [] && metas[0].key == k)
    || (ix.CloseSellConfig? && |metas| > 1 && metas[1].key == k)
  }

  /** Beyond its own target an instruction changes no data and takes no lamports from the program's accounts. */
  lemma Frame(env: Env, w: World, ix: Instruction, metas: seq<Meta>, cpi: Cpi, x: Key)
    requires Inv(env, w) && CpiAllowed(w, cpi) && Handle(env, w, ix, metas, cpi).Ok?
    ensures var after := Handle(env, w, ix, metas, cpi).value;
            && (!WritesTo(ix, metas, x) ==> Data(after, x) == Data(w, x))
            && (Owned(w, x) && !Debits(ix, metas, x) ==> Bal(after.lamports, x) >= Bal(w.lamports, x))
            && (x in after.tokens ==> !Owned(after, x))
  {
    hide HandleCreate, HandleRewrite, HandleSetSellConfig, HandleCloseSellConfig;
    hide HandleDistributeSol, HandleDistributeTokens, HandleSwap;
    hide LoadSplitter, LoadSellConfig, Modify, CheckAdmin, EncodeSplitter, NewSplitter, ConfigBytes, Zeros, Move;
    match ix {
      case CreateSplitter(nonce, name) => CreateFrame(env, w, metas, nonce, name);
      case DistributeSOL => SolFrame(env, w, metas);
      case DistributeToken => TokensFrame(env, w, metas);
      case SetSellConfig(mints, programs) => SetSellConfigFrame(env, w, metas, mints, programs);
      case CloseSellConfig =>
        CloseSellConfigFrame(env, w, metas);
        SellConfigData(w, metas[1].key);
      case SwapToken(_) => SwapFrame(env, w, metas, cpi);
      case SnsProxy(_) =>
      case _ =>
        RewriteFrame(w, metas, ix);
        SplitterData(w, metas[0].key);
    }
  }
}
