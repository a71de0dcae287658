/** Sell configuration, swap and name-service proxy, as they run on account cells. */
module Selling {
  import opened Base
  import opened Ledgers
  import opened Records
  import opened Borsh
  import opened Worlds
  import opened Objects
  import opened Runtime
  import opened Handlers
  import opened Distribution

  /** Deserialises a sell configuration and checks its discriminator. */
  method LoadConfigState(cell: AccountCell, ghost w: World) returns (r: Result<SellConfigState>)
    requires CellMirrors(cell, w)
    ensures match LoadSellConfig(w, cell.key)
            case Err(e) => r == Err(e)
            case Ok(c) => r.Ok? && fresh(r.value) && r.value.Valid() && r.value.Record() == c
                          && fresh(r.value.whitelistedMints) && fresh(r.value.approvedPrograms)
  {
    var decoded := DecodeSellConfig(cell.data);
    if decoded.None? || decoded.value.discriminator != SELL_CONFIG_DISCRIMINATOR {
      return Err(SellConfigNotFound);
    }
    var state := new SellConfigState.FromRecord(decoded.value);
    return Ok(state);
  }

  lemma MirrorsCell(accounts: seq<AccountInfo>, log: EventLog, w: World, cell: AccountCell)
    requires Mirrors(accounts, log, w) && cell in Cells(accounts)
    ensures cell.lamports == Bal(w.lamports, cell.key) && cell.data == Data(w, cell.key)
    ensures cell.token == TokenOf(w, cell.key) && cell.amount == Bal(w.amounts, cell.key)
  {
  }

  /** Writing bytes into one account, seen in the world. */
  method SaveBytes(cell: AccountCell, b: seq<byte>, ghost accounts: seq<AccountInfo>, ghost log: EventLog, ghost w: World)
    returns (r: Result<Unit>)
    requires Shared(accounts) && Mirrors(accounts, log, w) && cell in Cells(accounts)
    modifies cell`data
    ensures match WriteInto(Data(w, cell.key), b)
            case Err(e) => r == Err(e)
            case Ok(d) => r.Ok? && Mirrors(accounts, log, Store(w, cell.key, d))
  {
    r := WriteData(cell, b);
    if r.Ok? {
      ghost var after := Store(w, cell.key, cell.data);
      forall i | 0 <= i < |accounts|
        ensures CellMirrors(accounts[i].cell, after)
      {
        SameKeySameCell(accounts, accounts[i].cell, cell);
      }
    }
  }

  method ProcessSetSellConfig(
    env: Env, accounts: seq<AccountInfo>, mints: seq<Key>, programs: seq<Key>, ghost log: EventLog, ghost w: World)
    returns (r: Result<Unit>)
    requires Shared(accounts) && Mirrors(accounts, log, w)
    modifies Cells(accounts)
    ensures Simulates(accounts, log, r, HandleSetSellConfig(env, w, Metas(accounts), mints, programs))
  {
    hide LoadSplitter, WriteSellConfig, Shared, CellMirrors;
    if |accounts| < 5 {
      return Err(NotEnoughAccountKeys);
    }
    if !accounts[2].isSigner {
      return Err(MissingRequiredSigner);
    }
    var splitterCell, configCell := accounts[0].cell, accounts[1].cell;
    var splitter :- LoadState(splitterCell, w);
    var _ :- CheckAuthority(splitter, accounts[2].cell.key);
    if |mints| > MAX_WHITELIST {
      return Err(TooManyWhitelistedMints);
    }
    if |programs| > MAX_APPROVED_PROGRAMS {
      return Err(TooManyApprovedPrograms);
    }
    if configCell.key != env.configAddress(splitterCell.key) {
      return Err(InvalidPDA);
    }
    r := WriteConfig(env, splitterCell.key, configCell, accounts[3], mints, programs, accounts, log, w);
  }

  /** Opens the account if it has no data yet, fills a new configuration and serialises it. */
  method WriteConfig(
    env: Env, k: Key, configCell: AccountCell, payer: AccountInfo, mints: seq<Key>, programs: seq<Key>,
    ghost accounts: seq<AccountInfo>, ghost log: EventLog, ghost w: World)
    returns (r: Result<Unit>)
    requires Shared(accounts) && Mirrors(accounts, log, w) && |mints| <= 10 && |programs| <= 5
    requires configCell in Cells(accounts) && payer.cell in Cells(accounts)
    modifies Cells(accounts)
    ensures Simulates(accounts, log, r, WriteSellConfig(env, w, k, configCell.key, payer.cell.key, payer.isSigner, mints, programs))
  {
    hide EncodeSellConfig, CreateAccount, WriteInto, NewSellConfig, Shared, CellMirrors, Data;
    MirrorsCell(accounts, log, w, configCell);
    ghost var now := w;
    if configCell.data == [] {
      if !payer.isSigner {
        return Err(Aborted);
      }
      var _ :- CreateAccountCpi(payer.cell, configCell, env.configRent, SELL_CONFIG_LEN, accounts, log, w);
      now := CreateAccount(w, payer.cell.key, configCell.key, env.configRent, SELL_CONFIG_LEN).value;
    }
    var config := new SellConfigState.New(k, env.configBump(k));
    config.Fill(mints, programs);
    r := SaveBytes(configCell, EncodeSellConfig(config.Record()), accounts, log, now);
  }

  method ProcessCloseSellConfig(env: Env, accounts: seq<AccountInfo>, ghost log: EventLog, ghost w: World)
    returns (r: Result<Unit>)
    requires Shared(accounts) && Mirrors(accounts, log, w)
    modifies Cells(accounts)
    ensures Simulates(accounts, log, r, HandleCloseSellConfig(env, w, Metas(accounts)))
  {
    hide LoadSplitter, LoadSellConfig, CheckAdmin, Zeros, Bal, Data, Store, Shared, CellMirrors;
    if |accounts| < 3 {
      return Err(NotEnoughAccountKeys);
    }
    if !accounts[2].isSigner {
      return Err(MissingRequiredSigner);
    }
    var splitterCell, configCell, admin := accounts[0].cell, accounts[1].cell, accounts[2].cell;
    var splitter :- LoadState(splitterCell, w);
    var _ :- CheckAuthority(splitter, admin.key);
    if configCell.key != env.configAddress(splitterCell.key) {
      return Err(InvalidPDA);
    }
    var _ :- LoadConfigState(configCell, w);
    r := DrainInto(configCell, admin, accounts, log, w);
  }

  /** Both assignments and the zero fill, in the order the program makes them. */
  method DrainInto(
    configCell: AccountCell, admin: AccountCell, ghost accounts: seq<AccountInfo>, ghost log: EventLog, ghost w: World)
    returns (r: Result<Unit>)
    requires Shared(accounts) && Mirrors(accounts, log, w) && configCell in Cells(accounts) && admin in Cells(accounts)
    modifies configCell`lamports, configCell`data, admin`lamports
    ensures var sum := Bal(w.lamports, admin.key) + Bal(w.lamports, configCell.key);
            if sum >= U64_LIMIT then r == Err(InvalidPDA)
            else r.Ok? && Mirrors(accounts, log,
                   Store(w.(lamports := w.lamports[admin.key := sum][configCell.key := 0]),
                         configCell.key, Zeros(|Data(w, configCell.key)|)))
  {
    hide Zeros, Shared, CellMirrors, Mirrors, Cells, Store, Bal, Data;
    MirrorsCell(accounts, log, w, admin);
    MirrorsCell(accounts, log, w, configCell);
    var destLamports := admin.lamports;
    var sourceLamports := configCell.lamports;
    if destLamports + sourceLamports >= U64_LIMIT {
      return Err(InvalidPDA);
    }
    SetLamports(admin, destLamports + sourceLamports, accounts, log, w);
    ghost var credited := w.(lamports := w.lamports[admin.key := destLamports + sourceLamports]);
    SetLamports(configCell, 0, accounts, log, credited);
    ghost var drained := credited.(lamports := credited.lamports[configCell.key := 0]);
    SetData(configCell, Zeros(|configCell.data|), accounts, log, drained);
    return Ok(Unit);
  }

  method SetLamports(
    cell: AccountCell, lamports: u64, ghost accounts: seq<AccountInfo>, ghost log: EventLog, ghost w: World)
    requires Shared(accounts) && Mirrors(accounts, log, w) && cell in Cells(accounts)
    modifies cell`lamports
    ensures Mirrors(accounts, log, w.(lamports := w.lamports[cell.key := lamports]))
    ensures cell.lamports == lamports
  {
    cell.lamports := lamports;
    forall i | 0 <= i < |accounts|
      ensures CellMirrors(accounts[i].cell, w.(lamports := w.lamports[cell.key := lamports]))
    {
      SameKeySameCell(accounts, accounts[i].cell, cell);
    }
  }

  method SetData(
    cell: AccountCell, data: seq<byte>, ghost accounts: seq<AccountInfo>, ghost log: EventLog, ghost w: World)
    requires Shared(accounts) && Mirrors(accounts, log, w) && cell in Cells(accounts)
    modifies cell`data
    ensures Mirrors(accounts, log, Store(w, cell.key, data))
  {
    cell.data := data;
    forall i | 0 <= i < |accounts|
      ensures CellMirrors(accounts[i].cell, Store(w, cell.key, data))
    {
      SameKeySameCell(accounts, accounts[i].cell, cell);
    }
  }

  // -------------------------------------------------------------------- swaps

  method ReadTokenBalance(cell: AccountCell, ghost w: World) returns (r: Result<u64>)
    requires CellMirrors(cell, w)
    ensures match ReadHolding(w, cell.key)
            case Ok(_) => r == Ok(Bal(w.amounts, cell.key))
            case Err(e) => r == Err(e)
  {
    if cell.token.None? || !cell.token.value.Holding? {
      return Err(InvalidAccountData);
    }
    return Ok(cell.amount);
  }

  method CheckSwap(env: Env, accounts: seq<AccountInfo>, ghost log: EventLog, ghost w: World)
    returns (r: Result<SplitterState>)
    requires Mirrors(accounts, log, w)
    ensures match SwapGuards(env, w, Metas(accounts))
            case Err(e) => r == Err(e)
            case Ok(s) => r.Ok? && |accounts| >= 8 && fresh(r.value) && r.value.Valid() && r.value.Record() == s
                          && fresh(r.value.recipients) && fresh(r.value.name)
  {
    hide LoadSplitter, LoadSellConfig, Scan;
    if |accounts| < 8 {
      return Err(NotEnoughAccountKeys);
    }
    var splitterCell, sourceMint, source := accounts[0].cell, accounts[2].cell.key, accounts[3].cell;
    var dest, destMint := accounts[4].cell, accounts[5].cell.key;
    var splitter :- LoadState(splitterCell, w);
    if accounts[1].cell.key != env.configAddress(splitterCell.key) {
      return Err(InvalidPDA);
    }
    var config :- LoadConfigState(accounts[1].cell, w);
    if config.splitter != splitterCell.key {
      return Err(SellConfigSplitterMismatch);
    }
    var kept :- config.IsWhitelisted(sourceMint);
    if kept {
      return Err(TokenWhitelisted);
    }
    if !env.IsNativeMint(destMint) {
      var welcome :- config.IsWhitelisted(destMint);
      if !welcome {
        return Err(DestinationNotAllowed);
      }
    }
    var approved :- config.IsApprovedProgram(accounts[6].cell.key);
    if !approved {
      return Err(SwapProgramNotApproved);
    }
    if source.token.None? || !source.token.value.Holding? {
      return Err(InvalidAccountData);
    }
    if source.token.value.owner != splitterCell.key {
      return Err(InvalidTokenAccountOwner);
    }
    if source.token.value.mint != sourceMint {
      return Err(InvalidTokenAccountMint);
    }
    var _ :- ReadTokenBalance(dest, w);
    if source.amount == 0 {
      return Err(NothingToDistribute);
    }
    return Ok(splitter);
  }

  /** The account list handed to the swap program: order and writability kept, every signer flag cleared. */
  method ForwardedMetas(accounts: seq<AccountInfo>) returns (metas: seq<Meta>)
    ensures |metas| == |accounts|
    ensures forall i :: 0 <= i < |metas| ==> metas[i] == Metas(accounts)[i].(isSigner := false)
  {
    metas := [];
    for i := 0 to |accounts|
      invariant |metas| == i
      invariant forall j :: 0 <= j < i ==> metas[j] == Metas(accounts)[j].(isSigner := false)
    {
      metas := metas + [Meta(accounts[i].cell.key, false, accounts[i].isWritable)];
    }
  }

  /** The account list handed to the name service: of the signers only the splitter, whose seeds sign, keeps the flag. */
  method SignedMetas(accounts: seq<AccountInfo>, splitter: Key) returns (metas: seq<Meta>)
    ensures |metas| == |accounts|
    ensures forall i :: 0 <= i < |metas| ==>
              metas[i] == Metas(accounts)[i].(isSigner := Metas(accounts)[i].key == splitter)
  {
    metas := [];
    for i := 0 to |accounts|
      invariant |metas| == i
      invariant forall j :: 0 <= j < i ==> metas[j] == Metas(accounts)[j].(isSigner := Metas(accounts)[j].key == splitter)
    {
      var isPda := accounts[i].cell.key == splitter;
      metas := metas + [Meta(accounts[i].cell.key, isPda, accounts[i].isWritable)];
    }
  }

  /** The effect of a call into another program, arriving in the cells. */
  method InvokeCpi(accounts: seq<AccountInfo>, cpi: Cpi, ghost log: EventLog, ghost w: World) returns (r: Result<Unit>)
    requires Mirrors(accounts, log, w)
    modifies Cells(accounts)`lamports, Cells(accounts)`token, Cells(accounts)`amount
    ensures Simulates(accounts, log, r, Apply(w, cpi))
  {
    if cpi.CpiFails? {
      return Err(Aborted);
    }
    ghost var after := Apply(w, cpi).value;
    for i := 0 to |accounts|
      invariant forall j :: 0 <= j < i ==> CellMirrors(accounts[j].cell, after)
      invariant forall j :: 0 <= j < |accounts| ==> accounts[j].cell.data == Data(w, accounts[j].cell.key)
    {
      var cell := accounts[i].cell;
      cell.lamports := Bal(cpi.lamports, cell.key);
      cell.token := if cell.key in cpi.tokens then Some(cpi.tokens[cell.key]) else None;
      cell.amount := Bal(cpi.amounts, cell.key);
    }
    return Ok(Unit);
  }

  /** `close_account` on the wrapped-SOL account. */
  method CloseNativeCpi(
    env: Env, splitter: SplitterState, program: Key, account: AccountCell, splitterCell: AccountCell,
    ghost accounts: seq<AccountInfo>, ghost log: EventLog, ghost w: World)
    returns (r: Result<Unit>)
    requires splitter.Valid() && Shared(accounts) && Mirrors(accounts, log, w)
    requires account in Cells(accounts) && splitterCell in Cells(accounts)
    modifies account`lamports, splitterCell`lamports, account`token, account`amount
    ensures Simulates(accounts, log, r, CloseNative(env, w, program, account.key, splitterCell.key, splitter.Record()))
  {
    hide Move, Shared, CellMirrors, Bal;
    MirrorsCell(accounts, log, w, account);
    if account.token.None? || !account.token.value.Holding? {
      return Err(InvalidAccountData);
    }
    var t := account.token.value;
    if !env.IsTokenProgram(program) || t.program != program || t.owner != splitterCell.key || account.key == splitterCell.key
       || !(env.IsNativeMint(t.mint) || account.amount == 0)
       || env.derive(splitter.creator, splitter.nonce, splitter.bump) != splitterCell.key {
      return Err(Aborted);
    }
    ghost var moved := Move(w.lamports, account.key, splitterCell.key, Bal(w.lamports, account.key));
    var _ :- MoveLamports(account, splitterCell, account.lamports, accounts, log, w);
    ClearToken(account, accounts, log, w.(lamports := moved.value));
    return Ok(Unit);
  }

  method ClearToken(account: AccountCell, ghost accounts: seq<AccountInfo>, ghost log: EventLog, ghost w: World)
    requires Shared(accounts) && Mirrors(accounts, log, w) && account in Cells(accounts)
    modifies account`token, account`amount
    ensures Mirrors(accounts, log, w.(tokens := w.tokens - {account.key}, amounts := w.amounts[account.key := 0]))
  {
    account.token := None;
    account.amount := 0;
    forall i | 0 <= i < |accounts|
      ensures CellMirrors(accounts[i].cell, w.(tokens := w.tokens - {account.key}, amounts := w.amounts[account.key := 0]))
    {
      SameKeySameCell(accounts, accounts[i].cell, account);
    }
  }

  /** The balance checks after the call, and the unwrapping of native SOL. */
  method FinishSwap(
    env: Env, splitter: SplitterState, accounts: seq<AccountInfo>, sourceBefore: u64, destBefore: u64,
    ghost log: EventLog, ghost w: World, ghost swapped: World)
    returns (r: Result<Unit>)
    requires splitter.Valid() && Shared(accounts) && Mirrors(accounts, log, swapped) && |accounts| >= 8
    requires sourceBefore == Bal(w.amounts, accounts[3].cell.key) && destBefore == Bal(w.amounts, accounts[4].cell.key)
    modifies Cells(accounts)
    ensures Simulates(accounts, log, r, AfterSwap(env, w, swapped, Metas(accounts), splitter.Record()))
  {
    hide CloseNative, Shared, CellMirrors, ReadHolding, Bal;
    var source, dest := accounts[3].cell, accounts[4].cell;
    var sourceAfter :- ReadTokenBalance(source, swapped);
    var destAfter :- ReadTokenBalance(dest, swapped);
    if sourceAfter >= sourceBefore {
      return Err(SwapSourceNotDecreased);
    }
    if destAfter <= destBefore {
      return Err(SwapDestNotIncreased);
    }
    if env.IsNativeMint(accounts[5].cell.key) {
      r := CloseNativeCpi(env, splitter, accounts[7].cell.key, dest, accounts[0].cell, accounts, log, swapped);
      return;
    }
    return Ok(Unit);
  }

  /** `forwarded` is the account list the swap program is called with. */
  method ProcessSwapToken(env: Env, accounts: seq<AccountInfo>, cpi: Cpi, ghost log: EventLog, ghost w: World)
    returns (r: Result<Unit>, forwarded: seq<Meta>)
    requires Shared(accounts) && Mirrors(accounts, log, w)
    modifies Cells(accounts)
    ensures Simulates(accounts, log, r, HandleSwap(env, w, Metas(accounts), cpi))
    ensures r.Ok? ==> |accounts| == 8 + |forwarded|
    ensures forall i :: 0 <= i < |forwarded| && r.Ok? ==> forwarded[i] == Metas(accounts)[8 + i].(isSigner := false)
  {
    hide SwapGuards, AfterSwap, Shared, CellMirrors, Apply, Bal;
    forwarded := [];
    var splitter :- CheckSwap(env, accounts, log, w);
    MirrorsCell(accounts, log, w, accounts[3].cell);
    MirrorsCell(accounts, log, w, accounts[4].cell);
    var sourceBefore, destBefore := accounts[3].cell.amount, accounts[4].cell.amount;
    forwarded := ForwardedMetas(accounts[8..]);
    var _ :- InvokeCpi(accounts, cpi, log, w);
    r := FinishSwap(env, splitter, accounts, sourceBefore, destBefore, log, w, Apply(w, cpi).value);
  }

  /** `forwarded` is the account list the name service is called with. */
  method ProcessSnsProxy(accounts: seq<AccountInfo>, cpi: Cpi, ghost log: EventLog, ghost w: World)
    returns (r: Result<Unit>, forwarded: seq<Meta>)
    requires Shared(accounts) && Mirrors(accounts, log, w)
    modifies Cells(accounts)
    ensures Simulates(accounts, log, r, HandleSnsProxy(w, Metas(accounts), cpi))
    ensures r.Ok? ==> |accounts| == 3 + |forwarded|
    ensures forall i :: 0 <= i < |forwarded| && r.Ok? ==>
              var meta := Metas(accounts)[3 + i]; forwarded[i] == meta.(isSigner := meta.key == accounts[0].cell.key)
  {
    hide LoadSplitter;
    forwarded := [];
    if |accounts| < 3 {
      return Err(NotEnoughAccountKeys), [];
    }
    if !accounts[1].isSigner {
      return Err(MissingRequiredSigner), [];
    }
    var splitter :- LoadState(accounts[0].cell, w);
    var _ :- CheckAuthority(splitter, accounts[1].cell.key);
    var sns := accounts[2].cell.key;
    if sns != SNS_PROGRAM_ID && sns != SNS_NAME_OFFERS_ID {
      return Err(InvalidPDA), [];
    }
    forwarded := SignedMetas(accounts[3..], accounts[0].cell.key);
    r := InvokeCpi(accounts, cpi, log, w);
  }
}
