/**
  The chain as this program sees it, one function per instruction handler, and
  the step and run relations.
 */
module Worlds {
  import opened Base
  import opened Ledgers
  import opened Records
  import opened Borsh

  // ------------------------------------------------------------------- state

  type Rent = n: u64 | 0 < n witness 1

  /**
    What the program is deployed into. Address derivation is an arbitrary pair
    of functions: nothing below assumes that two seeds never meet.
   */
  datatype Env = Env(
    derive: (Key, u64, byte) -> Key,
    findBump: (Key, u64) -> byte,
    configAddress: Key -> Key,
    configBump: Key -> byte,
    splitterRent: Rent,
    configRent: Rent,
    token2022: Key,
    nativeMint2022: Key,
    utf8: seq<byte> -> bool)
  {
    function SplitterAddress(creator: Key, nonce: u64): Key {
      derive(creator, nonce, findBump(creator, nonce))
    }

    predicate IsTokenProgram(k: Key) {
      k == token2022 || k == SPL_TOKEN_PROGRAM_ID
    }

    predicate IsNativeMint(k: Key) {
      k == SPL_NATIVE_MINT || k == nativeMint2022
    }
  }

  const SPL_TOKEN_PROGRAM_ID: Key := Key([
    0x06, 0xdd, 0xf6, 0xe1, 0xd7, 0x65, 0xa1, 0x93, 0xd9, 0xcb, 0xe1, 0x46, 0xce, 0xeb, 0x79, 0xac,
    0x1c, 0xb4, 0x85, 0xed, 0x5f, 0x5b, 0x37, 0x91, 0x3a, 0x8c, 0xf5, 0x85, 0x7e, 0xff, 0x00, 0xa9])
  const SPL_NATIVE_MINT: Key := Key([
    0x06, 0x9b, 0x88, 0x57, 0xfe, 0xab, 0x81, 0x84, 0xfb, 0x68, 0x7f, 0x63, 0x46, 0x18, 0xc0, 0x35,
    0xda, 0xc4, 0x39, 0xdc, 0x1a, 0xeb, 0x3b, 0x55, 0x98, 0xa0, 0xf0, 0x00, 0x00, 0x00, 0x00, 0x01])
  const SNS_PROGRAM_ID: Key := Key([
    0x0b, 0xad, 0x51, 0xf4, 0x13, 0xc1, 0xf3, 0xa9, 0x94, 0x60, 0xd9, 0x00, 0xd8, 0xbf, 0x2e, 0xd6,
    0x92, 0x7e, 0xca, 0x34, 0xd7, 0xb7, 0x84, 0x2b, 0xf8, 0x10, 0xa9, 0x73, 0x08, 0x2d, 0x1e, 0xdc])
  const SNS_NAME_OFFERS_ID: Key := Key([
    0x69, 0x36, 0xbc, 0xc8, 0xf9, 0x07, 0xbc, 0x81, 0x44, 0xf3, 0x82, 0x06, 0x10, 0x1c, 0xec, 0x28,
    0x46, 0x7c, 0x24, 0xc7, 0x3e, 0xeb, 0x35, 0x98, 0x9c, 0xe1, 0xd2, 0xbb, 0x5e, 0x28, 0x58, 0x76])

  /** What the token programs' unpackers see in an account owned by `program`. */
  datatype TokenView = Other(program: Key) | Mint(program: Key) | Holding(program: Key, mint: Key, owner: Key)

  /**
    `data` holds the accounts this program owns; `tokens` and `amounts` the
    token accounts; `log` the event records emitted so far.
   */
  datatype World = World(
    lamports: Ledger,
    data: map<Key, seq<byte>>,
    tokens: map<Key, TokenView>,
    amounts: Ledger,
    log: seq<seq<byte>>)

  function Data(w: World, k: Key): seq<byte> {
    if k in w.data then w.data[k] else []
  }

  function TokenOf(w: World, k: Key): Option<TokenView> {
    if k in w.tokens then Some(w.tokens[k]) else None
  }

  predicate Owned(w: World, k: Key) {
    Data(w, k) != []
  }

  function Store(w: World, k: Key, b: seq<byte>): World {
    w.(data := w.data[k := b])
  }

  datatype Meta = Meta(key: Key, isSigner: bool, isWritable: bool)

  /** The outcome of a call into another program: failure, or new balances and token accounts of any kind. */
  datatype Cpi = CpiFails | CpiEffect(lamports: Ledger, tokens: map<Key, TokenView>, amounts: Ledger)

  function Apply(w: World, cpi: Cpi): Result<World> {
    match cpi
    case CpiFails => Err(Aborted)
    case CpiEffect(lamports, tokens, amounts) => Ok(w.(lamports := lamports, tokens := tokens, amounts := amounts))
  }

  // ---------------------------------------------------------- shared handler parts

  function LoadSplitter(w: World, k: Key): Result<Splitter> {
    match DecodeSplitter(Data(w, k))
    case None => Err(NotInitialized)
    case Some(s) => if s.discriminator == SPLITTER_DISCRIMINATOR then Ok(s) else Err(NotInitialized)
  }

  function LoadSellConfig(w: World, k: Key): Result<SellConfig> {
    match DecodeSellConfig(Data(w, k))
    case None => Err(SellConfigNotFound)
    case Some(c) => if c.discriminator == SELL_CONFIG_DISCRIMINATOR then Ok(c) else Err(SellConfigNotFound)
  }

  /** Serialising into an account buffer overwrites its front and must fit. */
  function WriteInto(buffer: seq<byte>, b: seq<byte>): Result<seq<byte>> {
    if |buffer| < |b| then Err(BufferTooSmall) else Ok(b + buffer[|b|..])
  }

  /** The system program's `create_account`: a fresh address, paid for by a plain wallet. */
  function CreateAccount(w: World, payer: Key, k: Key, rent: Rent, size: nat): Result<World> {
    if Bal(w.lamports, k) > 0 || Owned(w, k) || k in w.tokens || Owned(w, payer) || payer in w.tokens then Err(Aborted)
    else match Move(w.lamports, payer, k, rent)
      case None => Err(Aborted)
      case Some(lamports) => Ok(Store(w.(lamports := lamports), k, Zeros(size)))
  }

  // --------------------------------------------------------------- handlers

  function HandleCreate(env: Env, w: World, metas: seq<Meta>, nonce: u64, name: seq<byte>): Result<World> {
    if |metas| < 3 then Err(NotEnoughAccountKeys)
    else if !metas[1].isSigner then Err(MissingRequiredSigner)
    else if metas[0].key != env.SplitterAddress(metas[1].key, nonce) then Err(InvalidPDA)
    else if Owned(w, metas[0].key) then Err(AlreadyInitialized)
    else if |name| > MAX_NAME_LEN then Err(NameTooLong)
    else
      var created :- CreateAccount(w, metas[1].key, metas[0].key, env.splitterRent, SPLITTER_LEN);
      var s := NewSplitter(metas[1].key, nonce, env.findBump(metas[1].key, nonce), name);
      Ok(Store(created, metas[0].key, EncodeSplitter(s)))
  }

  /** The five instructions that decode a splitter, modify it and write it back. */
  function HandleRewrite(w: World, metas: seq<Meta>, ix: Instruction): Result<World>
    requires Rewrites(ix)
  {
    if |metas| < 2 then Err(NotEnoughAccountKeys)
    else if !metas[1].isSigner then Err(MissingRequiredSigner)
    else if ix.SetSplitterName? && |ix.name| > MAX_NAME_LEN then Err(NameTooLong)
    else
      var s :- LoadSplitter(w, metas[0].key);
      var t :- Modify(s, ix, metas[1].key);
      Ok(Store(w, metas[0].key, EncodeSplitter(t)))
  }

  type Payment = e: Entry | e.units < U64_LIMIT witness Entry(DEFAULT_KEY, 0)

  /** The `as u64` at the end of the share computation keeps the low 64 bits. */
  function Cast(ps: seq<Entry>): (cs: seq<Payment>)
    ensures |cs| == |ps| && forall i :: 0 <= i < |ps| ==> cs[i] == Entry(ps[i].to, ps[i].units % U64_LIMIT)
  {
    seq(|ps|, i requires 0 <= i < |ps| => Entry(ps[i].to, ps[i].units % U64_LIMIT))
  }

  /** One record per nonzero payment, in order; `names` is who the record says was paid. */
  function Events(splitter: Key, names: seq<Key>, ps: seq<Payment>, isToken: bool): seq<seq<byte>>
    requires |names| == |ps|
  {
    if ps == [] then [] else
      (if ps[0].units == 0 then [] else [EncodeEvent(Event(splitter, names[0], ps[0].units, isToken))])
      + Events(splitter, names[1..], ps[1..], isToken)
  }

  function Addresses(rs: seq<Recipient>): (ks: seq<Key>)
    ensures |ks| == |rs| && forall i :: 0 <= i < |rs| ==> ks[i] == rs[i].address
  {
    seq(|rs|, i requires 0 <= i < |rs| => rs[i].address)
  }

  /** The accounts passed after the splitter are the table's, in order. */
  predicate InTableOrder(s: Splitter, metas: seq<Meta>) {
    && s.numRecipients <= 10
    && |metas| >= 1 + s.numRecipients
    && forall i :: 0 <= i < s.numRecipients ==> metas[1 + i].key == s.recipients[i].address
  }

  /** Where the collection stops if they are not, looking from position `i` on. */
  function FirstMismatch(s: Splitter, metas: seq<Meta>, i: nat): Error
    decreases 10 - i
  {
    if 1 + i >= |metas| then RecipientCountMismatch
    else if i >= 10 then Aborted
    else if metas[1 + i].key != s.recipients[i].address then RecipientAddressMismatch
    else FirstMismatch(s, metas, i + 1)
  }

  function SolPayments(env: Env, w: World, k: Key, s: Splitter): seq<Payment>
    requires Bal(w.lamports, k) >= env.splitterRent
  {
    Cast(Payouts(Bal(w.lamports, k) - env.splitterRent, Weights(s.Active())))
  }

  /** Everything `DistributeSOL` checks before it pays. */
  function SolGuards(env: Env, w: World, metas: seq<Meta>): (r: Result<Splitter>)
    ensures r.Ok? ==> metas != [] && Bal(w.lamports, metas[0].key) > env.splitterRent
  {
    if metas == [] then Err(NotEnoughAccountKeys) else
      var s :- LoadSplitter(w, metas[0].key);
      if s.numRecipients == 0 then Err(NoRecipients)
      else if Bal(w.lamports, metas[0].key) <= env.splitterRent then Err(NothingToDistribute)
      else if !InTableOrder(s, metas) then Err(FirstMismatch(s, metas, 0))
      else Ok(s)
  }

  function HandleDistributeSol(env: Env, w: World, metas: seq<Meta>): Result<World> {
    var s :- SolGuards(env, w, metas);
    var k := metas[0].key;
    var ps := SolPayments(env, w, k, s);
    match Pay(w.lamports, k, ps)
    case None => Err(Aborted)
    case Some(lamports) =>
      if Sum(ps) >= U64_LIMIT then Err(Aborted)
      else Ok(w.(lamports := lamports, log := w.log + Events(k, Addresses(s.Active()), ps, false)))
  }

  function TokenPayments(w: World, source: Key, s: Splitter, dests: seq<Meta>): (ps: seq<Payment>)
    requires |dests| >= |s.Active()|
    ensures |ps| == |s.Active()|
  {
    var weights := Weights(s.Active());
    var byPosition := seq(|weights|, i requires 0 <= i < |weights| => Entry(dests[i].key, weights[i].units));
    Cast(Payouts(Bal(w.amounts, source), byPosition))
  }

  /** Whether `transfer_checked` may move tokens of `mint` into this account. */
  predicate Receives(w: World, k: Key, program: Key, mint: Key) {
    match TokenOf(w, k)
    case Some(Holding(p, m, _)) => p == program && m == mint
    case _ => false
  }

  /** Everything `DistributeToken` checks before it transfers. */
  function TokenGuards(env: Env, w: World, metas: seq<Meta>): Result<Splitter> {
    if |metas| < 4 then Err(NotEnoughAccountKeys) else
      var k, mint, source, program := metas[0].key, metas[1].key, metas[2].key, metas[3].key;
      if !env.IsTokenProgram(program) then Err(InvalidTokenProgram) else
        var s :- LoadSplitter(w, k);
        if s.numRecipients == 0 then Err(NoRecipients)
        else if TokenOf(w, source).None? || TokenOf(w, source).value.program != program then Err(InvalidTokenAccountOwner)
        else if !TokenOf(w, source).value.Holding? then Err(InvalidAccountData)
        else if TokenOf(w, source).value.owner != k then Err(InvalidTokenAccountOwner)
        else if TokenOf(w, source).value.mint != mint then Err(InvalidTokenAccountMint)
        else if Bal(w.amounts, source) == 0 then Err(NothingToDistribute)
        else if TokenOf(w, mint).None? || !TokenOf(w, mint).value.Mint? then Err(InvalidAccountData)
        else if |metas| < 4 + s.numRecipients then Err(RecipientCountMismatch)
        else Ok(s)
  }

  function HandleDistributeTokens(env: Env, w: World, metas: seq<Meta>): Result<World> {
    var s :- TokenGuards(env, w, metas);
    var k, mint, source, program := metas[0].key, metas[1].key, metas[2].key, metas[3].key;
    var ps := TokenPayments(w, source, s, metas[4..]);
    match Pay(w.amounts, source, ps)
    case None => Err(Aborted)
    case Some(amounts) =>
      if s.numRecipients <= 10 && Sum(ps) < U64_LIMIT && AllTransferable(env, w, k, s, mint, program, ps)
      then Ok(w.(amounts := amounts, log := w.log + Events(k, Addresses(s.Active()), ps, true)))
      else Err(Aborted)
  }

  /** The token programs let all nonzero payments through, balances aside. */
  predicate AllTransferable(env: Env, w: World, k: Key, s: Splitter, mint: Key, program: Key, ps: seq<Payment>) {
    forall i :: 0 <= i < |ps| && ps[i].units > 0 ==> Transferable(env, w, k, s, mint, program, ps[i].to)
  }

  /** What a transfer signed with the stored seeds needs besides the balance. */
  predicate Transferable(env: Env, w: World, k: Key, s: Splitter, mint: Key, program: Key, to: Key) {
    && env.derive(s.creator, s.nonce, s.bump) == k
    && TokenOf(w, mint) == Some(Mint(program))
    && Receives(w, to, program, mint)
  }

  function HandleSetSellConfig(env: Env, w: World, metas: seq<Meta>, mints: seq<Key>, programs: seq<Key>): Result<World> {
    if |metas| < 5 then Err(NotEnoughAccountKeys)
    else if !metas[2].isSigner then Err(MissingRequiredSigner)
    else
      var k, c := metas[0].key, metas[1].key;
      var s :- LoadSplitter(w, k);
      var _ :- CheckAdmin(s, metas[2].key);
      if |mints| > MAX_WHITELIST then Err(TooManyWhitelistedMints)
      else if |programs| > MAX_APPROVED_PROGRAMS then Err(TooManyApprovedPrograms)
      else if c != env.configAddress(k) then Err(InvalidPDA)
      else WriteSellConfig(env, w, k, c, metas[3].key, metas[3].isSigner, mints, programs)
  }

  /** Creates the account if it has no data, then overwrites it. */
  function WriteSellConfig(
    env: Env, w: World, k: Key, c: Key, payer: Key, payerSigns: bool, mints: seq<Key>, programs: seq<Key>): Result<World>
    requires |mints| <= 10 && |programs| <= 5
  {
    if !Owned(w, c) && !payerSigns then Err(Aborted) else
      var ready :- if Owned(w, c) then Ok(w) else CreateAccount(w, payer, c, env.configRent, SELL_CONFIG_LEN);
      var b :- WriteInto(Data(ready, c), EncodeSellConfig(NewSellConfig(k, env.configBump(k), mints, programs)));
      Ok(Store(ready, c, b))
  }

  /** Both assignments in order: an admin that is the account itself would end with nothing. */
  function HandleCloseSellConfig(env: Env, w: World, metas: seq<Meta>): Result<World> {
    if |metas| < 3 then Err(NotEnoughAccountKeys)
    else if !metas[2].isSigner then Err(MissingRequiredSigner)
    else
      var k, c, admin := metas[0].key, metas[1].key, metas[2].key;
      var s :- LoadSplitter(w, k);
      var _ :- CheckAdmin(s, admin);
      if c != env.configAddress(k) then Err(InvalidPDA) else
        var _ :- LoadSellConfig(w, c);
        if Bal(w.lamports, admin) + Bal(w.lamports, c) >= U64_LIMIT then Err(InvalidPDA)
        else
          var lamports := w.lamports[admin := Bal(w.lamports, admin) + Bal(w.lamports, c)][c := 0];
          Ok(Store(w.(lamports := lamports), c, Zeros(|Data(w, c)|)))
  }

  function ReadHolding(w: World, k: Key): Result<TokenView> {
    match TokenOf(w, k)
    case Some(t) => if t.Holding? then Ok(t) else Err(InvalidAccountData)
    case None => Err(InvalidAccountData)
  }

  /** The token program's `close_account`, paying the account's lamports to the splitter. */
  function CloseNative(env: Env, w: World, program: Key, account: Key, k: Key, s: Splitter): Result<World> {
    var t :- ReadHolding(w, account);
    if !env.IsTokenProgram(program) || t.program != program || t.owner != k || account == k
       || !(env.IsNativeMint(t.mint) || Bal(w.amounts, account) == 0)
       || env.derive(s.creator, s.nonce, s.bump) != k
    then Err(Aborted)
    else match Move(w.lamports, account, k, Bal(w.lamports, account))
      case None => Err(Aborted)
      case Some(lamports) =>
        Ok(w.(lamports := lamports, tokens := w.tokens - {account}, amounts := w.amounts[account := 0]))
  }

  /** Everything `SwapToken` checks before it calls the swap program. */
  function SwapGuards(env: Env, w: World, metas: seq<Meta>): (r: Result<Splitter>)
    ensures r.Ok? ==> |metas| >= 8
  {
    if |metas| < 8 then Err(NotEnoughAccountKeys) else
      var k, sourceMint, source := metas[0].key, metas[2].key, metas[3].key;
      var dest, destMint := metas[4].key, metas[5].key;
      var s :- LoadSplitter(w, k);
      if metas[1].key != env.configAddress(k) then Err(InvalidPDA) else
        var c :- LoadSellConfig(w, metas[1].key);
        if c.splitter != k then Err(SellConfigSplitterMismatch) else
          var kept :- Scan(c.whitelistedMints, c.numWhitelisted, sourceMint);
          if kept then Err(TokenWhitelisted) else
            var welcome :- if env.IsNativeMint(destMint) then Ok(true)
                           else Scan(c.whitelistedMints, c.numWhitelisted, destMint);
            if !welcome then Err(DestinationNotAllowed) else
              var approved :- Scan(c.approvedPrograms, c.numApprovedPrograms, metas[6].key);
              if !approved then Err(SwapProgramNotApproved) else
                var t :- ReadHolding(w, source);
                if t.owner != k then Err(InvalidTokenAccountOwner)
                else if t.mint != sourceMint then Err(InvalidTokenAccountMint)
                else
                  var _ :- ReadHolding(w, dest);
                  if Bal(w.amounts, source) == 0 then Err(NothingToDistribute) else Ok(s)
  }

  /** The checks after the call, against the balances before it. */
  function AfterSwap(env: Env, w: World, swapped: World, metas: seq<Meta>, s: Splitter): Result<World>
    requires |metas| >= 8
  {
    var k, source, dest := metas[0].key, metas[3].key, metas[4].key;
    var _ :- ReadHolding(swapped, source);
    var _ :- ReadHolding(swapped, dest);
    if Bal(swapped.amounts, source) >= Bal(w.amounts, source) then Err(SwapSourceNotDecreased)
    else if Bal(swapped.amounts, dest) <= Bal(w.amounts, dest) then Err(SwapDestNotIncreased)
    else if env.IsNativeMint(metas[5].key) then CloseNative(env, swapped, metas[7].key, dest, k, s)
    else Ok(swapped)
  }

  function HandleSwap(env: Env, w: World, metas: seq<Meta>, cpi: Cpi): Result<World> {
    var s :- SwapGuards(env, w, metas);
    var swapped :- Apply(w, cpi);
    AfterSwap(env, w, swapped, metas, s)
  }

  function HandleSnsProxy(w: World, metas: seq<Meta>, cpi: Cpi): Result<World> {
    if |metas| < 3 then Err(NotEnoughAccountKeys)
    else if !metas[1].isSigner then Err(MissingRequiredSigner)
    else
      var s :- LoadSplitter(w, metas[0].key);
      var _ :- CheckAdmin(s, metas[1].key);
      if metas[2].key != SNS_PROGRAM_ID && metas[2].key != SNS_NAME_OFFERS_ID then Err(InvalidPDA) else Apply(w, cpi)
  }

  function Handle(env: Env, w: World, ix: Instruction, metas: seq<Meta>, cpi: Cpi): Result<World> {
    match ix
    case CreateSplitter(nonce, name) => HandleCreate(env, w, metas, nonce, name)
    case DistributeSOL => HandleDistributeSol(env, w, metas)
    case DistributeToken => HandleDistributeTokens(env, w, metas)
    case SetSellConfig(mints, programs) => HandleSetSellConfig(env, w, metas, mints, programs)
    case CloseSellConfig => HandleCloseSellConfig(env, w, metas)
    case SwapToken(_) => HandleSwap(env, w, metas, cpi)
    case SnsProxy(_) => HandleSnsProxy(w, metas, cpi)
    case _ => HandleRewrite(w, metas, ix)
  }

  // -------------------------------------------------------------- steps and runs

  /** The handler, then the runtime's check that lamports were only moved. */
  ghost function Exec(env: Env, w: World, ix: Instruction, metas: seq<Meta>, cpi: Cpi): Result<World> {
    var after :- Handle(env, w, ix, metas, cpi);
    if Total(after.lamports) == Total(w.lamports) then Ok(after) else Err(Unbalanced)
  }

  /** The entry point: instruction data first has to decode. */
  ghost function ProcessInstruction(env: Env, w: World, input: seq<byte>, metas: seq<Meta>, cpi: Cpi): Result<World> {
    match DecodeInstruction(input, env.utf8)
    case None => Err(InvalidInstructionData)
    case Some(ix) => Exec(env, w, ix, metas, cpi)
  }

  /** Other programs cannot take lamports from this program's accounts, nor run token accounts in them. */
  ghost predicate CpiAllowed(w: World, cpi: Cpi) {
    cpi.CpiEffect? ==>
      && (forall k: Key :: Owned(w, k) ==> Bal(cpi.lamports, k) >= Bal(w.lamports, k))
      && (forall k: Key :: k in cpi.tokens ==> !Owned(w, k))
  }

  /**
    Anything other programs do between two of our instructions. Accounts of this
    program keep their data and lose no lamports, except that the runtime drops
    an account left without any.
   */
  ghost predicate OutsideAllowed(w: World, next: World) {
    && (forall k: Key :: Owned(w, k) ==>
          || (Data(next, k) == Data(w, k) && Bal(next.lamports, k) >= Bal(w.lamports, k))
          || (Bal(w.lamports, k) == 0 && !Owned(next, k)))
    && (forall k: Key :: !Owned(w, k) ==> !Owned(next, k))
    && (forall k: Key :: k in next.tokens ==> !Owned(next, k))
    && next.log == w.log
  }

  datatype Step =
    | Call(ix: Instruction, metas: seq<Meta>, cpi: Cpi)
    | Outside(next: World)

  /** The world a call leads to, if it succeeds. */
  ghost function Outcome(env: Env, w: World, step: Step): Option<World> {
    if step.Call? && CpiAllowed(w, step.cpi) && Exec(env, w, step.ix, step.metas, step.cpi).Ok?
    then Some(Exec(env, w, step.ix, step.metas, step.cpi).value)
    else None
  }

  /** A failed call changes nothing: transactions are atomic. */
  ghost function Next(env: Env, w: World, step: Step): World {
    if step.Outside? then (if OutsideAllowed(w, step.next) then step.next else w)
    else match Outcome(env, w, step)
      case Some(after) => after
      case None => w
  }

  ghost function After(env: Env, w: World, steps: seq<Step>): World
    decreases |steps|
  {
    if steps == [] then w else After(env, Next(env, w, steps[0]), steps[1..])
  }

  /** Before the program has any accounts. */
  ghost predicate Genesis(w: World) {
    forall k: Key :: !Owned(w, k)
  }
}
