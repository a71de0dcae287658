/** The two cranks, as they run on account cells. */
module Distribution {
  import opened Base
  import opened Ledgers
  import opened Records
  import opened Borsh
  import opened Worlds
  import opened Objects
  import opened Runtime
  import opened Handlers

  /** What mirroring says of each account passed. */
  lemma MirrorsAll(accounts: seq<AccountInfo>, log: EventLog, w: World)
    requires Mirrors(accounts, log, w)
    ensures forall i :: 0 <= i < |accounts| ==>
              && accounts[i].cell.lamports == Bal(w.lamports, accounts[i].cell.key)
              && accounts[i].cell.token == TokenOf(w, accounts[i].cell.key)
              && accounts[i].cell.amount == Bal(w.amounts, accounts[i].cell.key)
  {
  }

  /** Whether position `i` is there and holds the table's account. */
  predicate MatchesAt(s: Splitter, metas: seq<Meta>, i: nat) {
    i < 10 && 1 + i < |metas| && metas[1 + i].key == s.recipients[i].address
  }

  lemma StopsAt(s: Splitter, metas: seq<Meta>, i: nat)
    requires i < s.numRecipients && !MatchesAt(s, metas, i)
    ensures !InTableOrder(s, metas)
    ensures FirstMismatch(s, metas, i) == if 1 + i >= |metas| then RecipientCountMismatch
                                          else if i >= 10 then Aborted else RecipientAddressMismatch
  {
  }

  lemma GoesOnAt(s: Splitter, metas: seq<Meta>, i: nat)
    requires MatchesAt(s, metas, i)
    ensures FirstMismatch(s, metas, i) == FirstMismatch(s, metas, i + 1)
  {
  }

  lemma AllMatch(s: Splitter, metas: seq<Meta>)
    requires metas != [] && forall i :: 0 <= i < s.numRecipients ==> MatchesAt(s, metas, i)
    ensures InTableOrder(s, metas)
  {
    if s.numRecipients > 0 {
      assert MatchesAt(s, metas, s.numRecipients - 1);
    }
    forall i | 0 <= i < s.numRecipients ensures metas[1 + i].key == s.recipients[i].address {
      assert MatchesAt(s, metas, i);
    }
  }

  /** Collects the recipient accounts, which must follow the table's order. */
  method CollectRecipients(splitter: SplitterState, accounts: seq<AccountInfo>) returns (r: Result<seq<AccountInfo>>)
    requires splitter.Valid() && accounts != []
    ensures if InTableOrder(splitter.Record(), Metas(accounts))
            then splitter.numRecipients <= 10 && |accounts| >= 1 + splitter.numRecipients
                 && r == Ok(accounts[1..1 + splitter.numRecipients])
            else r == Err(FirstMismatch(splitter.Record(), Metas(accounts), 0))
  {
    hide InTableOrder, FirstMismatch;
    var infos: seq<AccountInfo> := [];
    ghost var metas := Metas(accounts);
    ghost var s := splitter.Record();
    for i := 0 to splitter.numRecipients
      invariant i <= 10 && 1 + i <= |accounts| && infos == accounts[1..1 + i]
      invariant forall j :: 0 <= j < i ==> MatchesAt(s, metas, j)
      invariant FirstMismatch(s, metas, i) == FirstMismatch(s, metas, 0)
    {
      if !MatchesAt(s, metas, i) {
        StopsAt(s, metas, i);
      } else {
        GoesOnAt(s, metas, i);
      }
      if 1 + i >= |accounts| {
        return Err(RecipientCountMismatch);
      }
      if i >= splitter.recipients.Length {
        return Err(Aborted);
      }
      var info := accounts[1 + i];
      if info.cell.key != splitter.recipients[i].address {
        return Err(RecipientAddressMismatch);
      }
      infos := infos + [info];
    }
    AllMatch(s, metas);
    return Ok(infos);
  }

  /** `(amount as u128 * share as u128 / 10000) as u64` */
  function Portion(amount: u64, share: u16): u64 {
    (amount * share / 10000) % U64_LIMIT
  }

  /** Debit, then credit: the two cells may be one. */
  method MoveLamports(
    from: AccountCell, to: AccountCell, amount: u64,
    ghost accounts: seq<AccountInfo>, ghost log: EventLog, ghost w: World)
    returns (r: Result<Unit>)
    requires Shared(accounts) && Mirrors(accounts, log, w) && from in Cells(accounts) && to in Cells(accounts)
    modifies from`lamports, to`lamports
    ensures match Move(w.lamports, from.key, to.key, amount)
            case None => r == Err(Aborted)
            case Some(lamports) => r.Ok? && Mirrors(accounts, log, w.(lamports := lamports))
  {
    if from.lamports < amount {
      return Err(Aborted);
    }
    from.lamports := from.lamports - amount;
    if to.lamports + amount >= U64_LIMIT {
      return Err(Aborted);
    }
    to.lamports := to.lamports + amount;
    ghost var after := w.(lamports := Move(w.lamports, from.key, to.key, amount).value);
    forall i | 0 <= i < |accounts|
      ensures CellMirrors(accounts[i].cell, after)
    {
      SameKeySameCell(accounts, accounts[i].cell, from);
      SameKeySameCell(accounts, accounts[i].cell, to);
    }
    return Ok(Unit);
  }

  /** Logging shows up in the mirrored world's log and nowhere else. */
  method LogPayment(
    log: EventLog, splitter: Key, recipient: Key, amount: u64, isToken: bool,
    ghost accounts: seq<AccountInfo>, ghost w: World)
    requires Mirrors(accounts, log, w)
    modifies log
    ensures Mirrors(accounts, log, w.(log := w.log + [EncodeEvent(Event(splitter, recipient, amount, isToken))]))
  {
    EmitDistribution(log, splitter, recipient, amount, isToken);
  }

  ghost function Names(ps: seq<Payment>): (ks: seq<Key>)
    ensures |ks| == |ps| && forall i :: 0 <= i < |ps| ==> ks[i] == ps[i].to
  {
    seq(|ps|, i requires 0 <= i < |ps| => ps[i].to)
  }

  lemma EventsUnfold(splitter: Key, names: seq<Key>, ps: seq<Payment>, isToken: bool)
    requires |names| == |ps| && ps != []
    ensures Events(splitter, names, ps, isToken)
            == (if ps[0].units == 0 then [] else [EncodeEvent(Event(splitter, names[0], ps[0].units, isToken))])
               + Events(splitter, names[1..], ps[1..], isToken)
  {
    hide EncodeEvent;
  }

  lemma EventsStep(splitter: Key, names: seq<Key>, ps: seq<Payment>, isToken: bool, sofar: seq<seq<byte>>)
    requires |names| == |ps| && ps != []
    ensures var rest := Events(splitter, names[1..], ps[1..], isToken);
            sofar + Events(splitter, names, ps, isToken)
            == if ps[0].units == 0 then sofar + rest
               else sofar + [EncodeEvent(Event(splitter, names[0], ps[0].units, isToken))] + rest
  {
    hide EncodeEvent, Events;
    EventsUnfold(splitter, names, ps, isToken);
  }

  /**
    The pay-out loop over real cells, any of which may coincide: it is the
    ledger's `Pay`, payment by payment, and logs each nonzero one.
   */
  method PayLamports(
    splitter: SplitterState, splitterCell: AccountCell, infos: seq<AccountInfo>, distributable: u64, log: EventLog,
    ghost accounts: seq<AccountInfo>, ghost w: World, ghost ps: seq<Payment>)
    returns (r: Result<Unit>)
    requires splitter.Valid() && Shared(accounts) && Mirrors(accounts, log, w)
    requires |infos| == splitter.numRecipients <= 10 && splitterCell in Cells(accounts)
    requires forall i :: 0 <= i < |infos| ==> infos[i].cell in Cells(accounts)
    requires |ps| == |infos| && forall i :: 0 <= i < |ps| ==>
               ps[i] == Entry(infos[i].cell.key, Portion(distributable, splitter.Record().recipients[i].share))
    modifies Cells(accounts)`lamports, log
    ensures match Pay(w.lamports, splitterCell.key, ps)
            case None => r == Err(Aborted)
            case Some(lamports) =>
              if Sum(ps) >= U64_LIMIT then r == Err(Aborted)
              else r.Ok? && Mirrors(accounts, log,
                     w.(lamports := lamports, log := w.log + Events(splitterCell.key, Names(ps), ps, false)))
  {
    hide EncodeEvent, Portion, Shared, CellMirrors, Events, Mirrors, Move;
    ghost var names := Names(ps);
    ghost var k := splitterCell.key;
    ghost var now := w;
    ghost var rest, restNames := ps, names;
    var totalSent := 0;
    for i := 0 to splitter.numRecipients
      invariant Mirrors(accounts, log, now) && now == w.(lamports := now.lamports, log := now.log)
      invariant rest == ps[i..] && restNames == names[i..]
      invariant Pay(now.lamports, k, rest) == Pay(w.lamports, k, ps)
      invariant now.log + Events(k, restNames, rest, false) == w.log + Events(k, names, ps, false)
      invariant 0 <= totalSent < U64_LIMIT && totalSent + Sum(rest) == Sum(ps)
    {
      var amount := Portion(distributable, splitter.recipients[i].share);
      assert rest[0] == Entry(infos[i].cell.key, amount) && restNames[0] == infos[i].cell.key;
      EventsStep(k, restNames, rest, false, now.log);
      if amount > 0 {
        ghost var moved := Move(now.lamports, k, infos[i].cell.key, amount);
        var _ :- MoveLamports(splitterCell, infos[i].cell, amount, accounts, log, now);
        now := now.(lamports := moved.value);
        LogPayment(log, splitterCell.key, infos[i].cell.key, amount, false, accounts, now);
        now := now.(log := now.log + [EncodeEvent(Event(k, infos[i].cell.key, amount, false))]);
        if totalSent + amount >= U64_LIMIT {
          return Err(Aborted);
        }
        totalSent := totalSent + amount;
      }
      rest, restNames := rest[1..], restNames[1..];
    }
    EventsEnd(k, restNames, rest, now.log);
    return Ok(Unit);
  }

  lemma EventsEnd(splitter: Key, names: seq<Key>, ps: seq<Payment>, sofar: seq<seq<byte>>)
    requires names == [] && ps == []
    ensures sofar + Events(splitter, names, ps, false) == sofar
    ensures sofar + Events(splitter, names, ps, true) == sofar
  {
  }

  method CheckSolAccounts(env: Env, accounts: seq<AccountInfo>, ghost log: EventLog, ghost w: World)
    returns (r: Result<(SplitterState, seq<AccountInfo>)>)
    requires Mirrors(accounts, log, w)
    ensures match SolGuards(env, w, Metas(accounts))
            case Err(e) => r == Err(e)
            case Ok(s) => r.Ok? && r.value.0.Valid() && r.value.0.Record() == s && InTableOrder(s, Metas(accounts))
                          && fresh(r.value.0) && fresh(r.value.0.recipients) && fresh(r.value.0.name)
                          && r.value.1 == accounts[1..1 + s.numRecipients]
  {
    hide LoadSplitter, CellMirrors, Bal, FirstMismatch, InTableOrder;
    MirrorsAll(accounts, log, w);
    if |accounts| < 1 {
      return Err(NotEnoughAccountKeys);
    }
    var splitter :- LoadState(accounts[0].cell, w);
    if splitter.numRecipients == 0 {
      return Err(NoRecipients);
    }
    if accounts[0].cell.lamports <= env.splitterRent {
      return Err(NothingToDistribute);
    }
    var infos :- CollectRecipients(splitter, accounts);
    return Ok((splitter, infos));
  }

  method ProcessDistributeSol(env: Env, accounts: seq<AccountInfo>, log: EventLog, ghost w: World)
    returns (r: Result<Unit>)
    requires Shared(accounts) && Mirrors(accounts, log, w)
    modifies Cells(accounts), log
    ensures Simulates(accounts, log, r, HandleDistributeSol(env, w, Metas(accounts)))
  {
    hide Pay, Events, Sum, SolPayments, Portion, SolGuards, Shared, CellMirrors, Bal;
    MirrorsAll(accounts, log, w);
    var checked :- CheckSolAccounts(env, accounts, log, w);
    var splitter, infos := checked.0, checked.1;
    var distributable := accounts[0].cell.lamports - env.splitterRent;
    ghost var s := splitter.Record();
    SolPortions(env, w, accounts[0].cell.key, s);
    r := PayLamports(splitter, accounts[0].cell, infos, distributable, log, accounts, w,
                     SolPayments(env, w, accounts[0].cell.key, s));
  }

  lemma SolPortions(env: Env, w: World, k: Key, s: Splitter)
    requires Bal(w.lamports, k) >= env.splitterRent
    ensures var ps := SolPayments(env, w, k, s);
            && |ps| == |s.Active()| && Names(ps) == Addresses(s.Active())
            && forall i :: 0 <= i < |ps| ==>
                 ps[i] == Entry(s.Active()[i].address, Portion(Bal(w.lamports, k) - env.splitterRent, s.Active()[i].share))
  {
    var ps := SolPayments(env, w, k, s);
    forall i | 0 <= i < |ps|
      ensures ps[i] == Entry(s.Active()[i].address, Portion(Bal(w.lamports, k) - env.splitterRent, s.Active()[i].share))
    {
      assert Weights(s.Active())[i] == Entry(s.Active()[i].address, s.Active()[i].share);
    }
    assert Names(ps) == Addresses(s.Active());
  }

  // ------------------------------------------------------------------ tokens

  /** A token program's plain transfer; from an account to itself it changes nothing. */
  method MoveTokens(
    from: AccountCell, to: AccountCell, amount: u64,
    ghost accounts: seq<AccountInfo>, ghost log: EventLog, ghost w: World)
    returns (r: Result<Unit>)
    requires Shared(accounts) && Mirrors(accounts, log, w) && from in Cells(accounts) && to in Cells(accounts)
    modifies from`amount, to`amount
    ensures match Move(w.amounts, from.key, to.key, amount)
            case None => r == Err(Aborted)
            case Some(amounts) => r.Ok? && Mirrors(accounts, log, w.(amounts := amounts))
  {
    if from.amount < amount {
      return Err(Aborted);
    }
    from.amount := from.amount - amount;
    if to.amount + amount >= U64_LIMIT {
      return Err(Aborted);
    }
    to.amount := to.amount + amount;
    ghost var after := w.(amounts := Move(w.amounts, from.key, to.key, amount).value);
    forall i | 0 <= i < |accounts|
      ensures CellMirrors(accounts[i].cell, after)
    {
      SameKeySameCell(accounts, accounts[i].cell, from);
      SameKeySameCell(accounts, accounts[i].cell, to);
    }
    return Ok(Unit);
  }

  /** `transfer_checked` signed with the seeds stored in the splitter. */
  method TransferChecked(
    env: Env, splitter: SplitterState, authority: Key, program: Key,
    from: AccountCell, mint: AccountCell, to: AccountCell, amount: u64,
    ghost accounts: seq<AccountInfo>, ghost log: EventLog, ghost w: World)
    returns (r: Result<Unit>)
    requires splitter.Valid() && Shared(accounts) && Mirrors(accounts, log, w)
    requires from in Cells(accounts) && mint in Cells(accounts) && to in Cells(accounts)
    modifies from`amount, to`amount
    ensures match Move(w.amounts, from.key, to.key, amount)
            case None => r == Err(Aborted)
            case Some(amounts) =>
              if Transferable(env, w, authority, splitter.Record(), mint.key, program, to.key)
              then r.Ok? && Mirrors(accounts, log, w.(amounts := amounts))
              else r == Err(Aborted)
  {
    hide Move;
    assert CellMirrors(mint, w) && CellMirrors(to, w);
    if env.derive(splitter.creator, splitter.nonce, splitter.bump) != authority || mint.token != Some(Mint(program))
       || to.token.None? || !to.token.value.Holding? || to.token.value.program != program || to.token.value.mint != mint.key {
      return Err(Aborted);
    }
    r := MoveTokens(from, to, amount, accounts, log, w);
  }

  /** The token pay-out loop: payment i goes to the i-th account supplied. */
  method PayTokens(
    env: Env, splitter: SplitterState, authority: Key, program: Key, source: AccountCell, mint: AccountCell,
    infos: seq<AccountInfo>, balance: u64, log: EventLog,
    ghost accounts: seq<AccountInfo>, ghost w: World, ghost ps: seq<Payment>, ghost names: seq<Key>)
    returns (r: Result<Unit>)
    requires splitter.Valid() && Shared(accounts) && Mirrors(accounts, log, w)
    requires |infos| == splitter.numRecipients && source in Cells(accounts) && mint in Cells(accounts)
    requires forall i :: 0 <= i < |infos| ==> infos[i].cell in Cells(accounts)
    requires |ps| == |names| == if splitter.numRecipients <= 10 then splitter.numRecipients else 10
    requires forall i :: 0 <= i < |ps| ==>
               ps[i] == Entry(infos[i].cell.key, Portion(balance, splitter.Record().recipients[i].share))
    requires forall i :: 0 <= i < |ps| ==> names[i] == splitter.Record().recipients[i].address
    modifies Cells(accounts)`amount, log
    ensures match Pay(w.amounts, source.key, ps)
            case None => r == Err(Aborted)
            case Some(amounts) =>
              if splitter.numRecipients <= 10 && Sum(ps) < U64_LIMIT
                 && AllTransferable(env, w, authority, splitter.Record(), mint.key, program, ps)
              then r.Ok? && Mirrors(accounts, log,
                     w.(amounts := amounts, log := w.log + Events(authority, names, ps, true)))
              else r == Err(Aborted)
  {
    hide EncodeEvent, Portion, Shared, CellMirrors, Events, Mirrors, Move, Transferable;
    ghost var s := splitter.Record();
    ghost var now := w;
    ghost var rest, restNames := ps, names;
    var totalSent := 0;
    for i := 0 to splitter.numRecipients
      invariant i <= 10
      invariant Mirrors(accounts, log, now) && now == w.(amounts := now.amounts, log := now.log)
      invariant rest == ps[i..] && restNames == names[i..]
      invariant Pay(now.amounts, source.key, rest) == Pay(w.amounts, source.key, ps)
      invariant forall n :: 0 <= n < i && ps[n].units > 0 ==> Transferable(env, w, authority, s, mint.key, program, ps[n].to)
      invariant now.log + Events(authority, restNames, rest, true) == w.log + Events(authority, names, ps, true)
      invariant 0 <= totalSent < U64_LIMIT && totalSent + Sum(rest) == Sum(ps)
    {
      if i >= splitter.recipients.Length {
        return Err(Aborted);
      }
      var recipient := splitter.recipients[i];
      var amount := Portion(balance, recipient.share);
      assert rest[0] == ps[i] == Entry(infos[i].cell.key, amount) && restNames[0] == recipient.address;
      EventsStep(authority, restNames, rest, true, now.log);
      if amount > 0 {
        ghost var moved := Move(now.amounts, source.key, infos[i].cell.key, amount);
        SameTokens(env, w, now, authority, s, mint.key, program, infos[i].cell.key);
        var _ :- TransferChecked(env, splitter, authority, program, source, mint, infos[i].cell, amount, accounts, log, now);
        now := now.(amounts := moved.value);
        LogPayment(log, authority, recipient.address, amount, true, accounts, now);
        now := now.(log := now.log + [EncodeEvent(Event(authority, recipient.address, amount, true))]);
        if totalSent + amount >= U64_LIMIT {
          return Err(Aborted);
        }
        totalSent := totalSent + amount;
      }
      rest, restNames := rest[1..], restNames[1..];
    }
    EventsEnd(authority, restNames, rest, now.log);
    return Ok(Unit);
  }

  lemma SameTokens(env: Env, w: World, now: World, k: Key, s: Splitter, mint: Key, program: Key, to: Key)
    requires now.tokens == w.tokens
    ensures Transferable(env, now, k, s, mint, program, to) <==> Transferable(env, w, k, s, mint, program, to)
  {
  }

  /** As many accounts as there are recipients, whoever they belong to. */
  method CollectTokenAccounts(accounts: seq<AccountInfo>, num: nat) returns (r: Result<seq<AccountInfo>>)
    requires |accounts| >= 4
    ensures r == if |accounts| < 4 + num then Err(RecipientCountMismatch) else Ok(accounts[4..4 + num])
  {
    var infos: seq<AccountInfo> := [];
    for i := 0 to num
      invariant 4 + i <= |accounts| && infos == accounts[4..4 + i]
    {
      if 4 + i >= |accounts| {
        return Err(RecipientCountMismatch);
      }
      infos := infos + [accounts[4 + i]];
    }
    return Ok(infos);
  }

  method CheckTokenAccounts(env: Env, accounts: seq<AccountInfo>, ghost log: EventLog, ghost w: World)
    returns (r: Result<(SplitterState, seq<AccountInfo>)>)
    requires Mirrors(accounts, log, w)
    ensures match TokenGuards(env, w, Metas(accounts))
            case Err(e) => r == Err(e)
            case Ok(s) => r.Ok? && r.value.0.Valid() && r.value.0.Record() == s
                          && fresh(r.value.0) && fresh(r.value.0.recipients) && fresh(r.value.0.name)
                          && |accounts| >= 4 + s.numRecipients && r.value.1 == accounts[4..4 + s.numRecipients]
  {
    hide LoadSplitter, CellMirrors, Bal, TokenOf;
    MirrorsAll(accounts, log, w);
    if |accounts| < 4 {
      return Err(NotEnoughAccountKeys);
    }
    var splitterCell, mint, source, program := accounts[0].cell, accounts[1].cell, accounts[2].cell, accounts[3].cell.key;
    if !env.IsTokenProgram(program) {
      return Err(InvalidTokenProgram);
    }
    var splitter :- LoadState(splitterCell, w);
    if splitter.numRecipients == 0 {
      return Err(NoRecipients);
    }
    if source.token.None? || source.token.value.program != program {
      return Err(InvalidTokenAccountOwner);
    }
    if !source.token.value.Holding? {
      return Err(InvalidAccountData);
    }
    if source.token.value.owner != splitterCell.key {
      return Err(InvalidTokenAccountOwner);
    }
    if source.token.value.mint != mint.key {
      return Err(InvalidTokenAccountMint);
    }
    if source.amount == 0 {
      return Err(NothingToDistribute);
    }
    if mint.token.None? || !mint.token.value.Mint? {
      return Err(InvalidAccountData);
    }
    var infos :- CollectTokenAccounts(accounts, splitter.numRecipients);
    return Ok((splitter, infos));
  }

  method ProcessDistributeToken(env: Env, accounts: seq<AccountInfo>, log: EventLog, ghost w: World)
    returns (r: Result<Unit>)
    requires Shared(accounts) && Mirrors(accounts, log, w)
    modifies Cells(accounts), log
    ensures Simulates(accounts, log, r, HandleDistributeTokens(env, w, Metas(accounts)))
  {
    hide Pay, Events, Sum, AllTransferable, TokenPayments, Portion, LoadSplitter, TokenGuards, Shared, CellMirrors, Bal;
    MirrorsAll(accounts, log, w);
    var checked :- CheckTokenAccounts(env, accounts, log, w);
    var splitter, infos := checked.0, checked.1;
    ghost var s := splitter.Record();
    ghost var dests := Metas(accounts)[4..];
    TokenPortions(w, accounts[2].cell.key, s, dests);
    r := PayTokens(env, splitter, accounts[0].cell.key, accounts[3].cell.key, accounts[2].cell, accounts[1].cell,
                   infos, accounts[2].cell.amount, log,
                   accounts, w, TokenPayments(w, accounts[2].cell.key, s, dests), Addresses(s.Active()));
  }

  lemma TokenPortions(w: World, source: Key, s: Splitter, dests: seq<Meta>)
    requires |dests| >= |s.Active()|
    ensures var ps := TokenPayments(w, source, s, dests);
            forall i :: 0 <= i < |ps| ==>
              ps[i] == Entry(dests[i].key, Portion(Bal(w.amounts, source), s.Active()[i].share))
  {
  }
}
