/** The handlers that create a splitter or rewrite its record, as they run on account cells. */
module Handlers {
  import opened Base
  import opened Ledgers
  import opened Records
  import opened Borsh
  import opened Worlds
  import opened Objects
  import opened Runtime

  /** Deserialises a splitter and checks its discriminator. */
  method LoadState(cell: AccountCell, ghost w: World) returns (r: Result<SplitterState>)
    requires CellMirrors(cell, w)
    ensures match LoadSplitter(w, cell.key)
            case Err(e) => r == Err(e)
            case Ok(s) => r.Ok? && fresh(r.value) && r.value.Valid() && fresh(r.value.recipients) && fresh(r.value.name)
                          && r.value.Record() == s && |Data(w, cell.key)| == SPLITTER_LEN
  {
    var decoded := DecodeSplitter(cell.data);
    if decoded.None? || decoded.value.discriminator != SPLITTER_DISCRIMINATOR {
      return Err(NotInitialized);
    }
    var state := new SplitterState.FromRecord(decoded.value);
    return Ok(state);
  }

  /** Serialising a splitter back into the buffer it was read from always fits. */
  method SaveState(
    splitter: SplitterState, cell: AccountCell,
    ghost accounts: seq<AccountInfo>, ghost log: EventLog, ghost w: World)
    returns (r: Result<Unit>)
    requires splitter.Valid() && Shared(accounts) && Mirrors(accounts, log, w)
    requires cell in Cells(accounts) && |Data(w, cell.key)| == SPLITTER_LEN
    modifies cell`data
    ensures r.Ok? && Mirrors(accounts, log, Store(w, cell.key, EncodeSplitter(splitter.Record())))
  {
    ghost var b := EncodeSplitter(splitter.Record());
    hide EncodeSplitter, DecodeSplitter;
    assert b + cell.data[SPLITTER_LEN..] == b;
    r := WriteData(cell, EncodeSplitter(splitter.Record()));
  }

  method ProcessCreateSplitter(
    env: Env, accounts: seq<AccountInfo>, nonce: u64, name: seq<byte>, ghost log: EventLog, ghost w: World)
    returns (r: Result<Unit>)
    requires Shared(accounts) && Mirrors(accounts, log, w)
    modifies Cells(accounts)
    ensures Simulates(accounts, log, r, HandleCreate(env, w, Metas(accounts), nonce, name))
  {
    hide EncodeSplitter, DecodeSplitter, NewSplitter, Zeros;
    if |accounts| < 3 {
      return Err(NotEnoughAccountKeys);
    }
    var splitterCell, creator := accounts[0].cell, accounts[1].cell;
    if !accounts[1].isSigner {
      return Err(MissingRequiredSigner);
    }
    var bump := env.findBump(creator.key, nonce);
    if splitterCell.key != env.derive(creator.key, nonce, bump) {
      return Err(InvalidPDA);
    }
    if |splitterCell.data| > 0 {
      return Err(AlreadyInitialized);
    }
    if |name| > MAX_NAME_LEN {
      return Err(NameTooLong);
    }
    ghost var created := CreateAccount(w, creator.key, splitterCell.key, env.splitterRent, SPLITTER_LEN);
    r := CreateAccountCpi(creator, splitterCell, env.splitterRent, SPLITTER_LEN, accounts, log, w);
    if r.Err? {
      return;
    }
    var splitter := new SplitterState.New(creator.key, nonce, bump, name);
    r := SaveState(splitter, splitterCell, accounts, log, created.value);
  }

  /** The signer check and admin check shared by the admin's instructions. */
  method CheckAuthority(splitter: SplitterState, signer: Key) returns (r: Result<Unit>)
    requires splitter.Valid()
    ensures r == CheckAdmin(splitter.Record(), signer)
  {
    if splitter.admin == DEFAULT_KEY {
      return Err(AdminRevoked);
    }
    if signer != splitter.admin {
      return Err(InvalidAuthority);
    }
    return Ok(Unit);
  }

  method ProcessSetAdmin(accounts: seq<AccountInfo>, newAdmin: Key, ghost log: EventLog, ghost w: World)
    returns (r: Result<Unit>)
    requires Shared(accounts) && Mirrors(accounts, log, w)
    modifies Cells(accounts)
    ensures Simulates(accounts, log, r, HandleRewrite(w, Metas(accounts), SetSplitterAdmin(newAdmin)))
  {
    hide EncodeSplitter, LoadSplitter, Shared, CellMirrors, WithName;
    if |accounts| < 2 {
      return Err(NotEnoughAccountKeys);
    }
    if !accounts[1].isSigner {
      return Err(MissingRequiredSigner);
    }
    var splitter :- LoadState(accounts[0].cell, w);
    var _ :- CheckAuthority(splitter, accounts[1].cell.key);
    splitter.admin := newAdmin;
    r := SaveState(splitter, accounts[0].cell, accounts, log, w);
  }

  method ProcessRevokeAdmin(accounts: seq<AccountInfo>, ghost log: EventLog, ghost w: World)
    returns (r: Result<Unit>)
    requires Shared(accounts) && Mirrors(accounts, log, w)
    modifies Cells(accounts)
    ensures Simulates(accounts, log, r, HandleRewrite(w, Metas(accounts), RevokeSplitterAdmin))
  {
    hide EncodeSplitter, LoadSplitter, Shared, CellMirrors, WithName;
    if |accounts| < 2 {
      return Err(NotEnoughAccountKeys);
    }
    if !accounts[1].isSigner {
      return Err(MissingRequiredSigner);
    }
    var splitter :- LoadState(accounts[0].cell, w);
    var _ :- CheckAuthority(splitter, accounts[1].cell.key);
    splitter.admin := DEFAULT_KEY;
    r := SaveState(splitter, accounts[0].cell, accounts, log, w);
  }

  method ProcessSetSplitterName(accounts: seq<AccountInfo>, name: seq<byte>, ghost log: EventLog, ghost w: World)
    returns (r: Result<Unit>)
    requires Shared(accounts) && Mirrors(accounts, log, w)
    modifies Cells(accounts)
    ensures Simulates(accounts, log, r, HandleRewrite(w, Metas(accounts), SetSplitterName(name)))
  {
    hide EncodeSplitter, LoadSplitter, Shared, CellMirrors, WithName;
    if |accounts| < 2 {
      return Err(NotEnoughAccountKeys);
    }
    if !accounts[1].isSigner {
      return Err(MissingRequiredSigner);
    }
    if |name| > MAX_NAME_LEN {
      return Err(NameTooLong);
    }
    var splitter :- LoadState(accounts[0].cell, w);
    var _ :- CheckAuthority(splitter, accounts[1].cell.key);
    splitter.SetName(name);
    r := SaveState(splitter, accounts[0].cell, accounts, log, w);
  }

  lemma FirstMatchIs(rs: seq<Recipient>, a: Key, j: nat)
    requires j < |rs| && rs[j].address == a && forall i :: 0 <= i < j ==> rs[i].address != a
    ensures FirstMatch(rs, a) == j
  {
  }

  lemma NoMatch(rs: seq<Recipient>, a: Key)
    requires forall i :: 0 <= i < |rs| ==> rs[i].address != a
    ensures FirstMatch(rs, a) == |rs|
  {
  }

  /** The scan with its `found` flag: raises the first matching slot's lock, or says why not. */
  method RaiseLock(splitter: SplitterState, signer: Key, minShare: u16) returns (r: Result<Unit>)
    requires splitter.Valid()
    modifies splitter.recipients
    ensures splitter.Valid()
    ensures match Lock(old(splitter.Record()), signer, minShare)
            case Ok(t) => r.Ok? && splitter.Record() == t
            case Err(e) => r == Err(e) && splitter.Record() == old(splitter.Record())
  {
    ghost var s := splitter.Record();
    var found := false;
    var i := 0;
    while i < splitter.numRecipients
      invariant i <= splitter.numRecipients && i <= 10 && !found
      invariant splitter.Record() == s && forall j :: 0 <= j < i ==> s.recipients[j].address != signer
    {
      if i >= splitter.recipients.Length {
        NoMatch(s.Active(), signer);
        return Err(Aborted);
      }
      if splitter.recipients[i].address == signer {
        var currentShare := splitter.recipients[i].share;
        var currentLock := splitter.recipients[i].lockedShare;
        FirstMatchIs(s.Active(), signer, i);
        if minShare > currentShare {
          return Err(LockShareExceedsCurrent);
        }
        if minShare <= currentLock {
          return Err(LockShareNotIncreased);
        }
        splitter.recipients[i] := splitter.recipients[i].(lockedShare := minShare);
        assert splitter.recipients[..] == s.recipients[i := s.recipients[i].(lockedShare := minShare)];
        found := true;
        break;
      }
      i := i + 1;
    }
    if !found {
      NoMatch(s.Active(), signer);
      return Err(NotARecipient);
    }
    return Ok(Unit);
  }

  method ProcessLockRecipient(accounts: seq<AccountInfo>, minShare: u16, ghost log: EventLog, ghost w: World)
    returns (r: Result<Unit>)
    requires Shared(accounts) && Mirrors(accounts, log, w)
    modifies Cells(accounts)
    ensures Simulates(accounts, log, r, HandleRewrite(w, Metas(accounts), LockRecipient(minShare)))
  {
    hide EncodeSplitter, LoadSplitter, Shared, CellMirrors, Lock;
    if |accounts| < 2 {
      return Err(NotEnoughAccountKeys);
    }
    if !accounts[1].isSigner {
      return Err(MissingRequiredSigner);
    }
    var splitter :- LoadState(accounts[0].cell, w);
    var _ :- RaiseLock(splitter, accounts[1].cell.key, minShare);
    r := SaveState(splitter, accounts[0].cell, accounts, log, w);
  }

  /** Every new entry against every current slot of its address. */
  method CheckLocks(splitter: SplitterState, recipients: seq<Share>) returns (r: Result<Unit>)
    requires splitter.Valid() && recipients != []
    ensures var s := splitter.Record();
            r == if s.numRecipients > 10 then
                   (if LockViolated(s.recipients, recipients[0]) then Err(LockedShareViolation) else Err(Aborted))
                 else if exists i :: 0 <= i < |recipients| && LockViolated(s.Active(), recipients[i])
                 then Err(LockedShareViolation) else Ok(Unit)
  {
    ghost var s := splitter.Record();
    for n := 0 to |recipients|
      invariant n > 0 ==> s.numRecipients <= 10
      invariant forall i :: 0 <= i < n ==> !LockViolated(s.Active(), recipients[i])
    {
      var addr, newShare := recipients[n].to, recipients[n].units;
      for i := 0 to splitter.numRecipients
        invariant i <= 10
        invariant forall j :: 0 <= j < i ==>
                    !(s.recipients[j].address == addr && s.recipients[j].lockedShare > 0 && newShare < s.recipients[j].lockedShare)
      {
        if i >= splitter.recipients.Length {
          assert n == 0;
          return Err(Aborted);
        }
        var existing := splitter.recipients[i];
        if existing.address == addr && existing.lockedShare > 0 {
          if newShare < existing.lockedShare {
            assert s.Active()[i] == s.recipients[i] == existing;
            assert LockViolated(s.Active(), recipients[n]);
            return Err(LockedShareViolation);
          }
        }
      }
      assert s.Active() == s.recipients[..s.numRecipients];
    }
    return Ok(Unit);
  }

  /** The lock to carry over: that of the first current slot with this address, or 0. */
  method CarriedLock(splitter: SplitterState, addr: Key) returns (lockedShare: u16)
    requires splitter.Valid() && splitter.numRecipients <= 10
    ensures lockedShare == FirstLock(splitter.Record().Active(), addr)
  {
    ghost var rs := splitter.Record().Active();
    lockedShare := 0;
    var j := 0;
    while j < splitter.numRecipients
      invariant j <= splitter.numRecipients && lockedShare == 0
      invariant forall n :: 0 <= n < j ==> rs[n].address != addr
    {
      if splitter.recipients[j].address == addr {
        lockedShare := splitter.recipients[j].lockedShare;
        FirstMatchIs(rs, addr, j);
        return;
      }
      j := j + 1;
    }
    NoMatch(rs, addr);
  }

  /** The table rebuild: every entry with its address's carried lock, the rest of the table empty. */
  method BuildTable(splitter: SplitterState, recipients: seq<Share>) returns (table: array<Recipient>)
    requires splitter.Valid() && splitter.numRecipients <= 10 && |recipients| <= 10
    ensures fresh(table) && table[..] == PadTable(Rebuild(splitter.Record().Active(), recipients))
  {
    hide FirstLock;
    ghost var target := Rebuild(splitter.Record().Active(), recipients);
    table := new Recipient[10](_ => NO_RECIPIENT);
    for i := 0 to |recipients|
      invariant forall n :: 0 <= n < i ==> table[n] == target[n]
      invariant forall n :: i <= n < 10 ==> table[n] == NO_RECIPIENT
    {
      var lockedShare := CarriedLock(splitter, recipients[i].to);
      table[i] := Recipient(recipients[i].to, recipients[i].units, lockedShare);
    }
    assert table[..] == PadTable(target);
  }

  /** The requested shares must total 10000, none of them zero. */
  method CheckShares(recipients: seq<Share>) returns (r: Result<Unit>)
    ensures r == if Sum(recipients) != 10000 then Err(InvalidShareTotal)
                 else if exists i :: 0 <= i < |recipients| && recipients[i].units == 0 then Err(ZeroShare) else Ok(Unit)
  {
    var total := 0;
    for i := 0 to |recipients|
      invariant total + Sum(recipients[i..]) == Sum(recipients)
    {
      total := total + recipients[i].units;
    }
    if total != TOTAL_SHARES {
      return Err(InvalidShareTotal);
    }
    for i := 0 to |recipients|
      invariant forall n :: 0 <= n < i ==> recipients[n].units != 0
    {
      if recipients[i].units == 0 {
        return Err(ZeroShare);
      }
    }
    return Ok(Unit);
  }

  /** The validation and rebuild of `SetSplitterDistribution` on the record in memory. */
  method Reconfigure(splitter: SplitterState, recipients: seq<Share>) returns (r: Result<Unit>)
    requires splitter.Valid()
    modifies splitter
    ensures splitter.Valid()
    ensures match SetDistribution(old(splitter.Record()), recipients)
            case Ok(t) => r.Ok? && splitter.Record() == t
            case Err(e) => r == Err(e)
  {
    if |recipients| > MAX_RECIPIENTS {
      return Err(TooManyRecipients);
    }
    var _ :- CheckShares(recipients);
    assert recipients != [];
    var _ :- CheckLocks(splitter, recipients);
    var table := BuildTable(splitter, recipients);
    splitter.numRecipients := |recipients|;
    splitter.recipients := table;
    return Ok(Unit);
  }

  method ProcessSetDistribution(accounts: seq<AccountInfo>, recipients: seq<Share>, ghost log: EventLog, ghost w: World)
    returns (r: Result<Unit>)
    requires Shared(accounts) && Mirrors(accounts, log, w)
    modifies Cells(accounts)
    ensures Simulates(accounts, log, r, HandleRewrite(w, Metas(accounts), SetSplitterDistribution(recipients)))
  {
    hide EncodeSplitter, LoadSplitter, Shared, CellMirrors, SetDistribution;
    if |accounts| < 2 {
      return Err(NotEnoughAccountKeys);
    }
    if !accounts[1].isSigner {
      return Err(MissingRequiredSigner);
    }
    var splitter :- LoadState(accounts[0].cell, w);
    var _ :- CheckAuthority(splitter, accounts[1].cell.key);
    var _ :- Reconfigure(splitter, recipients);
    r := SaveState(splitter, accounts[0].cell, accounts, log, w);
  }
}
