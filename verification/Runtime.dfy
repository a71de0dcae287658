/**
  Accounts as the runtime hands them to a handler: shared mutable cells. A
  handler is compared with its function on worlds by saying that the cells
  mirror a world before and mirror the resulting world after.
 */
module Runtime {
  import opened Base
  import opened Ledgers
  import opened Borsh
  import opened Worlds
  import opened Buffers

  /** One account. `token` and `amount` are what the token programs keep in a foreign account's data. */
  class AccountCell {
    const key: Key
    var lamports: u64
    var data: seq<byte>
    var token: Option<TokenView>
    var amount: u64

    constructor (key: Key, lamports: u64, data: seq<byte>, token: Option<TokenView>, amount: u64)
      ensures this.key == key && this.lamports == lamports && this.data == data
      ensures this.token == token && this.amount == amount
    {
      this.key, this.lamports, this.data, this.token, this.amount := key, lamports, data, token, amount;
    }
  }

  datatype AccountInfo = AccountInfo(cell: AccountCell, isSigner: bool, isWritable: bool)

  class EventLog {
    var records: seq<seq<byte>>
  }

  function Metas(accounts: seq<AccountInfo>): (metas: seq<Meta>)
    ensures |metas| == |accounts|
    ensures forall i :: 0 <= i < |metas| ==>
              metas[i] == Meta(accounts[i].cell.key, accounts[i].isSigner, accounts[i].isWritable)
  {
    seq(|accounts|, i requires 0 <= i < |accounts| =>
      Meta(accounts[i].cell.key, accounts[i].isSigner, accounts[i].isWritable))
  }

  ghost function Cells(accounts: seq<AccountInfo>): set<AccountCell> {
    set i | 0 <= i < |accounts| :: accounts[i].cell
  }

  /** An account passed twice is the same cell twice. */
  ghost predicate Shared(accounts: seq<AccountInfo>) {
    forall i, j :: 0 <= i < |accounts| && 0 <= j < |accounts| && accounts[i].cell.key == accounts[j].cell.key ==>
                     accounts[i].cell == accounts[j].cell
  }

  ghost predicate CellMirrors(cell: AccountCell, w: World)
    reads cell
  {
    && cell.lamports == Bal(w.lamports, cell.key)
    && cell.data == Data(w, cell.key)
    && cell.token == TokenOf(w, cell.key)
    && cell.amount == Bal(w.amounts, cell.key)
  }

  ghost predicate Mirrors(accounts: seq<AccountInfo>, log: EventLog, w: World)
    reads Cells(accounts), log
  {
    && log.records == w.log
    && forall i :: 0 <= i < |accounts| ==> CellMirrors(accounts[i].cell, w)
  }

  /** The handler's outcome is the function's: same error, or success in the resulting world. */
  ghost predicate Simulates(accounts: seq<AccountInfo>, log: EventLog, r: Result<Unit>, spec: Result<World>)
    reads Cells(accounts), log
  {
    match spec
    case Ok(after) => r.Ok? && Mirrors(accounts, log, after)
    case Err(e) => r == Err(e)
  }

  lemma SameKeySameCell(accounts: seq<AccountInfo>, c: AccountCell, d: AccountCell)
    requires Shared(accounts) && c in Cells(accounts) && d in Cells(accounts)
    ensures c.key == d.key ==> c == d
  {
  }

  /** Fills the 81-byte record segment by segment and logs it. */
  method EmitDistribution(log: EventLog, splitter: Key, recipient: Key, amount: u64, isToken: bool)
    modifies log
    ensures log.records == old(log.records) + [EncodeEvent(Event(splitter, recipient, amount, isToken))]
  {
    var data := new byte[81](_ => 0);
    CopyInto(data, 0, DISTRIBUTION_DISCRIMINATOR);
    CopyInto(data, 8, splitter.bytes);
    CopyInto(data, 40, recipient.bytes);
    CopyInto(data, 72, LE(amount, 8));
    ghost var front := data[..80];
    data[80] := if isToken then 1 else 0;
    assert data[..] == front + [data[80]];
    assert data[..] == EncodeEvent(Event(splitter, recipient, amount, isToken));
    log.records := log.records + [data[..]];
  }

  /** `splitter.serialize(&mut &mut data[..])`. */
  method WriteData(cell: AccountCell, b: seq<byte>) returns (r: Result<Unit>)
    modifies cell`data
    ensures match WriteInto(old(cell.data), b)
            case Ok(d) => r.Ok? && cell.data == d
            case Err(e) => r == Err(e) && cell.data == old(cell.data)
  {
    if |cell.data| < |b| {
      return Err(BufferTooSmall);
    }
    cell.data := b + cell.data[|b|..];
    return Ok(Unit);
  }

  /** The system program's `create_account`, as a call on cells. */
  method CreateAccountCpi(
    payer: AccountCell, target: AccountCell, rent: Rent, size: nat,
    ghost accounts: seq<AccountInfo>, ghost log: EventLog, ghost w: World)
    returns (r: Result<Unit>)
    requires Shared(accounts) && Mirrors(accounts, log, w)
    requires payer in Cells(accounts) && target in Cells(accounts)
    modifies payer`lamports, target`lamports, target`data
    ensures Simulates(accounts, log, r, CreateAccount(w, payer.key, target.key, rent, size))
  {
    if target.lamports > 0 || target.data != [] || target.token.Some? || payer.data != [] || payer.token.Some?
       || payer.lamports < rent {
      return Err(Aborted);
    }
    payer.lamports := payer.lamports - rent;
    target.lamports := target.lamports + rent;
    target.data := Zeros(size);
    ghost var after := CreateAccount(w, payer.key, target.key, rent, size).value;
    forall i | 0 <= i < |accounts|
      ensures CellMirrors(accounts[i].cell, after)
    {
      SameKeySameCell(accounts, accounts[i].cell, payer);
      SameKeySameCell(accounts, accounts[i].cell, target);
    }
    return Ok(Unit);
  }
}
