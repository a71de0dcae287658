/** The program's entry point on account cells. */
module EntryPoint {
  import opened Base
  import opened Borsh
  import opened Worlds
  import opened Runtime
  import opened Handlers
  import opened Distribution
  import opened Selling

  /** The entry point on cells: decode the instruction, run its handler. */
  method ProcessInstructionData(
    env: Env, accounts: seq<AccountInfo>, input: seq<byte>, cpi: Cpi, log: EventLog, ghost w: World)
    returns (r: Result<Unit>)
    requires Shared(accounts) && Mirrors(accounts, log, w)
    modifies Cells(accounts), log
    ensures match DecodeInstruction(input, env.utf8)
            case None => r == Err(InvalidInstructionData) && Mirrors(accounts, log, w)
            case Some(ix) => Simulates(accounts, log, r, Handle(env, w, ix, Metas(accounts), cpi))
  {
    hide DecodeInstruction, HandleCreate, HandleRewrite, HandleDistributeSol, HandleDistributeTokens;
    hide HandleSetSellConfig, HandleCloseSellConfig, HandleSwap, HandleSnsProxy;
    var decoded := DecodeInstruction(input, env.utf8);
    if decoded.None? {
      return Err(InvalidInstructionData);
    }
    match decoded.value {
      case CreateSplitter(nonce, name) => r := ProcessCreateSplitter(env, accounts, nonce, name, log, w);
      case SetSplitterDistribution(recipients) => r := ProcessSetDistribution(accounts, recipients, log, w);
      case SetSplitterAdmin(newAdmin) => r := ProcessSetAdmin(accounts, newAdmin, log, w);
      case RevokeSplitterAdmin => r := ProcessRevokeAdmin(accounts, log, w);
      case DistributeSOL => r := ProcessDistributeSol(env, accounts, log, w);
      case DistributeToken => r := ProcessDistributeToken(env, accounts, log, w);
      case LockRecipient(minShare) => r := ProcessLockRecipient(accounts, minShare, log, w);
      case SetSplitterName(name) => r := ProcessSetSplitterName(accounts, name, log, w);
      case SetSellConfig(mints, programs) => r := ProcessSetSellConfig(env, accounts, mints, programs, log, w);
      case CloseSellConfig => r := ProcessCloseSellConfig(env, accounts, log, w);
      case SwapToken(_) =>
        var forwarded: seq<Meta>;
        r, forwarded := ProcessSwapToken(env, accounts, cpi, log, w);
      case SnsProxy(_) =>
        var forwarded: seq<Meta>;
        r, forwarded := ProcessSnsProxy(accounts, cpi, log, w);
    }
  }
}
