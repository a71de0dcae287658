/** The invariant over every run, and conservation of lamports. */
module Reach {
  import opened Base
  import opened Ledgers
  import opened Records
  import opened Borsh
  import opened Worlds
  import opened Invariant
  import opened Cranks

  // ------------------------------------------------------------ one step

  lemma SplitterStays(env: Env, w: World, next: World, k: Key)
    requires SplitterOk(env, w, k) && Data(next, k) == Data(w, k) && Bal(next.lamports, k) >= Bal(w.lamports, k)
    ensures SplitterOk(env, next, k) && LoadSplitter(next, k) == LoadSplitter(w, k)
  {
  }

  lemma ConfigStays(env: Env, w: World, next: World, k: Key)
    requires ConfigOk(env, w, k) && Data(next, k) == Data(w, k)
    ensures ConfigOk(env, next, k)
  {
  }

  lemma CreatedIsOk(env: Env, w: World, metas: seq<Meta>, nonce: u64, name: seq<byte>)
    requires HandleCreate(env, w, metas, nonce, name).Ok?
    ensures SplitterOk(env, HandleCreate(env, w, metas, nonce, name).value, metas[0].key)
  {
    hide HandleCreate, EncodeSplitter, DecodeSplitter, NewSplitter;
    CreateFrame(env, w, metas, nonce, name);
    var s := NewSplitter(metas[1].key, nonce, env.findBump(metas[1].key, nonce), name);
    NewIsWellFormed(metas[1].key, nonce, s.bump, name);
    NewIdentity(metas[1].key, nonce, env.findBump(metas[1].key, nonce), name);
    SplitterRoundTrip(s);
  }

  lemma NewIdentity(creator: Key, nonce: u64, bump: byte, name: seq<byte>)
    ensures var s := NewSplitter(creator, nonce, bump, name);
            s.creator == creator && s.admin == creator && s.nonce == nonce && s.bump == bump && NameOf(s) == if |name| <= 64 then name else name[..64]
  {
  }

  lemma RewrittenIsOk(env: Env, w: World, metas: seq<Meta>, ix: Instruction)
    requires Inv(env, w) && Rewrites(ix)
    ensures HandleRewrite(w, metas, ix).Ok? ==>
              && |metas| >= 2 && LoadSplitter(w, metas[0].key).Ok?
              && SplitterOk(env, HandleRewrite(w, metas, ix).value, metas[0].key)
              && LoadSplitter(HandleRewrite(w, metas, ix).value, metas[0].key)
                 == Modify(LoadSplitter(w, metas[0].key).value, ix, metas[1].key)
  {
    hide HandleRewrite, EncodeSplitter, DecodeSplitter, Modify;
    if !HandleRewrite(w, metas, ix).Ok? {
      return;
    }
    RewriteFrame(w, metas, ix);
    LoadedIsOk(env, w, metas[0].key);
    var s := LoadSplitter(w, metas[0].key).value;
    ModifyKeepsWellFormed(s, ix, metas[1].key);
    StoredSplitterLoads(w, metas[0].key, Modify(s, ix, metas[1].key).value);
  }

  lemma HandleKeepsAccount(env: Env, w: World, ix: Instruction, metas: seq<Meta>, cpi: Cpi, x: Key)
    requires Inv(env, w) && CpiAllowed(w, cpi) && Handle(env, w, ix, metas, cpi).Ok?
    requires Owned(Handle(env, w, ix, metas, cpi).value, x)
    ensures var after := Handle(env, w, ix, metas, cpi).value; SplitterOk(env, after, x) || ConfigOk(env, after, x)
  {
    hide HandleCreate, HandleRewrite, HandleSetSellConfig, HandleCloseSellConfig, HandleDistributeSol, HandleDistributeTokens;
    hide HandleSwap, HandleSnsProxy, SplitterOk, ConfigBytes, Zeros;
    var after := Handle(env, w, ix, metas, cpi).value;
    Frame(env, w, ix, metas, cpi, x);
    if WritesTo(ix, metas, x) {
      match ix {
        case CreateSplitter(nonce, name) => CreatedIsOk(env, w, metas, nonce, name);
        case SetSellConfig(mints, programs) =>
          SetSellConfigFrame(env, w, metas, mints, programs);
          assert WrittenFor(env, Data(after, x), x, metas[0].key, mints, programs);
        case CloseSellConfig => CloseSellConfigFrame(env, w, metas);
        case _ => RewrittenIsOk(env, w, metas, ix);
      }
    } else if SplitterOk(env, w, x) {
      if Debits(ix, metas, x) {
        CrankLeavesDust(env, w, metas);
        SplitterPaid(env, w, after, x);
      } else {
        SplitterOwned(env, w, x);
        SplitterStays(env, w, after, x);
      }
    } else {
      ConfigStays(env, w, after, x);
    }
  }

  lemma SplitterOwned(env: Env, w: World, k: Key)
    requires SplitterOk(env, w, k)
    ensures Owned(w, k)
  {
  }

  lemma SplitterPaid(env: Env, w: World, next: World, k: Key)
    requires SplitterOk(env, w, k) && Data(next, k) == Data(w, k) && Bal(next.lamports, k) >= env.splitterRent
    ensures SplitterOk(env, next, k) && LoadSplitter(next, k) == LoadSplitter(w, k)
  {
  }

  lemma NextKeepsInv(env: Env, w: World, step: Step)
    requires Inv(env, w)
    ensures Inv(env, Next(env, w, step))
  {
    hide Handle, SplitterOk, ConfigOk;
    var next := Next(env, w, step);
    if step.Call? && Outcome(env, w, step).Some? {
      forall x: Key
        ensures Owned(next, x) ==> SplitterOk(env, next, x) || ConfigOk(env, next, x)
        ensures x in next.tokens ==> !Owned(next, x)
      {
        Frame(env, w, step.ix, step.metas, step.cpi, x);
        if Owned(next, x) {
          HandleKeepsAccount(env, w, step.ix, step.metas, step.cpi, x);
        }
      }
    } else if step.Outside? && OutsideAllowed(w, step.next) {
      forall x: Key | Owned(next, x)
        ensures SplitterOk(env, next, x) || ConfigOk(env, next, x)
      {
        OutsideKeepsAccount(env, w, next, x);
      }
    }
  }

  lemma OutsideKeepsAccount(env: Env, w: World, next: World, x: Key)
    requires Inv(env, w) && OutsideAllowed(w, next) && Owned(next, x)
    ensures SplitterOk(env, next, x) || ConfigOk(env, next, x)
    ensures SplitterOk(env, w, x) ==> SplitterOk(env, next, x) && LoadSplitter(next, x) == LoadSplitter(w, x)
  {
    hide SplitterOk, ConfigOk;
    assert Owned(w, x) && Data(next, x) == Data(w, x) && Bal(next.lamports, x) >= Bal(w.lamports, x);
    if SplitterOk(env, w, x) {
      SplitterStays(env, w, next, x);
    } else {
      ConfigStays(env, w, next, x);
    }
  }

  // ------------------------------------------------------------- every run

  /** From any world with the invariant, every run keeps it. */
  lemma {:induction false} RunKeepsInv(env: Env, w: World, steps: seq<Step>)
    requires Inv(env, w)
    ensures Inv(env, After(env, w, steps))
    decreases |steps|
  {
    if steps != [] {
      NextKeepsInv(env, w, steps[0]);
      RunKeepsInv(env, Next(env, w, steps[0]), steps[1..]);
    }
  }

  /**
    Whatever happened since before the first splitter was created, every
    splitter that loads is well-formed, rent-exempt, has recipients, and sits
    at the address its stored creator, nonce and bump derive.
   */
  lemma ReachableSplitters(env: Env, genesis: World, steps: seq<Step>, k: Key)
    requires Genesis(genesis)
    requires LoadSplitter(After(env, genesis, steps), k).Ok?
    ensures var w := After(env, genesis, steps);
            var s := LoadSplitter(w, k).value;
            && WellFormed(s)
            && s.numRecipients != 0
            && Bal(w.lamports, k) >= env.splitterRent
            && env.derive(s.creator, s.nonce, s.bump) == k
  {
    hide WellFormed;
    GenesisInv(env, genesis);
    RunKeepsInv(env, genesis, steps);
    LoadedIsOk(env, After(env, genesis, steps), k);
    HasRecipients(LoadSplitter(After(env, genesis, steps), k).value);
  }

  lemma HasRecipients(s: Splitter)
    requires WellFormed(s)
    ensures s.numRecipients != 0
  {
  }

  lemma GenesisInv(env: Env, w: World)
    requires Genesis(w)
    ensures Inv(env, w)
  {
    assert forall k: Key :: !Owned(w, k);
  }

  // ----------------------------------------------------------- conservation

  lemma MoveKeepsTotal(ledger: Ledger, src: Key, dst: Key, amount: nat)
    requires Move(ledger, src, dst, amount).Some?
    ensures Total(Move(ledger, src, dst, amount).value) == Total(ledger)
  {
    var after := Move(ledger, src, dst, amount).value;
    var ks := ledger.Keys + {src, dst};
    assert after.Keys == ks;
    MoveConserves(ledger, src, dst, amount, ks);
    TotalIsSupply(ledger, ks);
  }

  /** Closing moves everything, unless payer and payee are the same account: then it would all vanish. */
  lemma CloseMoves(ledger: Ledger, c: Key, admin: Key)
    requires Bal(ledger, admin) + Bal(ledger, c) < U64_LIMIT
    ensures var after := ledger[admin := Bal(ledger, admin) + Bal(ledger, c)][c := 0];
            Total(after) == Total(ledger) - (if admin == c then Bal(ledger, c) else 0)
  {
    var once := ledger[admin := Bal(ledger, admin) + Bal(ledger, c)];
    var after := once[c := 0];
    var ks := ledger.Keys + {c, admin};
    assert after.Keys == ks;
    SupplyUpdate(ledger, ks, admin, Bal(ledger, admin) + Bal(ledger, c));
    SupplyUpdate(once, ks, c, 0);
    TotalIsSupply(ledger, ks);
  }

  /**
    No handler of this program makes or loses a lamport by itself, with one
    exception, found exactly by the runtime's balance check: closing a funded
    configuration into itself. (Calls into other programs are checked by the
    runtime on their own.)
   */
  lemma HandlersConserve(env: Env, w: World, ix: Instruction, metas: seq<Meta>, cpi: Cpi)
    requires Inv(env, w) && !ix.SwapToken? && !ix.SnsProxy? && Handle(env, w, ix, metas, cpi).Ok?
    ensures Exec(env, w, ix, metas, cpi).Ok? <==>
            !(ix.CloseSellConfig? && metas[2].key == metas[1].key && Bal(w.lamports, metas[1].key) > 0)
  {
    hide HandleCreate, HandleRewrite, HandleSetSellConfig, HandleDistributeSol, HandleDistributeTokens;
    hide HandleCloseSellConfig, EncodeSplitter, NewSplitter, LoadSplitter, LoadSellConfig, CheckAdmin, Modify, Total, Inv, ConfigBytes;
    hide Zeros, Move;
    match ix {
      case CreateSplitter(nonce, name) =>
        CreateFrame(env, w, metas, nonce, name);
        MoveKeepsTotal(w.lamports, metas[1].key, metas[0].key, env.splitterRent);
      case DistributeSOL => CrankConserves(env, w, metas);
      case DistributeToken => TokensFrame(env, w, metas);
      case SetSellConfig(mints, programs) =>
        SetSellConfigFrame(env, w, metas, mints, programs);
        if HandleSetSellConfig(env, w, metas, mints, programs).value.lamports != w.lamports {
          MoveKeepsTotal(w.lamports, metas[3].key, metas[1].key, env.configRent);
        }
      case CloseSellConfig =>
        CloseSellConfigFrame(env, w, metas);
        CloseMoves(w.lamports, metas[1].key, metas[2].key);
      case _ => RewriteFrame(w, metas, ix);
    }
  }

  /**
    `CreateSplitter` goes through exactly when the creator signs and can pay the
    rent, the address is the one its key and the nonce derive, the name fits, and
    nothing is at that address: a single lamport sent there beforehand is enough
    to block it.
   */
  lemma CreateSucceedsExactly(env: Env, w: World, nonce: u64, name: seq<byte>, metas: seq<Meta>, cpi: Cpi)
    requires Inv(env, w) && |metas| >= 3 && CpiAllowed(w, cpi)
    ensures var k, creator := metas[0].key, metas[1].key;
            Outcome(env, w, Call(CreateSplitter(nonce, name), metas, cpi)).Some? <==>
              && metas[1].isSigner
              && k == env.SplitterAddress(creator, nonce)
              && |name| <= 64
              && !Owned(w, k) && k !in w.tokens && Bal(w.lamports, k) == 0
              && !Owned(w, creator) && creator !in w.tokens && Bal(w.lamports, creator) >= env.splitterRent
  {
    hide Inv, Total, EncodeSplitter, NewSplitter, CpiAllowed;
    if HandleCreate(env, w, metas, nonce, name).Ok? {
      HandlersConserve(env, w, CreateSplitter(nonce, name), metas, cpi);
    }
  }

  function TableMetas(k: Key, s: Splitter): (metas: seq<Meta>)
    ensures |metas| == 1 + |s.Active()| && metas[0] == Meta(k, false, true)
    ensures forall i :: 0 <= i < |s.Active()| ==> metas[1 + i] == Meta(s.Active()[i].address, false, true)
  {
    [Meta(k, false, true)] + seq(|s.Active()|, i requires 0 <= i < |s.Active()| => Meta(s.Active()[i].address, false, true))
  }

  /** The crank is permissionless: whenever a live splitter holds anything above rent, a call without any signer pays it out. */
  lemma AnyoneCanCrank(env: Env, w: World, k: Key, cpi: Cpi) returns (metas: seq<Meta>)
    requires Inv(env, w) && LoadSplitter(w, k).Ok? && Distributable(env, w, k) > 0 && Total(w.lamports) < U64_LIMIT
    ensures forall i :: 0 <= i < |metas| ==> !metas[i].isSigner
    ensures metas != [] && metas[0].key == k && Exec(env, w, DistributeSOL, metas, cpi).Ok?
  {
    hide LoadSplitter, HandleDistributeSol, Total;
    var s := LoadSplitter(w, k).value;
    LoadedIsOk(env, w, k);
    metas := TableMetas(k, s);
    forall i | 0 <= i < |metas| ensures !metas[i].isSigner {
      if i > 0 {
        assert metas[1 + (i - 1)] == Meta(s.Active()[i - 1].address, false, true);
      }
    }
    CrankNeverOverflows(env, w, metas);
    CrankConserves(env, w, metas);
  }

  /** Running on bytes and running on instructions are the same thing. */
  lemma BytesRunInstructions(env: Env, w: World, ix: Instruction, metas: seq<Meta>, cpi: Cpi)
    requires Encodable(ix, env.utf8)
    ensures ProcessInstruction(env, w, EncodeInstruction(ix), metas, cpi) == Exec(env, w, ix, metas, cpi)
  {
    hide Exec, EncodeInstruction, DecodeInstruction;
    InstructionRoundTrip(ix, env.utf8);
  }

  lemma OnlyEncodingsRun(env: Env, w: World, input: seq<byte>, metas: seq<Meta>, cpi: Cpi) returns (ix: Instruction)
    requires ProcessInstruction(env, w, input, metas, cpi).Ok?
    ensures Encodable(ix, env.utf8) && input == EncodeInstruction(ix)
    ensures ProcessInstruction(env, w, input, metas, cpi) == Exec(env, w, ix, metas, cpi)
  {
    hide Exec, EncodeInstruction;
    InstructionCanonical(input, env.utf8);
    ix := DecodeInstruction(input, env.utf8).value;
  }
}
