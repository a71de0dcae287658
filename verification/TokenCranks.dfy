/** Token distribution: the exact crank, and whom it reaches. */
module TokenCranks {
  import opened Base
  import opened Ledgers
  import opened Records
  import opened Worlds
  import opened Invariant
  import opened Cranks
  import opened Reach
  import opened Guarantees
  import opened Drift

  // ------------------------------------------------------------ the exact crank

  /** The payments a token crank owes to the accounts supplied, by position. */
  function TokenOwed(w: World, source: Key, s: Splitter, dests: seq<Meta>): (ps: seq<Entry>)
    requires |dests| >= |s.Active()|
    ensures |ps| == |s.Active()|
    ensures forall i :: 0 <= i < |ps| ==> ps[i] == Entry(dests[i].key, ShareOf(Bal(w.amounts, source), s.Active()[i].share))
  {
    Payouts(Bal(w.amounts, source), ByPosition(s, dests))
  }

  function ByPosition(s: Splitter, dests: seq<Meta>): (ws: seq<Entry>)
    requires |dests| >= |s.Active()|
    ensures |ws| == |s.Active()|
    ensures forall i :: 0 <= i < |ws| ==> ws[i] == Entry(dests[i].key, s.Active()[i].share)
  {
    seq(|s.Active()|, i requires 0 <= i < |s.Active()| => Entry(dests[i].key, s.Active()[i].share))
  }

  lemma {:induction false} SumOfUnits(es: seq<Entry>, fs: seq<Entry>)
    requires |es| == |fs| && forall i :: 0 <= i < |es| ==> es[i].units == fs[i].units
    ensures Sum(es) == Sum(fs)
  {
    if es != [] {
      SumOfUnits(es[1..], fs[1..]);
    }
  }

  lemma TokenPaymentsAreOwed(w: World, source: Key, s: Splitter, dests: seq<Meta>)
    requires WellFormed(s) && |dests| >= |s.Active()|
    ensures TokenPayments(w, source, s, dests) == TokenOwed(w, source, s, dests)
    ensures Sum(TokenOwed(w, source, s, dests)) <= Bal(w.amounts, source)
    ensures Bal(w.amounts, source) - Sum(TokenOwed(w, source, s, dests)) <= s.numRecipients - 1
  {
    hide FirstHoldsMax;
    var ws := ByPosition(s, dests);
    SharesBelowTotal(s);
    SumOfUnits(ws, Weights(s.Active()));
    forall i | 0 <= i < |ws| ensures ws[i].units <= 10000 {
      assert ws[i].units == Weights(s.Active())[i].units;
    }
    CastIsLossless(Bal(w.amounts, source), ws);
    DustBound(Bal(w.amounts, source), ws);
    assert ws == seq(|Weights(s.Active())|, i requires 0 <= i < |Weights(s.Active())| =>
                       Entry(dests[i].key, Weights(s.Active())[i].units));
  }

  /** The token accounts of one mint. */
  ghost function OfMint(w: World, mint: Key): set<Key> {
    set k | k in w.tokens && w.tokens[k].Holding? && w.tokens[k].mint == mint
  }

  lemma TokenCrankShape(env: Env, w: World, metas: seq<Meta>)
    ensures HandleDistributeTokens(env, w, metas).Ok? ==> |metas| >= 4 && LoadSplitter(w, metas[0].key).Ok?
    ensures HandleDistributeTokens(env, w, metas).Ok? ==>
            var k, mint, source := metas[0].key, metas[1].key, metas[2].key;
            var s := LoadSplitter(w, k).value;
            var after := HandleDistributeTokens(env, w, metas).value;
            && s.numRecipients <= 10 && |metas| >= 4 + s.numRecipients
            && TokenOf(w, source) == Some(Holding(metas[3].key, mint, k))
            && var ps := TokenPayments(w, source, s, metas[4..]);
               && Pay(w.amounts, source, ps) == Some(after.amounts)
               && after.log == w.log + Events(k, Addresses(s.Active()), ps, true)
               && forall i :: 0 <= i < |ps| && ps[i].units > 0 ==>
                    env.derive(s.creator, s.nonce, s.bump) == k && ps[i].to in OfMint(w, mint)
  {
    hide LoadSplitter, TokenPayments, Events, Pay, Weights, Sum;
    if !HandleDistributeTokens(env, w, metas).Ok? {
      return;
    }
    var k, mint, source, program := metas[0].key, metas[1].key, metas[2].key, metas[3].key;
    var s := LoadSplitter(w, k).value;
    var ps := TokenPayments(w, source, s, metas[4..]);
    forall i | 0 <= i < |ps| && ps[i].units > 0
      ensures env.derive(s.creator, s.nonce, s.bump) == k && ps[i].to in OfMint(w, mint)
    {
      assert Transferable(env, w, k, s, mint, program, ps[i].to);
    }
  }

  /**
    A token crank pays the i-th account supplied the floor of its share, all at
    once even if accounts repeat or one is the source; keeps the mint's supply;
    leaves at most n - 1 units when the source is not among them; touches no
    other mint; and what it logs names the table's addresses.
   */
  lemma TokenCrank(env: Env, w: World, metas: seq<Meta>)
    requires Inv(env, w)
    ensures HandleDistributeTokens(env, w, metas).Ok? ==> |metas| >= 4 && LoadSplitter(w, metas[0].key).Ok?
    ensures HandleDistributeTokens(env, w, metas).Ok? ==>
            var k, mint, source := metas[0].key, metas[1].key, metas[2].key;
            var s := LoadSplitter(w, k).value;
            var after := HandleDistributeTokens(env, w, metas).value;
            && |s.Active()| == s.numRecipients && |metas| >= 4 + |s.Active()|
            && var owed := TokenOwed(w, source, s, metas[4..]);
               && PaidAtOnce(w.amounts, after.amounts, source, owed)
               && Supply(after.amounts, OfMint(w, mint)) == Supply(w.amounts, OfMint(w, mint))
               && (forall x: Key :: x !in OfMint(w, mint) ==> Bal(after.amounts, x) == Bal(w.amounts, x))
               && ((forall i :: 4 <= i < 4 + |s.Active()| ==> metas[i].key != source) ==>
                     Bal(after.amounts, source) <= |s.Active()| - 1)
               && w.log <= after.log
               && Reported(after.log[|w.log|..]) == Nonzero(Addresses(s.Active()), owed)
               && EventsOf(after.log[|w.log|..], k, true)
  {
    hide LoadSplitter, TokenPayments, Events, Pay, Weights, HandleDistributeTokens, WellFormed, PaidAtOnce, OfMint, Supply;
    if !HandleDistributeTokens(env, w, metas).Ok? {
      return;
    }
    TokenCrankShape(env, w, metas);
    LoadedIsOk(env, w, metas[0].key);
    var mint, source := metas[1].key, metas[2].key;
    var s := LoadSplitter(w, metas[0].key).value;
    var ps := TokenPayments(w, source, s, metas[4..]);
    var after := HandleDistributeTokens(env, w, metas).value;
    TokenPaymentsAreOwed(w, source, s, metas[4..]);
    PayIsSimultaneous(w.amounts, source, ps);
    EventsReportPayments(metas[0].key, Addresses(s.Active()), ps, true);
    EventsAreOf(metas[0].key, Addresses(s.Active()), ps, true);
    assert after.log[|w.log|..] == Events(metas[0].key, Addresses(s.Active()), ps, true);
    SourceOfMint(w, source, mint);
    PayConserves(w.amounts, source, ps, OfMint(w, mint));
    forall x: Key | x !in OfMint(w, mint)
      ensures Bal(after.amounts, x) == Bal(w.amounts, x)
    {
      UnpaidUnchanged(w.amounts, after.amounts, source, ps, x);
    }
    if forall i :: 4 <= i < 4 + |s.Active()| ==> metas[i].key != source {
      assert forall i :: 0 <= i < |ps| ==> ps[i].to == metas[4..][i].key == metas[4 + i].key;
      NoCreditWhenAbsent(ps, source);
      SourceLeft(w.amounts, after.amounts, source, ps);
    }
  }

  /**
    On a live splitter a token crank that passed its checks goes through exactly
    when every account that is to get something is a token account of the mint
    and no balance would overflow; the stored seeds always sign.
   */
  lemma TokenCrankAccepted(env: Env, w: World, metas: seq<Meta>)
    requires Inv(env, w) && TokenGuards(env, w, metas).Ok?
    ensures |metas| >= 4
    ensures var s := TokenGuards(env, w, metas).value;
            var mint, source, program := metas[1].key, metas[2].key, metas[3].key;
            && |metas[4..]| >= |s.Active()|
            && var owed := TokenOwed(w, source, s, metas[4..]);
               HandleDistributeTokens(env, w, metas).Ok? <==>
                 && (forall i :: 0 <= i < |owed| && owed[i].units > 0 ==>
                       TokenOf(w, mint) == Some(Mint(program)) && Receives(w, owed[i].to, program, mint))
                 && Fits(w.amounts, source, owed)
  {
    hide TokenGuards, Pay, Fits, Events, TokenOwed, TokenPayments, LoadSplitter, WellFormed, PaidAtOnce, Receives;
    GuardedSplitter(env, w, metas);
    LoadedIsOk(env, w, metas[0].key);
    var s := TokenGuards(env, w, metas).value;
    TokenPaymentsAreOwed(w, metas[2].key, s, metas[4..]);
    PayIsSimultaneous(w.amounts, metas[2].key, TokenPayments(w, metas[2].key, s, metas[4..]));
    AtMostTen(s);
  }

  lemma GuardedSplitter(env: Env, w: World, metas: seq<Meta>)
    requires TokenGuards(env, w, metas).Ok?
    ensures |metas| >= 4 && LoadSplitter(w, metas[0].key) == TokenGuards(env, w, metas)
    ensures |metas| >= 4 + TokenGuards(env, w, metas).value.numRecipients
  {
    hide LoadSplitter;
  }

  lemma AtMostTen(s: Splitter)
    requires WellFormed(s)
    ensures s.numRecipients == |s.Active()| <= 10
  {
  }

  lemma SourceOfMint(w: World, source: Key, mint: Key)
    requires TokenOf(w, source).Some? && TokenOf(w, source).value.Holding? && TokenOf(w, source).value.mint == mint
    ensures source in OfMint(w, mint)
  {
  }

  lemma SourceLeft(before: Ledger, after: Ledger, source: Key, ps: seq<Entry>)
    requires PaidAtOnce(before, after, source, ps) && Credit(ps, source) == 0
    ensures Bal(after, source) == Bal(before, source) - Sum(ps)
  {
  }

  lemma {:induction false} NoCreditWithoutUnits(es: seq<Entry>, k: Key)
    requires forall i :: 0 <= i < |es| && es[i].units > 0 ==> es[i].to != k
    ensures Credit(es, k) == 0
  {
    if es != [] {
      NoCreditWithoutUnits(es[1..], k);
    }
  }

  lemma UnpaidUnchanged(before: Ledger, after: Ledger, source: Key, ps: seq<Entry>, x: Key)
    requires PaidAtOnce(before, after, source, ps) && x != source
    requires forall i :: 0 <= i < |ps| && ps[i].units > 0 ==> ps[i].to != x
    ensures Bal(after, x) == Bal(before, x)
  {
    NoCreditWithoutUnits(ps, x);
  }

  // --------------------------------------------------------- whom a crank reaches

  /** The owner a token account names. */
  function OwnerOf(w: World, k: Key): Option<Key> {
    match TokenOf(w, k)
    case Some(Holding(_, _, owner)) => Some(owner)
    case _ => None
  }

  /** The token accounts of one mint that belong to `a`. */
  ghost function OwnedBy(w: World, mint: Key, a: Key): set<Key> {
    set k | k in OfMint(w, mint) && OwnerOf(w, k) == Some(a)
  }

  /** What the payments bring to accounts that belong to `a`. */
  function PaidToOwner(w: World, ps: seq<Entry>, a: Key): nat {
    if ps == [] then 0 else
      (if OwnerOf(w, ps[0].to) == Some(a) then ps[0].units else 0) + PaidToOwner(w, ps[1..], a)
  }

  lemma {:induction false} PaidToGroup(w: World, mint: Key, ps: seq<Entry>, a: Key)
    requires forall i :: 0 <= i < |ps| && ps[i].units > 0 ==> ps[i].to in OfMint(w, mint)
    ensures CreditIn(ps, OwnedBy(w, mint, a)) == PaidToOwner(w, ps, a)
  {
    hide OfMint, OwnerOf;
    if ps != [] {
      PaidToGroup(w, mint, ps[1..], a);
    }
  }

  /** A token crank that went through, in terms of what it owed. */
  lemma TokenCrankPays(env: Env, w: World, metas: seq<Meta>)
    requires Inv(env, w)
    ensures HandleDistributeTokens(env, w, metas).Ok? ==> |metas| >= 4 && LoadSplitter(w, metas[0].key).Ok?
    ensures HandleDistributeTokens(env, w, metas).Ok? ==>
            var k, mint, source := metas[0].key, metas[1].key, metas[2].key;
            var s := LoadSplitter(w, k).value;
            var after := HandleDistributeTokens(env, w, metas).value;
            && WellFormed(s) && |s.Active()| == s.numRecipients && |metas[4..]| >= |s.Active()|
            && source in OfMint(w, mint) && OwnerOf(w, source) == Some(k)
            && var owed := TokenOwed(w, source, s, metas[4..]);
               && Pay(w.amounts, source, owed) == Some(after.amounts)
               && PaidAtOnce(w.amounts, after.amounts, source, owed)
               && forall i :: 0 <= i < |owed| && owed[i].units > 0 ==> owed[i].to in OfMint(w, mint)
  {
    hide LoadSplitter, TokenPayments, Pay, HandleDistributeTokens, WellFormed, PaidAtOnce, OfMint, Weights, Events;
    if HandleDistributeTokens(env, w, metas).Ok? {
      TokenCrankShape(env, w, metas);
      LoadedIsOk(env, w, metas[0].key);
      var source := metas[2].key;
      var s := LoadSplitter(w, metas[0].key).value;
      TokenPaymentsAreOwed(w, source, s, metas[4..]);
      PayIsSimultaneous(w.amounts, source, TokenPayments(w, source, s, metas[4..]));
      SourceOfMint(w, source, metas[1].key);
      AtMostTen(s);
    }
  }

  /**
    What anybody's accounts of the mint gain, together: the payments that went to
    accounts naming it as owner, whatever the table says. The splitter, who owns
    the source, gives up all of them.
   */
  lemma TokensReachOwners(env: Env, w: World, metas: seq<Meta>, a: Key)
    requires Inv(env, w)
    ensures HandleDistributeTokens(env, w, metas).Ok? ==>
            |metas| >= 4 && LoadSplitter(w, metas[0].key).Ok? &&
            var k, mint, source := metas[0].key, metas[1].key, metas[2].key;
            var s := LoadSplitter(w, k).value;
            var after := HandleDistributeTokens(env, w, metas).value;
            && |metas[4..]| >= |s.Active()|
            && var owed := TokenOwed(w, source, s, metas[4..]);
               Supply(after.amounts, OwnedBy(w, mint, a))
               == Supply(w.amounts, OwnedBy(w, mint, a)) + PaidToOwner(w, owed, a) - (if a == k then Sum(owed) else 0)
  {
    hide HandleDistributeTokens, LoadSplitter, WellFormed, Supply, TokenOwed, Pay, PaidAtOnce, OfMint, OwnerOf, Sum;
    TokenCrankPays(env, w, metas);
    if HandleDistributeTokens(env, w, metas).Ok? {
      var mint, source := metas[1].key, metas[2].key;
      var owed := TokenOwed(w, source, LoadSplitter(w, metas[0].key).value, metas[4..]);
      var after := HandleDistributeTokens(env, w, metas).value;
      PaidAtOnceByGroup(w.amounts, after.amounts, source, owed, OwnedBy(w, mint, a));
      PaidToGroup(w, mint, owed, a);
    }
  }

  /** The i-th account supplied belongs to the i-th recipient of the table, wherever something is owed to it. */
  predicate OwnedAsListed(w: World, s: Splitter, dests: seq<Meta>, owed: seq<Entry>)
    requires |owed| == |s.Active()| <= |dests|
  {
    forall i :: 0 <= i < |owed| && owed[i].units > 0 ==> OwnerOf(w, dests[i].key) == Some(s.Active()[i].address)
  }

  /** Two lists of the same payments, one by account and one by addressee. */
  lemma {:induction false} OwnersAreAddressees(w: World, ps: seq<Entry>, qs: seq<Entry>, a: Key)
    requires |ps| == |qs| && forall i :: 0 <= i < |ps| ==> ps[i].units == qs[i].units
    ensures (forall i :: 0 <= i < |ps| && ps[i].units > 0 ==> OwnerOf(w, ps[i].to) == Some(qs[i].to)) ==>
              PaidToOwner(w, ps, a) == Credit(qs, a)
    ensures (forall i :: 0 <= i < |ps| && qs[i].to == a ==> OwnerOf(w, ps[i].to) == Some(a)) ==>
              PaidToOwner(w, ps, a) >= Credit(qs, a)
  {
    hide OwnerOf;
    if ps != [] {
      OwnersAreAddressees(w, ps[1..], qs[1..], a);
      assert forall i :: 0 <= i < |ps[1..]| ==> ps[1..][i] == ps[i + 1] && qs[1..][i] == qs[i + 1];
    }
  }

  /** What the table owes, by addressee. */
  function TableOwed(w: World, source: Key, s: Splitter): (ps: seq<Entry>)
    ensures |ps| == |s.Active()|
    ensures forall i :: 0 <= i < |ps| ==>
              ps[i] == Entry(s.Active()[i].address, ShareOf(Bal(w.amounts, source), s.Active()[i].share))
  {
    assert forall i :: 0 <= i < |s.Active()| ==> Weights(s.Active())[i] == Entry(s.Active()[i].address, s.Active()[i].share);
    Payouts(Bal(w.amounts, source), Weights(s.Active()))
  }

  /**
    When the accounts supplied belong to the recipients, as the code's comments
    require and its checks do not, everybody's accounts of the mint gain exactly
    what the table owes it.
   */
  lemma TokensReachRecipients(env: Env, w: World, metas: seq<Meta>, a: Key)
    requires Inv(env, w)
    ensures HandleDistributeTokens(env, w, metas).Ok? ==>
            |metas| >= 4 && LoadSplitter(w, metas[0].key).Ok? &&
            var k, mint, source := metas[0].key, metas[1].key, metas[2].key;
            var s := LoadSplitter(w, k).value;
            var after := HandleDistributeTokens(env, w, metas).value;
            && |metas[4..]| >= |s.Active()|
            && var owed := TokenOwed(w, source, s, metas[4..]);
               (OwnedAsListed(w, s, metas[4..], owed) && a != k ==>
                  Supply(after.amounts, OwnedBy(w, mint, a))
                  == Supply(w.amounts, OwnedBy(w, mint, a)) + Credit(Payouts(Bal(w.amounts, source), Weights(s.Active())), a))
  {
    hide HandleDistributeTokens, LoadSplitter, WellFormed, Supply, OfMint, OwnerOf, Sum, Weights, Credit, ShareOf;
    TokensReachOwners(env, w, metas, a);
    if HandleDistributeTokens(env, w, metas).Ok? {
      var s := LoadSplitter(w, metas[0].key).value;
      OwnersAreAddressees(w, TokenOwed(w, metas[2].key, s, metas[4..]), TableOwed(w, metas[2].key, s), a);
    }
  }

  /**
    A lock is worth its share in tokens too, to a recipient whose own accounts are
    the ones supplied for it, whatever was supplied for the others.
   */
  lemma TokenCrankHonoursLock(env: Env, w: World, metas: seq<Meta>, a: Key)
    requires Inv(env, w)
    ensures HandleDistributeTokens(env, w, metas).Ok? ==>
            |metas| >= 4 && LoadSplitter(w, metas[0].key).Ok? &&
            var k, mint, source := metas[0].key, metas[1].key, metas[2].key;
            var rs := LoadSplitter(w, k).value.Active();
            var after := HandleDistributeTokens(env, w, metas).value;
            && |metas[4..]| >= |rs|
            && (a != k && Listed(rs, a)
                && (forall i :: 0 <= i < |rs| && rs[i].address == a ==> OwnerOf(w, metas[4..][i].key) == Some(a)) ==>
                  Supply(after.amounts, OwnedBy(w, mint, a))
                  >= Supply(w.amounts, OwnedBy(w, mint, a)) + ShareOf(Bal(w.amounts, source), EffectiveLock(rs, a)))
  {
    hide HandleDistributeTokens, LoadSplitter, WellFormed, Supply, OfMint, OwnerOf, Sum, Weights, Credit, ShareOf, EffectiveLock;
    hide Listed;
    TokensReachOwners(env, w, metas, a);
    if HandleDistributeTokens(env, w, metas).Ok? {
      var s := LoadSplitter(w, metas[0].key).value;
      TokenCrankPays(env, w, metas);
      OwnersAreAddressees(w, TokenOwed(w, metas[2].key, s, metas[4..]), TableOwed(w, metas[2].key, s), a);
      if Listed(s.Active(), a) {
        CreditHonoursLock(Bal(w.amounts, metas[2].key), s, a);
      }
    }
  }

  /** So a lock holds for tokens too, after any run that keeps the address listed. */
  lemma LockedTokensAreGuaranteed(env: Env, w: World, steps: seq<Step>, crank: Step, k: Key, a: Key, m: nat)
    requires Locked(env, w, k, a, m) && a != k
    requires crank.Call? && crank.ix == DistributeToken && |crank.metas| >= 4 && crank.metas[0].key == k
    ensures var before := After(env, w, steps);
            KeepsListed(env, w, steps, k, a) && Outcome(env, before, crank).Some? ==>
            LoadSplitter(before, k).Ok? &&
            var rs := LoadSplitter(before, k).value.Active();
            var accounts := OwnedBy(before, crank.metas[1].key, a);
            && |crank.metas[4..]| >= |rs|
            && ((forall i :: 0 <= i < |rs| && rs[i].address == a ==> OwnerOf(before, crank.metas[4..][i].key) == Some(a)) ==>
                  Supply(Next(env, before, crank).amounts, accounts)
                  >= Supply(before.amounts, accounts) + ShareOf(Bal(before.amounts, crank.metas[2].key), m))
  {
    hide LoadSplitter, Next, EffectiveLock, ShareOf, Listed, HandleDistributeTokens, KeepsListed, Supply, OwnerOf, Inv, Outcome;
    hide Handle;
    var before := After(env, w, steps);
    if KeepsListed(env, w, steps, k, a) && Outcome(env, before, crank).Some? {
      LockNeverFalls(env, w, steps, k, a);
      RunKeepsInv(env, w, steps);
      SuccessIsHandled(env, before, crank);
      AnyTokenCrankIsHandled(env, before, crank);
      TokenCrankHonoursLock(env, before, crank.metas, a);
      ShareMonotone(Bal(before.amounts, crank.metas[2].key), m, EffectiveLock(LoadSplitter(before, k).value.Active(), a));
    }
  }

  lemma AnyTokenCrankIsHandled(env: Env, w: World, step: Step)
    requires step.Call? && step.ix.DistributeToken?
    ensures Handle(env, w, step.ix, step.metas, step.cpi) == HandleDistributeTokens(env, w, step.metas)
  {
    hide HandleDistributeTokens;
  }

  /** The amounts after the first `i` payments of a crank. */
  function AfterPayments(w: World, source: Key, owed: seq<Entry>, i: nat): Option<Ledger>
    requires i <= |owed|
  {
    Pay(w.amounts, source, owed[..i])
  }

  /**
    Payment by payment: a nonzero payment reaches an account of its addressee if
    and only if the account supplied belongs to the address in the table;
    otherwise the addressee's accounts get nothing from it.
   */
  lemma TokenPaymentReaches(env: Env, w: World, metas: seq<Meta>, i: nat)
    requires Inv(env, w)
    ensures HandleDistributeTokens(env, w, metas).Ok? ==>
            |metas| >= 4 && LoadSplitter(w, metas[0].key).Ok? &&
            var k, mint, source := metas[0].key, metas[1].key, metas[2].key;
            var s := LoadSplitter(w, k).value;
            && |metas[4..]| >= |s.Active()|
            && var owed := TokenOwed(w, source, s, metas[4..]);
               (i < |owed| && owed[i].units > 0 && s.Active()[i].address != k ==>
                  var before, after := AfterPayments(w, source, owed, i), AfterPayments(w, source, owed, i + 1);
                  var addressee := s.Active()[i].address;
                  var accounts := OwnedBy(w, mint, addressee);
                  && before.Some? && after.Some?
                  && ((Supply(after.value, accounts) == Supply(before.value, accounts) + owed[i].units) <==>
                        OwnerOf(w, metas[4..][i].key) == Some(addressee))
                  && (OwnerOf(w, metas[4..][i].key) != Some(addressee) ==>
                        Supply(after.value, accounts) == Supply(before.value, accounts)))
  {
    hide HandleDistributeTokens, LoadSplitter, WellFormed, Supply, OfMint, OwnerOf, Sum, Pay, PaidAtOnce, Move;
    TokenCrankPays(env, w, metas);
    if HandleDistributeTokens(env, w, metas).Ok? {
      var mint, source := metas[1].key, metas[2].key;
      var s := LoadSplitter(w, metas[0].key).value;
      var owed := TokenOwed(w, source, s, metas[4..]);
      if i < |owed| && owed[i].units > 0 && s.Active()[i].address != metas[0].key {
        PayPrefix(w.amounts, source, owed, i);
        var before := AfterPayments(w, source, owed, i).value;
        MoveByGroup(before, source, owed[i].to, owed[i].units, OwnedBy(w, mint, s.Active()[i].address));
      }
    }
  }

  /**
    The documented demand, that the accounts match the recipients, is false of
    the code: on any splitter with tokens, anybody can have all but the dust paid
    into one account `d` of the mint, whoever owns it, without any signature.
   */
  lemma TokensToAnyone(env: Env, w: World, k: Key, mint: Key, source: Key, program: Key, d: Key) returns (metas: seq<Meta>)
    requires Inv(env, w) && LoadSplitter(w, k).Ok? && env.IsTokenProgram(program)
    requires TokenOf(w, source) == Some(Holding(program, mint, k)) && Bal(w.amounts, source) > 0
    requires TokenOf(w, mint) == Some(Mint(program)) && Receives(w, d, program, mint)
    requires d != source && Bal(w.amounts, d) + Bal(w.amounts, source) < U64_LIMIT
    ensures forall i :: 0 <= i < |metas| ==> !metas[i].isSigner
    ensures Outcome(env, w, Call(DistributeToken, metas, CpiFails)).Some?
    ensures var after := Next(env, w, Call(DistributeToken, metas, CpiFails));
            && Bal(after.amounts, source) <= LoadSplitter(w, k).value.numRecipients - 1
            && Bal(after.amounts, d) == Bal(w.amounts, d) + Bal(w.amounts, source) - Bal(after.amounts, source)
  {
    hide HandleDistributeTokens, LoadSplitter, WellFormed, Sum, Pay, Inv, Total, TokenGuards, Credit, Handle;
    var s := LoadSplitter(w, k).value;
    LoadedIsOk(env, w, k);
    AtMostTen(s);
    metas := [Meta(k, false, true), Meta(mint, false, false), Meta(source, false, true), Meta(program, false, false)]
      + seq(|s.Active()|, i => Meta(d, false, true));
    assert forall i :: 0 <= i < |metas[4..]| ==> metas[4..][i] == Meta(d, false, true);
    var owed := TokenOwed(w, source, s, metas[4..]);
    assert TokenGuards(env, w, metas) == Ok(s) by {
      AnyoneIsGuarded(env, w, metas, s);
    }
    TokenPaymentsAreOwed(w, source, s, metas[4..]);
    AllToOne(owed, d);
    TokenCrankAccepted(env, w, metas);
    TokenCrankPays(env, w, metas);
    AnyTokenCrankIsHandled(env, w, Call(DistributeToken, metas, CpiFails));
    HandlersConserve(env, w, DistributeToken, metas, CpiFails);
  }

  lemma AnyoneIsGuarded(env: Env, w: World, metas: seq<Meta>, s: Splitter)
    requires |metas| >= 4 && LoadSplitter(w, metas[0].key) == Ok(s) && WellFormed(s)
    requires env.IsTokenProgram(metas[3].key) && |metas| == 4 + s.numRecipients
    requires TokenOf(w, metas[2].key) == Some(Holding(metas[3].key, metas[1].key, metas[0].key))
    requires Bal(w.amounts, metas[2].key) > 0 && TokenOf(w, metas[1].key) == Some(Mint(metas[3].key))
    ensures TokenGuards(env, w, metas) == Ok(s)
  {
    hide LoadSplitter;
    AtMostTen(s);
    HasRecipients(s);
  }

  lemma {:induction false} AllToOne(es: seq<Entry>, d: Key)
    requires forall i :: 0 <= i < |es| ==> es[i].to == d
    ensures forall k: Key :: Credit(es, k) == if k == d then Sum(es) else 0
  {
    if es != [] {
      AllToOne(es[1..], d);
    }
  }
}
