/**
  Many cranks: how far cumulative payouts drift from exact proportionality over
  any interleaving with deposits, and why cranking without deposits stops.
 */
module Drift {
  import opened Base
  import opened Ledgers
  import opened Records
  import opened Worlds
  import opened Invariant
  import opened Cranks
  import opened Reach
  import opened Guarantees

  ghost predicate Cranking(env: Env, w: World, step: Step, k: Key) {
    Outcome(env, w, step).Some? && step.ix.DistributeSOL? && step.metas != [] && step.metas[0].key == k
  }

  ghost predicate LiveTable(env: Env, w: World, k: Key, ws: seq<Entry>) {
    Inv(env, w) && LoadSplitter(w, k).Ok? && Weights(LoadSplitter(w, k).value.Active()) == ws
  }

  lemma TableFacts(s: Splitter)
    requires WellFormed(s)
    ensures var ws := Weights(s.Active()); |ws| >= 1 && |ws| == s.numRecipients && Sum(ws) == 10000
  {
    hide FirstHoldsMax, Sum;
  }

  lemma ListedInWeights(rs: seq<Recipient>, k: Key)
    ensures Listed(rs, k) <==> exists i :: 0 <= i < |rs| && Weights(rs)[i].to == k
  {
    if i :| 0 <= i < |rs| && Weights(rs)[i].to == k {
      assert rs[i].address == k;
    }
    if Listed(rs, k) {
      var i :| 0 <= i < |rs| && rs[i].address == k;
      assert Weights(rs)[i].to == k;
    }
  }

  lemma LiveTableFacts(env: Env, w: World, k: Key, ws: seq<Entry>)
    requires LiveTable(env, w, k, ws)
    ensures SplitterOk(env, w, k) && |ws| >= 1 && |ws| == LoadSplitter(w, k).value.numRecipients && Sum(ws) == 10000
    ensures Listed(LoadSplitter(w, k).value.Active(), k) <==> exists i :: 0 <= i < |ws| && ws[i].to == k
    ensures Bal(w.lamports, k) == env.splitterRent + Distributable(env, w, k)
  {
    hide LoadSplitter, WellFormed, Weights, Listed, Sum;
    LoadedIsOk(env, w, k);
    TableFacts(LoadSplitter(w, k).value);
    ListedInWeights(LoadSplitter(w, k).value.Active(), k);
  }

  /** The splitter is not among its own recipients. */
  ghost predicate Foreign(ws: seq<Entry>, k: Key) {
    forall i :: 0 <= i < |ws| ==> ws[i].to != k
  }

  /** Money comes in between cranks and leaves only through them. */
  lemma InflowStep(env: Env, w: World, step: Step, k: Key)
    requires Inv(env, w) && LoadSplitter(w, k).Ok?
    ensures Inv(env, Next(env, w, step)) && LoadSplitter(Next(env, w, step), k).Ok?
    ensures !Cranking(env, w, step, k) ==> Distributable(env, Next(env, w, step), k) >= Distributable(env, w, k)
  {
    hide LoadSplitter, WellFormed, Modify, Handle, Inv, Exec;
    LoadedIsOk(env, w, k);
    SplitterData(w, k);
    SplitterStep(env, w, step, k);
    NextKeepsInv(env, w, step);
    if Outcome(env, w, step).Some? {
      SuccessIsHandled(env, w, step);
      Frame(env, w, step.ix, step.metas, step.cpi, k);
      if !Rewriting(env, w, step, k) {
        OthersDoNotWrite(env, w, step, k);
      }
    } else if step.Outside? && OutsideAllowed(w, step.next) {
      OutsideKeepsSplitter(env, w, Next(env, w, step), k);
    }
  }

  lemma TableStep(env: Env, w: World, step: Step, k: Key, ws: seq<Entry>)
    requires LiveTable(env, w, k, ws) && !Reconfiguring(env, w, step, k)
    ensures LiveTable(env, Next(env, w, step), k, ws)
    ensures !Cranking(env, w, step, k) ==> Distributable(env, Next(env, w, step), k) >= Distributable(env, w, k)
  {
    hide LoadSplitter, Weights, WellFormed, Modify, Inv, Outcome, Next, Handle;
    LoadedIsOk(env, w, k);
    SplitterStep(env, w, step, k);
    InflowStep(env, w, step, k);
    if Rewriting(env, w, step, k) {
      SuccessIsHandled(env, w, step);
      ModifyKeepsWeights(LoadSplitter(w, k).value, step.ix, step.metas[1].key);
    }
  }

  /** What a crank does to the splitter and to another account `a`, in terms of the table. */
  lemma CrankStep(env: Env, w: World, step: Step, k: Key, ws: seq<Entry>, a: Key)
    requires LiveTable(env, w, k, ws) && Cranking(env, w, step, k) && Foreign(ws, k) && a != k
    ensures var next := Next(env, w, step);
            var amount := Distributable(env, w, k);
            && Distributable(env, next, k) == amount - Sum(Payouts(amount, ws)) <= |ws| - 1
            && Bal(next.lamports, a) == Bal(w.lamports, a) + Credit(Payouts(amount, ws), a)
  {
    hide LoadSplitter, Weights, WellFormed, Handle, HandleDistributeSol, Inv, Payouts, Exec, Listed;
    LiveTableFacts(env, w, k, ws);
    SuccessIsHandled(env, w, step);
    CrankIsHandled(env, w, step);
    CrankIsSimultaneous(env, w, step.metas);
    CrankLeavesDust(env, w, step.metas);
    NoCreditWhenAbsent(Payouts(Distributable(env, w, k), ws), k);
  }

  lemma CrankIsHandled(env: Env, w: World, step: Step)
    requires step.Call? && step.ix.DistributeSOL?
    ensures Handle(env, w, step.ix, step.metas, step.cpi) == HandleDistributeSol(env, w, step.metas)
  {
    hide HandleDistributeSol;
  }

  // ------------------------------------------------------------- bookkeeping

  /**
    Measured along a run: distributable lamports that have entered, those that
    had entered by the last crank, the sum of the amounts cranked and the number
    of cranks.
   */
  datatype Book = Book(entered: int, atLast: int, cranked: int, cranks: int)

  ghost function Opening(env: Env, w: World, k: Key): Book {
    Book(Distributable(env, w, k), 0, 0, 0)
  }

  ghost function Entered(env: Env, w: World, step: Step, k: Key, b: Book): Book {
    var held := Distributable(env, w, k);
    if Cranking(env, w, step, k) then
      b.(atLast := b.entered, cranked := b.cranked + held, cranks := b.cranks + 1)
    else
      b.(entered := b.entered + Distributable(env, Next(env, w, step), k) - held)
  }

  ghost function Tally(env: Env, w: World, steps: seq<Step>, k: Key, b: Book): Book
    decreases |steps|
  {
    if steps == [] then b else Tally(env, Next(env, w, steps[0]), steps[1..], k, Entered(env, w, steps[0], k, b))
  }

  /** What a crank of `k` adds to the balance of `a`. */
  ghost function Gain(env: Env, w: World, step: Step, k: Key, a: Key): int {
    if Cranking(env, w, step, k) then Bal(Next(env, w, step).lamports, a) - Bal(w.lamports, a) else 0
  }

  /** What the cranks of `k` in the run added to the balance of `a`, together. */
  ghost function PaidTo(env: Env, w: World, steps: seq<Step>, k: Key, a: Key): int
    decreases |steps|
  {
    if steps == [] then 0 else Gain(env, w, steps[0], k, a) + PaidTo(env, Next(env, w, steps[0]), steps[1..], k, a)
  }

  /** The same for all of `ks` together. */
  ghost function PaidToAll(env: Env, w: World, steps: seq<Step>, k: Key, ks: seq<Key>): int
    decreases |ks|
  {
    if ks == [] then 0 else PaidTo(env, w, steps, k, ks[0]) + PaidToAll(env, w, steps, k, ks[1..])
  }

  /** The last step is a successful crank of `k`. */
  ghost predicate EndsInCrank(env: Env, w: World, steps: seq<Step>, k: Key)
    decreases |steps|
  {
    && steps != []
    && if |steps| == 1 then Cranking(env, w, steps[0], k) else EndsInCrank(env, Next(env, w, steps[0]), steps[1..], k)
  }

  /** Then the last crank came after everything that entered. */
  lemma {:induction false} BooksAreClosed(env: Env, w: World, steps: seq<Step>, k: Key, b: Book)
    requires EndsInCrank(env, w, steps, k)
    ensures var end := Tally(env, w, steps, k, b); end.atLast == end.entered && end.cranks > b.cranks
    decreases |steps|
  {
    hide Cranking, Next, Distributable;
    var next, c := Next(env, w, steps[0]), Entered(env, w, steps[0], k, b);
    if |steps| == 1 {
      assert Tally(env, w, steps, k, b) == Tally(env, next, [], k, c) == c;
    } else {
      BooksAreClosed(env, next, steps[1..], k, c);
    }
  }

  // ----------------------------------------------------- everything is paid out

  /** All cranks together gave `ks` what each step gave them. */
  lemma {:induction false} PaidToAllSplits(env: Env, w: World, steps: seq<Step>, k: Key, ks: seq<Key>)
    requires steps != []
    ensures var next := Next(env, w, steps[0]);
            PaidToAll(env, w, steps, k, ks)
            == PaidToAll(env, w, [steps[0]], k, ks) + PaidToAll(env, next, steps[1..], k, ks)
    decreases |ks|
  {
    hide Gain, Next;
    if ks != [] {
      PaidToAllSplits(env, w, steps, k, ks[1..]);
      assert [steps[0]][1..] == [];
      assert PaidTo(env, Next(env, w, steps[0]), [], k, ks[0]) == 0;
    }
  }

  /** A crank gives others what it owes them, any other step nothing. */
  lemma {:induction false} GainsAreCredits(env: Env, w: World, step: Step, k: Key, ws: seq<Entry>, ks: seq<Key>)
    requires LiveTable(env, w, k, ws) && Foreign(ws, k) && k !in ks
    ensures PaidToAll(env, w, [step], k, ks)
            == if Cranking(env, w, step, k) then CreditAll(Payouts(Distributable(env, w, k), ws), ks) else 0
    decreases |ks|
  {
    hide LiveTable, Cranking, Next, Foreign, Payouts, Credit, Distributable;
    if ks != [] {
      GainsAreCredits(env, w, step, k, ws, ks[1..]);
      assert [step][1..] == [];
      assert PaidTo(env, Next(env, w, step), [], k, ks[0]) == 0;
      if Cranking(env, w, step, k) {
        CrankStep(env, w, step, k, ws, ks[0]);
      }
    }
  }

  /** `ks` lists every recipient, nobody twice, and not the splitter. */
  ghost predicate Recipients(ks: seq<Key>, ws: seq<Entry>, k: Key) {
    Distinct(ks) && k !in ks && forall i :: 0 <= i < |ws| ==> ws[i].to in ks
  }

  lemma StepPaysOut(env: Env, w: World, step: Step, k: Key, ws: seq<Entry>, ks: seq<Key>, b: Book)
    requires LiveTable(env, w, k, ws) && Foreign(ws, k) && Recipients(ks, ws, k)
    ensures PaidToAll(env, w, [step], k, ks) + Distributable(env, Next(env, w, step), k) - Distributable(env, w, k)
            == Entered(env, w, step, k, b).entered - b.entered
  {
    hide LiveTable, Cranking, Next, Foreign, Payouts, Distributable, PaidToAll, CreditAll, Distinct;
    GainsAreCredits(env, w, step, k, ws, ks);
    if Cranking(env, w, step, k) {
      CrankStep(env, w, step, k, ws, OtherThan(k));
      CreditPartition(Payouts(Distributable(env, w, k), ws), ks);
    }
  }

  /**
    Conservation: in every run under one table that does not name the splitter,
    all that entered was added to the recipients' balances or is still there.
   */
  lemma {:induction false} EverythingIsPaidOut(
    env: Env, w: World, steps: seq<Step>, k: Key, ws: seq<Entry>, ks: seq<Key>, b: Book)
    requires LiveTable(env, w, k, ws) && Foreign(ws, k) && Recipients(ks, ws, k)
    ensures NeverReconfigured(env, w, steps, k) ==>
              PaidToAll(env, w, steps, k, ks) + Distributable(env, After(env, w, steps), k)
              == Distributable(env, w, k) + Tally(env, w, steps, k, b).entered - b.entered
    decreases |steps|
  {
    hide LiveTable, Next, Foreign, Recipients, Distributable, PaidToAll, Entered, Reconfiguring;
    if steps == [] {
      NobodyPaid(env, w, k, ks);
    } else if NeverReconfigured(env, w, steps, k) {
      var next, c := Next(env, w, steps[0]), Entered(env, w, steps[0], k, b);
      TableStep(env, w, steps[0], k, ws);
      PaidToAllSplits(env, w, steps, k, ks);
      StepPaysOut(env, w, steps[0], k, ws, ks, b);
      EverythingIsPaidOut(env, next, steps[1..], k, ws, ks, c);
    }
  }

  lemma {:induction false} NobodyPaid(env: Env, w: World, k: Key, ks: seq<Key>)
    ensures PaidToAll(env, w, [], k, ks) == 0
    decreases |ks|
  {
    if ks != [] {
      NobodyPaid(env, w, k, ks[1..]);
    }
  }

  // ------------------------------------------------------------ the drift bound

  /** The books of a splitter holding `held`, for an account with `share` in `entries` of `n` entries, paid `paid`. */
  ghost predicate Adds(b: Book, paid: int, held: int, n: int, share: int, entries: int) {
    && b.cranks >= 0
    && 10000 * paid <= share * b.cranked <= 10000 * paid + 9999 * entries * b.cranks
    && (b.cranks == 0 ==> b.cranked == 0 && held == b.entered)
    && (b.cranks > 0 ==>
          && b.atLast <= b.cranked <= b.atLast + (n - 1) * (b.cranks - 1)
          && b.entered - b.atLast <= held <= n - 1 + b.entered - b.atLast)
  }

  lemma CrankAdds(b: Book, paid: int, held: int, left: int, credit: int, n: int, share: int, entries: int)
    requires Adds(b, paid, held, n, share, entries)
    requires 10000 * credit <= held * share <= 10000 * credit + 9999 * entries
    requires 0 <= left <= n - 1
    ensures Adds(
              b.(atLast := b.entered, cranked := b.cranked + held, cranks := b.cranks + 1),
              paid + credit, left, n, share, entries)
  {
    assert share * (b.cranked + held) == share * b.cranked + held * share;
    assert 9999 * entries * (b.cranks + 1) == 9999 * entries * b.cranks + 9999 * entries;
    if b.cranks > 0 {
      assert (n - 1) * b.cranks == (n - 1) * (b.cranks - 1) + (n - 1);
    }
  }

  ghost predicate Balanced(env: Env, w: World, k: Key, a: Key, ws: seq<Entry>, b: Book, paid: int) {
    Adds(b, paid, Distributable(env, w, k), |ws|, Credit(ws, a), Count(ws, a))
  }

  lemma StepBalances(env: Env, w: World, step: Step, k: Key, a: Key, ws: seq<Entry>, b: Book, paid: int)
    requires LiveTable(env, w, k, ws) && Foreign(ws, k) && a != k && !Reconfiguring(env, w, step, k)
    requires Balanced(env, w, k, a, ws, b, paid)
    ensures Balanced(env, Next(env, w, step), k, a, ws, Entered(env, w, step, k, b), paid + Gain(env, w, step, k, a))
  {
    hide LiveTable, Cranking, Reconfiguring, Next, Payouts, Distributable, Credit, Count, Sum;
    TableStep(env, w, step, k, ws);
    if Cranking(env, w, step, k) {
      hide Adds;
      var held := Distributable(env, w, k);
      CrankStep(env, w, step, k, ws, a);
      CreditBounds(held, ws, a);
      CrankAdds(b, paid, held, Distributable(env, Next(env, w, step), k), Credit(Payouts(held, ws), a),
                |ws|, Credit(ws, a), Count(ws, a));
    }
  }

  lemma {:induction false} RunBalances(
    env: Env, w: World, steps: seq<Step>, k: Key, a: Key, ws: seq<Entry>, b: Book, paid: int)
    requires LiveTable(env, w, k, ws) && Foreign(ws, k) && a != k && NeverReconfigured(env, w, steps, k)
    requires Balanced(env, w, k, a, ws, b, paid)
    ensures Balanced(env, After(env, w, steps), k, a, ws, Tally(env, w, steps, k, b), paid + PaidTo(env, w, steps, k, a))
    decreases |steps|
  {
    hide LiveTable, Cranking, Reconfiguring, Next, Balanced, Entered, Gain;
    if steps != [] {
      TableStep(env, w, steps[0], k, ws);
      StepBalances(env, w, steps[0], k, a, ws, b, paid);
      RunBalances(env, Next(env, w, steps[0]), steps[1..], k, a, ws, Entered(env, w, steps[0], k, b),
                  paid + Gain(env, w, steps[0], k, a));
    }
  }

  lemma Scaled(share: nat, low: int, high: int)
    requires low <= high
    ensures share * low <= share * high
  {
  }

  /**
    What the books say at the end of a crank, the K-th, when T has entered: an
    account with `share` in `entries` of the n entries was paid P with
    share*T - 9999*entries*K <= 10000*P <= share*(T + (n-1)*(K-1)),
    and what all recipients were paid, plus the at most n - 1 lamports left, is T.
   */
  ghost predicate WithinDrift(b: Book, paid: int, paidToAll: int, left: int, n: int, share: int, entries: int) {
    && b.cranks >= 1
    && share * b.entered - 9999 * entries * b.cranks <= 10000 * paid
    && 10000 * paid <= share * (b.entered + (n - 1) * (b.cranks - 1))
    && paidToAll + left == b.entered
    && 0 <= left <= n - 1
  }

  lemma AddsBoundPaid(b: Book, paid: int, paidToAll: int, left: nat, n: int, share: nat, entries: int)
    requires Adds(b, paid, left, n, share, entries) && b.cranks >= 1 && b.atLast == b.entered
    requires paidToAll + left == b.entered
    ensures WithinDrift(b, paid, paidToAll, left, n, share, entries)
  {
    Scaled(share, b.entered, b.cranked);
    Scaled(share, b.cranked, b.entered + (n - 1) * (b.cranks - 1));
  }

  /**
    The drift bound, over any run under one table that does not name the
    splitter, with anything in between, ending in a successful crank: whatever
    came in and however often it was cranked, every other account's total payout
    stays within `WithinDrift` of its exact share of all that entered, and all
    payouts and the dust add up to what entered.
   */
  lemma DriftBound(env: Env, w: World, steps: seq<Step>, k: Key, a: Key, ws: seq<Entry>)
    requires LiveTable(env, w, k, ws) && Foreign(ws, k) && a != k
    ensures NeverReconfigured(env, w, steps, k) && EndsInCrank(env, w, steps, k) ==>
            WithinDrift(Tally(env, w, steps, k, Opening(env, w, k)),
                        PaidTo(env, w, steps, k, a), PaidToAll(env, w, steps, k, Payees(ws)),
                        Distributable(env, After(env, w, steps), k), |ws|, Credit(ws, a), Count(ws, a))
  {
    hide LiveTable, Distributable, Credit, Count, Tally, After, NeverReconfigured, PaidTo, PaidToAll, EndsInCrank;
    hide Adds, WithinDrift;
    var b := Opening(env, w, k);
    if NeverReconfigured(env, w, steps, k) && EndsInCrank(env, w, steps, k) {
      OpeningBalances(env, w, k, a, ws);
      RunBalances(env, w, steps, k, a, ws, b, 0);
      BooksAreClosed(env, w, steps, k, b);
      PayeesAreTheKeys(ws);
      EverythingIsPaidOut(env, w, steps, k, ws, Payees(ws), b);
      AddsBoundPaid(Tally(env, w, steps, k, b), PaidTo(env, w, steps, k, a), PaidToAll(env, w, steps, k, Payees(ws)),
                    Distributable(env, After(env, w, steps), k), |ws|, Credit(ws, a), Count(ws, a));
    }
  }

  lemma OpeningBalances(env: Env, w: World, k: Key, a: Key, ws: seq<Entry>)
    ensures Balanced(env, w, k, a, ws, Opening(env, w, k), 0)
  {
    hide Distributable, Credit, Count;
  }

  // ------------------------------------------------------- locks over many cranks

  /**
    The books of an account locked at `m`: it got its floor of every amount
    cranked, and all that entered was cranked or is held.
   */
  ghost predicate Guaranteed(b: Book, paid: int, held: int, m: int) {
    && b.cranks >= 0
    && b.atLast <= b.cranked
    && b.entered - b.atLast <= held
    && m * b.cranked <= 10000 * paid + 9999 * b.cranks
  }

  lemma CrankGuarantees(b: Book, paid: int, held: nat, left: nat, gain: int, m: nat)
    requires Guaranteed(b, paid, held, m) && gain >= ShareOf(held, m)
    ensures Guaranteed(
              b.(atLast := b.entered, cranked := b.cranked + held, cranks := b.cranks + 1), paid + gain, left, m)
  {
    hide ShareOf;
    ShareBounds(held, m);
    Distributes(m, b.cranked, held);
  }

  ghost predicate Locked(env: Env, w: World, k: Key, a: Key, m: nat) {
    && Inv(env, w) && LoadSplitter(w, k).Ok?
    && Listed(LoadSplitter(w, k).value.Active(), a) && EffectiveLock(LoadSplitter(w, k).value.Active(), a) >= m
  }

  lemma LockedStep(env: Env, w: World, step: Step, k: Key, a: Key, m: nat)
    requires Locked(env, w, k, a, m) && KeepsListed(env, w, [step], k, a)
    ensures Locked(env, Next(env, w, step), k, a, m)
  {
    hide LoadSplitter, Inv, EffectiveLock, Listed, Next, KeepsListed;
    NextKeepsInv(env, w, step);
    LockNeverFalls(env, w, [step], k, a);
    assert After(env, w, [step]) == After(env, Next(env, w, step), []) == Next(env, w, step);
  }

  lemma StepGuarantees(env: Env, w: World, step: Step, k: Key, a: Key, m: nat, b: Book, paid: int)
    requires Locked(env, w, k, a, m) && a != k && Guaranteed(b, paid, Distributable(env, w, k), m)
    ensures Guaranteed(Entered(env, w, step, k, b), paid + Gain(env, w, step, k, a),
                       Distributable(env, Next(env, w, step), k), m)
  {
    hide LoadSplitter, Inv, EffectiveLock, Listed, Distributable, ShareOf, Handle, HandleDistributeSol, SplitterOk, Outcome;
    InflowStep(env, w, step, k);
    if Cranking(env, w, step, k) {
      LoadedIsOk(env, w, k);
      SuccessIsHandled(env, w, step);
      CrankIsHandled(env, w, step);
      CrankHonoursLock(env, w, step.metas, a);
      var held := Distributable(env, w, k);
      ShareMonotone(held, m, EffectiveLock(LoadSplitter(w, k).value.Active(), a));
      CrankGuarantees(b, paid, held, Distributable(env, Next(env, w, step), k), Gain(env, w, step, k, a), m);
    }
  }

  lemma {:induction false} RunGuarantees(env: Env, w: World, steps: seq<Step>, k: Key, a: Key, m: nat, b: Book, paid: int)
    requires Locked(env, w, k, a, m) && a != k && KeepsListed(env, w, steps, k, a)
    requires Guaranteed(b, paid, Distributable(env, w, k), m)
    ensures Guaranteed(Tally(env, w, steps, k, b), paid + PaidTo(env, w, steps, k, a),
                       Distributable(env, After(env, w, steps), k), m)
    decreases |steps|
  {
    hide Locked, Next, Distributable, Reconfiguring, Entered, Gain, Guaranteed;
    if steps != [] {
      var next := Next(env, w, steps[0]);
      assert KeepsListed(env, w, [steps[0]], k, a) by {
        assert KeepsListed(env, next, [], k, a);
      }
      LockedStep(env, w, steps[0], k, a, m);
      StepGuarantees(env, w, steps[0], k, a, m, b, paid);
      RunGuarantees(env, next, steps[1..], k, a, m, Entered(env, w, steps[0], k, b), paid + Gain(env, w, steps[0], k, a));
    }
  }

  lemma GuaranteedAtClose(b: Book, paid: int, held: int, m: nat)
    requires Guaranteed(b, paid, held, m) && b.atLast == b.entered
    ensures m * b.entered - 9999 * b.cranks <= 10000 * paid
  {
    Scaled(m, b.entered, b.cranked);
  }

  /**
    What a lock is worth over a whole run, reconfigurations included: an address
    (other than the splitter) with `m` locked at the start and never dropped from
    the list is paid, by K cranks of a run that ends in one, at least m/10000 of
    everything that entered, less than one lamport short per crank.
   */
  lemma LockedShareOfEverything(env: Env, w: World, steps: seq<Step>, k: Key, a: Key, m: nat)
    requires Locked(env, w, k, a, m) && a != k
    ensures KeepsListed(env, w, steps, k, a) && EndsInCrank(env, w, steps, k) ==>
            var b := Tally(env, w, steps, k, Opening(env, w, k));
            m * b.entered - 9999 * b.cranks <= 10000 * PaidTo(env, w, steps, k, a)
  {
    hide Locked, Tally, PaidTo, After, EndsInCrank, KeepsListed, Distributable, Guaranteed;
    var b := Opening(env, w, k);
    if KeepsListed(env, w, steps, k, a) && EndsInCrank(env, w, steps, k) {
      assert Guaranteed(b, 0, Distributable(env, w, k), m) by {
        OpeningGuarantees(b, m);
      }
      RunGuarantees(env, w, steps, k, a, m, b, 0);
      BooksAreClosed(env, w, steps, k, b);
      GuaranteedAtClose(Tally(env, w, steps, k, b), PaidTo(env, w, steps, k, a),
                        Distributable(env, After(env, w, steps), k), m);
    }
  }

  lemma OpeningGuarantees(b: Book, m: nat)
    requires b.cranks == b.cranked == b.atLast == 0
    ensures Guaranteed(b, 0, b.entered, m)
  {
  }

  // ------------------------------------------------------------- termination

  /** A crank that changes some balance. */
  ghost predicate Moving(env: Env, w: World, step: Step, k: Key) {
    Cranking(env, w, step, k) && exists x: Key :: Bal(Next(env, w, step).lamports, x) != Bal(w.lamports, x)
  }

  /** The fixed point is exactly where every product stays below 10000; any other crank uses up lamports. */
  lemma MovingExactly(env: Env, w: World, step: Step, k: Key, ws: seq<Entry>)
    requires LiveTable(env, w, k, ws) && Foreign(ws, k)
    ensures Cranking(env, w, step, k) ==>
              (Moving(env, w, step, k) <==> exists i :: 0 <= i < |ws| && Distributable(env, w, k) * ws[i].units >= 10000)
    ensures Moving(env, w, step, k) ==> Distributable(env, Next(env, w, step), k) < Distributable(env, w, k)
  {
    hide LiveTable, Cranking, Next, Payouts;
    if !Cranking(env, w, step, k) {
      return;
    }
    var amount := Distributable(env, w, k);
    var next := Next(env, w, step);
    FixedPoint(amount, ws);
    KeepsRent(env, w, step, k, ws);
    if Sum(Payouts(amount, ws)) == 0 {
      forall x: Key ensures Bal(next.lamports, x) == Bal(w.lamports, x) {
        if x != k {
          CrankStep(env, w, step, k, ws, x);
          CreditAtMostSum(Payouts(amount, ws), x);
        } else {
          CrankStep(env, w, step, k, ws, OtherThan(k));
        }
      }
    } else {
      CrankStep(env, w, step, k, ws, OtherThan(k));
      assert Bal(next.lamports, k) != Bal(w.lamports, k);
    }
  }

  lemma KeepsRent(env: Env, w: World, step: Step, k: Key, ws: seq<Entry>)
    requires LiveTable(env, w, k, ws)
    ensures Bal(w.lamports, k) == env.splitterRent + Distributable(env, w, k)
    ensures Cranking(env, w, step, k) ==>
              Bal(Next(env, w, step).lamports, k) == env.splitterRent + Distributable(env, Next(env, w, step), k)
  {
    hide Handle, Weights, LoadSplitter, Inv, WellFormed;
    LiveTableFacts(env, w, k, ws);
    if Cranking(env, w, step, k) {
      TableStep(env, w, step, k, ws);
      LiveTableFacts(env, Next(env, w, step), k, ws);
    }
  }

  function OtherThan(k: Key): (other: Key)
    ensures other != k
  {
    assert SPL_NATIVE_MINT.bytes[0] != DEFAULT_KEY.bytes[0];
    if k == DEFAULT_KEY then SPL_NATIVE_MINT else DEFAULT_KEY
  }

  /** Nothing enters the splitter and its table stands still during the run. */
  ghost predicate Quiet(env: Env, w: World, steps: seq<Step>, k: Key)
    decreases |steps|
  {
    steps == [] ||
    ( && !Reconfiguring(env, w, steps[0], k)
      && Distributable(env, Next(env, w, steps[0]), k) <= Distributable(env, w, k)
      && Quiet(env, Next(env, w, steps[0]), steps[1..], k))
  }

  ghost function Moves(env: Env, w: World, steps: seq<Step>, k: Key): nat
    decreases |steps|
  {
    if steps == [] then 0 else
      (if Moving(env, w, steps[0], k) then 1 else 0) + Moves(env, Next(env, w, steps[0]), steps[1..], k)
  }

  /** Each moving crank costs a lamport, so there are no more of them than lamports to distribute. */
  lemma {:induction false} MovesAreBounded(env: Env, w: World, steps: seq<Step>, k: Key, ws: seq<Entry>)
    requires LiveTable(env, w, k, ws) && Foreign(ws, k) && Quiet(env, w, steps, k)
    ensures Moves(env, w, steps, k) + Distributable(env, After(env, w, steps), k) <= Distributable(env, w, k)
    decreases |steps|
  {
    hide LiveTable, Cranking, Next, Reconfiguring, Distributable;
    if steps != [] {
      TableStep(env, w, steps[0], k, ws);
      if Moving(env, w, steps[0], k) {
        MovingExactly(env, w, steps[0], k, ws);
      }
      MovesAreBounded(env, Next(env, w, steps[0]), steps[1..], k, ws);
    }
  }

  /** After one crank, with no deposits, at most n - 1 further cranks move anything. */
  lemma CrankingTerminates(env: Env, w: World, crank: Step, steps: seq<Step>, k: Key, ws: seq<Entry>)
    requires LiveTable(env, w, k, ws) && Foreign(ws, k)
    ensures Cranking(env, w, crank, k) && Quiet(env, Next(env, w, crank), steps, k) ==>
              Moves(env, Next(env, w, crank), steps, k) <= |ws| - 1
  {
    hide LiveTable, Next, Distributable, Moves, Quiet, Payouts, Outcome;
    if Cranking(env, w, crank, k) && Quiet(env, Next(env, w, crank), steps, k) {
      TableStep(env, w, crank, k, ws);
      CrankStep(env, w, crank, k, ws, OtherThan(k));
      MovesAreBounded(env, Next(env, w, crank), steps, k, ws);
    }
  }
}
