/** The exact effect of one `DistributeSOL`, and what its event records say. */
module Cranks {
  import opened Base
  import opened Ledgers
  import opened Records
  import opened Borsh
  import opened Worlds
  import opened Invariant

  /** Everything above rent exemption. */
  function Distributable(env: Env, w: World, k: Key): nat {
    if Bal(w.lamports, k) > env.splitterRent then Bal(w.lamports, k) - env.splitterRent else 0
  }

  /** What a crank owes under this table. */
  function Owed(env: Env, w: World, k: Key, s: Splitter): seq<Entry> {
    Payouts(Distributable(env, w, k), Weights(s.Active()))
  }

  lemma SharesBelowTotal(s: Splitter)
    requires TableWellFormed(s)
    ensures forall i :: 0 <= i < |Weights(s.Active())| ==> Weights(s.Active())[i].units <= 10000
  {
    var ws := Weights(s.Active());
    forall i | 0 <= i < |ws| ensures ws[i].units <= 10000 {
      EntryAtMostSum(ws, i);
    }
  }

  /** With shares up to 10000 the 64-bit cast drops nothing. */
  lemma CastIsLossless(amount: u64, weights: seq<Entry>)
    requires forall i :: 0 <= i < |weights| ==> weights[i].units <= 10000
    ensures Cast(Payouts(amount, weights)) == Payouts(amount, weights)
  {
    hide ShareOf;
    forall i | 0 <= i < |weights|
      ensures ShareOf(amount, weights[i].units) % U64_LIMIT == ShareOf(amount, weights[i].units)
    {
      ShareAtMost(amount, weights[i].units);
    }
  }

  lemma PaymentsAreOwed(env: Env, w: World, k: Key)
    requires SplitterOk(env, w, k)
    ensures var s := LoadSplitter(w, k).value;
            && SolPayments(env, w, k, s) == Owed(env, w, k, s)
            && Sum(Owed(env, w, k, s)) <= Distributable(env, w, k)
            && Distributable(env, w, k) - Sum(Owed(env, w, k, s)) <= s.numRecipients - 1
  {
    var s := LoadSplitter(w, k).value;
    SharesBelowTotal(s);
    CastIsLossless(Distributable(env, w, k), Weights(s.Active()));
    DustBound(Distributable(env, w, k), Weights(s.Active()));
  }

  /**
    The crank on a live splitter: it succeeds exactly when there is something to
    pay, the accounts are the table's and no balance would overflow; and then
    the debit/credit loop has paid everybody at once, aliases and all.
   */
  lemma CrankIsSimultaneous(env: Env, w: World, metas: seq<Meta>)
    requires metas != [] && SplitterOk(env, w, metas[0].key)
    ensures var k := metas[0].key;
            var s := LoadSplitter(w, k).value;
            var r := HandleDistributeSol(env, w, metas);
            && (r.Ok? <==> Distributable(env, w, k) > 0 && InTableOrder(s, metas) && Fits(w.lamports, k, Owed(env, w, k, s)))
            && (r.Ok? ==> && PaidAtOnce(w.lamports, r.value.lamports, k, Owed(env, w, k, s))
                          && r.value.log == w.log + Events(k, Addresses(s.Active()), SolPayments(env, w, k, s), false))
  {
    hide LoadSplitter, Weights, Pay, Fits, PaidAtOnce, Events, Payouts;
    var k := metas[0].key;
    var s := LoadSplitter(w, k).value;
    PaymentsAreOwed(env, w, k);
    if Distributable(env, w, k) > 0 {
      PayIsSimultaneous(w.lamports, k, Owed(env, w, k, s));
    }
  }

  /** After a crank the splitter keeps its rent, and at most n - 1 lamports more unless it pays itself. */
  lemma CrankLeavesDust(env: Env, w: World, metas: seq<Meta>)
    requires metas != [] && SplitterOk(env, w, metas[0].key) && HandleDistributeSol(env, w, metas).Ok?
    ensures var k := metas[0].key;
            var s := LoadSplitter(w, k).value;
            var after := HandleDistributeSol(env, w, metas).value;
            && Bal(after.lamports, k) >= env.splitterRent
            && Distributable(env, after, k)
               == Distributable(env, w, k) - Sum(Owed(env, w, k, s)) + Credit(Owed(env, w, k, s), k)
            && (!Listed(s.Active(), k) ==> Distributable(env, after, k) <= s.numRecipients - 1)
  {
    hide HandleDistributeSol, LoadSplitter, Payouts;
    var k := metas[0].key;
    var s := LoadSplitter(w, k).value;
    CrankIsSimultaneous(env, w, metas);
    PaymentsAreOwed(env, w, k);
    if !Listed(s.Active(), k) {
      NoCreditWhenAbsent(Owed(env, w, k, s), k) by {
        assert forall i :: 0 <= i < |Owed(env, w, k, s)| ==> Owed(env, w, k, s)[i].to == s.Active()[i].address;
      }
    }
  }

  /** No lamport is made or lost, however recipients and splitter coincide. */
  lemma CrankConserves(env: Env, w: World, metas: seq<Meta>)
    ensures HandleDistributeSol(env, w, metas).Ok? ==>
              Total(HandleDistributeSol(env, w, metas).value.lamports) == Total(w.lamports)
  {
    hide SolGuards, SolPayments, Total, Pay, Events;
    if HandleDistributeSol(env, w, metas).Ok? {
      var s := SolGuards(env, w, metas).value;
      PaysConserve(w.lamports, metas[0].key, SolPayments(env, w, metas[0].key, s));
    }
  }

  lemma PaysConserve(ledger: Ledger, src: Key, ps: seq<Entry>)
    requires Pay(ledger, src, ps).Some?
    ensures Total(Pay(ledger, src, ps).value) == Total(ledger)
  {
    var after := Pay(ledger, src, ps).value;
    var ks := ledger.Keys + after.Keys + {src} + (set i | 0 <= i < |ps| :: ps[i].to);
    PayConserves(ledger, src, ps, ks);
    TotalIsSupply(ledger, ks);
    TotalIsSupply(after, ks);
  }

  /** While the whole supply fits 64 bits, overflow never stops a crank. */
  lemma CrankNeverOverflows(env: Env, w: World, metas: seq<Meta>)
    requires metas != [] && SplitterOk(env, w, metas[0].key) && Total(w.lamports) < U64_LIMIT
    ensures HandleDistributeSol(env, w, metas).Ok? <==>
              && Distributable(env, w, metas[0].key) > 0
              && InTableOrder(LoadSplitter(w, metas[0].key).value, metas)
  {
    hide HandleDistributeSol, LoadSplitter, Weights, Payouts, Fits;
    var k := metas[0].key;
    var s := LoadSplitter(w, k).value;
    var ps := Owed(env, w, k, s);
    CrankIsSimultaneous(env, w, metas);
    PaymentsAreOwed(env, w, k);
    var ks := w.lamports.Keys + {k} + (set i | 0 <= i < |ps| :: ps[i].to);
    TotalIsSupply(w.lamports, ks);
    SupplyFits(w.lamports, k, ps, ks);
  }

  /** Enough for one lamport each always pays somebody. */
  lemma CrankIsLive(env: Env, w: World, metas: seq<Meta>) returns (i: nat)
    requires metas != [] && SplitterOk(env, w, metas[0].key)
    requires Distributable(env, w, metas[0].key) >= LoadSplitter(w, metas[0].key).value.numRecipients
    ensures HandleDistributeSol(env, w, metas).Ok? ==>
            var k := metas[0].key;
            var s := LoadSplitter(w, k).value;
            var after := HandleDistributeSol(env, w, metas).value;
            && i < s.numRecipients
            && (s.recipients[i].address != k ==>
                  Bal(after.lamports, s.recipients[i].address) >= Bal(w.lamports, s.recipients[i].address) + 1)
  {
    hide HandleDistributeSol, LoadSplitter, Payouts;
    var k := metas[0].key;
    var s := LoadSplitter(w, k).value;
    CrankIsSimultaneous(env, w, metas);
    i := Liveness(Distributable(env, w, k), Weights(s.Active()));
    CreditAtLeastEntry(Owed(env, w, k, s), i);
  }

  // ------------------------------------------------------------------ events

  /** What an indexer recovers from a stretch of the log. */
  function Reported(log: seq<seq<byte>>): seq<Entry> {
    if log == [] then [] else
      match DecodeEvent(log[0])
      case None => Reported(log[1..])
      case Some(e) => [Entry(e.recipient, e.amount)] + Reported(log[1..])
  }

  /** The nonzero payments, in order, under the names they are reported by. */
  function Nonzero(names: seq<Key>, ps: seq<Entry>): seq<Entry>
    requires |names| == |ps|
  {
    if ps == [] then [] else
      (if ps[0].units == 0 then [] else [Entry(names[0], ps[0].units)]) + Nonzero(names[1..], ps[1..])
  }

  /** The log lists exactly the nonzero payments in order, and adds up to everything sent. */
  lemma {:induction false} EventsReportPayments(splitter: Key, names: seq<Key>, ps: seq<Payment>, isToken: bool)
    requires |names| == |ps|
    ensures Reported(Events(splitter, names, ps, isToken)) == Nonzero(names, ps)
    ensures Sum(Nonzero(names, ps)) == Sum(ps)
  {
    hide EncodeEvent, DecodeEvent;
    if ps != [] {
      EventsReportPayments(splitter, names[1..], ps[1..], isToken);
      var rest := Events(splitter, names[1..], ps[1..], isToken);
      if ps[0].units == 0 {
        assert Events(splitter, names, ps, isToken) == [] + rest == rest;
        assert Nonzero(names, ps) == [] + Nonzero(names[1..], ps[1..]) == Nonzero(names[1..], ps[1..]);
      } else {
        var e := Event(splitter, names[0], ps[0].units, isToken);
        EventRoundTrip(e);
        assert ([EncodeEvent(e)] + rest)[1..] == rest;
        assert Nonzero(names, ps)[1..] == Nonzero(names[1..], ps[1..]);
      }
    }
  }

  /** Every record of the log is an event of this splitter and this kind. */
  ghost predicate EventsOf(log: seq<seq<byte>>, splitter: Key, isToken: bool) {
    forall i :: 0 <= i < |log| ==>
      var e := DecodeEvent(log[i]); e.Some? && e.value.splitter == splitter && e.value.isToken == isToken
  }

  lemma {:induction false} EventsAreOf(splitter: Key, names: seq<Key>, ps: seq<Payment>, isToken: bool)
    requires |names| == |ps|
    ensures EventsOf(Events(splitter, names, ps, isToken), splitter, isToken)
  {
    hide EncodeEvent, DecodeEvent;
    if ps != [] {
      EventsAreOf(splitter, names[1..], ps[1..], isToken);
      EventRoundTrip(Event(splitter, names[0], ps[0].units, isToken));
    }
  }

  lemma {:induction false} NonzeroCredits(names: seq<Key>, ps: seq<Entry>, a: Key)
    requires |names| == |ps| && forall i :: 0 <= i < |ps| ==> names[i] == ps[i].to
    ensures Credit(Nonzero(names, ps), a) == Credit(ps, a)
  {
    if ps != [] {
      NonzeroCredits(names[1..], ps[1..], a);
      if ps[0].units == 0 {
        assert Nonzero(names, ps) == Nonzero(names[1..], ps[1..]);
      } else {
        assert Nonzero(names, ps)[1..] == Nonzero(names[1..], ps[1..]);
      }
    }
  }

  /**
    A crank's log is the splitter's SOL events for the nonzero payments in order,
    and reading it gives every other account's gain to the lamport.
   */
  lemma CrankLogExplainsBalances(env: Env, w: World, metas: seq<Meta>, a: Key)
    requires metas != [] && SplitterOk(env, w, metas[0].key) && a != metas[0].key
    ensures HandleDistributeSol(env, w, metas).Ok? ==>
            var after := HandleDistributeSol(env, w, metas).value;
            && w.log <= after.log
            && EventsOf(after.log[|w.log|..], metas[0].key, false)
            && Reported(after.log[|w.log|..])
               == Nonzero(Addresses(LoadSplitter(w, metas[0].key).value.Active()),
                          Owed(env, w, metas[0].key, LoadSplitter(w, metas[0].key).value))
            && Bal(after.lamports, a) - Bal(w.lamports, a) == Credit(Reported(after.log[|w.log|..]), a)
  {
    hide HandleDistributeSol, LoadSplitter, Events, EncodeEvent, DecodeEvent;
    var k := metas[0].key;
    var s := LoadSplitter(w, k).value;
    var ps := SolPayments(env, w, k, s);
    var names := Addresses(s.Active());
    CrankIsSimultaneous(env, w, metas);
    PaymentsAreOwed(env, w, k);
    EventsReportPayments(k, names, ps, false);
    EventsAreOf(k, names, ps, false);
    NonzeroCredits(names, ps, a);
    if !HandleDistributeSol(env, w, metas).Ok? {
      return;
    }
    var after := HandleDistributeSol(env, w, metas).value;
    assert after.log[|w.log|..] == Events(k, names, ps, false);
  }
}
