/**
  Balances, floor shares and the pay-out loop, for lamports and tokens alike.

  A distribution is a list of entries: as weights they carry shares out of
  10000, as payments they carry amounts.
 */
module Ledgers {
  import opened Base

  type Ledger = map<Key, u64>

  function Bal(ledger: Ledger, k: Key): u64 {
    if k in ledger then ledger[k] else 0
  }

  // ---------------------------------------------------------------- totals

  /** The sum of the balances of a set of accounts. */
  ghost function Supply(ledger: Ledger, ks: set<Key>): nat {
    if ks == {} then 0 else
      var k :| k in ks;
      Bal(ledger, k) + Supply(ledger, ks - {k})
  }

  lemma {:induction false} SupplyPick(ledger: Ledger, ks: set<Key>, k: Key)
    requires k in ks
    ensures Supply(ledger, ks) == Bal(ledger, k) + Supply(ledger, ks - {k})
    decreases ks
  {
    var c :| c in ks && Supply(ledger, ks) == Bal(ledger, c) + Supply(ledger, ks - {c});
    if c != k {
      SupplyPick(ledger, ks - {c}, k);
      SupplyPick(ledger, ks - {k}, c);
      assert ks - {c} - {k} == ks - {k} - {c};
    }
  }

  /** Two ledgers that agree on a set of accounts have the same supply there. */
  lemma {:induction false} SupplyAgree(l1: Ledger, l2: Ledger, ks: set<Key>)
    requires forall k :: k in ks ==> Bal(l1, k) == Bal(l2, k)
    ensures Supply(l1, ks) == Supply(l2, ks)
    decreases ks
  {
    if ks != {} {
      var k :| k in ks;
      SupplyPick(l1, ks, k);
      SupplyPick(l2, ks, k);
      SupplyAgree(l1, l2, ks - {k});
    }
  }

  lemma SupplyUpdate(ledger: Ledger, ks: set<Key>, k: Key, v: u64)
    requires k in ks
    ensures Supply(ledger[k := v], ks) == Supply(ledger, ks) - Bal(ledger, k) + v
  {
    SupplyPick(ledger, ks, k);
    SupplyPick(ledger[k := v], ks, k);
    SupplyAgree(ledger, ledger[k := v], ks - {k});
  }

  lemma {:induction false} SupplyZero(ledger: Ledger, ks: set<Key>)
    requires forall k :: k in ks ==> Bal(ledger, k) == 0
    ensures Supply(ledger, ks) == 0
    decreases ks
  {
    if ks != {} {
      var k :| k in ks;
      SupplyPick(ledger, ks, k);
      SupplyZero(ledger, ks - {k});
    }
  }

  /** Accounts without a balance do not count. */
  lemma SupplyWiden(ledger: Ledger, ks: set<Key>, more: set<Key>)
    requires ks <= more
    requires forall k :: k in more - ks ==> Bal(ledger, k) == 0
    ensures Supply(ledger, more) == Supply(ledger, ks)
    decreases more
  {
    if k :| k in more && k !in ks {
      SupplyPick(ledger, more, k);
      SupplyWiden(ledger, ks, more - {k});
    } else {
      assert more == ks;
    }
  }

  /** The supply of a whole ledger. */
  ghost function Total(ledger: Ledger): nat {
    Supply(ledger, ledger.Keys)
  }

  // --------------------------------------------------------------- entries

  datatype Entry = Entry(to: Key, units: nat)

  function Sum(es: seq<Entry>): nat {
    if es == [] then 0 else es[0].units + Sum(es[1..])
  }

  /** What one key gets from the entries that name it; entries may repeat a key. */
  function Credit(es: seq<Entry>, k: Key): nat {
    if es == [] then 0 else (if es[0].to == k then es[0].units else 0) + Credit(es[1..], k)
  }

  function Count(es: seq<Entry>, k: Key): nat {
    if es == [] then 0 else (if es[0].to == k then 1 else 0) + Count(es[1..], k)
  }

  lemma {:induction false} CreditAtMostSum(es: seq<Entry>, k: Key)
    ensures Credit(es, k) <= Sum(es)
  {
    if es != [] {
      CreditAtMostSum(es[1..], k);
    }
  }

  lemma {:induction false} CreditAtLeastEntry(es: seq<Entry>, i: nat)
    requires i < |es|
    ensures es[i].units <= Credit(es, es[i].to)
  {
    if i > 0 {
      CreditAtLeastEntry(es[1..], i - 1);
    }
  }

  lemma {:induction false} NoCreditWhenAbsent(es: seq<Entry>, k: Key)
    requires forall i :: 0 <= i < |es| ==> es[i].to != k
    ensures Credit(es, k) == 0 && Count(es, k) == 0
  {
    if es != [] {
      NoCreditWhenAbsent(es[1..], k);
    }
  }

  predicate Distinct(ks: seq<Key>) {
    forall i, j :: 0 <= i < j < |ks| ==> ks[i] != ks[j]
  }

  /** What all of `ks` get together. */
  function CreditAll(es: seq<Entry>, ks: seq<Key>): nat {
    if ks == [] then 0 else Credit(es, ks[0]) + CreditAll(es, ks[1..])
  }

  lemma {:induction false} CreditAllTail(es: seq<Entry>, ks: seq<Key>)
    requires es != [] && Distinct(ks)
    ensures CreditAll(es, ks) == CreditAll(es[1..], ks) + if es[0].to in ks then es[0].units else 0
  {
    if ks != [] {
      CreditAllTail(es, ks[1..]);
      assert ks == [ks[0]] + ks[1..];
    }
  }

  /** Entries add up the same way key by key as one by one. */
  lemma {:induction false} CreditPartition(es: seq<Entry>, ks: seq<Key>)
    requires Distinct(ks) && forall i :: 0 <= i < |es| ==> es[i].to in ks
    ensures CreditAll(es, ks) == Sum(es)
    decreases |es|
  {
    if es == [] {
      CreditAllNothing(ks);
    } else {
      CreditAllTail(es, ks);
      CreditPartition(es[1..], ks);
    }
  }

  lemma {:induction false} CreditAllNothing(ks: seq<Key>)
    ensures CreditAll([], ks) == 0
  {
    if ks != [] {
      CreditAllNothing(ks[1..]);
    }
  }

  /** The keys named, each once. */
  function Payees(es: seq<Entry>): seq<Key> {
    if es == [] then [] else
      var rest := Payees(es[1..]);
      if es[0].to in rest then rest else [es[0].to] + rest
  }

  lemma {:induction false} PayeesAreTheKeys(es: seq<Entry>)
    ensures Distinct(Payees(es))
    ensures forall k: Key :: k in Payees(es) <==> exists i :: 0 <= i < |es| && es[i].to == k
  {
    if es != [] {
      PayeesAreTheKeys(es[1..]);
      forall k: Key
        ensures k in Payees(es) <==> exists i :: 0 <= i < |es| && es[i].to == k
      {
        if i :| 0 <= i < |es| && es[i].to == k {
          assert i > 0 ==> es[1..][i - 1].to == k;
        }
        if j :| 0 <= j < |es[1..]| && es[1..][j].to == k {
          assert es[j + 1].to == k;
        }
      }
    }
  }

  lemma {:induction false} CreditRemove(es: seq<Entry>, i: nat, k: Key)
    requires i < |es|
    ensures Credit(es, k) == Credit(es[..i] + es[i + 1..], k) + (if es[i].to == k then es[i].units else 0)
  {
    var rest := es[..i] + es[i + 1..];
    if i == 0 {
      assert rest == es[1..];
    } else {
      CreditRemove(es[1..], i - 1, k);
      assert es[1..][..i - 1] + es[1..][i..] == rest[1..];
    }
  }

  // ----------------------------------------------------------- floor shares

  const TOTAL_SHARES: u16 := 10000

  function ShareOf(amount: nat, share: nat): nat {
    amount * share / 10000
  }

  lemma ShareBounds(amount: nat, share: nat)
    ensures 10000 * ShareOf(amount, share) <= amount * share <= 10000 * ShareOf(amount, share) + 9999
  {
  }

  lemma Distributes(a: int, b: int, c: int)
    ensures a * (b + c) == a * b + a * c
  {
  }

  lemma ShareMonotone(amount: nat, s: nat, t: nat)
    requires s <= t
    ensures ShareOf(amount, s) <= ShareOf(amount, t)
  {
    Distributes(amount, s, t - s);
    DivMonotone(amount * s, amount * t);
  }

  lemma DivMonotone(x: nat, y: nat)
    requires x <= y
    ensures x / 10000 <= y / 10000
  {
  }

  /** A share out of 10000 never exceeds the amount. */
  lemma ShareAtMost(amount: nat, share: nat)
    requires share <= 10000
    ensures ShareOf(amount, share) <= amount
  {
    ShareMonotone(amount, share, 10000);
  }

  /** Turns weights out of 10000 into payments from `amount`. */
  function Payouts(amount: nat, weights: seq<Entry>): (ps: seq<Entry>)
    ensures |ps| == |weights|
    ensures forall i :: 0 <= i < |ps| ==> ps[i] == Entry(weights[i].to, ShareOf(amount, weights[i].units))
  {
    if weights == [] then [] else
      [Entry(weights[0].to, ShareOf(amount, weights[0].units))] + Payouts(amount, weights[1..])
  }

  lemma {:induction false} PayoutsTail(amount: nat, weights: seq<Entry>)
    requires weights != []
    ensures Payouts(amount, weights)[1..] == Payouts(amount, weights[1..])
  {
  }

  /** The rounding error of a whole distribution is less than one unit per entry. */
  lemma {:induction false} PayoutBounds(amount: nat, weights: seq<Entry>)
    ensures var paid := Sum(Payouts(amount, weights));
            10000 * paid <= amount * Sum(weights) <= 10000 * paid + 9999 * |weights|
  {
    hide ShareOf, Payouts;
    if weights == [] {
      assert Payouts(amount, weights) == [];
    } else {
      PayoutsTail(amount, weights);
      PayoutBounds(amount, weights[1..]);
      ShareBounds(amount, weights[0].units);
      Distributes(amount, weights[0].units, Sum(weights[1..]));
    }
  }

  /** The same per key: the error is less than one unit per entry naming the key. */
  lemma {:induction false} CreditBounds(amount: nat, weights: seq<Entry>, k: Key)
    ensures var paid := Credit(Payouts(amount, weights), k);
            10000 * paid <= amount * Credit(weights, k) <= 10000 * paid + 9999 * Count(weights, k)
  {
    hide ShareOf, Payouts;
    if weights == [] {
      assert Payouts(amount, weights) == [];
    } else {
      PayoutsTail(amount, weights);
      CreditBounds(amount, weights[1..], k);
      ShareBounds(amount, weights[0].units);
      Distributes(amount, weights[0].units, Credit(weights[1..], k));
    }
  }

  lemma PayoutsRemove(amount: nat, vs: seq<Entry>, i: nat, k: Key)
    requires i < |vs|
    ensures Credit(Payouts(amount, vs), k)
            == Credit(Payouts(amount, vs[..i] + vs[i + 1..]), k) + (if vs[i].to == k then ShareOf(amount, vs[i].units) else 0)
  {
    hide ShareOf, Credit;
    var ps := Payouts(amount, vs);
    CreditRemove(ps, i, k);
    assert Payouts(amount, vs[..i] + vs[i + 1..]) == ps[..i] + ps[i + 1..];
  }

  lemma MultisetRemove<T>(vs: seq<T>, i: nat)
    requires i < |vs|
    ensures multiset(vs[..i] + vs[i + 1..]) == multiset(vs) - multiset{vs[i]}
  {
    assert vs == vs[..i] + [vs[i]] + vs[i + 1..];
  }

  /** Reordering a table changes nobody's payout. */
  lemma {:induction false} PayoutsPermute(amount: nat, ws: seq<Entry>, vs: seq<Entry>, k: Key)
    requires multiset(ws) == multiset(vs)
    ensures Credit(Payouts(amount, ws), k) == Credit(Payouts(amount, vs), k)
    decreases |ws|
  {
    hide Payouts, Credit, ShareOf;
    if ws == [] {
      assert |vs| == |multiset(vs)| == 0;
    } else {
      var i := IndexOf(vs, ws[0]);
      PayoutsRemove(amount, vs, i, k);
      PayoutsRemove(amount, ws, 0, k);
      var wr, vr := ws[..0] + ws[0 + 1..], vs[..i] + vs[i + 1..];
      assert multiset(wr) == multiset(vr) by {
        MultisetRemove(vs, i);
        MultisetRemove(ws, 0);
      }
      PayoutsPermute(amount, wr, vr, k);
    }
  }

  lemma IndexOf<T>(vs: seq<T>, x: T) returns (i: nat)
    requires x in multiset(vs)
    ensures i < |vs| && vs[i] == x
  {
    i :| 0 <= i < |vs| && vs[i] == x;
  }

  /** A complete distribution overspends by nothing and leaves at most n - 1 units. */
  lemma DustBound(amount: nat, weights: seq<Entry>)
    requires Sum(weights) == 10000
    ensures Sum(Payouts(amount, weights)) <= amount
    ensures amount - Sum(Payouts(amount, weights)) <= |weights| - 1
  {
    PayoutBounds(amount, weights);
  }

  lemma {:induction false} SumZero(es: seq<Entry>)
    ensures Sum(es) == 0 <==> forall i :: 0 <= i < |es| ==> es[i].units == 0
  {
    if es != [] {
      SumZero(es[1..]);
      assert (forall i :: 0 <= i < |es| ==> es[i].units == 0) ==>
          forall i :: 0 <= i < |es[1..]| ==> es[1..][i].units == 0;
      if Sum(es) == 0 {
        forall i | 0 <= i < |es| ensures es[i].units == 0 {
          if i > 0 {
            assert es[i] == es[1..][i - 1];
          }
        }
      }
    }
  }

  /** A distribution moves nothing exactly when every product stays below 10000. */
  lemma {:induction false} FixedPoint(amount: nat, weights: seq<Entry>)
    ensures Sum(Payouts(amount, weights)) == 0 <==>
            forall i :: 0 <= i < |weights| ==> amount * weights[i].units < 10000
  {
    var ps := Payouts(amount, weights);
    SumZero(ps);
    forall i | 0 <= i < |weights|
      ensures ps[i].units == 0 <==> amount * weights[i].units < 10000
    {
      ShareBounds(amount, weights[i].units);
    }
  }

  /** Enough units to give one per entry always pay somebody. */
  lemma Liveness(amount: nat, weights: seq<Entry>) returns (i: nat)
    requires Sum(weights) == 10000 && amount >= |weights|
    ensures i < |weights| && Payouts(amount, weights)[i].units >= 1
  {
    DustBound(amount, weights);
    SumZero(Payouts(amount, weights));
    i :| 0 <= i < |weights| && Payouts(amount, weights)[i].units != 0;
  }

  /** Equal shares among `ks`, the remainder going to the last. */
  function EvenTable(ks: seq<Key>, rest: nat, each: nat): (ws: seq<Entry>)
    requires each > 0
    ensures |ws| == |ks|
    ensures forall i :: 0 <= i < |ws| ==> ws[i].to == ks[i] && each <= ws[i].units <= each + rest
  {
    if ks == [] then []
    else [Entry(ks[0], if |ks| == 1 then each + rest else each)] + EvenTable(ks[1..], rest, each)
  }

  lemma {:induction false} EvenTableSum(ks: seq<Key>, rest: nat, each: nat)
    requires each > 0 && ks != []
    ensures Sum(EvenTable(ks, rest, each)) == |ks| * each + rest
  {
    var ws := EvenTable(ks, rest, each);
    if |ks| == 1 {
      assert ws == [Entry(ks[0], each + rest)] && Sum(ws[1..]) == 0;
    } else {
      EvenTableSum(ks[1..], rest, each);
      assert ws[1..] == EvenTable(ks[1..], rest, each);
      assert |ks| * each == each + |ks[1..]| * each;
    }
  }

  /** Both bounds are sharp: for every number of recipients some complete table pays nobody out of n - 1 units. */
  lemma DustBoundIsSharp(ks: seq<Key>) returns (ws: seq<Entry>)
    requires 1 <= |ks| <= 10
    ensures |ws| == |ks| && Sum(ws) == 10000
    ensures forall i :: 0 <= i < |ws| ==> ws[i].to == ks[i] && ws[i].units > 0
    ensures Sum(Payouts(|ks| - 1, ws)) == 0
  {
    hide Sum, Payouts, EvenTable;
    var n := |ks|;
    var each, rest := EvenShares(n);
    ws := EvenTable(ks, rest, each);
    EvenTableSum(ks, rest, each);
    forall i | 0 <= i < n ensures (n - 1) * ws[i].units < 10000 {
      EvenShareIsSmall(n, each + rest, ws[i].units);
    }
    FixedPoint(n - 1, ws);
  }

  lemma EvenShareIsSmall(n: nat, most: nat, share: nat)
    requires 1 <= n && share <= most && (n - 1) * most < 10000
    ensures (n - 1) * share < 10000
  {
    Distributes(n - 1, share, most - share);
  }

  lemma EvenShares(n: nat) returns (each: nat, rest: nat)
    requires 1 <= n <= 10
    ensures each > 0 && n * each + rest == 10000 && (n - 1) * (each + rest) < 10000
  {
    each, rest := 10000 / n, 10000 % n;
    if n == 1 {
    } else if n == 2 {
    } else if n == 3 {
    } else if n == 4 {
    } else if n == 5 {
    } else if n == 6 {
    } else if n == 7 {
    } else if n == 8 {
    } else if n == 9 {
    } else {
    }
  }

  // ---------------------------------------------------------- the pay-out loop

  /**
    The debit/credit loop: each nonzero amount leaves the source and then reaches
    its destination, which may be the source itself. A subtraction below zero or
    an addition past 64 bits traps.
   */
  function Pay(ledger: Ledger, src: Key, ps: seq<Entry>): Option<Ledger>
    decreases |ps|
  {
    if ps == [] then Some(ledger)
    else if ps[0].units == 0 then Pay(ledger, src, ps[1..])
    else match Move(ledger, src, ps[0].to, ps[0].units)
      case None => None
      case Some(moved) => Pay(moved, src, ps[1..])
  }

  function Move(ledger: Ledger, src: Key, dst: Key, amount: nat): Option<Ledger> {
    if amount > Bal(ledger, src) then None else
      var debited := ledger[src := Bal(ledger, src) - amount];
      if Bal(debited, dst) + amount >= U64_LIMIT then None
      else Some(debited[dst := Bal(debited, dst) + amount])
  }

  /** All payments at once: the reference the loop is compared with. */
  ghost predicate PaidAtOnce(before: Ledger, after: Ledger, src: Key, ps: seq<Entry>) {
    forall k: Key :: Bal(after, k) == Bal(before, k) + Credit(ps, k) - (if k == src then Sum(ps) else 0)
  }

  ghost predicate Fits(ledger: Ledger, src: Key, ps: seq<Entry>) {
    forall k: Key :: k != src ==> Bal(ledger, k) + Credit(ps, k) < U64_LIMIT
  }

  /**
    If the source can cover the payments, the loop succeeds exactly when every
    final balance fits, and then it equals the simultaneous payment.
   */
  lemma {:induction false} PayIsSimultaneous(ledger: Ledger, src: Key, ps: seq<Entry>)
    requires Sum(ps) <= Bal(ledger, src)
    ensures Pay(ledger, src, ps).Some? <==> Fits(ledger, src, ps)
    ensures Pay(ledger, src, ps).Some? ==> PaidAtOnce(ledger, Pay(ledger, src, ps).value, src, ps)
    decreases |ps|
  {
    if ps == [] {
    } else if ps[0].units == 0 {
      PayIsSimultaneous(ledger, src, ps[1..]);
      assert forall k: Key :: Credit(ps, k) == Credit(ps[1..], k);
    } else {
      match Move(ledger, src, ps[0].to, ps[0].units) {
        case None =>
          var d := ps[0].to;
          assert Bal(ledger, d) + Credit(ps, d) >= U64_LIMIT;
        case Some(moved) =>
          PayIsSimultaneous(moved, src, ps[1..]);
          assert forall k: Key :: Credit(ps, k) == (if ps[0].to == k then ps[0].units else 0) + Credit(ps[1..], k);
          assert forall k: Key :: k != src ==>
              Bal(moved, k) + Credit(ps[1..], k) == Bal(ledger, k) + Credit(ps, k);
      }
    }
  }

  /** No traffic outside the source and the destinations named. */
  lemma {:induction false} PayFrame(ledger: Ledger, src: Key, ps: seq<Entry>, k: Key)
    requires Pay(ledger, src, ps).Some?
    requires k != src
    ensures Bal(Pay(ledger, src, ps).value, k) >= Bal(ledger, k)
    ensures (forall i :: 0 <= i < |ps| ==> ps[i].to != k) ==> Bal(Pay(ledger, src, ps).value, k) == Bal(ledger, k)
    decreases |ps|
  {
    if ps == [] {
    } else if ps[0].units == 0 {
      PayFrame(ledger, src, ps[1..], k);
    } else {
      var moved := Move(ledger, src, ps[0].to, ps[0].units).value;
      PayFrame(moved, src, ps[1..], k);
    }
  }

  lemma MoveConserves(ledger: Ledger, src: Key, dst: Key, amount: nat, ks: set<Key>)
    requires Move(ledger, src, dst, amount).Some? && src in ks && dst in ks
    ensures Supply(Move(ledger, src, dst, amount).value, ks) == Supply(ledger, ks)
  {
    var debited := ledger[src := Bal(ledger, src) - amount];
    SupplyUpdate(ledger, ks, src, Bal(ledger, src) - amount);
    SupplyUpdate(debited, ks, dst, Bal(debited, dst) + amount);
  }

  /** Money is only moved: any group of accounts holding source and destinations keeps its supply. */
  lemma {:induction false} PayConserves(ledger: Ledger, src: Key, ps: seq<Entry>, ks: set<Key>)
    requires Pay(ledger, src, ps).Some?
    requires src in ks && forall i :: 0 <= i < |ps| && ps[i].units > 0 ==> ps[i].to in ks
    ensures Supply(Pay(ledger, src, ps).value, ks) == Supply(ledger, ks)
    decreases |ps|
  {
    if ps == [] {
    } else if ps[0].units == 0 {
      PayConserves(ledger, src, ps[1..], ks);
    } else {
      MoveConserves(ledger, src, ps[0].to, ps[0].units, ks);
      PayConserves(Move(ledger, src, ps[0].to, ps[0].units).value, src, ps[1..], ks);
    }
  }

  /** What the payments bring to a group of accounts. */
  function CreditIn(es: seq<Entry>, ks: set<Key>): nat {
    if es == [] then 0 else (if es[0].to in ks then es[0].units else 0) + CreditIn(es[1..], ks)
  }

  lemma {:induction false} CreditInPick(es: seq<Entry>, ks: set<Key>, k: Key)
    requires k in ks
    ensures CreditIn(es, ks) == Credit(es, k) + CreditIn(es, ks - {k})
  {
    if es != [] {
      CreditInPick(es[1..], ks, k);
    }
  }

  lemma {:induction false} CreditInNobody(es: seq<Entry>)
    ensures CreditIn(es, {}) == 0
  {
    if es != [] {
      CreditInNobody(es[1..]);
    }
  }

  /** What a payment does to the supply of any group of accounts. */
  lemma {:induction false} PaidAtOnceByGroup(before: Ledger, after: Ledger, src: Key, ps: seq<Entry>, ks: set<Key>)
    requires PaidAtOnce(before, after, src, ps)
    ensures Supply(after, ks) == Supply(before, ks) + CreditIn(ps, ks) - (if src in ks then Sum(ps) else 0)
    decreases ks
  {
    hide Sum, CreditIn, Credit;
    if ks == {} {
      CreditInNobody(ps);
    } else {
      var k :| k in ks;
      SupplyPick(before, ks, k);
      SupplyPick(after, ks, k);
      CreditInPick(ps, ks, k);
      PaidAtOnceByGroup(before, after, src, ps, ks - {k});
    }
  }

  lemma MoveByGroup(ledger: Ledger, src: Key, dst: Key, amount: nat, ks: set<Key>)
    requires Move(ledger, src, dst, amount).Some?
    ensures Supply(Move(ledger, src, dst, amount).value, ks)
            == Supply(ledger, ks) + (if dst in ks then amount else 0) - (if src in ks then amount else 0)
  {
    var ps := [Entry(dst, amount)];
    assert ps[1..] == [];
    assert CreditIn(ps, ks) == (if dst in ks then amount else 0) + CreditIn([], ks);
    assert Sum(ps) == amount + Sum([]);
    assert forall k: Key :: Credit(ps, k) == (if dst == k then amount else 0) + Credit(ps[1..], k);
    PaidAtOnceByGroup(ledger, Move(ledger, src, dst, amount).value, src, ps, ks);
  }

  /** A run of payments that goes through does so one payment after the other. */
  lemma {:induction false} PayPrefix(ledger: Ledger, src: Key, ps: seq<Entry>, i: nat)
    requires i < |ps| && ps[i].units > 0 && Pay(ledger, src, ps).Some?
    ensures Pay(ledger, src, ps[..i]).Some?
    ensures var before := Pay(ledger, src, ps[..i]).value;
            Move(before, src, ps[i].to, ps[i].units).Some? &&
            Pay(ledger, src, ps[..i + 1]) == Move(before, src, ps[i].to, ps[i].units)
    decreases i
  {
    hide Move;
    if i == 0 {
      assert ps[..1][1..] == [];
    } else {
      assert ps[..i][1..] == ps[1..][..i - 1] && ps[..i + 1][1..] == ps[1..][..i];
      var next := if ps[0].units == 0 then ledger else Move(ledger, src, ps[0].to, ps[0].units).value;
      PayPrefix(next, src, ps[1..], i - 1);
    }
  }

  lemma TotalIsSupply(ledger: Ledger, ks: set<Key>)
    requires ledger.Keys <= ks
    ensures Total(ledger) == Supply(ledger, ks)
  {
    SupplyWiden(ledger, ledger.Keys, ks);
  }

  lemma {:induction false} EntryAtMostSum(es: seq<Entry>, i: nat)
    requires i < |es|
    ensures es[i].units <= Sum(es)
  {
    if i > 0 {
      EntryAtMostSum(es[1..], i - 1);
    }
  }

  /** A supply that fits 64 bits rules the overflow trap out. */
  lemma SupplyFits(ledger: Ledger, src: Key, ps: seq<Entry>, ks: set<Key>)
    requires src in ks && forall i :: 0 <= i < |ps| ==> ps[i].to in ks
    requires Supply(ledger, ks) < U64_LIMIT && Sum(ps) <= Bal(ledger, src)
    ensures Fits(ledger, src, ps)
  {
    forall k: Key | k != src
      ensures Bal(ledger, k) + Credit(ps, k) < U64_LIMIT
    {
      if k in ks {
        SupplyPick(ledger, ks, src);
        SupplyPick(ledger, ks - {src}, k);
        CreditAtMostSum(ps, k);
      } else {
        NoCreditWhenAbsent(ps, k);
      }
    }
  }
}
