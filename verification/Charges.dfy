/**
  What a list of items costs and brings, told from the items and the fee policies alone: the reference
  the writes of the processors are measured against.
*/
module Charges {
  import opened Feeers
  import opened StateKeys
  import opened Facts
  import opened AmountStates
  import opened Ledgers
  import opened Effects

  /** The amounts in currency c. */
  function Total(ams: seq<Amount>, c: CurrencyID): int {
    if ams == [] then 0
    else
      var am := ams[|ams| - 1];
      Total(ams[..|ams| - 1], c) + if am.cid == c then am.big else 0
  }

  /** What a policy takes for the amounts in its currency c; a negative fee counts as none. */
  function Fees(feeer: Feeer, ams: seq<Amount>, c: CurrencyID): int {
    if ams == [] then 0
    else
      var am := ams[|ams| - 1];
      Fees(feeer, ams[..|ams| - 1], c) + if am.cid == c && feeer.Fee(am.big) > 0 then feeer.Fee(am.big) else 0
  }

  function TotalOf(ps: seq<Payment>, c: CurrencyID): int {
    if ps == [] then 0 else TotalOf(ps[..|ps| - 1], c) + Total(ps[|ps| - 1].amounts, c)
  }

  function FeesFor(feeer: Feeer, ps: seq<Payment>, c: CurrencyID): int {
    if ps == [] then 0 else FeesFor(feeer, ps[..|ps| - 1], c) + Fees(feeer, ps[|ps| - 1].amounts, c)
  }

  /** What the items bring to the balance of k. */
  function Received(ps: seq<Payment>, k: BalanceKey): int {
    if ps == [] then 0
    else
      var p := ps[|ps| - 1];
      Received(ps[..|ps| - 1], k) + if p.to == k.addr then Total(p.amounts, k.cid) else 0
  }

  /** The fees for the items in currency c; an unregistered currency has no policy. */
  function FeesIn(cp: Designs, ps: seq<Payment>, c: CurrencyID): int {
    if c in cp then FeesFor(cp[c].policy.feeer, ps, c) else 0
  }

  ghost predicate Mentions(ps: seq<Payment>, c: CurrencyID) {
    exists p, am :: p in ps && am in p.amounts && am.cid == c
  }

  // ---------------------------------------------------------------- the payments one by one

  lemma CurrenciesMentioned(ps: seq<Payment>, c: CurrencyID)
    ensures c in CurrenciesOf(Flatten(ps)) <==> Mentions(ps, c)
  {
    if c in CurrenciesOf(Flatten(ps)) {
      var pay :| pay in Flatten(ps) && pay.am.cid == c;
      FlattenMeaning(ps, pay);
    }
    if Mentions(ps, c) {
      var p, am :| p in ps && am in p.amounts && am.cid == c;
      FlattenContains(ps, p, am);
    }
  }

  lemma {:induction false} OwedConcat(cp: Designs, xs: seq<Pay>, ys: seq<Pay>, c: CurrencyID)
    ensures Owed(cp, xs + ys, c) == Owed(cp, xs, c) + Owed(cp, ys, c)
    ensures FeesOwed(cp, xs + ys, c) == FeesOwed(cp, xs, c) + FeesOwed(cp, ys, c)
  {
    hide FeeOn;
    if ys == [] {
      assert xs + ys == xs;
    } else {
      OwedConcat(cp, xs, ys[..|ys| - 1], c);
      assert (xs + ys)[..|xs + ys| - 1] == xs + ys[..|ys| - 1];
    }
  }

  /** What the payments of one item owe in currency c, whoever they go to. */
  lemma {:induction false} PaysOwed(cp: Designs, p: Payment, c: CurrencyID)
    ensures FeesOwed(cp, PaysOf(p), c) == if c in cp then Fees(cp[c].policy.feeer, p.amounts, c) else 0
    ensures Owed(cp, PaysOf(p), c) == Total(p.amounts, c) + FeesOwed(cp, PaysOf(p), c)
    decreases |p.amounts|
  {
    if p.amounts != [] {
      var q := Payment(p.to, p.amounts[..|p.amounts| - 1]);
      PaysOwed(cp, q, c);
      assert PaysOf(p)[..|PaysOf(p)| - 1] == PaysOf(q);
    }
  }

  /** What the sender of a list of items owes: the amounts, and the fees. */
  lemma {:induction false} OwedMeaning(cp: Designs, ps: seq<Payment>, c: CurrencyID)
    ensures FeesOwed(cp, Flatten(ps), c) == FeesIn(cp, ps, c)
    ensures Owed(cp, Flatten(ps), c) == TotalOf(ps, c) + FeesIn(cp, ps, c)
  {
    if ps != [] {
      var front, last := ps[..|ps| - 1], ps[|ps| - 1];
      OwedMeaning(cp, front, c);
      PaysOwed(cp, last, c);
      hide Owed, FeesOwed, PaysOf, Fees, Total, Feeer.Fee;
      OwedConcat(cp, Flatten(front), PaysOf(last), c);
    } else {
      NothingOwed(cp, c);
    }
  }

  lemma NothingOwed(cp: Designs, c: CurrencyID)
    ensures Owed(cp, [], c) == FeesOwed(cp, [], c) == 0
  {}

  lemma {:induction false} CreditedConcat(xs: seq<Pay>, ys: seq<Pay>, k: BalanceKey)
    ensures Credited(xs + ys, k) == Credited(xs, k) + Credited(ys, k)
  {
    if ys == [] {
      assert xs + ys == xs;
    } else {
      CreditedConcat(xs, ys[..|ys| - 1], k);
      assert (xs + ys)[..|xs + ys| - 1] == xs + ys[..|ys| - 1];
    }
  }

  lemma {:induction false} PaysCredited(p: Payment, k: BalanceKey)
    ensures Credited(PaysOf(p), k) == if p.to == k.addr then Total(p.amounts, k.cid) else 0
    decreases |p.amounts|
  {
    if p.amounts != [] {
      var q := Payment(p.to, p.amounts[..|p.amounts| - 1]);
      PaysCredited(q, k);
      assert PaysOf(p)[..|PaysOf(p)| - 1] == PaysOf(q);
    }
  }

  /** What the payments credit is what the items bring. */
  lemma {:induction false} CreditedMeaning(ps: seq<Payment>, k: BalanceKey)
    ensures Credited(Flatten(ps), k) == Received(ps, k)
  {
    if ps != [] {
      var front, last := ps[..|ps| - 1], ps[|ps| - 1];
      CreditedMeaning(front, k);
      PaysCredited(last, k);
      hide PaysOf, Total;
      CreditedConcat(Flatten(front), PaysOf(last), k);
    }
  }
}
