/**
  What the sender of a list of items owes: amounts and fees, currency by currency, and the debits
  written for it.
*/
module ItemFees {
  import opened Prelude
  import opened Feeers
  import opened StateKeys
  import opened Facts
  import opened AmountStates
  import opened Ledgers
  import opened Effects
  import opened Charges
  import opened Pools

  /** Per currency: everything owed, and the fees in it. */
  type Required = map<CurrencyID, (int, int)>

  ghost predicate IsRequired(required: Required, cp: Designs, pays: seq<Pay>) {
    && required.Keys == CurrenciesOf(pays)
    && forall c :: c in required ==> required[c] == (Owed(cp, pays, c), FeesOwed(cp, pays, c))
  }

  lemma CurrenciesAppend(pays: seq<Pay>, pay: Pay)
    ensures CurrenciesOf(pays + [pay]) == CurrenciesOf(pays) + {pay.am.cid}
  {
    assert pay in pays + [pay] && forall p :: p in pays ==> p in pays + [pay];
  }

  lemma RequiredAppend(required: Required, cp: Designs, pays: seq<Pay>, pay: Pay)
    requires IsRequired(required, cp, pays)
    ensures var c := pay.am.cid;
            var rq := if c in required then required[c] else (0, 0);
            IsRequired(required[c := (rq.0 + pay.am.big + FeeOn(cp, pay.am), rq.1 + FeeOn(cp, pay.am))], cp, pays + [pay])
  {
    var c := pay.am.cid;
    CurrenciesAppend(pays, pay);
    if c !in required { OwedElsewhere(cp, pays, c); }
    hide CurrenciesOf, Owed, FeesOwed, FeeOn;
    forall d
      ensures Owed(cp, pays + [pay], d) == Owed(cp, pays, d) + if c == d then pay.am.big + FeeOn(cp, pay.am) else 0
      ensures FeesOwed(cp, pays + [pay], d) == FeesOwed(cp, pays, d) + if c == d then FeeOn(cp, pay.am) else 0
    {
      OwedAppend(cp, pays, pay, d);
    }
  }

  lemma OwedAppend(cp: Designs, pays: seq<Pay>, pay: Pay, d: CurrencyID)
    ensures Owed(cp, pays + [pay], d) == Owed(cp, pays, d) + if pay.am.cid == d then pay.am.big + FeeOn(cp, pay.am) else 0
    ensures FeesOwed(cp, pays + [pay], d) == FeesOwed(cp, pays, d) + if pay.am.cid == d then FeeOn(cp, pay.am) else 0
  {}

  lemma FlattenAppend(ps: seq<Payment>, p: Payment)
    ensures Flatten(ps + [p]) == Flatten(ps) + PaysOf(p)
  {
    assert (ps + [p])[..|ps|] == ps;
  }

  /** rq is what the items cost in currency c, and the fees in it. */
  predicate Costs(rq: (int, int), feeer: Feeer, items: seq<Payment>, c: CurrencyID) {
    rq.0 == TotalOf(items, c) + FeesFor(feeer, items, c) && rq.1 == FeesFor(feeer, items, c)
  }

  lemma RequiredMeaning(required: Required, cp: Designs, items: seq<Payment>)
    requires IsRequired(required, cp, Flatten(items)) && required.Keys <= cp.Keys
    ensures forall c :: c in required ==> Costs(required[c], cp[c].policy.feeer, items, c)
  {
    hide Owed, FeesOwed, Flatten, TotalOf, FeesFor, Feeer.Fee, CurrenciesOf;
    forall c | c in required ensures Costs(required[c], cp[c].policy.feeer, items, c) {
      OwedMeaning(cp, items, c);
    }
  }

  lemma MentionedCurrencies(items: seq<Payment>)
    ensures forall c :: c in CurrenciesOf(Flatten(items)) <==> Mentions(items, c)
  {
    hide CurrenciesOf, Flatten, Mentions;
    forall c ensures c in CurrenciesOf(Flatten(items)) <==> Mentions(items, c) { CurrenciesMentioned(items, c); }
  }

  /**
    Succeeds exactly when every currency mentioned is registered; then each of them costs its amounts
    plus the fees its policy takes for them.
  */
  method CalculateItemsFee(cp: CurrencyPool, items: seq<Payment>) returns (r: Option<Required>)
    ensures r.Some? <==> forall c :: Mentions(items, c) ==> c in cp.demap
    ensures r.Some? ==> forall c :: c in r.value <==> Mentions(items, c)
    ensures r.Some? ==> forall c :: c in r.value ==> c in cp.demap && Costs(r.value[c], cp.demap[c].policy.feeer, items, c)
    ensures r.Some? <==> CurrenciesOf(Flatten(items)) <= cp.demap.Keys
    ensures r.Some? ==> IsRequired(r.value, cp.demap, Flatten(items))
  {
    MentionedCurrencies(items);
    hide CurrencyPool.Valid, Feeer.Fee, Flatten, Owed, FeesOwed, Mentions, Costs;
    var required: Required := map[];
    NothingRequired(cp.demap);
    for i := 0 to |items|
      invariant IsRequired(required, cp.demap, Flatten(items[..i])) && required.Keys <= cp.demap.Keys
    {
      var it := items[i];
      ghost var before := Flatten(items[..i]);
      FlattenAppend(items[..i], it);
      assert items[..i + 1] == items[..i] + [it];
      assert before + PaysOf(it)[..0] == before;
      for j := 0 to |it.amounts|
        invariant IsRequired(required, cp.demap, before + PaysOf(it)[..j]) && required.Keys <= cp.demap.Keys
      {
        var am := it.amounts[j];
        var rq := if am.cid in required then required[am.cid] else (0, 0);
        RequiredAppend(required, cp.demap, before + PaysOf(it)[..j], PaysOf(it)[j]);
        assert before + PaysOf(it)[..j + 1] == before + PaysOf(it)[..j] + [PaysOf(it)[j]];
        var feeer := cp.GetFeeer(am.cid);
        if feeer.None? {
          FlattenHas(items, i, j);
          return None;
        }
        var k := feeer.value.Fee(am.big);
        if k <= 0 {
          required := required[am.cid := (rq.0 + am.big, rq.1)];
        } else {
          required := required[am.cid := (rq.0 + am.big + k, rq.1 + k)];
        }
      }
      assert PaysOf(it)[..|it.amounts|] == PaysOf(it);
    }
    assert items[..|items|] == items;
    RequiredMeaning(required, cp.demap, items);
    return Some(required);
  }

  lemma NothingRequired(cp: Designs)
    ensures Flatten([]) == [] && IsRequired(map[], cp, [])
  {}

  lemma {:induction false} FlattenHas(ps: seq<Payment>, i: nat, j: nat)
    requires i < |ps| && j < |ps[i].amounts|
    ensures ps[i].amounts[j].cid in CurrenciesOf(Flatten(ps))
  {
    var front, last := ps[..|ps| - 1], ps[|ps| - 1];
    if i < |front| {
      FlattenHas(front, i, j);
      var p :| p in Flatten(front) && p.am.cid == ps[i].amounts[j].cid;
      assert p in Flatten(ps);
    } else {
      assert PaysOf(last)[j] in Flatten(ps);
    }
  }

  lemma OwedTakeOut(cp: Designs, pays: seq<Pay>, i: nat, c: CurrencyID)
    requires i < |pays|
    ensures var rest := pays[..i] + pays[i + 1..];
            && multiset(rest) == multiset(pays) - multiset{pays[i]}
            && Owed(cp, pays, c) == Owed(cp, rest, c) + Owed(cp, [pays[i]], c)
            && FeesOwed(cp, pays, c) == FeesOwed(cp, rest, c) + FeesOwed(cp, [pays[i]], c)
  {
    hide Owed, FeesOwed;
    var before, after := pays[..i], pays[i + 1..];
    assert pays == before + ([pays[i]] + after);
    OwedConcat(cp, before, [pays[i]] + after, c);
    OwedConcat(cp, [pays[i]], after, c);
    OwedConcat(cp, before, after, c);
  }

  /** The same amounts in another order cost the same. */
  lemma {:induction false} OwedOrderFree(cp: Designs, xs: seq<Pay>, ys: seq<Pay>, c: CurrencyID)
    requires multiset(xs) == multiset(ys)
    ensures Owed(cp, xs, c) == Owed(cp, ys, c) && FeesOwed(cp, xs, c) == FeesOwed(cp, ys, c)
  {
    if xs == [] {
      assert |multiset(ys)| == 0;
    } else {
      hide Owed, FeesOwed;
      var n := |xs| - 1;
      assert xs[n] in multiset(ys);
      var i :| 0 <= i < |ys| && ys[i] == xs[n];
      OwedTakeOut(cp, xs, n, c);
      OwedTakeOut(cp, ys, i, c);
      OwedOrderFree(cp, xs[..n] + xs[n + 1..], ys[..i] + ys[i + 1..], c);
    }
  }

  /** The snapshot covers every currency; on success the balances found are returned. */
  method CheckEnoughBalance(pool: Statepool, holder: Address, required: Required)
    returns (r: Option<map<CurrencyID, AmountState>>)
    ensures r.Some? <==> forall c :: c in required ==>
              pool.GetBalance(holder, c).Some? && pool.GetBalance(holder, c).value >= required[c].0
    ensures r.Some? ==> r.value.Keys == required.Keys
    ensures r.Some? ==> forall c :: c in required ==>
              r.value[c] == NewAmountState(BK(holder, c), pool.GetBalance(holder, c))
  {
    var sb: map<CurrencyID, AmountState> := map[];
    var todo := required.Keys;
    while todo != {}
      invariant todo <= required.Keys && sb.Keys == required.Keys - todo
      invariant forall c :: c in sb ==>
                  && pool.GetBalance(holder, c).Some? && pool.GetBalance(holder, c).value >= required[c].0
                  && sb[c] == NewAmountState(BK(holder, c), pool.GetBalance(holder, c))
    {
      var cid :| cid in todo;
      var st := pool.GetBalance(holder, cid);
      if st.None? || st.value < required[cid].0 { return None; }
      sb := sb[cid := NewAmountState(BK(holder, cid), st)];
      todo := todo - {cid};
    }
    return Some(sb);
  }

  // ---------------------------------------------------------------- the writes of a payment

  function Credits(base: Ledger, pays: seq<Pay>): seq<AmountState> {
    if pays == [] then [] else Credits(base, pays[..|pays| - 1]) + [Credit(base, pays[|pays| - 1])]
  }

  /** One debit per currency, carrying everything owed in it. */
  function DebitAll(env: Env, payer: Address, pays: seq<Pay>, c: CurrencyID): AmountState {
    var k := BK(payer, c);
    NewAmountState(k, Lookup(env.base.balances, k)).Sub(Owed(env.cp, pays, c)).AddFee(FeesOwed(env.cp, pays, c))
  }

  function Debits(env: Env, payer: Address, pays: seq<Pay>, cs: seq<CurrencyID>): seq<AmountState> {
    if cs == [] then []
    else Debits(env, payer, pays, cs[..|cs| - 1]) + [DebitAll(env, payer, pays, cs[|cs| - 1])]
  }

  /** Writing xs or ys makes no difference, to balances or to the tally. */
  ghost predicate Interchangeable(xs: seq<AmountState>, ys: seq<AmountState>) {
    && (forall bal :: PostAll(bal, xs) == PostAll(bal, ys))
    && (forall fee :: TallyAll(fee, xs) == TallyAll(fee, ys))
  }

  lemma {:induction false} CreditsMeaning(base: Ledger, pays: seq<Pay>, k: BalanceKey)
    ensures var sts := Credits(base, pays);
            && AddAt(sts, k) == Credited(pays, k) && FeeAt(sts, k) == 0 && FeeIn(sts, k.cid) == 0
  {
    if pays != [] {
      CreditsMeaning(base, pays[..|pays| - 1], k);
      Appended(Credits(base, pays[..|pays| - 1]), Credit(base, pays[|pays| - 1]), k);
    }
  }

  lemma {:induction false} CreditsMembers(base: Ledger, pays: seq<Pay>, st: AmountState)
    ensures st in Credits(base, pays) <==> exists pay :: pay in pays && st == Credit(base, pay)
  {
    if pays != [] {
      var front := pays[..|pays| - 1];
      assert pays == front + [pays[|pays| - 1]];
      CreditsMembers(base, front, st);
    }
  }

  ghost function Members(cs: seq<CurrencyID>): set<CurrencyID> {
    set c | c in cs
  }

  predicate NoRepeats(cs: seq<CurrencyID>) {
    forall i, j :: 0 <= i < j < |cs| ==> cs[i] != cs[j]
  }

  lemma OneMore(cs: seq<CurrencyID>, c: CurrencyID)
    requires NoRepeats(cs) && c !in cs
    ensures NoRepeats(cs + [c]) && Members(cs + [c]) == Members(cs) + {c}
  {}

  lemma {:induction false} DebitsMeaning(env: Env, payer: Address, pays: seq<Pay>, cs: seq<CurrencyID>, k: BalanceKey)
    requires NoRepeats(cs)
    ensures var sts := Debits(env, payer, pays, cs);
            && AddAt(sts, k) == (if k.addr == payer && k.cid in cs then 0 - Owed(env.cp, pays, k.cid) else 0)
            && FeeAt(sts, k) == (if k.addr == payer && k.cid in cs then FeesOwed(env.cp, pays, k.cid) else 0)
            && FeeIn(sts, k.cid) == (if k.cid in cs then FeesOwed(env.cp, pays, k.cid) else 0)
  {
    hide Owed, FeesOwed;
    if cs != [] {
      var front, last := cs[..|cs| - 1], cs[|cs| - 1];
      assert cs == front + [last];
      DebitsMeaning(env, payer, pays, front, k);
      Appended(Debits(env, payer, pays, front), DebitAll(env, payer, pays, last), k);
    }
  }

  lemma {:induction false} DebitsMembers(env: Env, payer: Address, pays: seq<Pay>, cs: seq<CurrencyID>, st: AmountState)
    ensures st in Debits(env, payer, pays, cs) <==> exists c :: c in cs && st == DebitAll(env, payer, pays, c)
  {
    hide DebitAll;
    if cs != [] {
      var front := cs[..|cs| - 1];
      assert cs == front + [cs[|cs| - 1]];
      DebitsMembers(env, payer, pays, front, st);
    }
  }

  lemma {:induction false} FeesOwedNonNegative(cp: Designs, pays: seq<Pay>, c: CurrencyID)
    ensures FeesOwed(cp, pays, c) >= 0
  {
    if pays != [] { FeesOwedNonNegative(cp, pays[..|pays| - 1], c); }
  }

  lemma PayWritesPlain(env: Env, payer: Address, pays: seq<Pay>)
    ensures Sourced(PayWrites(env, payer, pays), env.base.balances) && NoNegativeFee(PayWrites(env, payer, pays))
  {}

  lemma ItemWritesPlain(env: Env, payer: Address, pays: seq<Pay>, cs: seq<CurrencyID>)
    ensures var sts := Credits(env.base, pays) + Debits(env, payer, pays, cs);
            Sourced(sts, env.base.balances) && NoNegativeFee(sts)
  {
    hide Credits, Debits, FeesOwed, Owed;
    var sts := Credits(env.base, pays) + Debits(env, payer, pays, cs);
    forall st | st in sts
      ensures st.value == Lookup(env.base.balances, st.key) && st.fee >= 0
    {
      if st in Credits(env.base, pays) {
        CreditsMembers(env.base, pays, st);
      } else {
        DebitsMembers(env, payer, pays, cs, st);
        var c :| c in cs && st == DebitAll(env, payer, pays, c);
        FeesOwedNonNegative(env.cp, pays, c);
      }
    }
  }

  lemma ItemWritesTouch(env: Env, payer: Address, pays: seq<Pay>, cs: seq<CurrencyID>, k: BalanceKey)
    requires Members(cs) == CurrenciesOf(pays)
    ensures Touched(Credits(env.base, pays) + Debits(env, payer, pays, cs), k) <==> Touched(PayWrites(env, payer, pays), k)
  {
    hide Credits, Debits, PayWrites, FeeOn, Owed, FeesOwed;
    var sts := Credits(env.base, pays) + Debits(env, payer, pays, cs);
    if Touched(sts, k) {
      var st :| st in sts && st.key == k;
      CreditsMembers(env.base, pays, st);
      DebitsMembers(env, payer, pays, cs, st);
      if st in Credits(env.base, pays) {
        PayWritesMembers(env, payer, pays, st);
      } else {
        var c :| c in cs && st == DebitAll(env, payer, pays, c);
        assert c in CurrenciesOf(pays);
        var pay :| pay in pays && pay.am.cid == c;
        PayWritesMembers(env, payer, pays, Debit(env, payer, pay.am));
      }
    }
    if Touched(PayWrites(env, payer, pays), k) {
      var st :| st in PayWrites(env, payer, pays) && st.key == k;
      PayWritesMembers(env, payer, pays, st);
      var pay :| pay in pays && (st == Credit(env.base, pay) || st == Debit(env, payer, pay.am));
      assert pay.am.cid in CurrenciesOf(pays);
      CreditsMembers(env.base, pays, Credit(env.base, pay));
      DebitsMembers(env, payer, pays, cs, DebitAll(env, payer, pays, pay.am.cid));
    }
  }

  lemma ItemWritesSums(env: Env, payer: Address, pays: seq<Pay>, cs: seq<CurrencyID>, k: BalanceKey)
    requires NoRepeats(cs) && Members(cs) == CurrenciesOf(pays)
    ensures var sts := Credits(env.base, pays) + Debits(env, payer, pays, cs);
            && AddAt(sts, k) == AddAt(PayWrites(env, payer, pays), k)
            && FeeAt(sts, k) == FeeAt(PayWrites(env, payer, pays), k)
            && FeeIn(sts, k.cid) == FeeIn(PayWrites(env, payer, pays), k.cid)
  {
    hide Credits, Debits, PayWrites, Owed, FeesOwed, AddAt, FeeAt, FeeIn;
    SumsConcat(Credits(env.base, pays), Debits(env, payer, pays, cs), k);
    CreditsMeaning(env.base, pays, k);
    DebitsMeaning(env, payer, pays, cs, k);
    PayWritesMeaning(env, payer, pays, k);
    assert k.cid in cs <==> k.cid in CurrenciesOf(pays);
    if k.cid !in CurrenciesOf(pays) { OwedElsewhere(env.cp, pays, k.cid); }
  }

  /**
    Crediting item by item and debiting once per currency, in whatever order the currencies come,
    does the same as crediting and debiting amount by amount.
  */
  lemma ItemWritesInterchangeable(env: Env, payer: Address, pays: seq<Pay>, cs: seq<CurrencyID>)
    requires NoRepeats(cs) && Members(cs) == CurrenciesOf(pays)
    ensures Interchangeable(Credits(env.base, pays) + Debits(env, payer, pays, cs), PayWrites(env, payer, pays))
  {
    hide Credits, Debits, PayWrites, AddAt, FeeAt, FeeIn, Touched, Sourced, NoNegativeFee, PostAll, TallyAll;
    hide CurrenciesOf;
    var xs, ys := Credits(env.base, pays) + Debits(env, payer, pays, cs), PayWrites(env, payer, pays);
    ItemWritesPlain(env, payer, pays, cs);
    PayWritesPlain(env, payer, pays);
    forall k
      ensures Touched(xs, k) <==> Touched(ys, k)
      ensures AddAt(xs, k) == AddAt(ys, k) && FeeAt(xs, k) == FeeAt(ys, k)
    {
      ItemWritesTouch(env, payer, pays, cs, k);
      ItemWritesSums(env, payer, pays, cs, k);
    }
    forall c ensures FeeIn(xs, c) == FeeIn(ys, c) { ItemWritesSums(env, payer, pays, cs, BK(payer, c)); }
    forall bal ensures PostAll(bal, xs) == PostAll(bal, ys) {
      SameEffectSameBalances(bal, env.base.balances, xs, ys);
    }
    forall fee ensures TallyAll(fee, xs) == TallyAll(fee, ys) {
      SameFeesSameTally(fee, xs, ys);
    }
  }
}
