/** The operation of the genesis block: one account, the designs, and their whole supply. */
module GenesisCurrencies {
  import opened Prelude
  import opened Feeers
  import opened StateKeys
  import opened AccountKeys
  import opened Facts
  import opened AmountStates
  import opened Ledgers
  import opened Pools
  import opened Chains

  /** The balance written for a design: a value and no delta. */
  function Grant(a: Address, de: Design): AmountState {
    AmountState(BK(a, de.cid), Some(de.supply), 0, 0)
  }

  function Grants(a: Address, ds: seq<Design>): seq<AmountState> {
    if ds == [] then [] else Grants(a, ds[..|ds| - 1]) + [Grant(a, ds[|ds| - 1])]
  }

  ghost predicate Unused(base: Ledger, a: Address, ds: seq<Design>) {
    a !in base.accounts && forall de :: de in ds ==> de.cid !in base.designs && BK(a, de.cid) !in base.balances
  }

  lemma GrantPosted(bal: Balances, a: Address, de: Design)
    requires BK(a, de.cid) !in Values(bal)
    ensures Values(Post(bal, Grant(a, de))) == Values(bal)[BK(a, de.cid) := de.supply]
  {}

  lemma NotYetGranted(a: Address, ds: seq<Design>, cid: CurrencyID)
    requires DistinctDesigns(ds) && forall de :: de in ds ==> de.cid != cid
    ensures BK(a, cid) !in SuppliesOf(a, ds)
  {}

  /** A value written without a delta is merged into itself: the account ends with exactly the supplies. */
  lemma {:induction false} GrantsMeaning(a: Address, ds: seq<Design>)
    requires DistinctDesigns(ds)
    ensures Values(PostAll(map[], Grants(a, ds))) == SuppliesOf(a, ds)
  {
    if ds != [] {
      hide Post, Grant, Values;
      var front, last := ds[..|ds| - 1], ds[|ds| - 1];
      assert ds == front + [last];
      GrantsMeaning(a, front);
      NotYetGranted(a, front, last.cid);
      GrantPosted(PostAll(map[], Grants(a, front)), a, last);
      assert Grants(a, ds)[..|Grants(a, ds)| - 1] == Grants(a, front);
    }
  }

  lemma NothingWritten(a: Address)
    ensures AmountsIn([]) == [] == Grants(a, []) && AccountsIn([]) == map[] && DesignsIn([]) == map[] == DesignsOf([])
  {}

  lemma GenesisAppend(a: Address, ds: seq<Design>, de: Design)
    ensures Grants(a, ds + [de]) == Grants(a, ds) + [Grant(a, de)]
    ensures DesignsOf(ds + [de]) == DesignsOf(ds)[de.cid := de]
  {
    assert (ds + [de])[..|ds|] == ds;
  }

  /** The checks: keys that make an account, and nothing of what is written in the snapshot. */
  method GenesisStates(pool: Statepool, keys: Keys, cs: seq<Design>) returns (r: Option<seq<State>>)
    ensures r.Some? <==> Valid(keys) && Unused(pool.base, keys.h, cs)
    ensures r.Some? ==>
              && AmountsIn(r.value) == Grants(keys.h, cs)
              && AccountsIn(r.value) == map[keys.h := Account(keys.h, keys)]
              && DesignsIn(r.value) == DesignsOf(cs)
  {
    var valid := IsValid(keys);
    if !valid { return None; }
    NothingWritten(keys.h);
    hide Valid, AmountsIn, AccountsIn, DesignsIn, Grants, DesignsOf;
    var newAddress := keys.h;
    if pool.GetAccount(newAddress).Some? { return None; }
    var gas: map<CurrencyID, AmountState> := map[];
    for i := 0 to |cs|
      invariant Unused(pool.base, newAddress, cs[..i])
      invariant forall j :: 0 <= j < i ==>
                  cs[j].cid in gas && gas[cs[j].cid] == NewAmountState(BK(newAddress, cs[j].cid), None)
    {
      assert cs[i] in cs;
      if pool.GetDesign(cs[i].cid).Some? { return None; }
      if pool.GetBalance(newAddress, cs[i].cid).Some? { return None; }
      gas := gas[cs[i].cid := NewAmountState(BK(newAddress, cs[i].cid), None)];
    }
    assert cs[..|cs|] == cs;
    var states := [AccountWrite(newAddress, Account(newAddress, keys))];
    StatesAppend([], states[0]);
    assert [] + [states[0]] == states;
    for i := 0 to |cs|
      invariant AmountsIn(states) == Grants(newAddress, cs[..i])
      invariant AccountsIn(states) == map[newAddress := Account(newAddress, keys)]
      invariant DesignsIn(states) == DesignsOf(cs[..i])
    {
      GenesisAppend(newAddress, cs[..i], cs[i]);
      assert cs[..i + 1] == cs[..i] + [cs[i]];
      var gst, dst := BalanceWrite(gas[cs[i].cid].(value := Some(cs[i].supply))), DesignWrite(cs[i].cid, cs[i]);
      StatesAppend(states, gst);
      StatesAppend(states + [gst], dst);
      states := states + [gst] + [dst];
    }
    return Some(states);
  }

  /**
    The states are merged into whatever the pool already holds; nothing is written on a refusal.  In a
    block of its own this gives the ledger every chain starts from.
  */
  method Process(pool: Statepool, keys: Keys, cs: seq<Design>) returns (ok: bool)
    modifies pool
    ensures ok <==> Valid(keys) && Unused(pool.base, keys.h, cs)
    ensures ok ==> View(pool.balances) == PostAll(View(old(pool.balances)), Grants(keys.h, cs))
    ensures ok ==> pool.accounts == old(pool.accounts)[keys.h := Account(keys.h, keys)]
    ensures ok ==> pool.designs == old(pool.designs) + DesignsOf(cs)
    ensures ok && Untouched(old(pool.balances), old(pool.accounts), old(pool.designs)) && DistinctDesigns(cs) ==>
              Ledger(pool.accounts, Values(View(pool.balances)), pool.designs) == GenesisLedger(keys, cs)
    ensures !ok ==> unchanged(pool)
  {
    var sts := GenesisStates(pool, keys, cs);
    if sts.None? { return false; }
    GenesisWrites(keys, cs);
    hide Valid, PostAll, Grants, Values, DesignsOf, SuppliesOf;
    pool.Set(sts.value);
    return true;
  }

  predicate Untouched(balances: map<BalanceKey, AmountState>, accounts: map<Address, Account>, designs: Designs) {
    balances == map[] && accounts == map[] && designs == map[]
  }

  lemma GenesisWrites(keys: Keys, cs: seq<Design>)
    ensures View(map[]) == map[] && map[] + DesignsOf(cs) == DesignsOf(cs)
    ensures DistinctDesigns(cs) ==> Values(PostAll(map[], Grants(keys.h, cs))) == SuppliesOf(keys.h, cs)
  {
    if DistinctDesigns(cs) { GrantsMeaning(keys.h, cs); }
  }
}
