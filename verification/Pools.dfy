/**
  The two pools the processors work on.  Statepool belongs to the node software and is modelled by
  what this repository relies on: Get answers from the saved ledger, Set merges into the updates.
*/
module Pools {
  import opened Prelude
  import opened Feeers
  import opened StateKeys
  import opened Facts
  import opened AmountStates
  import opened Ledgers

  // ---------------------------------------------------------------- currency pool

  /** The saved state of a currency design. */
  datatype DesignState = DesignState(height: int, design: Design)

  class CurrencyPool {
    var demap: Designs
    var stsmap: map<CurrencyID, DesignState>
    var cids: seq<CurrencyID>

    /** The three fields describe the same currencies. */
    ghost predicate Valid()
      reads this
    {
      && demap.Keys == stsmap.Keys == (set c | c in cids)
      && forall c :: c in demap ==> demap[c] == stsmap[c].design && demap[c].cid == c
    }

    constructor ()
      ensures Valid() && demap == map[] && stsmap == map[]
    {
      demap, stsmap, cids := map[], map[], [];
    }

    method Set(st: DesignState)
      requires Valid()
      modifies this
      ensures Valid()
      ensures stsmap == old(stsmap)[st.design.cid := st]
      ensures demap == old(demap)[st.design.cid := st.design]
      ensures cids == old(cids) + [st.design.cid]
    {
      var de := st.design;
      demap := demap[de.cid := de];
      stsmap := stsmap[de.cid := st];
      cids := cids + [de.cid];
    }

    predicate Exists(cid: CurrencyID)
      reads this
    {
      cid in demap
    }

    function Get(cid: CurrencyID): Option<Design>
      reads this
    {
      if cid in demap then Some(demap[cid]) else None
    }

    function GetPolicy(cid: CurrencyID): Option<Policy>
      reads this
    {
      var de := Get(cid);
      if de.None? then None else Some(de.value.policy)
    }

    function GetFeeer(cid: CurrencyID): Option<Feeer>
      reads this
    {
      var de := Get(cid);
      if de.None? then None else Some(de.value.policy.feeer)
    }
  }

  // ---------------------------------------------------------------- state pool

  datatype State =
    | BalanceWrite(am: AmountState)
    | AccountWrite(address: Address, account: Account)
    | DesignWrite(cid: CurrencyID, design: Design)

  /** The balance writes in a list of states, in order. */
  function AmountsIn(sts: seq<State>): (r: seq<AmountState>) {
    if sts == [] then []
    else
      var rest, last := AmountsIn(sts[..|sts| - 1]), sts[|sts| - 1];
      if last.BalanceWrite? then rest + [last.am] else rest
  }

  function AccountsIn(sts: seq<State>): map<Address, Account> {
    if sts == [] then map[]
    else
      var rest, last := AccountsIn(sts[..|sts| - 1]), sts[|sts| - 1];
      if last.AccountWrite? then rest[last.address := last.account] else rest
  }

  function DesignsIn(sts: seq<State>): Designs {
    if sts == [] then map[]
    else
      var rest, last := DesignsIn(sts[..|sts| - 1]), sts[|sts| - 1];
      if last.DesignWrite? then rest[last.cid := last.design] else rest
  }

  lemma StatesAppend(sts: seq<State>, st: State)
    ensures AmountsIn(sts + [st]) == if st.BalanceWrite? then AmountsIn(sts) + [st.am] else AmountsIn(sts)
    ensures AccountsIn(sts + [st]) ==
            if st.AccountWrite? then AccountsIn(sts)[st.address := st.account] else AccountsIn(sts)
    ensures DesignsIn(sts + [st]) ==
            if st.DesignWrite? then DesignsIn(sts)[st.cid := st.design] else DesignsIn(sts)
  {
    assert (sts + [st])[..|sts|] == sts;
  }

  lemma SetAppend(bal: Balances, acc: map<Address, Account>, des: Designs, sts: seq<State>, st: State)
    ensures PostAll(bal, AmountsIn(sts + [st])) ==
            if st.BalanceWrite? then Post(PostAll(bal, AmountsIn(sts)), st.am) else PostAll(bal, AmountsIn(sts))
    ensures acc + AccountsIn(sts + [st]) ==
            if st.AccountWrite? then (acc + AccountsIn(sts))[st.address := st.account] else acc + AccountsIn(sts)
    ensures des + DesignsIn(sts + [st]) ==
            if st.DesignWrite? then (des + DesignsIn(sts))[st.cid := st.design] else des + DesignsIn(sts)
  {}

  class Statepool {
    const base: Ledger
    var balances: map<BalanceKey, AmountState>
    var accounts: map<Address, Account>
    var designs: Designs

    constructor (base: Ledger)
      ensures this.base == base && balances == map[] && accounts == map[] && designs == map[]
    {
      this.base := base;
      balances, accounts, designs := map[], map[], map[];
    }

    /** Get for each kind of key: the saved state, never an update of this block. */
    function GetAccount(a: Address): Option<Account> {
      if a in base.accounts then Some(base.accounts[a]) else None
    }

    function GetBalance(a: Address, cid: CurrencyID): Option<int> {
      Lookup(base.balances, BK(a, cid))
    }

    function GetDesign(cid: CurrencyID): Option<Design> {
      if cid in base.designs then Some(base.designs[cid]) else None
    }

    method SetOneState(st: State)
      modifies this
      ensures View(balances) == if st.BalanceWrite? then Post(View(old(balances)), st.am) else View(old(balances))
      ensures accounts == if st.AccountWrite? then old(accounts)[st.address := st.account] else old(accounts)
      ensures designs == if st.DesignWrite? then old(designs)[st.cid := st.design] else old(designs)
    {
      match st
      case BalanceWrite(am) =>
        SetOneView(balances, am);
        balances := SetOne(balances, am);
      case AccountWrite(address, account) => accounts := accounts[address := account];
      case DesignWrite(cid, design) => designs := designs[cid := design];
    }

    method Set(sts: seq<State>)
      modifies this
      ensures View(balances) == PostAll(View(old(balances)), AmountsIn(sts))
      ensures accounts == old(accounts) + AccountsIn(sts)
      ensures designs == old(designs) + DesignsIn(sts)
    {
      ghost var bal, acc, des := View(balances), accounts, designs;
      for i := 0 to |sts|
        invariant View(balances) == PostAll(bal, AmountsIn(sts[..i]))
        invariant accounts == acc + AccountsIn(sts[..i])
        invariant designs == des + DesignsIn(sts[..i])
      {
        SetAppend(bal, acc, des, sts[..i], sts[i]);
        assert sts[..i + 1] == sts[..i] + [sts[i]];
        SetOneState(sts[i]);
      }
      assert sts[..|sts|] == sts;
    }
  }
}
