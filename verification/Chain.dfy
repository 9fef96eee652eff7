/** Whole chains: a genesis block, then any number of blocks with any events in them. */
module Chains {
  import opened Prelude
  import opened Feeers
  import opened StateKeys
  import opened AccountKeys
  import opened Facts
  import opened AmountStates
  import opened Ledgers
  import opened Effects
  import opened BlockInvariants
  import opened Closing

  datatype Suffrage = Suffrage(pubs: seq<Publickey>, quorum: nat)

  datatype Chain =
    | Genesis(keys: Keys, designs: seq<Design>)
    | Next(prev: Chain, suffrage: Suffrage, events: seq<Event>)

  // ---------------------------------------------------------------- genesis

  function DesignsOf(ds: seq<Design>): Designs {
    if ds == [] then map[] else DesignsOf(ds[..|ds| - 1])[ds[|ds| - 1].cid := ds[|ds| - 1]]
  }

  function SuppliesOf(a: Address, ds: seq<Design>): map<BalanceKey, int> {
    if ds == [] then map[]
    else SuppliesOf(a, ds[..|ds| - 1])[BK(a, ds[|ds| - 1].cid) := ds[|ds| - 1].supply]
  }

  /** The ledger after the genesis block: one account holding the whole supply of every currency. */
  function GenesisLedger(keys: Keys, ds: seq<Design>): Ledger {
    Ledger(map[keys.h := Account(keys.h, keys)], SuppliesOf(keys.h, ds), DesignsOf(ds))
  }

  predicate DistinctDesigns(ds: seq<Design>) {
    forall i, j :: 0 <= i < j < |ds| ==> ds[i].cid != ds[j].cid
  }

  /** GenesisCurrenciesFact.IsValid; the fees of genesis currencies go to the genesis account. */
  predicate ValidGenesis(keys: Keys, ds: seq<Design>) {
    && Valid(keys) && ds != [] && DistinctDesigns(ds)
    && forall de :: de in ds ==>
         de.IsValid() && (de.policy.feeer.Receiver().Some? ==> de.policy.feeer.Receiver().value == keys.h)
  }

  lemma {:induction false} DesignsMeaning(ds: seq<Design>)
    requires DistinctDesigns(ds)
    ensures forall c :: c in DesignsOf(ds) <==> exists de :: de in ds && de.cid == c
    ensures forall de :: de in ds ==> DesignsOf(ds)[de.cid] == de
  {
    if ds != [] {
      var front, last := ds[..|ds| - 1], ds[|ds| - 1];
      assert ds == front + [last];
      DesignsMeaning(front);
      assert forall de :: de in front ==> de.cid != last.cid;
    }
  }

  /** The genesis account holds exactly the supply of every design. */
  lemma {:induction false} SuppliesMeaning(a: Address, ds: seq<Design>, k: BalanceKey)
    ensures k in SuppliesOf(a, ds) <==> k.addr == a && k.cid in DesignsOf(ds)
    ensures k in SuppliesOf(a, ds) ==> SuppliesOf(a, ds)[k] == DesignsOf(ds)[k.cid].supply
  {
    if ds != [] { SuppliesMeaning(a, ds[..|ds| - 1], k); }
  }

  lemma GenesisGood(keys: Keys, ds: seq<Design>)
    requires ValidGenesis(keys, ds)
    ensures Good(GenesisLedger(keys, ds))
  {
    hide Valid, ValidCurrencyID, Supply, Policy.IsValid;
    var l := GenesisLedger(keys, ds);
    DesignsMeaning(ds);
    forall k ensures k in l.balances <==> k.addr == keys.h && k.cid in l.designs
      ensures k in l.balances ==> l.balances[k] == l.designs[k.cid].supply
    {
      SuppliesMeaning(keys.h, ds, k);
    }
    forall c | c in l.designs ensures GoodDesign(l, c) {
      var de :| de in ds && de.cid == c;
      OneHolder(l.balances, c, BK(keys.h, c));
    }
  }

  lemma OneHolder(m: map<BalanceKey, int>, c: CurrencyID, k: BalanceKey)
    requires k in m && k.cid == c && forall j :: j in m && j.cid == c ==> j == k
    ensures Supply(m, c) == m[k]
  {
    SumSupport(m.Keys, {k}, AmountIn(m, c));
    SumInsert({}, AmountIn(m, c), k);
    assert {} + {k} == {k};
  }

  // ---------------------------------------------------------------- chains

  /** The saved ledger, and the designs the currency pool shows. */
  datatype Node = Node(ledger: Ledger, cp: Designs)

  function EnvOf(s: Node, suffrage: Suffrage): Env {
    Env(s.ledger, s.cp, suffrage.pubs, suffrage.quorum)
  }

  function BlockOf(s: Node, suffrage: Suffrage, es: seq<Event>): Block {
    Run(Fresh(EnvOf(s, suffrage)), es)
  }

  /**
    A block is saved only if Close succeeds; then the pool is refreshed with the designs the block
    wrote.
  */
  function After(s: Node, b: Block): Node {
    if Payable(b) then Node(Commit(b), s.cp + b.des) else s
  }

  function NodeAfter(c: Chain): Node {
    match c
    case Genesis(keys, ds) => Node(GenesisLedger(keys, ds), DesignsOf(ds))
    case Next(prev, suffrage, es) =>
      var s := NodeAfter(prev);
      After(s, BlockOf(s, suffrage, es))
  }

  ghost predicate ValidChain(c: Chain) {
    match c
    case Genesis(keys, ds) => ValidGenesis(keys, ds)
    case Next(prev, _, es) => ValidChain(prev) && ValidEvents(es)
  }

  ghost predicate GoodNode(s: Node) {
    Good(s.ledger) && s.cp == s.ledger.designs
  }

  lemma AfterGood(s: Node, suffrage: Suffrage, es: seq<Event>)
    requires GoodNode(s) && ValidEvents(es)
    ensures var b := BlockOf(s, suffrage, es);
            BlockInv(b) && b.env == EnvOf(s, suffrage) && Payable(b) && GoodNode(After(s, b))
  {
    hide Good, BlockInv, Op.IsValid, Run, Payable, Paid;
    var b := BlockOf(s, suffrage, es);
    RunKeepsInv(EnvOf(s, suffrage), es);
    CommitGood(b);
  }

  /**
    Every chain: each registered currency is exactly accounted for by the balances, no balance is
    negative or in an unregistered currency, every account can be signed for, and the pool agrees
    with the ledger.
  */
  lemma {:induction false} EveryChainGood(c: Chain)
    requires ValidChain(c)
    ensures GoodNode(NodeAfter(c))
  {
    hide GoodNode, After, BlockOf, Op.IsValid, Good;
    match c
    case Genesis(keys, ds) =>
      GenesisGood(keys, ds);
      GenesisNode(c);
    case Next(prev, suffrage, es) =>
      EveryChainGood(prev);
      AfterGood(NodeAfter(prev), suffrage, es);
  }

  lemma GenesisNode(c: Chain)
    requires c.Genesis? && Good(GenesisLedger(c.keys, c.designs))
    ensures GoodNode(NodeAfter(c))
  {
    hide Good;
  }

  /** On every chain, Close succeeds for every block: all collected fees find an existing payee. */
  lemma CloseNeverFails(c: Chain, suffrage: Suffrage, es: seq<Event>)
    requires ValidChain(c) && ValidEvents(es)
    ensures Payable(BlockOf(NodeAfter(c), suffrage, es))
  {
    hide GoodNode, After, BlockOf, Op.IsValid, Payable, BlockInv;
    EveryChainGood(c);
    AfterGood(NodeAfter(c), suffrage, es);
  }

  /** On every chain each registered currency has a holder: what was registered is never gone. */
  lemma EveryCurrencyHeld(c: Chain, cid: CurrencyID)
    requires ValidChain(c) && cid in NodeAfter(c).ledger.designs
    ensures var bal := NodeAfter(c).ledger.balances; exists k: BalanceKey :: k in bal && k.cid == cid && bal[k] > 0
  {
    hide NodeAfter, ValidChain;
    EveryChainGood(c);
    HolderOf(NodeAfter(c).ledger, cid);
  }

  lemma HolderOf(l: Ledger, cid: CurrencyID)
    requires Good(l) && cid in l.designs
    ensures exists k: BalanceKey :: k in l.balances && k.cid == cid && l.balances[k] > 0
  {
    hide Valid;
    assert GoodDesign(l, cid);
    if forall k: BalanceKey :: k in l.balances && k.cid == cid ==> l.balances[k] <= 0 {
      SumZero(l.balances.Keys, AmountIn(l.balances, cid));
    }
  }

  /**
    In the middle of any block on any chain: balances plus tally equal the saved supply plus what
    has been minted, and no balance is negative.
  */
  lemma MidBlock(c: Chain, suffrage: Suffrage, es: seq<Event>, cid: CurrencyID, k: BalanceKey)
    requires ValidChain(c) && ValidEvents(es)
    ensures var s := NodeAfter(c);
            var b := BlockOf(s, suffrage, es);
            && Supply(BalancesNow(b), cid) + TallyOf(b.fee, cid) ==
               (if cid in s.ledger.designs then s.ledger.designs[cid].supply else 0) + Sum(b.done, MintedBy(cid))
            && Now(b, k) >= 0
  {
    EveryChainGood(c);
    AfterGood(NodeAfter(c), suffrage, es);
    MidBlockOf(NodeAfter(c), BlockOf(NodeAfter(c), suffrage, es), cid, k);
  }

  lemma MidBlockOf(s: Node, b: Block, cid: CurrencyID, k: BalanceKey)
    requires GoodNode(s) && BlockInv(b) && b.env.base == s.ledger
    ensures Supply(BalancesNow(b), cid) + TallyOf(b.fee, cid) ==
            (if cid in s.ledger.designs then s.ledger.designs[cid].supply else 0) + Sum(b.done, MintedBy(cid))
    ensures Now(b, k) >= 0
  {
    hide Supply, Bookkeeping, TallyExact, Sited, WrittenOnce, Valid, Design.IsValid, BalancesNow, GoodEnv;
    if cid in s.ledger.designs {
      assert GoodDesign(s.ledger, cid);
    } else {
      NoSupplyBefore(s.ledger, cid);
    }
  }

  /** Nothing registered is ever removed, and the supply of a currency never changes. */
  ghost predicate Extends(was: Ledger, now: Ledger) {
    && was.accounts.Keys <= now.accounts.Keys
    && was.balances.Keys <= now.balances.Keys
    && forall c :: c in was.designs ==> c in now.designs && now.designs[c].supply == was.designs[c].supply
  }

  lemma BlockExtends(c: Chain, suffrage: Suffrage, es: seq<Event>)
    requires ValidChain(c) && ValidEvents(es)
    ensures Extends(NodeAfter(c).ledger, NodeAfter(Next(c, suffrage, es)).ledger)
  {
    hide GoodNode, BlockOf, Op.IsValid, BlockInv, Paid, Payable;
    var s := NodeAfter(c);
    EveryChainGood(c);
    AfterGood(s, suffrage, es);
    var b := BlockOf(s, suffrage, es);
    assert NodeAfter(Next(c, suffrage, es)) == After(s, b);
    forall d | d in s.ledger.designs
      ensures d in Commit(b).designs && Commit(b).designs[d].supply == s.ledger.designs[d].supply
    {
      SavedSupply(b, d);
    }
  }

  /** The keys of an account after a chain let its owner act: signing with all of them is accepted. */
  lemma NobodyLockedOut(c: Chain, suffrage: Suffrage, a: Address)
    requires ValidChain(c) && a in NodeAfter(c).ledger.accounts
    ensures var signers := Publickeys(NodeAfter(c).ledger.accounts[a].keys.keys);
            DistinctSigners(signers) && SignedBy(EnvOf(NodeAfter(c), suffrage), a, signers)
  {
    hide GoodDesign, Valid, PassesThreshold, NodeAfter;
    EveryChainGood(c);
    AllKeysPass(NodeAfter(c).ledger.accounts[a].keys);
  }
}
