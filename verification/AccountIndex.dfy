/** The account documents of the index against the chain: the newest one is the record of the ledger. */
module AccountIndex {
  import opened Prelude
  import opened Feeers
  import opened AccountKeys
  import opened StateKeys
  import opened Facts
  import opened AmountStates
  import opened Ledgers
  import opened Effects
  import opened Chains
  import opened DigestDocs
  import opened DigestStore
  import opened Balances
  import opened LedgerIndex

  /** Accounts are filed under their own address. */
  ghost predicate Named(w: Written) {
    forall a :: a in w.acc ==> w.acc[a].address == a
  }

  lemma AccountKeyOf(s: SavedState, w: Written, a: Address)
    requires Proper(w) && s.key == AccountKey(a)
    requires IsAccountRecord(s, w) || IsBalanceRecord(s, w) || IsDesignRecord(s, w)
    ensures a in w.acc && s.value == AccountValue(w.acc[a])
  {
    hide ValidCurrencyID, DesignKey, AccountKey, StateKeys.BalanceKey, IsAccountKey, IsBalanceKey, IsDesignKey;
    AccountKeyClass(a);
    if IsBalanceRecord(s, w) {
      var j :| j in w.bal && s.key == KeyOf(j);
      KeysClassified(j.addr, j.cid);
    } else if IsDesignRecord(s, w) {
      var c :| c in w.des && s.key == DesignKey(c);
      KeysClassified(a, c);
    } else {
      var b :| b in w.acc && s.key == AccountKey(b) && s.value == AccountValue(w.acc[b]);
      AccountKeyInjective(a, b);
    }
  }

  function AccountValueOf(m: map<Address, Account>, a: Address): Option<StateValue> {
    if a in m then Some(AccountValue(m[a])) else None
  }

  lemma BlockAddsAccount(bs: seq<BlockData>, l: map<Address, Account>, w: Written, a: Address)
    requires bs != [] && Records(bs[|bs| - 1].states, w, |bs| - 1) && Proper(w)
    requires forall s :: Saved(bs[..|bs| - 1], s) ==> s.height < |bs| - 1
    requires KeyRecorded(bs[..|bs| - 1], AccountKey(a), AccountValueOf(l, a))
    ensures KeyRecorded(bs, AccountKey(a), AccountValueOf(l + w.acc, a))
  {
    hide ValidCurrencyID, AccountKey, IsAccountRecord, IsBalanceRecord, IsDesignRecord, Saved, Proper, KeyRecorded;
    forall s | s in bs[|bs| - 1].states && s.key == AccountKey(a) ensures Some(s.value) == AccountValueOf(w.acc, a) {
      AccountKeyOf(s, w, a);
    }
    OneMoreBlock(bs, AccountKey(a), AccountValueOf(l, a), AccountValueOf(w.acc, a));
  }

  lemma NoAccountRecorded(a: Address)
    ensures KeyRecorded([], AccountKey(a), AccountValueOf(map[], a))
    ensures forall s :: !Saved([], s)
  {
    hide AccountKey;
  }

  /** The newest state of every account is its record in the ledger; other addresses have none. */
  lemma {:induction false} AccountRecorded(c: Chain, bs: seq<BlockData>, a: Address)
    requires ValidChain(c) && Recorded(c, bs)
    ensures KeyRecorded(bs, AccountKey(a), AccountValueOf(NodeAfter(c).ledger.accounts, a))
  {
    hide Records, KeyRecorded, Proper, BlockOf, GenesisLedger, Good, Op.IsValid, After, Commit, AccountValueOf;
    var front := bs[..|bs| - 1];
    match c
    case Genesis(keys, ds) =>
      var l := GenesisLedger(keys, ds);
      GenesisGood(keys, ds);
      EverythingProper(l);
      NoAccountRecorded(a);
      assert front == [];
      BlockAddsAccount(bs, map[], Everything(l), a);
      assert map[] + l.accounts == l.accounts;
    case Next(prev, suffrage, es) =>
      AccountRecorded(prev, front, a);
      ChainStep(c);
      forall s | Saved(front, s) ensures s.height < |front| { SavedHeights(prev, front, s); }
      var b := BlockOf(NodeAfter(prev), suffrage, es);
      BlockAddsAccount(bs, NodeAfter(prev).ledger.accounts, WrittenBy(b), a);
      CommitAccounts(b);
  }

  lemma CommitAccounts(b: Block)
    ensures Commit(b).accounts == b.env.base.accounts + WrittenBy(b).acc
  {}

  // ---------------------------------------------------------------- account documents

  ghost predicate Filed(s: SavedState) {
    s.value.AccountValue? ==> s.key == AccountKey(s.value.account.address)
  }

  lemma RecordFiled(s: SavedState, w: Written)
    requires Named(w) && (IsAccountRecord(s, w) || IsBalanceRecord(s, w) || IsDesignRecord(s, w))
    ensures Filed(s)
  {
    hide AccountKey, DesignKey, KeyOf;
  }

  lemma LedgerNamed(b: Block, l: Ledger)
    ensures Good(l) ==> Named(Everything(l))
    ensures Good(Commit(b)) ==> Named(WrittenBy(b))
  {
    hide GoodDesign, Paid;
    assert forall a :: a in b.acc ==> a in Commit(b).accounts && Commit(b).accounts[a] == b.acc[a];
  }

  lemma {:induction false} SavedFiled(c: Chain, bs: seq<BlockData>, s: SavedState)
    requires ValidChain(c) && Recorded(c, bs) && Saved(bs, s)
    ensures Filed(s)
  {
    hide IsAccountRecord, IsBalanceRecord, IsDesignRecord, Filed, Proper, Named, BlockOf, Everything, WrittenBy;
    hide GenesisLedger, Good, Op.IsValid, Saved;
    SavedLast(bs, s);
    match c
    case Genesis(keys, ds) =>
      assert bs[..|bs| - 1] == [];
      NoAccountRecorded("");
      GenesisGood(keys, ds);
      LedgerNamed(Fresh(Env(GenesisLedger(keys, ds), map[], [], 0)), GenesisLedger(keys, ds));
      RecordFiled(s, Everything(GenesisLedger(keys, ds)));
    case Next(prev, suffrage, es) =>
      if s in bs[|bs| - 1].states {
        ChainStep(c);
        var b := BlockOf(NodeAfter(prev), suffrage, es);
        LedgerNamed(b, NodeAfter(c).ledger);
        RecordFiled(s, WrittenBy(b));
      } else {
        SavedFiled(prev, bs[..|bs| - 1], s);
      }
  }

  lemma AccountDocInBlock(blk: BlockData, d: Doc)
    requires Prepared(blk) && d.AccountEntry?
    ensures d in DocsOf(blk) <==> DocOfSome(blk.states, d)
  {
    hide Digestible, DocOfState;
    StateDocMembers(blk.states, d);
    assert d !in OperationDocs(blk);
  }

  lemma AccountDocsSaved(bs: Blocks, d: Doc)
    requires bs.WellFormed() && d.AccountEntry?
    ensures d in bs.UpTo(|bs.main| - 1) <==> DocOfSaved(bs.main, d)
  {
    hide InTree, AllDigestible, StatesAtHeight, DocOfSaved, DocOfSome, DocsOf, Blocks.UpTo;
    UpToMembers(bs, |bs.main| - 1, d);
    DocOfBlocks(bs.main, d);
    forall i | 0 <= i < |bs.main| ensures d in DocsOf(bs.At(i)) <==> DocOfSome(bs.main[i].states, d) {
      AccountDocInBlock(bs.At(i), d);
    }
  }

  /** The state of the account at a. */
  ghost predicate StateOf(s: SavedState, a: Address) {
    s.key == AccountKey(a) && s.value.AccountValue? && s.value.account.address == a
  }

  lemma AccountDocOf(s: SavedState, a: Address)
    requires StateOf(s, a)
    ensures Digestible(s) && DocOfState(s) == Some(AccountEntry(AddressPrefix(a), s.height, s.value.account))
  {
    AccountKeyClass(a);
    hide IsAccountKey, IsBalanceKey, AccountKey, AddressPrefix;
  }

  /** The account documents of an address are those of its saved states. */
  lemma AccountDocStates(c: Chain, bs: Blocks, a: Address, d: Doc)
    requires ValidChain(c) && Recorded(c, bs.main) && bs.WellFormed()
    ensures d in bs.UpTo(|bs.main| - 1) && AccountFor(d, AddressPrefix(a)) <==>
            exists s :: Saved(bs.main, s) && StateOf(s, a) && AccountEntry(AddressPrefix(a), s.height, s.value.account) == d
  {
    hide Recorded, Blocks.WellFormed, AddressPrefix, Blocks.UpTo, Saved, AccountKey, Digestible, IsBalanceKey;
    hide IsAccountKey, BalanceDocAddress;
    if d in bs.UpTo(|bs.main| - 1) && AccountFor(d, AddressPrefix(a)) {
      AccountDocsSaved(bs, d);
      var s :| Saved(bs.main, s) && Digestible(s) && DocOfState(s) == Some(d);
      SavedFiled(c, bs.main, s);
      AccountStateOnly(s);
      AddressPrefixInjective(s.value.account.address, a);
    }
    if s :| Saved(bs.main, s) && StateOf(s, a) && AccountEntry(AddressPrefix(a), s.height, s.value.account) == d {
      AccountDocOf(s, a);
      AccountDocsSaved(bs, d);
    }
  }

  lemma AccountStateOnly(s: SavedState)
    requires Digestible(s) && DocOfState(s).Some? && DocOfState(s).value.AccountEntry?
    ensures s.value.AccountValue? && DocOfState(s).value.account == s.value.account
    ensures DocOfState(s).value.address == AddressPrefix(s.value.account.address)
  {
    hide IsAccountKey, IsBalanceKey, BalanceDocAddress, AddressPrefix;
  }

  lemma NewestOfState(c: Chain, bs: Blocks, a: Address, s: SavedState, d: Doc)
    requires ValidChain(c) && Recorded(c, bs.main) && bs.WellFormed()
    requires NewestSaved(bs.main, AccountKey(a), s) && StateOf(s, a)
    ensures NewestAccount(bs.UpTo(|bs.main| - 1), AddressPrefix(a), d) <==>
            d == AccountEntry(AddressPrefix(a), s.height, s.value.account)
  {
    hide Recorded, Blocks.WellFormed, AddressPrefix, Blocks.UpTo, Saved, AccountKey;
    var docs, newest := bs.UpTo(|bs.main| - 1), AccountEntry(AddressPrefix(a), s.height, s.value.account);
    AccountDocStates(c, bs, a, newest);
    forall e | e in docs && AccountFor(e, AddressPrefix(a)) ensures e.h <= s.height { AccountDocStates(c, bs, a, e); }
    if NewestAccount(docs, AddressPrefix(a), d) {
      AccountDocStates(c, bs, a, d);
      var t :| Saved(bs.main, t) && StateOf(t, a) && AccountEntry(AddressPrefix(a), t.height, t.value.account) == d;
      SavedOnce(c, bs.main, s, t);
    }
  }

  /**
    Once all blocks are digested, the newest account document of an address is the record of the ledger,
    keys included; an address without account has no document.
  */
  lemma IndexShowsAccounts(c: Chain, bs: Blocks, a: Address, account: Account)
    requires ValidChain(c) && Recorded(c, bs.main) && bs.WellFormed()
    ensures var docs, accounts := bs.UpTo(|bs.main| - 1), NodeAfter(c).ledger.accounts;
            && (AccountShown(docs, AddressPrefix(a), account) <==> a in accounts && accounts[a] == account)
            && ((exists d :: d in docs && AccountFor(d, AddressPrefix(a))) <==> a in accounts)
  {
    hide Recorded, Blocks.WellFormed, AddressPrefix, Blocks.UpTo, Saved, AccountKey, ValidChain, NodeAfter;
    var docs, accounts := bs.UpTo(|bs.main| - 1), NodeAfter(c).ledger.accounts;
    AccountRecorded(c, bs.main, a);
    if a in accounts {
      var s :| NewestSaved(bs.main, AccountKey(a), s) && Some(s.value) == AccountValueOf(accounts, a);
      SavedFiled(c, bs.main, s);
      AccountKeyInjective(a, s.value.account.address);
      var newest := AccountEntry(AddressPrefix(a), s.height, s.value.account);
      forall d ensures NewestAccount(docs, AddressPrefix(a), d) <==> d == newest { NewestOfState(c, bs, a, s, d); }
      assert newest in docs && AccountFor(newest, AddressPrefix(a)) by { assert NewestAccount(docs, AddressPrefix(a), newest); }
    } else {
      forall d ensures !(d in docs && AccountFor(d, AddressPrefix(a))) { AccountDocStates(c, bs, a, d); }
    }
  }

  /**
    What the API answers for an address once all blocks are digested: nothing if it has no account, else
    its record and exactly its balances in the ledger.
  */
  lemma AnswerIsLedger(c: Chain, bs: Blocks, a: Address, r: Option<AccountAnswer>)
    requires ValidChain(c) && Recorded(c, bs.main) && bs.WellFormed()
    requires Answers(bs.UpTo(|bs.main| - 1), AddressPrefix(a), r)
    ensures var l := NodeAfter(c).ledger;
            && (r.Some? <==> a in l.accounts)
            && (r.Some? ==> r.value.account == l.accounts[a])
            && (r.Some? ==> forall am :: am in r.value.balance <==>
                  BK(a, am.cid) in l.balances && l.balances[BK(a, am.cid)] == am.big)
  {
    hide Recorded, Blocks.WellFormed, AddressPrefix, Blocks.UpTo, ValidChain, NodeAfter, AccountShown, NewestAmount;
    hide LastChange, Held, DistinctCurrencies;
    var docs, l := bs.UpTo(|bs.main| - 1), NodeAfter(c).ledger;
    IndexShowsAccounts(c, bs, a, if r.Some? then r.value.account else Account("", Keys("", [], 0)));
    if r.Some? {
      forall am ensures am in r.value.balance <==> BK(a, am.cid) in l.balances && l.balances[BK(a, am.cid)] == am.big {
        IndexShowsBalances(c, bs, a, am.cid, am.big);
        if BK(a, am.cid) in l.balances && l.balances[BK(a, am.cid)] == am.big {
          var x :| x in r.value.balance && x.cid == am.cid;
          IndexShowsBalances(c, bs, a, x.cid, x.big);
          assert x == am;
        }
      }
    }
  }
}
