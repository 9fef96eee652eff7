/** The index agrees with the chain it indexes: saved states, documents, balances and designs. */
module LedgerIndex {
  import opened Prelude
  import opened Feeers
  import opened StateKeys
  import opened Facts
  import opened AmountStates
  import opened Ledgers
  import opened Effects
  import opened BlockInvariants
  import opened Chains
  import opened DigestDocs
  import opened DigestStore
  import opened Balances

  // ---------------------------------------------------------------- the states a block saves

  /** The records a block writes. */
  datatype Written = Written(acc: map<Address, Account>, bal: map<BalanceKey, int>, des: Designs)

  function WrittenBy(b: Block): Written {
    Written(b.acc, Values(Paid(b)), b.des)
  }

  function Everything(l: Ledger): Written {
    Written(l.accounts, l.balances, l.designs)
  }

  function KeyOf(k: BalanceKey): string {
    StateKeys.BalanceKey(k.addr, k.cid)
  }

  ghost predicate IsAccountRecord(s: SavedState, w: Written) {
    exists a :: a in w.acc && s.key == AccountKey(a) && s.value == AccountValue(w.acc[a])
  }

  ghost predicate IsBalanceRecord(s: SavedState, w: Written) {
    exists k :: k in w.bal && s.key == KeyOf(k) && s.value == AmountValue(Amount(k.cid, w.bal[k]))
  }

  ghost predicate IsDesignRecord(s: SavedState, w: Written) {
    exists c :: c in w.des && s.key == DesignKey(c) && s.value == DesignValue(w.des[c])
  }

  /** The states saved at height h are the records written, each once, under its key. */
  ghost predicate Records(sts: seq<SavedState>, w: Written, h: int) {
    && (forall s :: s in sts ==> s.height == h && (IsAccountRecord(s, w) || IsBalanceRecord(s, w) || IsDesignRecord(s, w)))
    && (forall a :: a in w.acc ==> exists s :: s in sts && s.key == AccountKey(a) && s.value == AccountValue(w.acc[a]))
    && (forall k :: k in w.bal ==> exists s :: s in sts && s.key == KeyOf(k) && s.value == AmountValue(Amount(k.cid, w.bal[k])))
    && (forall c :: c in w.des ==> exists s :: s in sts && s.key == DesignKey(c) && s.value == DesignValue(w.des[c]))
    && (forall i, j :: 0 <= i < j < |sts| ==> sts[i].key != sts[j].key)
  }

  /** The blocks hold the states of the chain, height by height. */
  ghost predicate Recorded(c: Chain, bs: seq<BlockData>) {
    && bs != []
    && match c
       case Genesis(keys, ds) => |bs| == 1 && Records(bs[0].states, Everything(GenesisLedger(keys, ds)), 0)
       case Next(prev, suffrage, es) =>
         && Recorded(prev, bs[..|bs| - 1])
         && Records(bs[|bs| - 1].states, WrittenBy(BlockOf(NodeAfter(prev), suffrage, es)), |bs| - 1)
  }

  ghost predicate Saved(bs: seq<BlockData>, s: SavedState) {
    exists h :: 0 <= h < |bs| && s in bs[h].states
  }

  lemma SavedLast(bs: seq<BlockData>, s: SavedState)
    requires bs != []
    ensures Saved(bs, s) <==> Saved(bs[..|bs| - 1], s) || s in bs[|bs| - 1].states
  {}

  lemma {:induction false} SavedHeights(c: Chain, bs: seq<BlockData>, s: SavedState)
    requires Recorded(c, bs) && Saved(bs, s)
    ensures 0 <= s.height < |bs|
  {
    hide IsAccountRecord, IsBalanceRecord, IsDesignRecord, WrittenBy, Everything, BlockOf;
    SavedLast(bs, s);
    if c.Next? && s !in bs[|bs| - 1].states {
      SavedHeights(c.prev, bs[..|bs| - 1], s);
    } else if c.Genesis? {
      assert bs[..|bs| - 1] == [];
    }
  }

  // ---------------------------------------------------------------- keys of records

  /** Only valid currency ids occur, and designs are filed under their own. */
  ghost predicate Proper(w: Written) {
    && (forall k :: k in w.bal ==> ValidCurrencyID(k.cid))
    && (forall c :: c in w.des ==> ValidCurrencyID(c) && w.des[c].cid == c)
  }

  lemma BalanceKeyOf(s: SavedState, w: Written, k: BalanceKey)
    requires Proper(w) && ValidCurrencyID(k.cid) && s.key == KeyOf(k)
    requires IsAccountRecord(s, w) || IsBalanceRecord(s, w) || IsDesignRecord(s, w)
    ensures k in w.bal && s.value == AmountValue(Amount(k.cid, w.bal[k]))
  {
    hide ValidCurrencyID, DesignKey, AccountKey, StateKeys.BalanceKey, IsAccountKey, IsBalanceKey, IsDesignKey;
    KeysClassified(k.addr, k.cid);
    if IsAccountRecord(s, w) {
      var a :| a in w.acc && s.key == AccountKey(a);
      KeysClassified(a, k.cid);
    } else if IsDesignRecord(s, w) {
      var c :| c in w.des && s.key == DesignKey(c);
      KeysClassified(k.addr, c);
    } else {
      var j :| j in w.bal && s.key == KeyOf(j) && s.value == AmountValue(Amount(j.cid, w.bal[j]));
      BalanceKeyInjective(j.addr, j.cid, k.addr, k.cid);
    }
  }

  lemma DesignKeyOf(s: SavedState, w: Written, c: CurrencyID)
    requires Proper(w) && ValidCurrencyID(c) && s.key == DesignKey(c)
    requires IsAccountRecord(s, w) || IsBalanceRecord(s, w) || IsDesignRecord(s, w)
    ensures c in w.des && s.value == DesignValue(w.des[c])
  {
    hide ValidCurrencyID, DesignKey, AccountKey, StateKeys.BalanceKey, IsAccountKey, IsBalanceKey, IsDesignKey;
    KeysClassified("", c);
    if IsAccountRecord(s, w) {
      var a :| a in w.acc && s.key == AccountKey(a);
      KeysClassified(a, c);
    } else if IsBalanceRecord(s, w) {
      var j :| j in w.bal && s.key == KeyOf(j);
      KeysClassified(j.addr, j.cid);
    } else {
      var d :| d in w.des && s.key == DesignKey(d) && s.value == DesignValue(w.des[d]);
      DesignKeyInjective(c, d);
    }
  }

  lemma EverythingProper(l: Ledger)
    requires Good(l)
    ensures Proper(Everything(l))
  {}

  lemma WrittenProper(b: Block)
    requires Good(Commit(b))
    ensures Proper(WrittenBy(b))
  {}

  /** What a block writes, on a chain. */
  lemma ChainStep(c: Chain)
    requires ValidChain(c) && c.Next?
    ensures var b := BlockOf(NodeAfter(c.prev), c.suffrage, c.events);
            && Good(NodeAfter(c).ledger) && Proper(WrittenBy(b))
            && NodeAfter(c).ledger == Commit(b) && b.env.base == NodeAfter(c.prev).ledger
  {
    hide GoodNode, BlockOf, Op.IsValid, BlockInv, Payable, Paid, Run, Proper;
    EveryChainGood(c.prev);
    EveryChainGood(c);
    AfterGood(NodeAfter(c.prev), c.suffrage, c.events);
    NodeGood(NodeAfter(c));
    WrittenProper(BlockOf(NodeAfter(c.prev), c.suffrage, c.events));
  }

  lemma NodeGood(s: Node)
    requires GoodNode(s)
    ensures Good(s.ledger)
  {
    hide Good;
  }

  // ---------------------------------------------------------------- balances

  /** The newest saved state under a key. */
  ghost predicate NewestSaved(bs: seq<BlockData>, key: string, s: SavedState) {
    Saved(bs, s) && s.key == key && forall t :: Saved(bs, t) && t.key == key ==> t.height <= s.height
  }

  /** The newest state under a key holds v; None if the key was never saved. */
  ghost predicate KeyRecorded(bs: seq<BlockData>, key: string, v: Option<StateValue>) {
    if v.Some? then exists s :: NewestSaved(bs, key, s) && s.value == v.value
    else forall s :: Saved(bs, s) ==> s.key != key
  }

  lemma OneMoreBlock(bs: seq<BlockData>, key: string, before: Option<StateValue>, now: Option<StateValue>)
    requires bs != [] && KeyRecorded(bs[..|bs| - 1], key, before)
    requires forall s :: Saved(bs[..|bs| - 1], s) ==> s.height < |bs| - 1
    requires forall s :: s in bs[|bs| - 1].states ==> s.height == |bs| - 1
    requires forall s :: s in bs[|bs| - 1].states && s.key == key ==> Some(s.value) == now
    requires now.Some? ==> exists s :: s in bs[|bs| - 1].states && s.key == key
    ensures KeyRecorded(bs, key, if now.Some? then now else before)
  {}

  function BalanceValue(m: map<BalanceKey, int>, k: BalanceKey): Option<StateValue> {
    if k in m then Some(AmountValue(Amount(k.cid, m[k]))) else None
  }

  function DesignValueOf(m: Designs, c: CurrencyID): Option<StateValue> {
    if c in m then Some(DesignValue(m[c])) else None
  }

  /** What the states of one block add under the key of a balance and the key of a design. */
  lemma BlockOneMore(bs: seq<BlockData>, l: Ledger, w: Written, k: BalanceKey)
    requires bs != [] && Records(bs[|bs| - 1].states, w, |bs| - 1) && Proper(w) && ValidCurrencyID(k.cid)
    requires forall s :: Saved(bs[..|bs| - 1], s) ==> s.height < |bs| - 1
    requires KeyRecorded(bs[..|bs| - 1], KeyOf(k), BalanceValue(l.balances, k))
    requires KeyRecorded(bs[..|bs| - 1], DesignKey(k.cid), DesignValueOf(l.designs, k.cid))
    ensures KeyRecorded(bs, KeyOf(k), BalanceValue(l.balances + w.bal, k))
    ensures KeyRecorded(bs, DesignKey(k.cid), DesignValueOf(l.designs + w.des, k.cid))
  {
    hide ValidCurrencyID, KeyOf, DesignKey, IsAccountRecord, IsBalanceRecord, IsDesignRecord, Saved, Proper;
    hide KeyRecorded;
    var last := bs[|bs| - 1].states;
    forall s | s in last && s.key == KeyOf(k) ensures Some(s.value) == BalanceValue(w.bal, k) {
      BalanceKeyOf(s, w, k);
    }
    forall s | s in last && s.key == DesignKey(k.cid) ensures Some(s.value) == DesignValueOf(w.des, k.cid) {
      DesignKeyOf(s, w, k.cid);
    }
    OneMoreBlock(bs, KeyOf(k), BalanceValue(l.balances, k), BalanceValue(w.bal, k));
    OneMoreBlock(bs, DesignKey(k.cid), DesignValueOf(l.designs, k.cid), DesignValueOf(w.des, k.cid));
  }

  /** The newest states are the balances and designs of the ledger; other keys have none. */
  lemma {:induction false} LedgerRecorded(c: Chain, bs: seq<BlockData>, k: BalanceKey)
    requires ValidChain(c) && Recorded(c, bs) && ValidCurrencyID(k.cid)
    ensures KeyRecorded(bs, KeyOf(k), BalanceValue(NodeAfter(c).ledger.balances, k))
    ensures KeyRecorded(bs, DesignKey(k.cid), DesignValueOf(NodeAfter(c).ledger.designs, k.cid))
  {
    hide ValidCurrencyID, Records, KeyRecorded, Proper, BlockOf, GenesisLedger, Good, Op.IsValid, After, Commit;
    hide BalanceValue, DesignValueOf;
    var front := bs[..|bs| - 1];
    match c
    case Genesis(keys, ds) =>
      var l := GenesisLedger(keys, ds);
      GenesisGood(keys, ds);
      EverythingProper(l);
      NothingRecorded(front, k);
      BlockOneMore(bs, Ledger(map[], map[], map[]), Everything(l), k);
      assert map[] + l.balances == l.balances && map[] + l.designs == l.designs;
    case Next(prev, suffrage, es) =>
      LedgerRecorded(prev, front, k);
      ChainStep(c);
      forall s | Saved(front, s) ensures s.height < |front| { SavedHeights(prev, front, s); }
      var b := BlockOf(NodeAfter(prev), suffrage, es);
      BlockOneMore(bs, NodeAfter(prev).ledger, WrittenBy(b), k);
      CommitBalances(b);
  }

  lemma NothingRecorded(bs: seq<BlockData>, k: BalanceKey)
    requires bs == []
    ensures KeyRecorded(bs, KeyOf(k), BalanceValue(map[], k)) && KeyRecorded(bs, DesignKey(k.cid), DesignValueOf(map[], k.cid))
    ensures forall s :: !Saved(bs, s)
  {
    hide KeyOf, DesignKey;
  }

  lemma CommitBalances(b: Block)
    ensures Commit(b).balances == b.env.base.balances + WrittenBy(b).bal
    ensures Commit(b).designs == b.env.base.designs + WrittenBy(b).des
  {}

  // ---------------------------------------------------------------- balance documents

  ghost predicate DocOfSome(sts: seq<SavedState>, d: Doc) {
    exists s :: s in sts && Digestible(s) && DocOfState(s) == Some(d)
  }

  ghost predicate DocOfSaved(bs: seq<BlockData>, d: Doc) {
    exists s :: Saved(bs, s) && Digestible(s) && DocOfState(s) == Some(d)
  }

  lemma DocOfBlocks(bs: seq<BlockData>, d: Doc)
    ensures DocOfSaved(bs, d) <==> exists i :: 0 <= i < |bs| && DocOfSome(bs[i].states, d)
  {}

  lemma DocInBlock(blk: BlockData, d: Doc)
    requires Prepared(blk) && d.BalanceEntry?
    ensures d in DocsOf(blk) <==> DocOfSome(blk.states, d)
  {
    hide Digestible, DocOfState;
    StateDocMembers(blk.states, d);
    assert d !in OperationDocs(blk);
  }

  /** The balance documents are those of the saved states. */
  lemma BalanceDocsSaved(bs: Blocks, d: Doc)
    requires bs.WellFormed() && d.BalanceEntry?
    ensures d in bs.UpTo(|bs.main| - 1) <==> DocOfSaved(bs.main, d)
  {
    hide InTree, AllDigestible, StatesAtHeight, DocOfSaved, DocOfSome, DocsOf, Blocks.UpTo;
    UpToMembers(bs, |bs.main| - 1, d);
    DocOfBlocks(bs.main, d);
    forall i | 0 <= i < |bs.main| ensures d in DocsOf(bs.At(i)) <==> DocOfSome(bs.main[i].states, d) {
      DocInBlock(bs.At(i), d);
    }
  }

  // ---------------------------------------------------------------- every saved state is well keyed

  ghost predicate AccountKeyed(s: SavedState) {
    s.value.AccountValue? && exists a :: s.key == AccountKey(a)
  }

  ghost predicate BalanceKeyed(s: SavedState, k: BalanceKey) {
    ValidCurrencyID(k.cid) && s.key == KeyOf(k) && s.value.AmountValue? && s.value.am.cid == k.cid
  }

  ghost predicate DesignKeyed(s: SavedState) {
    s.value.DesignValue? && ValidCurrencyID(s.value.design.cid) && s.key == DesignKey(s.value.design.cid)
  }

  ghost predicate WellKeyed(s: SavedState) {
    AccountKeyed(s) || (exists k :: BalanceKeyed(s, k)) || DesignKeyed(s)
  }

  lemma RecordWellKeyed(s: SavedState, w: Written)
    requires Proper(w) && (IsAccountRecord(s, w) || IsBalanceRecord(s, w) || IsDesignRecord(s, w))
    ensures WellKeyed(s)
  {
    hide ValidCurrencyID, AccountKey, KeyOf, DesignKey;
    if IsBalanceRecord(s, w) {
      var k :| k in w.bal && s.key == KeyOf(k) && s.value == AmountValue(Amount(k.cid, w.bal[k]));
      assert BalanceKeyed(s, k);
    }
  }

  lemma {:induction false} SavedWellKeyed(c: Chain, bs: seq<BlockData>, s: SavedState)
    requires ValidChain(c) && Recorded(c, bs) && Saved(bs, s)
    ensures WellKeyed(s)
  {
    hide IsAccountRecord, IsBalanceRecord, IsDesignRecord, WellKeyed, Proper, BlockOf, Everything;
    hide GenesisLedger, Good, Op.IsValid, Saved;
    SavedLast(bs, s);
    match c
    case Genesis(keys, ds) =>
      assert bs[..|bs| - 1] == [];
      NothingRecorded([], BK("", ""));
      GenesisGood(keys, ds);
      EverythingProper(GenesisLedger(keys, ds));
      RecordWellKeyed(s, Everything(GenesisLedger(keys, ds)));
    case Next(prev, suffrage, es) =>
      if s in bs[|bs| - 1].states {
        ChainStep(c);
        RecordWellKeyed(s, WrittenBy(BlockOf(NodeAfter(prev), suffrage, es)));
      } else {
        SavedWellKeyed(prev, bs[..|bs| - 1], s);
      }
  }

  // ---------------------------------------------------------------- reading balances

  /** A balance document comes from a balance key, and says what the key says. */
  lemma BalanceDocOf(s: SavedState, k: BalanceKey)
    requires BalanceKeyed(s, k)
    ensures Digestible(s)
    ensures DocOfState(s) == Some(BalanceEntry(AddressPrefix(k.addr), k.cid, s.height, s.previousHeight, s.value.am.big))
  {
    KeysClassified(k.addr, k.cid);
    BalanceDocAddressExact(k.addr, k.cid);
    hide ValidCurrencyID, IsAccountKey, IsBalanceKey, BalanceDocAddress, AddressPrefix, StateKeys.BalanceKey;
  }

  lemma OtherDocOf(s: SavedState)
    requires AccountKeyed(s) || DesignKeyed(s)
    ensures Digestible(s)
    ensures DocOfState(s).Some? ==> !DocOfState(s).value.BalanceEntry?
  {
    hide IsAccountKey, IsBalanceKey, ValidCurrencyID, AccountKey, DesignKey;
    if AccountKeyed(s) {
      var a :| s.key == AccountKey(a);
      AccountKeyClass(a);
    } else {
      KeysClassified("", s.value.design.cid);
    }
  }

  lemma SomeCurrency()
    ensures ValidCurrencyID("MCC")
  {}

  lemma AccountKeyClass(a: Address)
    ensures IsAccountKey(AccountKey(a)) && !IsBalanceKey(AccountKey(a))
  {}

  /** The state a balance document of address a and currency cid was made from. */
  lemma DocStates(c: Chain, bs: Blocks, k: BalanceKey, d: Doc)
    requires ValidChain(c) && Recorded(c, bs.main) && bs.WellFormed() && ValidCurrencyID(k.cid)
    ensures (d in bs.UpTo(|bs.main| - 1) && BalanceFor(d, AddressPrefix(k.addr)) && d.currency == k.cid) <==>
            exists s :: Saved(bs.main, s) && BalanceKeyed(s, k) && DocOfBalance(s, k) == d
  {
    hide Recorded, Blocks.WellFormed, ValidCurrencyID, AddressPrefix, Digestible, DocOfState, KeyOf;
    hide Blocks.UpTo, Saved;
    if d in bs.UpTo(|bs.main| - 1) && BalanceFor(d, AddressPrefix(k.addr)) && d.currency == k.cid {
      BalanceDocsSaved(bs, d);
      var s :| Saved(bs.main, s) && Digestible(s) && DocOfState(s) == Some(d);
      SavedWellKeyed(c, bs.main, s);
      if AccountKeyed(s) || DesignKeyed(s) {
        OtherDocOf(s);
      } else {
        var j :| BalanceKeyed(s, j);
        BalanceDocOf(s, j);
        AddressPrefixInjective(j.addr, k.addr);
      }
    }
    if s :| Saved(bs.main, s) && BalanceKeyed(s, k) && DocOfBalance(s, k) == d {
      BalanceDocOf(s, k);
      BalanceDocsSaved(bs, d);
    }
  }

  ghost function DocOfBalance(s: SavedState, k: BalanceKey): Doc
    requires BalanceKeyed(s, k)
  {
    BalanceEntry(AddressPrefix(k.addr), k.cid, s.height, s.previousHeight, s.value.am.big)
  }

  lemma NewestDoc(c: Chain, bs: Blocks, k: BalanceKey, s: SavedState)
    requires ValidChain(c) && Recorded(c, bs.main) && bs.WellFormed() && ValidCurrencyID(k.cid)
    requires NewestSaved(bs.main, KeyOf(k), s) && BalanceKeyed(s, k)
    ensures Newest(bs.UpTo(|bs.main| - 1), AddressPrefix(k.addr), k.cid, DocOfBalance(s, k))
  {
    hide Recorded, Blocks.WellFormed, ValidCurrencyID, AddressPrefix, Blocks.UpTo, Saved, KeyOf;
    var docs := bs.UpTo(|bs.main| - 1);
    DocStates(c, bs, k, DocOfBalance(s, k));
    forall e | e in docs && BalanceFor(e, AddressPrefix(k.addr)) && e.currency == k.cid ensures e.h <= s.height {
      DocStates(c, bs, k, e);
    }
  }

  /** A key is saved at most once per height. */
  lemma {:induction false} SavedOnce(c: Chain, bs: seq<BlockData>, s: SavedState, t: SavedState)
    requires Recorded(c, bs) && Saved(bs, s) && Saved(bs, t) && s.key == t.key && s.height == t.height
    ensures s == t
  {
    hide IsAccountRecord, IsBalanceRecord, IsDesignRecord, WrittenBy, Everything, BlockOf, Saved;
    var front, last := bs[..|bs| - 1], bs[|bs| - 1].states;
    SavedLast(bs, s);
    SavedLast(bs, t);
    if c.Genesis? {
      assert front == [];
      NothingRecorded(front, BK("", ""));
    } else {
      if Saved(front, s) { SavedHeights(c.prev, front, s); }
      if Saved(front, t) { SavedHeights(c.prev, front, t); }
      if Saved(front, s) && Saved(front, t) { SavedOnce(c.prev, front, s, t); }
    }
  }

  /** The newest document of a balance carries the amount of the newest state. */
  lemma NewestDocValue(c: Chain, bs: Blocks, k: BalanceKey, s: SavedState, d: Doc)
    requires ValidChain(c) && Recorded(c, bs.main) && bs.WellFormed() && ValidCurrencyID(k.cid)
    requires NewestSaved(bs.main, KeyOf(k), s) && BalanceKeyed(s, k)
    requires Newest(bs.UpTo(|bs.main| - 1), AddressPrefix(k.addr), k.cid, d)
    ensures d.big == s.value.am.big
  {
    hide Recorded, Blocks.WellFormed, ValidCurrencyID, AddressPrefix, Blocks.UpTo, Saved, KeyOf;
    NewestDoc(c, bs, k, s);
    DocStates(c, bs, k, d);
    var t :| Saved(bs.main, t) && BalanceKeyed(t, k) && DocOfBalance(t, k) == d;
    SavedOnce(c, bs.main, s, t);
  }

  /**
    Once all blocks are digested, the index shows for every address and currency exactly the balance
    of the ledger, and no other currency.
  */
  lemma IndexShowsBalances(c: Chain, bs: Blocks, a: Address, cid: CurrencyID, big: int)
    requires ValidChain(c) && Recorded(c, bs.main) && bs.WellFormed()
    ensures var docs, bal := bs.UpTo(|bs.main| - 1), NodeAfter(c).ledger.balances;
            && (Held(docs, AddressPrefix(a), cid) <==> BK(a, cid) in bal)
            && (NewestAmount(docs, AddressPrefix(a), cid, big) <==> BK(a, cid) in bal && bal[BK(a, cid)] == big)
  {
    hide Recorded, Blocks.WellFormed, ValidCurrencyID, AddressPrefix, Blocks.UpTo, Saved, KeyOf, DesignKey;
    hide Good, ValidChain, NodeAfter;
    var docs, bal, k := bs.UpTo(|bs.main| - 1), NodeAfter(c).ledger.balances, BK(a, cid);
    if !ValidCurrencyID(cid) {
      InvalidUnknown(c, bs, a, cid);
    } else {
      LedgerRecorded(c, bs.main, k);
      if Held(docs, AddressPrefix(a), cid) {
        var d :| d in docs && BalanceFor(d, AddressPrefix(a)) && d.currency == cid;
        DocStates(c, bs, k, d);
      }
      if k in bal {
        var s :| NewestSaved(bs.main, KeyOf(k), s) && s.value == AmountValue(Amount(cid, bal[k]));
        NewestDoc(c, bs, k, s);
        if NewestAmount(docs, AddressPrefix(a), cid, big) {
          var d :| Newest(docs, AddressPrefix(a), cid, d) && d.big == big;
          NewestDocValue(c, bs, k, s, d);
        }
      }
    }
  }

  /** Neither the ledger nor the index knows an invalid currency id. */
  lemma InvalidUnknown(c: Chain, bs: Blocks, a: Address, cid: CurrencyID)
    requires ValidChain(c) && Recorded(c, bs.main) && bs.WellFormed() && !ValidCurrencyID(cid)
    ensures BK(a, cid) !in NodeAfter(c).ledger.balances
    ensures !Held(bs.UpTo(|bs.main| - 1), AddressPrefix(a), cid)
  {
    hide Recorded, Blocks.WellFormed, ValidCurrencyID, AddressPrefix, Blocks.UpTo, Saved, KeyOf, ValidChain;
    hide NodeAfter, Digestible, DocOfState;
    EveryChainGood(c);
    EverythingProper(NodeAfter(c).ledger);
    forall d | d in bs.UpTo(|bs.main| - 1) && d.BalanceEntry? ensures d.currency != cid {
      BalanceDocsSaved(bs, d);
      var s :| Saved(bs.main, s) && Digestible(s) && DocOfState(s) == Some(d);
      SavedWellKeyed(c, bs.main, s);
      if AccountKeyed(s) || DesignKeyed(s) {
        OtherDocOf(s);
      } else {
        var j :| BalanceKeyed(s, j);
        BalanceDocOf(s, j);
      }
    }
  }
}
