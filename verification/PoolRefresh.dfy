/** The currency pool follows the ledger: what is loaded from the saved states is what the chain registered. */
module PoolRefresh {
  import opened Prelude
  import opened Feeers
  import opened StateKeys
  import opened AccountKeys
  import opened Facts
  import opened AmountStates
  import opened Ledgers
  import opened Effects
  import opened BlockInvariants
  import opened Closing
  import opened Chains
  import opened Pools
  import opened DigestDocs
  import opened LedgerIndex
  import C = Currencies

  // ---------------------------------------------------------------- addresses

  /** Hashes are printed without a colon, so no address starts like the key of a design. */
  ghost predicate PlainHashes() {
    forall b: Bytes :: ':' !in SHA256(b)
  }

  ghost predicate Plain(l: Ledger) {
    forall a :: a in l.accounts ==> ':' !in a
  }

  lemma ValidKeysPlain(ks: Keys)
    requires PlainHashes() && Valid(ks)
    ensures ':' !in ks.h
  {}

  lemma BlockPlain(b: Block)
    requires PlainHashes() && Bookkeeping(b) && WrittenOnce(b) && Plain(b.env.base)
    ensures Plain(Commit(b))
  {
    hide PlainHashes, Valid, Checks, Op.IsValid, DidOf, AccountWrites, DesignWrites, Bookkeeping, Paid;
    forall a | a in b.acc ensures ':' !in a {
      var op :| op in b.done && a in AccountsBy(b.env)(op);
      ProcessedOperation(b, op);
      WritePlain(b.env, op, a);
    }
  }

  lemma WritePlain(env: Env, op: Op, a: Address)
    requires PlainHashes() && Plain(env.base) && op.IsValid() && Checks(env, op) && a in AccountWrites(env, op)
    ensures ':' !in a
  {
    hide PlainHashes, Valid, Flatten, CanPay, ValidPayments, SignedBy, KeysEqual;
    if op.CreateAccounts? {
      CreatedMeaning(op.accounts);
      var x :| x in op.accounts && x.keys.h == a;
      ValidKeysPlain(x.keys);
    }
  }

  lemma {:induction false} ChainPlain(c: Chain)
    requires PlainHashes() && ValidChain(c)
    ensures Plain(NodeAfter(c).ledger)
  {
    hide PlainHashes, BlockOf, Op.IsValid, Bookkeeping, WrittenOnce, GoodNode, Valid, Payable, Commit;
    match c
    case Genesis(keys, _) => ValidKeysPlain(keys);
    case Next(prev, suffrage, es) =>
      ChainPlain(prev);
      EveryChainGood(prev);
      AfterGood(NodeAfter(prev), suffrage, es);
      BlockPlain(BlockOf(NodeAfter(prev), suffrage, es));
  }

  // ---------------------------------------------------------------- the state collection

  ghost function StatesOf(bs: seq<BlockData>): set<SavedState> {
    set h, s | 0 <= h < |bs| && s in bs[h].states :: s
  }

  lemma StatesSaved(bs: seq<BlockData>, s: SavedState)
    ensures s in StatesOf(bs) <==> Saved(bs, s)
  {}

  /** Only designs are kept under keys that start like the key of a design. */
  ghost predicate PlainlyKeyed(s: SavedState) {
    IsDesignKey(s.key) ==> DesignKeyed(s)
  }

  lemma RecordPlainlyKeyed(s: SavedState, w: Written)
    requires Proper(w) && (IsAccountRecord(s, w) || IsBalanceRecord(s, w) || IsDesignRecord(s, w))
    requires (forall a :: a in w.acc ==> ':' !in a) && (forall k :: k in w.bal ==> ':' !in k.addr)
    ensures PlainlyKeyed(s)
  {
    hide ValidCurrencyID, IsDesignKey, AccountKey, DesignKey, StateKeys.BalanceKey;
    SomeCurrency();
    if IsAccountRecord(s, w) {
      var a :| a in w.acc && s.key == AccountKey(a);
      KeysClassified(a, "MCC");
    } else if IsBalanceRecord(s, w) {
      var k :| k in w.bal && s.key == KeyOf(k);
      KeysClassified(k.addr, k.cid);
    }
  }

  /** Balances and accounts a block writes belong to accounts of the saved ledger. */
  lemma WrittenPlain(b: Block)
    requires Good(Commit(b)) && Plain(Commit(b))
    ensures var w := WrittenBy(b);
            (forall a :: a in w.acc ==> ':' !in a) && (forall k :: k in w.bal ==> ':' !in k.addr)
  {
    hide GoodDesign, Valid, Paid;
  }

  lemma {:induction false} SavedPlainlyKeyed(c: Chain, bs: seq<BlockData>, s: SavedState)
    requires PlainHashes() && ValidChain(c) && Recorded(c, bs) && Saved(bs, s)
    ensures PlainlyKeyed(s)
  {
    hide PlainHashes, IsAccountRecord, IsBalanceRecord, IsDesignRecord, PlainlyKeyed, Proper, BlockOf;
    hide GenesisLedger, Op.IsValid, Saved;
    hide Valid, GoodDesign, Paid;
    SavedLast(bs, s);
    ChainPlain(c);
    match c
    case Genesis(keys, ds) =>
      assert bs[..|bs| - 1] == [];
      NothingRecorded([], BK("", ""));
      GenesisGood(keys, ds);
      EverythingProper(GenesisLedger(keys, ds));
      RecordPlainlyKeyed(s, Everything(GenesisLedger(keys, ds)));
    case Next(prev, suffrage, es) =>
      if s in bs[|bs| - 1].states {
        ChainStep(c);
        WrittenPlain(BlockOf(NodeAfter(prev), suffrage, es));
        RecordPlainlyKeyed(s, WrittenBy(BlockOf(NodeAfter(prev), suffrage, es)));
      } else {
        SavedPlainlyKeyed(prev, bs[..|bs| - 1], s);
      }
  }

  lemma ChainStored(c: Chain, bs: seq<BlockData>)
    requires PlainHashes() && ValidChain(c) && Recorded(c, bs)
    ensures C.Stored(StatesOf(bs)) && forall s :: s in StatesOf(bs) ==> s.height >= 0
  {
    hide PlainHashes, ValidChain, Recorded, IsDesignKey, DesignKey, ValidCurrencyID, Saved, StatesOf;
    forall s | s in StatesOf(bs)
      ensures s.height >= 0
      ensures IsDesignKey(s.key) ==> s.value.DesignValue? && s.key == DesignKey(s.value.design.cid)
    {
      StatesSaved(bs, s);
      SavedHeights(c, bs, s);
      SavedPlainlyKeyed(c, bs, s);
    }
    forall s, t | s in StatesOf(bs) && t in StatesOf(bs) && s.key == t.key && s.height == t.height ensures s == t {
      StatesSaved(bs, s);
      StatesSaved(bs, t);
      SavedOnce(c, bs, s, t);
    }
  }

  // ---------------------------------------------------------------- loading and refreshing

  /** The designs a load shows. */
  function DesignsShown(loaded: map<CurrencyID, DesignState>): Designs {
    map c | c in loaded :: loaded[c].design
  }

  /** A full load shows exactly the designs of the ledger. */
  lemma FullLoadShowsLedger(c: Chain, bs: seq<BlockData>, full: map<CurrencyID, DesignState>)
    requires PlainHashes() && ValidChain(c) && Recorded(c, bs) && C.Latest(full, StatesOf(bs), 0)
    ensures DesignsShown(full) == NodeAfter(c).ledger.designs
  {
    hide PlainHashes, ValidChain, Recorded, StatesOf, C.Latest, NodeAfter;
    forall cid
      ensures cid in full <==> cid in NodeAfter(c).ledger.designs
      ensures cid in full ==> full[cid].design == NodeAfter(c).ledger.designs[cid]
    {
      FullLoadAt(c, bs, full, cid);
    }
  }

  lemma FullLoadAt(c: Chain, bs: seq<BlockData>, full: map<CurrencyID, DesignState>, cid: CurrencyID)
    requires PlainHashes() && ValidChain(c) && Recorded(c, bs) && C.Latest(full, StatesOf(bs), 0)
    ensures cid in full <==> cid in NodeAfter(c).ledger.designs
    ensures cid in full ==> full[cid].design == NodeAfter(c).ledger.designs[cid]
  {
    hide PlainHashes, ValidChain, Recorded, StatesOf, NodeAfter, Saved, C.Stored, DesignKey, ValidCurrencyID;
    hide IsDesignKey, C.Latest;
    var docs, designs := StatesOf(bs), NodeAfter(c).ledger.designs;
    ChainStored(c, bs);
    if !ValidCurrencyID(cid) {
      InvalidNotLoaded(c, bs, full, cid);
    } else {
      LedgerRecorded(c, bs, BK("", cid));
      if cid in designs {
        var s :| NewestSaved(bs, DesignKey(cid), s) && Some(s.value) == DesignValueOf(designs, cid);
        NewestLoaded(c, bs, cid, s);
        C.LatestAt(full, docs, 0, cid, s);
      } else {
        NothingLoaded(bs, full, cid);
      }
    }
  }

  lemma NewestLoaded(c: Chain, bs: seq<BlockData>, cid: CurrencyID, s: SavedState)
    requires Recorded(c, bs) && NewestSaved(bs, DesignKey(cid), s)
    ensures C.Newest(StatesOf(bs), DesignKey(cid), s) && s.height >= 0
  {
    hide Recorded, Saved, StatesOf, DesignKey;
    SavedHeights(c, bs, s);
    StatesSaved(bs, s);
    forall t | t in StatesOf(bs) && t.key == DesignKey(cid) ensures t.height <= s.height { StatesSaved(bs, t); }
  }

  lemma NothingLoaded(bs: seq<BlockData>, full: map<CurrencyID, DesignState>, cid: CurrencyID)
    requires C.Latest(full, StatesOf(bs), 0) && forall s :: Saved(bs, s) ==> s.key != DesignKey(cid)
    ensures cid !in full
  {}

  lemma InvalidNotLoaded(c: Chain, bs: seq<BlockData>, full: map<CurrencyID, DesignState>, cid: CurrencyID)
    requires PlainHashes() && ValidChain(c) && Recorded(c, bs) && C.Latest(full, StatesOf(bs), 0) && !ValidCurrencyID(cid)
    ensures cid !in full && cid !in NodeAfter(c).ledger.designs
  {
    hide PlainHashes, ValidChain, Recorded, StatesOf, NodeAfter, Saved, DesignKey, ValidCurrencyID, IsDesignKey;
    hide C.Latest, Good;
    EveryChainGood(c);
    EverythingProper(NodeAfter(c).ledger);
    forall s | Saved(bs, s) ensures s.key != DesignKey(cid) {
      SavedPlainlyKeyed(c, bs, s);
      DesignKeyRecognised(cid);
      if s.key == DesignKey(cid) { DesignKeyInjective(cid, s.value.design.cid); }
    }
    NothingLoaded(bs, full, cid);
  }

  lemma DesignKeyRecognised(cid: CurrencyID)
    ensures IsDesignKey(DesignKey(cid))
  {
    assert DesignKey(cid)[..|DESIGN_PREFIX|] == DESIGN_PREFIX;
  }

  /**
    After every block of every chain: a pool loaded before the block and refreshed from the height of
    the block, or from any lower height, shows the designs of the new ledger, which are those the
    next block is checked against.
  */
  lemma RefreshedPoolShowsLedger(c: Chain, bs: seq<BlockData>, from: int,
                                 before: map<CurrencyID, DesignState>, refresh: map<CurrencyID, DesignState>,
                                 full: map<CurrencyID, DesignState>)
    requires PlainHashes() && ValidChain(c) && Recorded(c, bs) && from <= |bs| - 1
    requires C.Latest(before, C.BelowHeight(StatesOf(bs), |bs| - 1), 0)
    requires C.Latest(refresh, StatesOf(bs), from) && C.Latest(full, StatesOf(bs), 0)
    ensures before + refresh == full
    ensures DesignsShown(before + refresh) == NodeAfter(c).ledger.designs == NodeAfter(c).cp
  {
    hide PlainHashes, ValidChain, Recorded, StatesOf, C.Latest, NodeAfter, C.Stored, Good;
    ChainStored(c, bs);
    C.RefreshIsReload(StatesOf(bs), |bs| - 1, from, 0, before, refresh, full);
    FullLoadShowsLedger(c, bs, full);
    EveryChainGood(c);
  }
}
