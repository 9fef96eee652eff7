/** Closing a block pays every collected fee out and leaves a good ledger. */
module Closing {
  import opened Prelude
  import opened Feeers
  import opened StateKeys
  import opened AccountKeys
  import opened Facts
  import opened AmountStates
  import opened Ledgers
  import opened Effects
  import opened BlockInvariants

  /**
    Close never fails: a currency with a positive tally has a payee, and its account exists.  In
    particular the branch that leaves a nil state for a policy without payee is never taken.
  */
  lemma ClosePays(b: Block)
    requires BlockInv(b)
    ensures Payable(b)
  {
    hide Checks, Op.IsValid, Bookkeeping, Conserved, Solvent, Sited, WrittenOnce, Supply, Design.IsValid, Valid;
    forall c | c in b.fee ensures FeeReceiver(b, c).Some? && Exists(b.env, FeeReceiver(b, c).value) {
      assert GoodDesign(b.env.base, c);
    }
  }

  ghost function SavedBalances(b: Block): map<BalanceKey, int> {
    b.env.base.balances + Values(Paid(b))
  }

  /** The payout touches one balance per currency. */
  lemma SavedOther(b: Block, j: BalanceKey)
    requires j != Payee(b, j.cid)
    ensures j in SavedBalances(b) <==> j in BalancesNow(b)
    ensures j in BalancesNow(b) ==> SavedBalances(b)[j] == BalancesNow(b)[j]
  {
    hide FeeReceiver;
  }

  lemma SavedPayee(b: Block, c: CurrencyID)
    ensures AmountIn(SavedBalances(b), c)(Payee(b, c)) == AmountIn(BalancesNow(b), c)(Payee(b, c)) + TallyOf(b.fee, c)
  {
    hide FeeReceiver;
    var k := Payee(b, c);
    if c in b.fee {
      assert k in Paid(b) && Paid(b)[k].value == Now(b, k) + b.fee[c];
    } else {
      assert k in Paid(b) <==> k in b.bal;
    }
  }

  /** After Close the balances alone carry what balances and tally carried before. */
  lemma CloseConserves(b: Block, c: CurrencyID)
    ensures Supply(SavedBalances(b), c) == Supply(BalancesNow(b), c) + TallyOf(b.fee, c)
  {
    hide Supply, SavedBalances, BalancesNow, AmountIn, FeeReceiver;
    var k := Payee(b, c);
    forall j: BalanceKey | j.cid == c && j != k
      ensures j in BalancesNow(b) <==> j in SavedBalances(b)
      ensures j in BalancesNow(b) ==> BalancesNow(b)[j] == SavedBalances(b)[j]
    {
      SavedOther(b, j);
    }
    SavedPayee(b, c);
    SupplyChange(BalancesNow(b), SavedBalances(b), c, k);
  }

  lemma CloseKeepsBalances(b: Block, k: BalanceKey)
    requires BlockInv(b) && Payable(b) && k in SavedBalances(b)
    ensures SavedBalances(b)[k] >= Now(b, k) >= 0
    ensures k.addr in Commit(b).accounts && k.cid in Commit(b).designs
  {
    hide Checks, Op.IsValid, Bookkeeping, Conserved, WrittenOnce, Supply, GoodDesign, Valid;
    if k.cid in b.fee { assert b.fee[k.cid] > 0; }
  }

  lemma ProcessedOperation(b: Block, op: Op)
    requires Bookkeeping(b) && op in b.done
    ensures op.IsValid() && Checks(b.env, op)
  {}

  /** At most one registration of a currency, and only of an unregistered one. */
  lemma MintedOnce(b: Block, op: Op)
    requires Bookkeeping(b) && op in b.done && op.CurrencyRegister?
    ensures Sum(b.done, MintedBy(op.design.cid)) == op.design.supply
  {
    hide Op.IsValid, Checks, Op.Targets;
    var f := MintedBy(op.design.cid);
    forall x | x in b.done - {op} ensures f(x) == 0 {
      assert x in Accepted(b) && op in Accepted(b);
      assert DidOf(x) != DidOf(op);
    }
    SumSupport(b.done, {op}, f);
    SumInsert({}, f, op);
    assert {} + {op} == {op};
  }

  lemma NothingMinted(b: Block, c: CurrencyID)
    requires Bookkeeping(b) && c in b.env.base.designs
    ensures Sum(b.done, MintedBy(c)) == 0
  {
    hide Op.IsValid, Op.Targets, DidOf;
    forall x | x in b.done ensures MintedBy(c)(x) == 0 {
      ProcessedOperation(b, x);
    }
    SumZero(b.done, MintedBy(c));
  }

  lemma NoSupplyBefore(l: Ledger, c: CurrencyID)
    requires Good(l) && c !in l.designs
    ensures Supply(l.balances, c) == 0
  {
    SupplyOfNothing(l.balances, c);
  }

  /** The design a processed operation wrote. */
  lemma DesignWriter(b: Block, c: CurrencyID) returns (op: Op)
    requires Bookkeeping(b) && WrittenOnce(b) && c in b.des
    ensures op in b.done && c in DesignWrites(b.env, op) && b.des[c] == DesignWrites(b.env, op)[c]
    ensures op.IsValid() && Checks(b.env, op)
  {
    hide Op.IsValid, Checks, DidOf, Op.Targets, DesignWrites;
    op :| op in b.done && c in DesignsBy(b.env)(op);
    ProcessedOperation(b, op);
  }

  /** What was minted in the block is what the new designs add to the old ones. */
  lemma MintedMatchesDesign(b: Block, c: CurrencyID)
    requires GoodEnv(b.env) && Bookkeeping(b) && WrittenOnce(b) && c in b.env.base.designs + b.des
    ensures Supply(b.env.base.balances, c) + Sum(b.done, MintedBy(c)) == (b.env.base.designs + b.des)[c].supply
    ensures c in b.env.base.designs ==> (b.env.base.designs + b.des)[c].supply == b.env.base.designs[c].supply
  {
    hide Op.IsValid, Supply, Bookkeeping, WrittenOnce, Design.IsValid, Valid, MintedBy, SignedBySuffrage;
    if c in b.env.base.designs {
      NothingMinted(b, c);
      assert GoodDesign(b.env.base, c);
    }
    if c in b.des {
      var op := DesignWriter(b, c);
      if op.CurrencyRegister? {
        MintedOnce(b, op);
        NoSupplyBefore(b.env.base, c);
      }
    }
  }

  /** Each design of the new ledger states exactly the supply the balances add up to. */
  lemma SavedSupply(b: Block, c: CurrencyID)
    requires BlockInv(b) && c in Commit(b).designs
    ensures Supply(SavedBalances(b), c) == Commit(b).designs[c].supply
    ensures c in b.env.base.designs ==> Commit(b).designs[c].supply == b.env.base.designs[c].supply
  {
    hide Supply, Bookkeeping, WrittenOnce, SavedBalances, GoodEnv, Solvent, Sited, TallyExact, Paid, BalancesNow;
    CloseConserves(b, c);
    MintedMatchesDesign(b, c);
  }

  lemma DesignWriteValid(env: Env, op: Op, c: CurrencyID)
    requires GoodEnv(env) && op.IsValid() && Checks(env, op) && c in DesignWrites(env, op)
    ensures var de := DesignWrites(env, op)[c];
            de.IsValid() && de.cid == c && ReceiverExists(env, de.policy)
  {
    hide Valid, Supply, ValidCurrencyID, SignedBySuffrage;
    if op.CurrencyPolicyUpdater? { assert GoodDesign(env.base, c); }
  }

  lemma SavedDesign(b: Block, c: CurrencyID)
    requires BlockInv(b) && c in Commit(b).designs
    ensures GoodDesign(Commit(b), c)
  {
    hide Supply, Bookkeeping, WrittenOnce, Valid, Solvent, Sited, TallyExact, Conserved, Paid, Checks, Op.IsValid;
    hide Design.IsValid, DesignWrites;
    SavedSupply(b, c);
    if c in b.env.base.designs { assert GoodDesign(b.env.base, c); }
    if c in b.des {
      var op := DesignWriter(b, c);
      DesignWriteValid(b.env, op, c);
    }
  }

  lemma AccountWriteValid(env: Env, op: Op, a: Address)
    requires GoodEnv(env) && op.IsValid() && Checks(env, op) && a in AccountWrites(env, op)
    ensures AccountWrites(env, op)[a].address == a && Valid(AccountWrites(env, op)[a].keys)
  {
    hide Valid, GoodDesign, SignedBy, CanPay, ValidPayments, KeysEqual, Flatten, Design.IsValid, Policy.IsValid;
    if op.CreateAccounts? { CreatedMeaning(op.accounts); }
  }

  lemma SavedAccount(b: Block, a: Address)
    requires GoodEnv(b.env) && Bookkeeping(b) && WrittenOnce(b) && a in Commit(b).accounts
    ensures Commit(b).accounts[a].address == a && Valid(Commit(b).accounts[a].keys)
  {
    hide DidOf, Op.Targets, Op.IsValid, Checks, Valid, GoodDesign, Paid, AccountWrites, Bookkeeping;
    if a in b.acc {
      var op :| op in b.done && a in AccountsBy(b.env)(op);
      ProcessedOperation(b, op);
      AccountWriteValid(b.env, op, a);
    }
  }

  /** A closed block leaves a good ledger. */
  lemma CommitGood(b: Block)
    requires BlockInv(b)
    ensures Payable(b) && Good(Commit(b))
  {
    hide GoodEnv, GoodDesign, Valid, Paid, Payable, Now, Values;
    hide Bookkeeping, Conserved, TallyExact, Solvent, Sited, WrittenOnce;
    ClosePays(b);
    var l := Commit(b);
    forall c | c in l.designs ensures GoodDesign(l, c) { SavedDesign(b, c); }
    forall k | k in l.balances ensures k.cid in l.designs && k.addr in l.accounts && l.balances[k] >= 0 {
      CloseKeepsBalances(b, k);
    }
    forall a | a in l.accounts ensures l.accounts[a].address == a && Valid(l.accounts[a].keys) {
      SavedAccount(b, a);
    }
  }
}
