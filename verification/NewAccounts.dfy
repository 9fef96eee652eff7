/** An account created in a block ends the block with exactly the amounts it was created with. */
module NewAccounts {
  import opened Feeers
  import opened AccountKeys
  import opened Facts
  import opened AmountStates
  import opened Ledgers
  import opened Effects
  import opened Charges
  import opened BlockInvariants
  import opened Closing

  // ---------------------------------------------------------------- credits of one operation

  /** Distinct currencies: an item credits its receiver each of its amounts once. */
  lemma {:induction false} CreditedItem(p: Payment, k: BalanceKey)
    requires DistinctCurrencies(p.amounts)
    ensures k.addr != p.to ==> Credited(PaysOf(p), k) == 0
    ensures (forall am :: am in p.amounts ==> am.cid != k.cid) ==> Credited(PaysOf(p), k) == 0
    ensures forall am :: am in p.amounts && k == BK(p.to, am.cid) ==> Credited(PaysOf(p), k) == am.big
    decreases |p.amounts|
  {
    if p.amounts != [] {
      var front, last := p.amounts[..|p.amounts| - 1], p.amounts[|p.amounts| - 1];
      var q := Payment(p.to, front);
      assert p.amounts == front + [last];
      assert PaysOf(p)[..|PaysOf(p)| - 1] == PaysOf(q);
      CreditedItem(q, k);
      assert forall am :: am in front ==> am.cid != last.cid;
    }
  }

  /** Distinct receivers: nobody but the item itself credits its receiver. */
  lemma {:induction false} CreditedExactly(ps: seq<Payment>, p: Payment, am: Amount)
    requires p in ps && am in p.amounts && DistinctReceivers(ps)
    requires forall q :: q in ps ==> DistinctCurrencies(q.amounts)
    ensures Credited(Flatten(ps), BK(p.to, am.cid)) == am.big
  {
    hide Credited, PaysOf, DistinctCurrencies;
    var front, last := ps[..|ps| - 1], ps[|ps| - 1];
    var k := BK(p.to, am.cid);
    assert ps == front + [last];
    CreditedConcat(Flatten(front), PaysOf(last), k);
    CreditedItem(last, k);
    if p in front {
      CreditedExactly(front, p, am);
    } else {
      CreditedNowhere(front, k);
    }
  }

  lemma {:induction false} CreditedNowhere(ps: seq<Payment>, k: BalanceKey)
    requires forall q :: q in ps ==> DistinctCurrencies(q.amounts) && q.to != k.addr
    ensures Credited(Flatten(ps), k) == 0
  {
    hide Credited, PaysOf, DistinctCurrencies;
    if ps == [] {
      NoCredit(k);
    } else {
      var front, last := ps[..|ps| - 1], ps[|ps| - 1];
      assert ps == front + [last];
      CreditedNowhere(front, k);
      CreditedConcat(Flatten(front), PaysOf(last), k);
      CreditedItem(last, k);
    }
  }

  lemma NoCredit(k: BalanceKey)
    ensures Credited([], k) == 0
  {}

  lemma {:induction false} UntouchedAdd(sts: seq<AmountState>, k: BalanceKey)
    requires !Touched(sts, k)
    ensures AddAt(sts, k) == 0
  {
    if sts != [] {
      var front, last := sts[..|sts| - 1], sts[|sts| - 1];
      assert sts == front + [last];
      assert last in sts;
      forall st | st in front ensures st.key != k { assert st in sts; }
      UntouchedAdd(front, k);
    }
  }

  // ---------------------------------------------------------------- over a block

  ghost predicate Funded(b: Block) {
    forall op, p, am :: op in b.done && op.CreateAccounts? && p in op.Payments() && am in p.amounts ==>
      Now(b, BK(p.to, am.cid)) == am.big
  }

  /** Nothing has touched an address that neither existed nor was created by a processed operation. */
  lemma NotYetTouched(b: Block, k: BalanceKey)
    requires BlockInv(b) && k.addr !in b.env.base.accounts
    requires forall op :: op in b.done ==> k.addr !in op.Targets()
    ensures Now(b, k) == 0
  {
    hide GoodDesign, Valid, Op.Targets, Op.IsValid, Conserved, TallyExact, Solvent, AccountWrites, DesignWrites;
    if k in b.bal {
      var op :| op in b.done && k.addr in AccountsBy(b.env)(op);
      ProcessedOperation(b, op);
      AccountWritesMeaning(b.env, op);
    }
  }

  lemma TargetOf(op: Op, p: Payment)
    requires op.CreateAccounts? && p in op.Payments()
    ensures p.to in op.Targets()
  {
    var i :| 0 <= i < |op.accounts| && op.Payments()[i] == p;
  }

  lemma TargetIsNew(env: Env, op: Op, a: Address)
    requires Checks(env, op) && a in op.Targets()
    ensures a !in env.base.accounts
  {}

  lemma OtherLeavesAlone(b: Block, op: Op, k: BalanceKey)
    requires WellFormed(b.env, op) && Placed(b.env, op)
    requires k.addr !in b.env.base.accounts && k.addr !in op.Targets()
    ensures Now(Effect(b, op), k) == Now(b, k)
  {
    hide Op.Targets, BalanceWrites, AccountWrites, DesignWrites;
    PostAllMeaning(b.bal, b.env.base.balances, BalanceWrites(b.env, op), k);
    UntouchedAdd(BalanceWrites(b.env, op), k);
  }

  lemma CreatorFunds(b: Block, op: Op, p: Payment, am: Amount)
    requires BlockInv(b) && op in b.ready && op.CreateAccounts? && p in op.Payments() && am in p.amounts
    ensures Now(Effect(b, op), BK(p.to, am.cid)) == am.big
  {
    hide GoodEnv, Checks, Conserved, TallyExact, Solvent, Sited, WrittenOnce, Op.Targets, DidOf;
    hide AccountWrites, DesignWrites, ValidAmounts, Valid, Balanced, Covered, Placed, PayWrites, Flatten, Owed;
    hide FeesOwed;
    var k, sts := BK(p.to, am.cid), BalanceWrites(b.env, op);
    ReadyOperation(b, op);
    TargetOf(op, p);
    TargetIsNew(b.env, op, p.to);
    forall x | x in b.done ensures p.to !in x.Targets() {
      assert x in Accepted(b) && op in Accepted(b);
    }
    NotYetTouched(b, k);
    PostAllMeaning(b.bal, b.env.base.balances, sts, k);
    PayWritesMeaning(b.env, op.sender, Flatten(op.Payments()), k);
    CreditedOnce(op, p, am);
  }

  lemma CreditedOnce(op: Op, p: Payment, am: Amount)
    requires op.IsValid() && op.CreateAccounts? && p in op.Payments() && am in p.amounts
    ensures Credited(Flatten(op.Payments()), BK(p.to, am.cid)) == am.big && p.to != op.sender
  {
    hide Credited, Flatten, Valid, DistinctCurrencies, DistinctReceivers;
    forall q | q in op.Payments() ensures DistinctCurrencies(q.amounts) {
      assert ValidAmounts(q.amounts);
    }
    CreditedExactly(op.Payments(), p, am);
  }

  lemma EffectFunds(b: Block, op: Op)
    requires BlockInv(b) && Funded(b) && op in b.ready
    ensures Funded(Effect(b, op))
  {
    hide GoodEnv, Checks, Op.IsValid, Op.Targets, Op.Payments, DidOf, BalanceWrites, AccountWrites, DesignWrites;
    hide Conserved, TallyExact, Solvent, Sited, WrittenOnce, Balanced, Covered, Now;
    var c := Effect(b, op);
    forall x, p, am | x in c.done && x.CreateAccounts? && p in x.Payments() && am in p.amounts
      ensures Now(c, BK(p.to, am.cid)) == am.big
    {
      if x == op {
        CreatorFunds(b, op, p, am);
      } else {
        assert x in Accepted(b) && op in Accepted(b);
        TargetOf(x, p);
        TargetIsNew(b.env, x, p.to);
        ReadyOperation(b, op);
        OtherLeavesAlone(b, op, BK(p.to, am.cid));
      }
    }
  }

  lemma {:induction false} RunFunds(env: Env, es: seq<Event>)
    requires GoodEnv(env) && ValidEvents(es)
    ensures Funded(Run(Fresh(env), es))
  {
    hide GoodEnv, BlockInv, Op.IsValid, Op.Payments, Effect;
    if es != [] {
      var front, e := es[..|es| - 1], es[|es| - 1];
      assert e in es && forall x :: x in front ==> x in es;
      var b := Run(Fresh(env), front);
      RunFunds(env, front);
      RunKeepsInv(env, front);
      if e.Process? {
        if e.op in b.ready { EffectFunds(b, e.op); }
      } else {
        SameFunded(b, StepPreProcess(b, e.op));
      }
    }
  }

  lemma SameFunded(b: Block, c: Block)
    requires SameRecords(b, c) && Funded(b)
    ensures Funded(c)
  {}

  /**
    After any interleaving and Close, a created account holds exactly what it was created with, at
    least the minimum the policy of each currency demands.
  */
  lemma CreatedAccountsFunded(env: Env, es: seq<Event>, op: Op, p: Payment, am: Amount)
    requires GoodEnv(env) && ValidEvents(es)
    requires var b := Run(Fresh(env), es); op in b.done
    requires op.CreateAccounts? && p in op.Payments() && am in p.amounts
    ensures var l := Commit(Run(Fresh(env), es));
            && p.to !in env.base.accounts && p.to in l.accounts
            && BK(p.to, am.cid) in l.balances && l.balances[BK(p.to, am.cid)] == am.big
            && am.cid in env.cp && am.big >= env.cp[am.cid].policy.minBalance
  {
    var b := Run(Fresh(env), es);
    RunKeepsInv(env, es);
    RunFunds(env, es);
    CreatedStays(b, op, p, am);
  }

  lemma CreatedStays(b: Block, op: Op, p: Payment, am: Amount)
    requires BlockInv(b) && Funded(b)
    requires op in b.done && op.CreateAccounts? && p in op.Payments() && am in p.amounts
    ensures var l := Commit(b);
            && p.to !in b.env.base.accounts && p.to in l.accounts
            && BK(p.to, am.cid) in l.balances && l.balances[BK(p.to, am.cid)] == am.big
            && am.cid in b.env.cp && am.big >= b.env.cp[am.cid].policy.minBalance
  {
    hide GoodEnv, Conserved, TallyExact, Solvent, Sited, DidOf, Op.Targets, Op.Payments, BalanceWrites, DesignWrites;
    hide AccountWrites, Checks, Op.IsValid, ReceiverOf;
    ProcessedOperation(b, op);
    TargetOf(op, p);
    TargetIsNew(b.env, op, p.to);
    AccountWritesMeaning(b.env, op);
    assert p.to in AccountsBy(b.env)(op);
    MinimumMet(b.env, op, p, am);
    ClosePays(b);
    var k := BK(p.to, am.cid);
    assert k != Payee(b, k.cid) || k.cid !in b.fee;
    assert Now(b, k) == am.big > 0;
  }

  lemma MinimumMet(env: Env, op: Op, p: Payment, am: Amount)
    requires op.IsValid() && Checks(env, op) && op.CreateAccounts? && p in op.Payments() && am in p.amounts
    ensures am.cid in env.cp && am.big >= env.cp[am.cid].policy.minBalance && am.big > 0
  {
    hide Valid, Flatten, SignedBy, CanPay;
    FlattenContains(op.Payments(), p, am);
  }
}
