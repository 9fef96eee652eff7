/**
  When an operation passes its checks: exact conditions, told from the items, the fee policies, the sets
  of signers and the saved ledger.
*/
module Acceptance {
  import opened Feeers
  import opened StateKeys
  import opened AccountKeys
  import opened Facts
  import opened AmountStates
  import opened Ledgers
  import opened Effects
  import opened Charges
  import opened Authority

  /** The payer has a balance in currency c that covers the amounts and the fees. */
  ghost predicate Affordable(env: Env, payer: Address, ps: seq<Payment>, c: CurrencyID) {
    && c in env.cp && BK(payer, c) in env.base.balances
    && env.base.balances[BK(payer, c)] >= TotalOf(ps, c) + FeesFor(env.cp[c].policy.feeer, ps, c)
  }

  ghost predicate AllAffordable(env: Env, payer: Address, ps: seq<Payment>) {
    forall c :: Mentions(ps, c) ==> Affordable(env, payer, ps, c)
  }

  lemma CanPayMeaning(env: Env, payer: Address, ps: seq<Payment>)
    ensures CurrenciesOf(Flatten(ps)) <= env.cp.Keys && CanPay(env, payer, Flatten(ps)) <==> AllAffordable(env, payer, ps)
  {
    hide CurrenciesOf, Flatten, Mentions, Owed, FeesOwed, TotalOf, FeesFor;
    forall c ensures c in CurrenciesOf(Flatten(ps)) <==> Mentions(ps, c) { CurrenciesMentioned(ps, c); }
    forall c ensures c in env.cp ==> Owed(env.cp, Flatten(ps), c) == TotalOf(ps, c) + FeesFor(env.cp[c].policy.feeer, ps, c) {
      OwedMeaning(env.cp, ps, c);
    }
  }

  lemma SignedMeaning(env: Env, a: Address, signers: seq<Publickey>)
    requires DistinctSigners(signers)
    ensures SignedBy(env, a, signers) <==> Empowered(env, a, SignerSet(signers))
  {
    hide PassesThreshold, SignerSet;
    if Exists(env, a) { ThresholdMeaning(signers, env.base.accounts[a].keys); }
  }

  /** A transfer passes exactly if its sender signed, its receivers exist, and the sender can pay. */
  lemma TransferAccepted(env: Env, op: Op)
    requires op.Transfers? && DistinctSigners(op.signers)
    ensures Checks(env, op) <==>
            && Empowered(env, op.sender, SignerSet(op.signers))
            && (forall p :: p in op.items ==> p.to in env.base.accounts)
            && AllAffordable(env, op.sender, op.items)
  {
    CanPayMeaning(env, op.sender, op.items);
    SignedMeaning(env, op.sender, op.signers);
    hide CanPay, AllAffordable, SignedBy, Empowered, Flatten, CurrenciesOf;
  }

  /**
    A creation passes exactly if its sender signed and can pay, every address is new, and no amount is
    below the minimum of its currency; the minimum itself is enough.
  */
  lemma CreationAccepted(env: Env, op: Op)
    requires op.CreateAccounts? && DistinctSigners(op.signers)
    ensures Checks(env, op) <==>
            && Empowered(env, op.sender, SignerSet(op.signers))
            && (forall x :: x in op.accounts ==> x.keys.h !in env.base.accounts)
            && (forall x, am :: x in op.accounts && am in x.amounts && am.cid in env.cp ==>
                  !(am.big < env.cp[am.cid].policy.minBalance))
            && AllAffordable(env, op.sender, op.Payments())
  {
    CanPayMeaning(env, op.sender, op.Payments());
    SignedMeaning(env, op.sender, op.signers);
    CreationPayments(op);
    hide CanPay, AllAffordable, SignedBy, Empowered, Op.Payments;
    assert forall pay :: pay in Flatten(op.Payments()) ==> pay.am.cid in CurrenciesOf(Flatten(op.Payments()));
    hide Flatten, CurrenciesOf;
  }

  /** A creation with every amount at the minimum, and otherwise in order, passes. */
  lemma MinimumSuffices(env: Env, op: Op)
    requires op.CreateAccounts? && DistinctSigners(op.signers) && Empowered(env, op.sender, SignerSet(op.signers))
    requires forall x :: x in op.accounts ==> x.keys.h !in env.base.accounts
    requires forall x, am :: x in op.accounts && am in x.amounts ==>
               am.cid in env.cp && am.big == env.cp[am.cid].policy.minBalance
    requires AllAffordable(env, op.sender, op.Payments())
    ensures Checks(env, op)
  {
    CreationAccepted(env, op);
    hide Checks, Empowered, AllAffordable, Op.Payments, DistinctSigners;
  }

  /** The payments of a creation are the amounts of its items. */
  lemma CreationPayments(op: Op)
    requires op.CreateAccounts?
    ensures forall pay :: pay in Flatten(op.Payments()) ==>
              exists x :: x in op.accounts && pay.to == x.keys.h && pay.am in x.amounts
    ensures forall x, am :: x in op.accounts && am in x.amounts ==> Pay(x.keys.h, am) in Flatten(op.Payments())
  {
    hide Flatten;
    var ps := op.Payments();
    forall pay | pay in Flatten(ps) ensures exists x :: x in op.accounts && pay.to == x.keys.h && pay.am in x.amounts {
      FlattenMeaning(ps, pay);
      var p :| p in ps && p.to == pay.to && pay.am in p.amounts;
      var i :| 0 <= i < |ps| && ps[i] == p;
      assert op.accounts[i] in op.accounts;
    }
    forall x, am | x in op.accounts && am in x.amounts ensures Pay(x.keys.h, am) in Flatten(ps) {
      var i :| 0 <= i < |op.accounts| && op.accounts[i] == x;
      FlattenContains(ps, ps[i], am);
    }
  }

  /**
    A key update passes exactly if the account signed with its old keys, the new keys differ in
    threshold or in a key or weight, and the balance in the currency covers the fee for nothing.
  */
  lemma KeyUpdateAccepted(env: Env, op: Op)
    requires GoodEnv(env) && op.IsValid() && op.KeyUpdater?
    ensures Checks(env, op) <==>
            && Empowered(env, op.target, SignerSet(op.signers))
            && (var before := env.base.accounts[op.target].keys;
                before.threshold != op.keys.threshold || KeySet(before.keys) != KeySet(op.keys.keys))
            && op.cid in env.cp && BK(op.target, op.cid) in env.base.balances
            && env.base.balances[BK(op.target, op.cid)] >= env.cp[op.cid].policy.feeer.Fee(0)
  {
    SignedMeaning(env, op.target, op.signers);
    if Exists(env, op.target) { KeysEqualMeaning(env.base.accounts[op.target].keys, op.keys); }
    hide GoodDesign, SignedBy, Empowered, KeysEqual, Feeer.Fee, DistinctSigners;
  }

  /** At least the threshold of different suffrage nodes signed. */
  ghost predicate Quorate(env: Env, signers: seq<Publickey>) {
    env.pubs != [] && |NodesAmong(env, SignerSet(signers))| >= env.quorum
  }

  /** The account that is to receive the fees, if there is one, exists. */
  ghost predicate PayeeExists(env: Env, policy: Policy) {
    !policy.feeer.NilFeeer? ==> policy.feeer.payee in env.base.accounts
  }

  /**
    A registration passes exactly if the suffrage signed, the currency is not registered, and genesis
    account and payee exist.  That the saved ledger knows neither a design nor a balance of the
    currency is tested too, but follows.
  */
  lemma RegistrationAccepted(env: Env, op: Op)
    requires GoodEnv(env) && op.IsValid() && op.CurrencyRegister?
    ensures Checks(env, op) <==>
            && Quorate(env, op.signers)
            && op.design.cid !in env.base.designs
            && op.design.genesisAccount.value in env.base.accounts
            && PayeeExists(env, op.design.policy)
  {
    CountSuffrageMeaning(env, op.signers);
    hide GoodDesign, CountSuffrage, NodesAmong, SignerSet, Valid, DistinctSigners, Design.IsValid;
  }

  /** A policy update passes exactly if the suffrage signed, and currency and payee exist. */
  lemma PolicyUpdateAccepted(env: Env, op: Op)
    requires GoodEnv(env) && op.IsValid() && op.CurrencyPolicyUpdater?
    ensures Checks(env, op) <==>
            Quorate(env, op.signers) && op.cid in env.base.designs && PayeeExists(env, op.policy)
  {
    CountSuffrageMeaning(env, op.signers);
    hide GoodDesign, CountSuffrage, NodesAmong, SignerSet, Valid, DistinctSigners, Policy.IsValid;
  }
}
